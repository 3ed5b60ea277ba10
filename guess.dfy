/** The number-guess game: a hidden target from 1 to 10, seven attempts,
    each accepted guess first shown as being analysed and then resolved into
    a win, a loss or a higher/lower hint. */
module Guess {
  import opened Constants

  /** What the input box holds when the form is sent: nothing, text that is
      not a number, or the number the text starts with. */
  datatype GuessInput = Blank | NotANumber | Number(n: int)

  datatype GuessStatus = Playing | Won | Lost | Scanning

  datatype GuessMessage =
    | Ready              // the game is ready for a number from 1 to 10
    | OutOfRange         // the input is not a number from 1 to 10
    | AlreadyScanned     // the number was guessed before
    | Analyzing          // the guess is being resolved
    | Breached           // the guess hit the target
    | Severed(target: int) // no attempts are left; the target is revealed
    | TooHigh
    | TooLow

  /** How a sent form is handled before any attempt is spent. */
  datatype Verdict = Ignored | Rejected | Repeated | Accepted(n: int)

  /** A form sent while the game is `status` with `guesses` already made:
      ignored outside play or with an empty box, rejected unless it holds a
      number from 1 to 10, repeated when that number was guessed before, and
      accepted otherwise. */
  function Judge(status: GuessStatus, input: GuessInput, guesses: seq<int>): (v: Verdict)
    ensures v == Ignored <==> status != Playing || input == Blank
    ensures v.Accepted? <==>
      status == Playing && input.Number? && RangeMin <= input.n <= RangeMax && input.n !in guesses
    ensures v.Accepted? ==> v.n == input.n
    ensures v == Repeated ==> input.Number? && input.n in guesses
    ensures v == Rejected ==> input == NotANumber || input.n < RangeMin || input.n > RangeMax
  {
    if status != Playing || input == Blank then Ignored
    else if input == NotANumber || input.n < RangeMin || input.n > RangeMax then Rejected
    else if input.n in guesses then Repeated
    else Accepted(input.n)
  }

  /** The hint for a wrong guess. */
  function Hint(num: int, target: int): (m: GuessMessage)
    ensures m == TooHigh || m == TooLow
    ensures m == TooHigh <==> num > target
  {
    if num > target then TooHigh else TooLow
  }

  predicate Distinct(s: seq<int>)
  {
    forall i, j :: 0 <= i < j < |s| ==> s[i] != s[j]
  }

  class GuessGame {
    var target: int
    var entry: GuessInput
    var guesses: seq<int>
    var message: GuessMessage
    var status: GuessStatus
    var attempts: int
    var pending: int

    /** Guesses are distinct numbers from 1 to 10, newest first; every
        guess that missed cost one of the seven attempts and a hit cost none;
        the game is lost exactly when no attempt is left; a won game's newest
        guess is the target and an unfinished game has not guessed it; a
        guess being resolved is a new number from 1 to 10. */
    ghost predicate Valid()
      reads this
    {
      && RangeMin <= target <= RangeMax
      && Distinct(guesses)
      && (forall i :: 0 <= i < |guesses| ==> RangeMin <= guesses[i] <= RangeMax)
      && 0 <= attempts <= MaxAttempts
      && attempts + |guesses| == MaxAttempts + (if status == Won then 1 else 0)
      && (status == Lost <==> attempts == 0)
      && (status == Won ==> |guesses| >= 1 && guesses[0] == target)
      && (status != Won ==> target !in guesses)
      && (status == Scanning ==> RangeMin <= pending <= RangeMax && pending !in guesses)
    }

    /** The game as it stands once shown: reset with the random `newTarget`. */
    constructor (newTarget: int)
      requires RangeMin <= newTarget <= RangeMax
      ensures Valid()
      ensures target == newTarget && guesses == [] && attempts == MaxAttempts
      ensures status == Playing && message == Ready && entry == Blank
    {
      target := newTarget;
      guesses := [];
      attempts := MaxAttempts;
      message := Ready;
      status := Playing;
      entry := Blank;
      pending := 0;
    }

    /** A new round: `newTarget` stands for the random draw from 1 to 10. */
    method Reset(newTarget: int)
      requires RangeMin <= newTarget <= RangeMax
      modifies this
      ensures Valid()
      ensures target == newTarget && guesses == [] && attempts == MaxAttempts
      ensures status == Playing && message == Ready && entry == Blank
    {
      target := newTarget;
      guesses := [];
      attempts := MaxAttempts;
      message := Ready;
      status := Playing;
      entry := Blank;
    }

    /** Typing into the box. */
    method Type(input: GuessInput)
      modifies this
      ensures entry == input
      ensures target == old(target) && guesses == old(guesses) && message == old(message)
      ensures status == old(status) && attempts == old(attempts) && pending == old(pending)
    {
      entry := input;
    }

    /** Sending the form. Outside play or with an empty box nothing happens;
        an input that is not a number from 1 to 10, or one already guessed,
        only changes the message; a new guess starts its analysis and is
        resolved later by ResolveGuess. No attempt is spent here. */
    method SubmitGuess()
      requires Valid()
      modifies this
      ensures Valid()
      ensures target == old(target) && guesses == old(guesses) && attempts == old(attempts) && entry == old(entry)
      ensures match Judge(old(status), old(entry), old(guesses))
        case Ignored => message == old(message) && status == old(status) && pending == old(pending)
        case Rejected => message == OutOfRange && status == old(status) && pending == old(pending)
        case Repeated => message == AlreadyScanned && status == old(status) && pending == old(pending)
        case Accepted(n) => message == Analyzing && status == Scanning && pending == n
    {
      if status != Playing || entry == Blank {
        return;
      }
      if entry == NotANumber || entry.n < RangeMin || entry.n > RangeMax {
        message := OutOfRange;
        return;
      }
      var num := entry.n;
      if num in guesses {
        message := AlreadyScanned;
        return;
      }
      status := Scanning;
      message := Analyzing;
      pending := num;
    }

    /** The delayed end of an accepted guess: the guess is put in front of
        the list and the box cleared; a hit wins without spending an attempt
        and `won` reports it to the host; a miss spends one attempt and either
        loses the game, revealing the target, or gives a higher/lower hint. */
    method ResolveGuess() returns (won: bool)
      requires Valid() && status == Scanning
      modifies this
      ensures Valid()
      ensures guesses == [old(pending)] + old(guesses) && entry == Blank && target == old(target)
      ensures won <==> old(pending) == target
      ensures won ==> status == Won && message == Breached && attempts == old(attempts)
      ensures !won ==> attempts == old(attempts) - 1
      ensures !won && attempts == 0 ==> status == Lost && message == Severed(target)
      ensures !won && attempts > 0 ==> status == Playing && message == Hint(old(pending), target)
    {
      var num := pending;
      var newGuesses := [num] + guesses;
      guesses := newGuesses;
      entry := Blank;
      if num == target {
        message := Breached;
        status := Won;
        won := true;
      } else {
        won := false;
        var remaining := attempts - 1;
        attempts := remaining;
        if remaining == 0 {
          message := Severed(target);
          status := Lost;
        } else {
          status := Playing;
          message := if num > target then TooHigh else TooLow;
        }
      }
    }
  }
}
