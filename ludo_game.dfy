/** The Ludo match as a mutable game state: seats, the current seat, the die,
    the rolling flag, the status and the status message, changed by dice
    rolls, token clicks and turn changes. */
module LudoGame {
  import opened Types
  import opened Constants
  import opened LudoRules

  /** The seat built from one setup slot: its colour's starting tokens, human
      exactly for a HUMAN slot, active exactly for a slot that is not CLOSED. */
  function SeatFromConfig(config: SlotConfig): Player
  {
    Player(config.color, InitialTokens(config.color), config.slotType == Human, false,
           config.slotType != Closed, config.avatar)
  }

  /** The seats of a new match, one per slot and in the slots' order. */
  function InitialPlayers(configs: seq<SlotConfig>): (seats: seq<Player>)
    ensures |seats| == |configs|
    ensures forall i :: 0 <= i < |seats| ==>
      && seats[i].color == configs[i].color && !seats[i].hasFinished
      && (seats[i].isHuman <==> configs[i].slotType == Human)
      && (seats[i].isActive <==> configs[i].slotType != Closed)
  {
    seq(|configs|, i requires 0 <= i < |configs| => SeatFromConfig(configs[i]))
  }

  /** Seats built from four slots of different colours are well formed, start
      unfinished with every token in base, and keep each slot's choices. */
  lemma InitialPlayersWellFormed(configs: seq<SlotConfig>)
    requires |configs| == 4
    requires forall i, j :: 0 <= i < j < |configs| ==> configs[i].color != configs[j].color
    ensures SeatsWellFormed(InitialPlayers(configs))
    ensures forall i :: 0 <= i < 4 ==>
      && InitialPlayers(configs)[i].color == configs[i].color
      && !InitialPlayers(configs)[i].hasFinished
      && (InitialPlayers(configs)[i].isActive <==> configs[i].slotType != Closed)
      && (InitialPlayers(configs)[i].isHuman <==> configs[i].slotType == Human)
      && forall j :: 0 <= j < 4 ==>
           InitialPlayers(configs)[i].tokens[j].position == BasePosition && !InitialPlayers(configs)[i].tokens[j].isAtHome
  {
    var ps := InitialPlayers(configs);
    forall i | 0 <= i < 4 ensures SeatWellFormed(ps[i]) {
      assert !ps[i].tokens[0].isAtHome;
    }
  }

  /** The index of the first active seat, or -1 when there is none. */
  function FirstActive(players: seq<Player>): (r: int)
    ensures -1 <= r < |players|
    ensures r == -1 <==> forall i :: 0 <= i < |players| ==> !players[i].isActive
    ensures r >= 0 ==> players[r].isActive && forall i :: 0 <= i < r ==> !players[i].isActive
  {
    if players == [] then -1
    else if players[0].isActive then 0
    else
      var k := FirstActive(players[1..]);
      if k == -1 then -1 else k + 1
  }

  class Game {
    var players: seq<Player>
    var currentPlayerIndex: int
    var diceValue: Option<int>
    var isRolling: bool
    var message: Message
    var gameStatus: Status

    ghost predicate Valid()
      reads this
    {
      && SeatsWellFormed(players)
      && 0 <= currentPlayerIndex < 4
      && (diceValue.Some? ==> 1 <= diceValue.value <= 6)
      && (gameStatus == WaitingForMove ==> diceValue.Some?)
    }

    /** Starts a match from the four setup slots; the setup screen hands over
        four slots of different colours with at least one of them open. */
    constructor (configs: seq<SlotConfig>)
      requires |configs| == 4
      requires forall i, j :: 0 <= i < j < |configs| ==> configs[i].color != configs[j].color
      requires exists i :: 0 <= i < |configs| && configs[i].slotType != Closed
      ensures Valid()
      ensures players == InitialPlayers(configs)
      ensures currentPlayerIndex == FirstActive(players)
      ensures players[currentPlayerIndex].isActive
      ensures forall i :: 0 <= i < currentPlayerIndex ==> configs[i].slotType == Closed
      ensures diceValue == None && !isRolling && gameStatus == Idle
      ensures message == Turn(players[currentPlayerIndex].color)
    {
      InitialPlayersWellFormed(configs);
      var ps := InitialPlayers(configs);
      var firstIdx := FirstActive(ps);
      players := ps;
      currentPlayerIndex := firstIdx;
      diceValue := None;
      isRolling := false;
      message := Turn(ps[firstIdx].color);
      gameStatus := Idle;
    }

    /** The dice button: a roll starts only when the status is IDLE and no
        roll is in flight; otherwise nothing changes. */
    method RollDice()
      requires Valid()
      modifies this
      ensures Valid()
      ensures old(gameStatus) != Idle || old(isRolling) ==> unchanged(this)
      ensures old(gameStatus) == Idle && !old(isRolling) ==>
        && isRolling && gameStatus == Rolling
        && players == old(players) && currentPlayerIndex == old(currentPlayerIndex)
        && diceValue == old(diceValue) && message == old(message)
    {
      if gameStatus != Idle || isRolling {
        return;
      }
      isRolling := true;
      gameStatus := Rolling;
    }

    /** The delayed end of a roll with die value `roll`. The die is shown and
        the seat must choose a token; when none of its tokens may move the
        message says so and `noMoves` tells the host to schedule NextTurn. */
    method ResolveRoll(roll: int) returns (noMoves: bool)
      requires Valid() && 1 <= roll <= 6
      modifies this
      ensures Valid()
      ensures noMoves <==> forall t :: t in old(players)[old(currentPlayerIndex)].tokens ==> !CanMoveToken(t, roll)
      ensures players == old(players) && currentPlayerIndex == old(currentPlayerIndex)
      ensures diceValue == Some(roll) && !isRolling && gameStatus == WaitingForMove
      ensures message == if noMoves then NoMoves else ChooseToken
    {
      var moves := MovableTokens(players[currentPlayerIndex].tokens, roll);
      noMoves := |moves| == 0;
      if noMoves {
        diceValue, isRolling, gameStatus, message := Some(roll), false, WaitingForMove, NoMoves;
      } else {
        assert moves[0] in moves;
        diceValue, isRolling, gameStatus, message := Some(roll), false, WaitingForMove, ChooseToken;
      }
    }

    /** Passes the turn on: step round the four seats, skipping closed and
        finished seats for at most 8 further steps, then clear the die. */
    method NextTurn()
      requires Valid()
      modifies this
      ensures Valid()
      ensures players == old(players) && isRolling == old(isRolling)
      ensures currentPlayerIndex == NextSeat(old(players), old(currentPlayerIndex))
      ensures diceValue == None && gameStatus == Idle
      ensures message == Turn(players[currentPlayerIndex].color)
    {
      var nextIdx := (currentPlayerIndex + 1) % 4;
      var iterations := 0;
      while (!players[nextIdx].isActive || players[nextIdx].hasFinished) && iterations < 8
        invariant 0 <= nextIdx < 4 && 0 <= iterations <= 8
        invariant NextSeatFrom(players, nextIdx, iterations) == NextSeat(players, currentPlayerIndex)
        decreases 8 - iterations
      {
        nextIdx := (nextIdx + 1) % 4;
        iterations := iterations + 1;
      }
      currentPlayerIndex := nextIdx;
      diceValue := None;
      gameStatus := Idle;
      message := Turn(players[nextIdx].color);
    }

    /** A click on a token of the board. Ignored unless the click is accepted
        (move phase, die set, current seat's colour, token may move). Otherwise
        the token moves; the seat's win sets FINISHED; and, unless the die
        shows 6, the queued NextTurn then runs, which hands the turn on and
        sets the status back to IDLE even after a win. */
    method HandleTokenClick(token: Token)
      requires Valid() && InPlay(players, token)
      modifies this
      ensures Valid()
      ensures !ClickAccepted(old(players), old(currentPlayerIndex), old(diceValue), old(gameStatus), token) ==>
        unchanged(this)
      ensures ClickAccepted(old(players), old(currentPlayerIndex), old(diceValue), old(gameStatus), token) ==>
        var roll := old(diceValue).value;
        var moved := ApplyMove(old(players), token, Destination(token, roll));
        && players == moved
        && isRolling == old(isRolling)
        && (roll == 6 ==>
              && currentPlayerIndex == old(currentPlayerIndex)
              && diceValue == old(diceValue)
              && gameStatus == (if moved[old(currentPlayerIndex)].hasFinished then Finished else Idle)
              && message == (if moved[old(currentPlayerIndex)].hasFinished then Wins(token.color) else old(message)))
        && (roll != 6 ==>
              && currentPlayerIndex == NextSeat(moved, old(currentPlayerIndex))
              && diceValue == None && gameStatus == Idle
              && message == Turn(moved[currentPlayerIndex].color))
    {
      if gameStatus != WaitingForMove || diceValue.None? || diceValue.value == 0 {
        return;
      }
      if token.color != players[currentPlayerIndex].color {
        return;
      }
      var roll := diceValue.value;
      if !CanMoveToken(token, roll) {
        return;
      }
      var newPos := Destination(token, roll);
      MovePreservesSeats(players, token, roll);
      var updatedPlayers := ApplyMove(players, token, newPos);
      if updatedPlayers[currentPlayerIndex].hasFinished {
        players, gameStatus, message := updatedPlayers, Finished, Wins(token.color);
      } else {
        players, gameStatus := updatedPlayers, Idle;
      }
      if roll != 6 {
        NextTurn();
      }
    }

    /** A computer seat's move once its die is shown: it clicks the `pick`-th of
        its movable tokens (`pick` stands for the random draw) with the full
        effect of HandleTokenClick, or passes the turn on when none may move.
        Nothing happens for a human seat or outside the move phase. */
    method AiMove(pick: int)
      requires Valid() && 0 <= pick
      requires gameStatus == WaitingForMove ==>
        var moves := MovableTokens(players[currentPlayerIndex].tokens, diceValue.value);
        moves == [] || pick < |moves|
      modifies this
      ensures Valid()
      ensures old(players)[old(currentPlayerIndex)].isHuman || old(gameStatus) != WaitingForMove ==> unchanged(this)
      ensures !old(players)[old(currentPlayerIndex)].isHuman && old(gameStatus) == WaitingForMove ==>
        var moves := MovableTokens(old(players)[old(currentPlayerIndex)].tokens, old(diceValue).value);
        && (moves == [] ==>
              && players == old(players) && isRolling == old(isRolling)
              && currentPlayerIndex == NextSeat(old(players), old(currentPlayerIndex))
              && diceValue == None && gameStatus == Idle
              && message == Turn(players[currentPlayerIndex].color))
        && (moves != [] ==>
              var roll := old(diceValue).value;
              var moved := ApplyMove(old(players), moves[pick], Destination(moves[pick], roll));
              && ClickAccepted(old(players), old(currentPlayerIndex), old(diceValue), old(gameStatus), moves[pick])
              && players == moved
              && isRolling == old(isRolling)
              && (roll == 6 ==>
                    && currentPlayerIndex == old(currentPlayerIndex)
                    && diceValue == old(diceValue)
                    && gameStatus == (if moved[old(currentPlayerIndex)].hasFinished then Finished else Idle)
                    && message == (if moved[old(currentPlayerIndex)].hasFinished then Wins(moves[pick].color) else old(message)))
              && (roll != 6 ==>
                    && currentPlayerIndex == NextSeat(moved, old(currentPlayerIndex))
                    && diceValue == None && gameStatus == Idle
                    && message == Turn(moved[currentPlayerIndex].color)))
    {
      if players[currentPlayerIndex].isHuman || gameStatus != WaitingForMove {
        return;
      }
      var moves := MovableTokens(players[currentPlayerIndex].tokens, diceValue.value);
      if |moves| > 0 {
        var token := moves[pick];
        assert token in moves;
        var j :| 0 <= j < |players[currentPlayerIndex].tokens| && players[currentPlayerIndex].tokens[j] == token;
        assert InPlay(players, token);
        HandleTokenClick(token);
      } else {
        NextTurn();
      }
    }
  }
}
