/** The pure rules of the Ludo game: which token may move, where a move
    takes it, how a move rewrites the seats, and which seat plays next. */
module LudoRules {
  import opened Types
  import opened Constants

  const BasePosition: int := -1
  const HomePosition: int := 57

  /** Status of a match. */
  datatype Status = Idle | Rolling | WaitingForMove | Finished

  /** The status line shown under the dice. */
  datatype Message = Turn(color: Color) | NoMoves | ChooseToken | Wins(winner: Color)

  /** A token's position is on the board and its home flag agrees with it. */
  predicate WellPlaced(t: Token)
  {
    BasePosition <= t.position <= HomePosition && (t.isAtHome <==> t.position == HomePosition)
  }

  /** A seat holds the tokens 1 to 4 of its own colour, well placed, and is
      finished exactly when all four are home. */
  predicate SeatWellFormed(p: Player)
  {
    && |p.tokens| == 4
    && (forall j :: 0 <= j < |p.tokens| ==>
          p.tokens[j].id == j + 1 && p.tokens[j].color == p.color && WellPlaced(p.tokens[j]))
    && (p.hasFinished <==> AllAtHome(p.tokens))
  }

  /** Four seats of four different colours, each well formed. */
  predicate SeatsWellFormed(players: seq<Player>)
  {
    && |players| == 4
    && (forall i, j :: 0 <= i < j < |players| ==> players[i].color != players[j].color)
    && (forall i :: 0 <= i < |players| ==> SeatWellFormed(players[i]))
  }

  /** The token is one of the tokens the seats hold. */
  predicate InPlay(players: seq<Player>, token: Token)
  {
    exists i, j :: 0 <= i < |players| && 0 <= j < |players[i].tokens| && players[i].tokens[j] == token
  }

  predicate AllAtHome(ts: seq<Token>)
  {
    forall j :: 0 <= j < |ts| ==> ts[j].isAtHome
  }

  /** Whether `t` may move with dice value `dice`. */
  predicate CanMoveToken(t: Token, dice: int)
  {
    if t.isAtHome then false
    else if t.position == BasePosition then dice == 6
    else t.position + dice <= HomePosition
  }

  /** Where a move with `roll` takes the token: out of base to 0, otherwise `roll` cells on. */
  function Destination(t: Token, roll: int): (pos: int)
    ensures WellPlaced(t) && 1 <= roll <= 6 && CanMoveToken(t, roll) ==>
      t.position < pos <= HomePosition && (t.position == BasePosition <==> pos == 0)
  {
    if t.position == BasePosition then 0 else t.position + roll
  }

  /** For a well-placed token and a die value, the token may move exactly when it is
      not home, leaves base only on a 6, and does not overshoot home. */
  lemma MovableIffLegal(t: Token, dice: int)
    requires WellPlaced(t) && 1 <= dice <= 6
    ensures CanMoveToken(t, dice) <==>
      t.position < HomePosition && (t.position == BasePosition ==> dice == 6) && Destination(t, dice) <= HomePosition
  {
  }

  /** A die of 1 to 5 never lets a token out of base; a 6 lets every based token out. */
  lemma BaseLeavesOnlyOnSix(ts: seq<Token>, dice: int)
    requires forall j :: 0 <= j < |ts| ==> WellPlaced(ts[j])
    requires 1 <= dice <= 6
    ensures forall j :: 0 <= j < |ts| && ts[j].position == BasePosition ==> (CanMoveToken(ts[j], dice) <==> dice == 6)
    ensures forall j :: 0 <= j < |ts| && ts[j].isAtHome ==> !CanMoveToken(ts[j], dice)
  {
  }

  /** The tokens of `ts` that may move with `dice`, in order. */
  function MovableTokens(ts: seq<Token>, dice: int): (r: seq<Token>)
    ensures |r| <= |ts|
    ensures forall t :: t in r <==> t in ts && CanMoveToken(t, dice)
  {
    if ts == [] then []
    else if CanMoveToken(ts[0], dice) then [ts[0]] + MovableTokens(ts[1..], dice)
    else MovableTokens(ts[1..], dice)
  }

  /** The ids of the tokens of `ts` that may move with `dice`; none without a die value. */
  function MovableTokenIds(ts: seq<Token>, dice: Option<int>): (ids: seq<int>)
    ensures dice.None? || dice.value == 0 ==> ids == []
    ensures dice.Some? && dice.value != 0 ==>
      forall id :: id in ids <==> exists t :: t in ts && CanMoveToken(t, dice.value) && t.id == id
  {
    if dice.None? || dice.value == 0 then [] else Ids(MovableTokens(ts, dice.value))
  }

  /** The ids of `ts`, in order. */
  function Ids(ts: seq<Token>): (ids: seq<int>)
    ensures |ids| == |ts|
    ensures forall id :: id in ids <==> exists t :: t in ts && t.id == id
  {
    if ts == [] then [] else [ts[0].id] + Ids(ts[1..])
  }

  /** The token after a move to `newPos`. */
  function MovedToken(t: Token, newPos: int): Token
  {
    t.(position := newPos, isAtHome := newPos == HomePosition)
  }

  /** Rewrites the seats after token `token` moved to `newPos`: in the seat of the
      token's colour, the token with its id moves and the seat's finished flag
      is recomputed; every other seat is left as it was. */
  function ApplyMove(players: seq<Player>, token: Token, newPos: int): (r: seq<Player>)
    ensures |r| == |players|
    ensures forall i :: 0 <= i < |r| ==>
      && r[i].color == players[i].color && r[i].isHuman == players[i].isHuman
      && r[i].isActive == players[i].isActive && r[i].avatar == players[i].avatar
      && |r[i].tokens| == |players[i].tokens|
    ensures forall i :: 0 <= i < |r| && players[i].color != token.color ==> r[i] == players[i]
    ensures forall i :: 0 <= i < |r| && players[i].color == token.color ==> r[i].hasFinished == AllAtHome(r[i].tokens)
    ensures forall i, j :: 0 <= i < |r| && 0 <= j < |r[i].tokens| ==>
      r[i].tokens[j] == if players[i].color == token.color && players[i].tokens[j].id == token.id
                        then MovedToken(players[i].tokens[j], newPos)
                        else players[i].tokens[j]
  {
    seq(|players|, i requires 0 <= i < |players| => MovePlayer(players[i], token, newPos))
  }

  /** One seat's part of a move: only the seat of the token's colour changes,
      and only in its tokens and its finished flag, recomputed from them. */
  function MovePlayer(p: Player, token: Token, newPos: int): (q: Player)
    ensures q.color == p.color && q.isHuman == p.isHuman && q.isActive == p.isActive && q.avatar == p.avatar
    ensures |q.tokens| == |p.tokens|
    ensures p.color != token.color ==> q == p
    ensures p.color == token.color ==> q.hasFinished == AllAtHome(q.tokens)
  {
    if p.color == token.color then
      var ts := seq(|p.tokens|, j requires 0 <= j < |p.tokens| =>
        if p.tokens[j].id == token.id then MovedToken(p.tokens[j], newPos) else p.tokens[j]);
      p.(tokens := ts, hasFinished := AllAtHome(ts))
    else p
  }

  /** The seat and slot a token in play sits at. */
  lemma LocateToken(players: seq<Player>, token: Token) returns (i: int, j: int)
    requires SeatsWellFormed(players) && InPlay(players, token)
    ensures 0 <= i < 4 && 0 <= j < 4 && players[i].tokens[j] == token
    ensures forall i' :: 0 <= i' < 4 && players[i'].color == token.color ==> i' == i
    ensures j == token.id - 1
  {
    i, j :| 0 <= i < |players| && 0 <= j < |players[i].tokens| && players[i].tokens[j] == token;
  }

  /** A legal move changes exactly one token of exactly one seat: the clicked
      token advances to its destination, and no other token anywhere moves
      (in particular nothing is captured). */
  lemma MoveChangesOnlyTheClickedToken(players: seq<Player>, token: Token, roll: int) returns (i: int, j: int)
    requires SeatsWellFormed(players) && InPlay(players, token)
    ensures 0 <= i < 4 && 0 <= j < 4 && players[i].tokens[j] == token
    ensures ApplyMove(players, token, Destination(token, roll))[i].tokens[j]
      == MovedToken(token, Destination(token, roll))
    ensures forall i', j' :: 0 <= i' < 4 && 0 <= j' < 4 && (i', j') != (i, j) ==>
      ApplyMove(players, token, Destination(token, roll))[i'].tokens[j'] == players[i'].tokens[j']
  {
    i, j := LocateToken(players, token);
    var r := ApplyMove(players, token, Destination(token, roll));
    forall i', j' | 0 <= i' < 4 && 0 <= j' < 4 && (i', j') != (i, j)
      ensures r[i'].tokens[j'] == players[i'].tokens[j']
    {
      assert players[i'].color != token.color || players[i'].tokens[j'].id != token.id;
    }
  }

  /** A legal move keeps every seat well formed: positions stay in [-1, 57],
      home flags agree with them, and finished flags agree with the tokens. */
  lemma MovePreservesSeats(players: seq<Player>, token: Token, roll: int)
    requires SeatsWellFormed(players) && InPlay(players, token)
    requires 1 <= roll <= 6 && CanMoveToken(token, roll)
    ensures SeatsWellFormed(ApplyMove(players, token, Destination(token, roll)))
  {
    var newPos := Destination(token, roll);
    var r := ApplyMove(players, token, newPos);
    var i, j := LocateToken(players, token);
    assert WellPlaced(token);
    forall i' | 0 <= i' < 4 ensures SeatWellFormed(r[i']) {
      if players[i'].color == token.color {
        assert i' == i;
        forall j' | 0 <= j' < 4 ensures WellPlaced(r[i'].tokens[j']) {
          if players[i'].tokens[j'].id == token.id {
            assert j' == j;
          }
        }
      } else {
        assert r[i'] == players[i'];
      }
    }
  }

  /** The seat `k` places after seat `idx`, round the table of four. */
  function After(idx: int, k: int): int
  {
    (idx + k) % 4
  }

  /** Seat `p` may still be given the turn. */
  predicate Eligible(p: Player)
  {
    p.isActive && !p.hasFinished
  }

  /** The turn search: starting at `idx`, step round the four seats while the
      seat is not eligible, for at most 8 further steps. */
  function NextSeatFrom(players: seq<Player>, idx: int, steps: nat): (r: int)
    requires |players| == 4 && 0 <= idx < 4 && steps <= 8
    ensures 0 <= r < 4
    decreases 8 - steps
  {
    if !Eligible(players[idx]) && steps < 8 then NextSeatFrom(players, (idx + 1) % 4, steps + 1)
    else idx
  }

  /** The seat that plays after seat `cur`. */
  function NextSeat(players: seq<Player>, cur: int): (r: int)
    requires |players| == 4 && 0 <= cur < 4
    ensures 0 <= r < 4
  {
    NextSeatFrom(players, (cur + 1) % 4, 0)
  }

  /** The seat `k` places after seat `idx`, counted one seat at a time as
      the search does. */
  function Advance(idx: int, k: nat): (r: int)
    requires 0 <= idx < 4
    ensures 0 <= r < 4
    decreases k
  {
    if k == 0 then idx else Advance((idx + 1) % 4, k - 1)
  }

  /** Counting seat by seat agrees with counting round the table mod 4. */
  lemma {:induction false} AdvanceIsAfter(idx: int, k: nat)
    requires 0 <= idx < 4
    ensures Advance(idx, k) == After(idx, k)
    decreases k
  {
    if k > 0 {
      AdvanceIsAfter((idx + 1) % 4, k - 1);
      RoundTheTable(idx, k - 1);
    }
  }

  /** One seat on and then `m` more is `m + 1` seats on. */
  lemma RoundTheTable(idx: int, m: nat)
    requires 0 <= idx < 4
    ensures ((idx + 1) % 4 + m) % 4 == (idx + m + 1) % 4
  {
    if idx == 3 {
      assert (idx + 1) % 4 == 0;
      assert (idx + m + 1) % 4 == (m + 4) % 4 == m % 4;
    }
  }

  /** The search stops at the first eligible seat within its remaining steps. */
  lemma {:induction false} NextSeatFromFindsFirst(players: seq<Player>, idx: int, steps: nat, m: nat)
    requires |players| == 4 && 0 <= idx < 4 && steps <= 8 && m <= 8 - steps
    requires Eligible(players[Advance(idx, m)])
    requires forall k :: 0 <= k < m ==> !Eligible(players[Advance(idx, k)])
    ensures NextSeatFrom(players, idx, steps) == Advance(idx, m)
    decreases m
  {
    if m > 0 {
      var next := (idx + 1) % 4;
      assert !Eligible(players[Advance(idx, 0)]);
      forall k | 0 <= k < m - 1 ensures !Eligible(players[Advance(next, k)]) {
        assert Advance(idx, k + 1) == Advance(next, k);
      }
      NextSeatFromFindsFirst(players, next, steps + 1, m - 1);
    }
  }

  /** With no eligible seat, the search uses up all of its steps. */
  lemma {:induction false} NextSeatFromNoneEligible(players: seq<Player>, idx: int, steps: nat)
    requires |players| == 4 && 0 <= idx < 4 && steps <= 8
    requires forall k :: 0 <= k < 4 ==> !Eligible(players[k])
    ensures NextSeatFrom(players, idx, steps) == Advance(idx, 8 - steps)
    decreases 8 - steps
  {
    if steps < 8 {
      NextSeatFromNoneEligible(players, (idx + 1) % 4, steps + 1);
    }
  }

  /** After seat `cur`, the turn goes to the first eligible seat in the
      order cur+1, cur+2, cur+3, cur (mod 4). */
  lemma NextSeatIsFirstEligible(players: seq<Player>, cur: int, k: int)
    requires |players| == 4 && 0 <= cur < 4 && 1 <= k <= 4
    requires Eligible(players[After(cur, k)])
    requires forall j :: 1 <= j < k ==> !Eligible(players[After(cur, j)])
    ensures NextSeat(players, cur) == (cur + k) % 4
  {
    var idx := (cur + 1) % 4;
    AdvanceIsAfter(idx, k - 1);
    RoundTheTable(cur, k - 1);
    assert Advance(idx, k - 1) == After(cur, k);
    forall j | 0 <= j < k - 1 ensures !Eligible(players[Advance(idx, j)]) {
      AdvanceIsAfter(idx, j);
      RoundTheTable(cur, j);
      assert Advance(idx, j) == After(cur, j + 1);
    }
    NextSeatFromFindsFirst(players, idx, 0, k - 1);
  }

  /** Whenever some seat is eligible, the turn lands on an eligible seat. */
  lemma NextSeatIsEligible(players: seq<Player>, cur: int)
    requires |players| == 4 && 0 <= cur < 4
    requires exists s :: 0 <= s < 4 && Eligible(players[s])
    ensures Eligible(players[NextSeat(players, cur)])
  {
    var s :| 0 <= s < 4 && Eligible(players[s]);
    if Eligible(players[After(cur, 1)]) {
      NextSeatIsFirstEligible(players, cur, 1);
    } else if Eligible(players[After(cur, 2)]) {
      NextSeatIsFirstEligible(players, cur, 2);
    } else if Eligible(players[After(cur, 3)]) {
      NextSeatIsFirstEligible(players, cur, 3);
    } else {
      assert s == (cur + 1) % 4 || s == (cur + 2) % 4 || s == (cur + 3) % 4 || s == (cur + 4) % 4;
      NextSeatIsFirstEligible(players, cur, 4);
    }
  }

  /** With no eligible seat left, the search runs out after two full rounds
      and stops on the seat right after `cur`, whatever it is. */
  lemma NextSeatWhenNoneEligible(players: seq<Player>, cur: int)
    requires |players| == 4 && 0 <= cur < 4
    requires forall s :: 0 <= s < 4 ==> !Eligible(players[s])
    ensures NextSeat(players, cur) == (cur + 1) % 4
  {
    var idx := (cur + 1) % 4;
    NextSeatFromNoneEligible(players, idx, 0);
    AdvanceIsAfter(idx, 8);
  }

  /** A token click is acted on only in the move phase, with a die value set,
      for a token of the current seat's colour that may move. */
  predicate ClickAccepted(players: seq<Player>, cur: int, dice: Option<int>, status: Status, token: Token)
    requires 0 <= cur < |players|
  {
    && status == WaitingForMove
    && dice.Some? && dice.value != 0
    && token.color == players[cur].color
    && CanMoveToken(token, dice.value)
  }
}
