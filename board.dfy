/** What the board view derives from the match: the cell a token is drawn on,
    the grouping of on-board tokens by cell, which tokens are offered for a
    click, the tokens drawn in a base area, and the kind of each grid cell. */
module Board {
  import opened Types
  import opened Constants
  import opened LudoRules

  /** The cell a token of colour `color` at `pos` is drawn on. The ring cell
      does not depend on the colour: no per-colour entry offset is applied. */
  function PositionCoords(color: Color, pos: int): Cell
    requires BasePosition <= pos <= HomePosition
  {
    if pos == BasePosition then (0, 0)
    else if pos == HomePosition then HomeCoord
    else if pos >= 52 then HomeStretchCoords(color)[pos - 52]
    else SharedPathCoords[pos % 52]
  }

  /** The four corner areas of the 15x15 grid, where the bases are drawn. */
  predicate IsBaseCell(r: int, c: int)
  {
    (r < 6 && c < 6) || (r < 6 && c > 8) || (r > 8 && c < 6) || (r > 8 && c > 8)
  }

  /** The 3x3 centre of the grid, where home is drawn. */
  predicate IsCenterCell(r: int, c: int)
  {
    r >= 6 && r <= 8 && c >= 6 && c <= 8
  }

  lemma BaseAndCenterDisjoint(r: int, c: int)
    ensures !(IsBaseCell(r, c) && IsCenterCell(r, c))
  {
  }

  /** Every position of the track is drawn on a cell of the 15x15 grid. */
  lemma CoordsInGrid(color: Color, pos: int)
    requires BasePosition <= pos <= HomePosition
    ensures 0 <= PositionCoords(color, pos).0 <= 14 && 0 <= PositionCoords(color, pos).1 <= 14
  {
    SharedPathInGrid();
  }

  /** The four regions of the board, as the positions map onto them: the ring
      cells give back their index, the home stretch lies off the ring, and no
      position from 0 to 56 is drawn on a base corner or on the centre. */
  lemma TrackCellsAreTrack(color: Color, pos: int)
    requires 0 <= pos < HomePosition
    ensures pos < 52 ==> TrackIndex(PositionCoords(color, pos)) == pos
    ensures pos >= 52 ==> TrackIndex(PositionCoords(color, pos)) == -1
    ensures !IsBaseCell(PositionCoords(color, pos).0, PositionCoords(color, pos).1)
    ensures !IsCenterCell(PositionCoords(color, pos).0, PositionCoords(color, pos).1)
  {
    if pos < 52 {
      RingPositionCell(color, pos);
    } else {
      HomeStretchCells(color, pos - 52);
    }
  }

  lemma RingPositionCell(color: Color, pos: int)
    requires 0 <= pos < 52
    ensures TrackIndex(PositionCoords(color, pos)) == pos
    ensures !IsBaseCell(PositionCoords(color, pos).0, PositionCoords(color, pos).1)
    ensures !IsCenterCell(PositionCoords(color, pos).0, PositionCoords(color, pos).1)
  {
    assert pos % 52 == pos;
    SharedPathMatchesGeometry(pos);
    RingCellsOffCorners(SharedPathCoords[pos]);
  }

  lemma HomeStretchCells(color: Color, k: int)
    requires 0 <= k < 5
    ensures TrackIndex(HomeStretchCoords(color)[k]) == -1
    ensures !IsBaseCell(HomeStretchCoords(color)[k].0, HomeStretchCoords(color)[k].1)
    ensures !IsCenterCell(HomeStretchCoords(color)[k].0, HomeStretchCoords(color)[k].1)
  {
  }

  /** A cell the geometry places on the ring is neither a base corner nor the centre. */
  lemma RingCellsOffCorners(cell: Cell)
    requires TrackIndex(cell) >= 0
    ensures !IsBaseCell(cell.0, cell.1) && !IsCenterCell(cell.0, cell.1)
  {
  }

  /** The sixth home-stretch cell of every colour lies in the centre square and
      is never used: positions 52 to 56 use only the first five. */
  lemma LastHomeStretchCellUnused(color: Color)
    ensures IsCenterCell(HomeStretchCoords(color)[5].0, HomeStretchCoords(color)[5].1)
    ensures forall pos :: 52 <= pos < HomePosition ==> PositionCoords(color, pos) != HomeStretchCoords(color)[5]
  {
  }

  /** Two different positions of one colour from 0 to 57 are drawn on two
      different cells. */
  lemma CoordsInjective(color: Color, p: int, q: int)
    requires 0 <= p < q <= HomePosition
    ensures PositionCoords(color, p) != PositionCoords(color, q)
  {
    if q < 52 || (p < 52 && q < HomePosition) {
      RingOrStretchIndex(color, p);
      RingOrStretchIndex(color, q);
    } else if q < HomePosition {
      HomeStretchDistinct(color, p - 52, q - 52);
    } else if p < 52 {
      assert p % 52 == p;
      HomeCoordOffPath();
    } else {
      HomeStretchApart(color);
    }
  }

  /** The ring index of the cell a position from 0 to 56 is drawn on: the
      position itself on the ring, -1 on the home stretch. */
  lemma RingOrStretchIndex(color: Color, pos: int)
    requires 0 <= pos < HomePosition
    ensures TrackIndex(PositionCoords(color, pos)) == if pos < 52 then pos else -1
  {
    if pos < 52 {
      RingPositionCell(color, pos);
    } else {
      HomeStretchCells(color, pos - 52);
    }
  }

  lemma HomeStretchDistinct(color: Color, a: int, b: int)
    requires 0 <= a < b < 6
    ensures HomeStretchCoords(color)[a] != HomeStretchCoords(color)[b]
  {
  }

  /** A token that is drawn on the board rather than in a base or at home. */
  predicate OnBoard(t: Token)
  {
    t.position != BasePosition && !t.isAtHome
  }

  predicate TokensPlaced(ts: seq<Token>)
  {
    forall t :: t in ts ==> BasePosition <= t.position <= HomePosition
  }

  /** The tokens of all seats, seat after seat. */
  function AllTokens(players: seq<Player>): (ts: seq<Token>)
    ensures forall t :: t in ts <==> exists i :: 0 <= i < |players| && t in players[i].tokens
  {
    if players == [] then []
    else
      var init := players[..|players| - 1];
      var ts := AllTokens(init) + players[|players| - 1].tokens;
      assert forall i :: 0 <= i < |init| ==> players[i] == init[i];
      ts
  }

  /** The on-board tokens of `ts` drawn on cell `key`, in order. */
  function GroupAt(ts: seq<Token>, key: Cell): seq<Token>
    requires TokensPlaced(ts)
  {
    if ts == [] then []
    else
      var last := ts[|ts| - 1];
      GroupAt(ts[..|ts| - 1], key)
        + (if OnBoard(last) && PositionCoords(last.color, last.position) == key then [last] else [])
  }

  /** A token is in the group of cell `key` exactly when it is on the board
      and drawn on `key`: every on-board token is in exactly one group, the
      one keyed by its own cell, and no other token is in any. */
  lemma {:induction false} GroupAtMembers(ts: seq<Token>, key: Cell, t: Token)
    requires TokensPlaced(ts)
    ensures t in GroupAt(ts, key) <==> t in ts && OnBoard(t) && PositionCoords(t.color, t.position) == key
  {
    if ts != [] {
      var init := ts[..|ts| - 1];
      GroupAtMembers(init, key, t);
      assert ts == init + [ts[|ts| - 1]];
    }
  }

  /** Adding one token at the end adds it to its own cell's group only. */
  lemma GroupAtSnoc(ts: seq<Token>, t: Token)
    requires TokensPlaced(ts + [t])
    ensures TokensPlaced(ts)
    ensures forall key ::
      GroupAt(ts + [t], key) == GroupAt(ts, key) + (if OnBoard(t) && PositionCoords(t.color, t.position) == key then [t] else [])
  {
    assert (ts + [t])[..|ts|] == ts;
  }

  /** `groups` holds, for every cell with on-board tokens of `ts`, exactly
      those tokens in order, and no other cell. */
  ghost predicate GroupsOf(groups: map<Cell, seq<Token>>, ts: seq<Token>)
    requires TokensPlaced(ts)
  {
    && (forall key :: key in groups ==> groups[key] == GroupAt(ts, key) && groups[key] != [])
    && (forall key :: key !in groups ==> GroupAt(ts, key) == [])
  }

  /** One token more: an on-board token is pushed onto its cell's group,
      opened when the cell is new; any other token leaves the groups alone. */
  lemma AddOneKeepsGroups(r: map<Cell, seq<Token>>, ts: seq<Token>, t: Token, r': map<Cell, seq<Token>>)
    requires TokensPlaced(ts + [t]) && TokensPlaced(ts) && GroupsOf(r, ts)
    requires OnBoard(t) ==>
      var key := PositionCoords(t.color, t.position);
      r' == r[key := (if key in r then r[key] else []) + [t]]
    requires !OnBoard(t) ==> r' == r
    ensures GroupsOf(r', ts + [t])
  {
    GroupAtSnoc(ts, t);
  }

  /** The inner loop: adds the on-board tokens of one seat, in order, to the
      groups built from the tokens `seen` so far. */
  method AddTokens(groups: map<Cell, seq<Token>>, ghost seen: seq<Token>, tokens: seq<Token>)
    returns (r: map<Cell, seq<Token>>)
    requires TokensPlaced(seen) && TokensPlaced(tokens) && GroupsOf(groups, seen)
    ensures TokensPlaced(seen + tokens) && GroupsOf(r, seen + tokens)
  {
    r := groups;
    var j := 0;
    assert seen + tokens[..j] == seen;
    while j < |tokens|
      invariant 0 <= j <= |tokens|
      invariant TokensPlaced(seen + tokens[..j]) && GroupsOf(r, seen + tokens[..j])
    {
      var t := tokens[j];
      ghost var before := r;
      assert seen + tokens[..j + 1] == (seen + tokens[..j]) + [t];
      if t.position != BasePosition && !t.isAtHome {
        var key := PositionCoords(t.color, t.position);
        if key !in r {
          r := r[key := []];
        }
        r := r[key := r[key] + [t]];
        assert r == before[key := (if key in before then before[key] else []) + [t]];
      }
      AddOneKeepsGroups(before, seen + tokens[..j], t, r);
      j := j + 1;
    }
    assert tokens[..j] == tokens;
  }

  /** Builds the groups seat by seat and token by token, adding each on-board
      token to the list of its cell and opening the list when the cell is new. */
  method BuildTokenGroups(players: seq<Player>) returns (groups: map<Cell, seq<Token>>)
    requires forall i :: 0 <= i < |players| ==> TokensPlaced(players[i].tokens)
    ensures TokensPlaced(AllTokens(players))
    ensures forall key :: key in groups ==> groups[key] == GroupAt(AllTokens(players), key) && groups[key] != []
    ensures forall key :: key !in groups ==> GroupAt(AllTokens(players), key) == []
  {
    groups := map[];
    var i := 0;
    while i < |players|
      invariant 0 <= i <= |players|
      invariant TokensPlaced(AllTokens(players[..i])) && GroupsOf(groups, AllTokens(players[..i]))
    {
      assert AllTokens(players[..i + 1]) == AllTokens(players[..i]) + players[i].tokens by {
        assert players[..i + 1][..i] == players[..i];
      }
      groups := AddTokens(groups, AllTokens(players[..i]), players[i].tokens);
      i := i + 1;
    }
    assert players[..i] == players;
  }

  /** A token is drawn as clickable exactly when it has the current seat's
      colour and its id is among the ids offered. */
  predicate IsMovableShown(t: Token, activeColor: Color, movableIds: seq<int>)
  {
    activeColor == t.color && t.id in movableIds
  }

  /** On the move phase, the board offers a token of the seats exactly when a
      click on it is acted on. */
  lemma ShownMovableIffClickAccepted(players: seq<Player>, cur: int, dice: Option<int>, token: Token)
    requires SeatsWellFormed(players) && 0 <= cur < 4 && InPlay(players, token)
    ensures dice.Some? && dice.value != 0 ==>
      (IsMovableShown(token, players[cur].color, MovableTokenIds(players[cur].tokens, dice))
       <==> ClickAccepted(players, cur, dice, WaitingForMove, token))
  {
    if dice.Some? && dice.value != 0 {
      var i, j := LocateToken(players, token);
      if IsMovableShown(token, players[cur].color, MovableTokenIds(players[cur].tokens, dice)) {
        assert i == cur;
        var t :| t in players[cur].tokens && CanMoveToken(t, dice.value) && t.id == token.id;
        var j' :| 0 <= j' < 4 && players[cur].tokens[j'] == t;
        assert t == token;
      }
      if ClickAccepted(players, cur, dice, WaitingForMove, token) {
        assert i == cur;
        assert token in players[cur].tokens;
      }
    }
  }

  /** The seat of colour `color` among the seats shown, if any. */
  function FindSeat(players: seq<Player>, color: Color): (r: Option<Player>)
    ensures r.Some? ==> r.value in players && r.value.color == color
    ensures r.None? ==> forall i :: 0 <= i < |players| ==> players[i].color != color
  {
    if players == [] then None
    else if players[0].color == color then Some(players[0])
    else FindSeat(players[1..], color)
  }

  /** The tokens of `ts` still in base, in order. */
  function InBase(ts: seq<Token>): (r: seq<Token>)
    ensures |r| <= |ts|
    ensures forall t :: t in r <==> t in ts && t.position == BasePosition
  {
    if ts == [] then []
    else if ts[0].position == BasePosition then [ts[0]] + InBase(ts[1..])
    else InBase(ts[1..])
  }

  /** The four slots of the base area of `color`: slot k shows the k-th based
      token of that seat, if there is one. */
  function BaseSlots(players: seq<Player>, color: Color): (slots: seq<Option<Token>>)
    ensures |slots| == 4
    ensures forall k :: 0 <= k < 4 && slots[k].Some? ==>
      slots[k].value.position == BasePosition && exists p :: p in players && p.color == color && slots[k].value in p.tokens
  {
    var based := match FindSeat(players, color) case Some(p) => InBase(p.tokens) case None => [];
    seq(4, k requires 0 <= k < 4 => if k < |based| then Some(based[k]) else None)
  }
}
