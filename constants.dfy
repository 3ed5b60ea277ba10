/** The fixed tables of the games: the number-guess limits, the starting
    tokens of a seat, and the board geometry of the 15x15 Ludo board. */
module Constants {
  import opened Types

  const MaxAttempts: int := 7
  const RangeMin: int := 1
  const RangeMax: int := 10

  /** The four tokens a seat of colour `c` starts with: ids 1 to 4, all in base. */
  function InitialTokens(c: Color): (r: seq<Token>)
    ensures |r| == 4
    ensures forall i :: 0 <= i < |r| ==> r[i].id == i + 1 && r[i].color == c
    ensures forall i :: 0 <= i < |r| ==> r[i].position == -1 && !r[i].isAtHome
  {
    [Token(1, c, -1, false), Token(2, c, -1, false), Token(3, c, -1, false), Token(4, c, -1, false)]
  }

  /** Ring indices drawn with a star on the board. */
  const SafeZones: seq<int> := [1, 9, 14, 22, 27, 35, 40, 48]

  /** Ring index drawn with a colour's entry arrow. */
  function BaseStartPosition(c: Color): int
  {
    match c
    case Red => 1
    case Green => 14
    case Yellow => 27
    case Blue => 40
  }

  lemma SafeZonesWellFormed()
    ensures |SafeZones| == 8
    ensures forall i, j :: 0 <= i < j < |SafeZones| ==> SafeZones[i] < SafeZones[j]
    ensures forall i :: 0 <= i < |SafeZones| ==> 0 <= SafeZones[i] < 52
  {
  }

  /** Every entry cell is a safe cell, and the entries follow each other
      13 ring cells apart in the order red, green, yellow, blue. */
  lemma BaseStartsAreSafeAndSpaced(c: Color)
    ensures BaseStartPosition(c) in SafeZones
    ensures BaseStartPosition(Green) == BaseStartPosition(Red) + 13
    ensures BaseStartPosition(Yellow) == BaseStartPosition(Green) + 13
    ensures BaseStartPosition(Blue) == BaseStartPosition(Yellow) + 13
    ensures (BaseStartPosition(Blue) + 13) % 52 == BaseStartPosition(Red)
  {
    match c
    case Red => assert SafeZones[0] == 1;
    case Green => assert SafeZones[2] == 14;
    case Yellow => assert SafeZones[4] == 27;
    case Blue => assert SafeZones[6] == 40;
  }

  /** The 52 cells of the shared ring, one quarter of the board per line. */
  const SharedPathCoords: seq<Cell> :=
    [(6, 1), (6, 2), (6, 3), (6, 4), (6, 5), (5, 6), (4, 6), (3, 6), (2, 6), (1, 6), (0, 6), (0, 7), (0, 8)] +
    [(1, 8), (2, 8), (3, 8), (4, 8), (5, 8), (6, 9), (6, 10), (6, 11), (6, 12), (6, 13), (6, 14), (7, 14), (8, 14)] +
    [(8, 13), (8, 12), (8, 11), (8, 10), (8, 9), (9, 8), (10, 8), (11, 8), (12, 8), (13, 8), (14, 8), (14, 7), (14, 6)] +
    [(13, 6), (12, 6), (11, 6), (10, 6), (9, 6), (8, 5), (8, 4), (8, 3), (8, 2), (8, 1), (8, 0), (7, 0), (6, 0)]

  /** The six home-stretch cells of each colour, from the ring towards the centre. */
  function HomeStretchCoords(c: Color): seq<Cell>
  {
    match c
    case Red => [(7, 1), (7, 2), (7, 3), (7, 4), (7, 5), (7, 6)]
    case Green => [(1, 7), (2, 7), (3, 7), (4, 7), (5, 7), (6, 7)]
    case Yellow => [(7, 13), (7, 12), (7, 11), (7, 10), (7, 9), (7, 8)]
    case Blue => [(13, 7), (12, 7), (11, 7), (10, 7), (9, 7), (8, 7)]
  }

  const HomeCoord: Cell := (7, 7)

  /** Where a cell lies on the ring, read off the board's geometry arm by arm;
      -1 for a cell that is not on the ring. */
  function TrackIndex(cell: Cell): (k: int)
    ensures -1 <= k < 52
  {
    var (r, c) := cell;
    if r == 6 && 1 <= c <= 5 then c - 1
    else if c == 6 && 0 <= r <= 5 then 10 - r
    else if r == 0 && c == 7 then 11
    else if c == 8 && 0 <= r <= 5 then 12 + r
    else if r == 6 && 9 <= c <= 14 then c + 9
    else if r == 7 && c == 14 then 24
    else if r == 8 && 9 <= c <= 14 then 39 - c
    else if c == 8 && 9 <= r <= 14 then r + 22
    else if r == 14 && c == 7 then 37
    else if c == 6 && 9 <= r <= 14 then 52 - r
    else if r == 8 && 0 <= c <= 5 then 49 - c
    else if r == 7 && c == 0 then 50
    else if r == 6 && c == 0 then 51
    else -1
  }

  /** Splits a ring index into its 52 cases, so that table lookups evaluate. */
  lemma RingIndexCases(i: int)
    requires 0 <= i < 52
    ensures || i == 0 || i == 1 || i == 2 || i == 3 || i == 4 || i == 5 || i == 6
            || i == 7 || i == 8 || i == 9 || i == 10 || i == 11 || i == 12 || i == 13
            || i == 14 || i == 15 || i == 16 || i == 17 || i == 18 || i == 19 || i == 20
            || i == 21 || i == 22 || i == 23 || i == 24 || i == 25 || i == 26 || i == 27
            || i == 28 || i == 29 || i == 30 || i == 31 || i == 32 || i == 33 || i == 34
            || i == 35 || i == 36 || i == 37 || i == 38 || i == 39 || i == 40 || i == 41
            || i == 42 || i == 43 || i == 44 || i == 45 || i == 46 || i == 47 || i == 48
            || i == 49 || i == 50 || i == 51
  {
  }

  /** The ring table and the board geometry agree: the i-th ring cell is the
      cell the geometry places at index i. */
  lemma SharedPathMatchesGeometry(i: int)
    requires 0 <= i < |SharedPathCoords|
    ensures TrackIndex(SharedPathCoords[i]) == i
  {
    RingIndexCases(i);
  }

  lemma SharedPathInGrid()
    ensures |SharedPathCoords| == 52
    ensures forall i :: 0 <= i < |SharedPathCoords| ==>
      0 <= SharedPathCoords[i].0 <= 14 && 0 <= SharedPathCoords[i].1 <= 14
  {
    forall i | 0 <= i < |SharedPathCoords|
      ensures 0 <= SharedPathCoords[i].0 <= 14 && 0 <= SharedPathCoords[i].1 <= 14
    {
      RingIndexCases(i);
    }
  }

  /** No cell appears twice on the ring. */
  lemma SharedPathDistinct()
    ensures forall i, j :: 0 <= i < j < |SharedPathCoords| ==> SharedPathCoords[i] != SharedPathCoords[j]
  {
    forall i, j | 0 <= i < j < |SharedPathCoords|
      ensures SharedPathCoords[i] != SharedPathCoords[j]
    {
      SharedPathMatchesGeometry(i);
      SharedPathMatchesGeometry(j);
    }
  }

  /** A cell the geometry puts off the ring is not one of the ring's cells. */
  lemma OffTrackNotOnPath(cell: Cell)
    requires TrackIndex(cell) == -1
    ensures cell !in SharedPathCoords
  {
    if cell in SharedPathCoords {
      var i :| 0 <= i < |SharedPathCoords| && SharedPathCoords[i] == cell;
      SharedPathMatchesGeometry(i);
    }
  }

  /** Each colour has six home-stretch cells, none of them on the ring and
      none of them the centre home cell. */
  lemma HomeStretchApart(c: Color)
    ensures |HomeStretchCoords(c)| == 6
    ensures forall i :: 0 <= i < 6 ==>
      HomeStretchCoords(c)[i] !in SharedPathCoords && HomeStretchCoords(c)[i] != HomeCoord
  {
    forall i | 0 <= i < 6
      ensures HomeStretchCoords(c)[i] !in SharedPathCoords && HomeStretchCoords(c)[i] != HomeCoord
    {
      OffTrackNotOnPath(HomeStretchCoords(c)[i]);
    }
  }

  /** The home cell is not on the ring either. */
  lemma HomeCoordOffPath()
    ensures HomeCoord !in SharedPathCoords
  {
    OffTrackNotOnPath(HomeCoord);
  }
}
