/** The 4x4 board as a value, and the reference meaning of the engine's
    operations on it: a move (Moved), a spawn (Spawned), the fresh board of
    a new game (Initial) and the end of the game (GameOver). Rows and
    columns are numbered 0..3 from the top left, as in the engine's
    int[row][col] array. */
module Board {
  import opened Lines

  datatype Direction = Up | Down | Left | Right

  type Grid = seq<seq<int>>

  predicate IsGrid(g: Grid)
  {
    |g| == 4 && forall r :: 0 <= r < 4 ==> |g[r]| == 4
  }

  // ---------------------------------------------------------------------
  // Lines of the board for a direction. Line L is row L for LEFT and
  // RIGHT and column L for UP and DOWN; position p counts from the edge
  // the tiles move toward.

  function RowOf(d: Direction, L: int, p: int): (r: int)
    ensures 0 <= L < 4 && 0 <= p < 4 ==> 0 <= r < 4
  {
    match d
    case Left => L
    case Right => L
    case Up => p
    case Down => 3 - p
  }

  function ColOf(d: Direction, L: int, p: int): (c: int)
    ensures 0 <= L < 4 && 0 <= p < 4 ==> 0 <= c < 4
  {
    match d
    case Left => p
    case Right => 3 - p
    case Up => L
    case Down => L
  }

  function LineIndex(d: Direction, r: int, c: int): (L: int)
    ensures 0 <= r < 4 && 0 <= c < 4 ==> 0 <= L < 4
  {
    if d == Left || d == Right then r else c
  }

  function Position(d: Direction, r: int, c: int): (p: int)
    ensures 0 <= r < 4 && 0 <= c < 4 ==> 0 <= p < 4
  {
    match d
    case Left => c
    case Right => 3 - c
    case Up => r
    case Down => 3 - r
  }

  /** The two ways of naming a cell agree. */
  lemma Coordinates(d: Direction)
    ensures forall L, p :: 0 <= L < 4 && 0 <= p < 4 ==>
      var r, c := RowOf(d, L, p), ColOf(d, L, p);
      0 <= r < 4 && 0 <= c < 4 && LineIndex(d, r, c) == L && Position(d, r, c) == p
    ensures forall r, c :: 0 <= r < 4 && 0 <= c < 4 ==>
      var L, p := LineIndex(d, r, c), Position(d, r, c);
      0 <= L < 4 && 0 <= p < 4 && RowOf(d, L, p) == r && ColOf(d, L, p) == c
  {
  }

  function Line(g: Grid, d: Direction, L: int): (t: seq<int>)
    requires IsGrid(g) && 0 <= L < 4
    ensures |t| == 4
  {
    seq(4, p requires 0 <= p < 4 => g[RowOf(d, L, p)][ColOf(d, L, p)])
  }

  /** Every cell lies on its line at its position. */
  lemma CellOnLine(g: Grid, d: Direction, r: int, c: int)
    requires IsGrid(g) && 0 <= r < 4 && 0 <= c < 4
    ensures 0 <= LineIndex(d, r, c) < 4 && 0 <= Position(d, r, c) < 4
    ensures Line(g, d, LineIndex(d, r, c))[Position(d, r, c)] == g[r][c]
  {
  }

  lemma GridEq(g: Grid, h: Grid)
    requires IsGrid(g) && IsGrid(h)
    requires forall r, c :: 0 <= r < 4 && 0 <= c < 4 ==> g[r][c] == h[r][c]
    ensures g == h
  {
    forall r | 0 <= r < 4 ensures g[r] == h[r] {
      assert forall c :: 0 <= c < 4 ==> g[r][c] == h[r][c];
    }
  }

  /** The board with one cell overwritten. */
  function SetCell(g: Grid, r: int, c: int, v: int): (h: Grid)
    requires IsGrid(g) && 0 <= r < 4 && 0 <= c < 4
    ensures IsGrid(h)
  {
    g[r := g[r][c := v]]
  }

  /** The board with line L replaced by u. */
  function Place(g: Grid, d: Direction, L: int, u: seq<int>): (h: Grid)
    requires IsGrid(g) && 0 <= L < 4 && |u| == 4
    ensures IsGrid(h)
  {
    seq(4, r requires 0 <= r < 4 =>
      seq(4, c requires 0 <= c < 4 =>
        if LineIndex(d, r, c) == L then u[Position(d, r, c)] else g[r][c]))
  }

  /** Placing u as line L makes line L u and leaves the other lines. */
  lemma PlaceLines(g: Grid, d: Direction, L: int, u: seq<int>)
    requires IsGrid(g) && 0 <= L < 4 && |u| == 4
    ensures Line(Place(g, d, L, u), d, L) == u
    ensures forall L' :: 0 <= L' < 4 && L' != L ==> Line(Place(g, d, L, u), d, L') == Line(g, d, L')
  {
    Coordinates(d);
  }

  /** Placing a line that is already there changes nothing. */
  lemma PlaceSame(g: Grid, d: Direction, L: int)
    requires IsGrid(g) && 0 <= L < 4
    ensures Place(g, d, L, Line(g, d, L)) == g
  {
    Coordinates(d);
    GridEq(Place(g, d, L, Line(g, d, L)), g);
  }

  /** A cell of line L after u is placed. */
  lemma PlaceCell(g: Grid, d: Direction, L: int, u: seq<int>, q: int)
    requires IsGrid(g) && 0 <= L < 4 && |u| == 4 && 0 <= q < 4
    ensures Place(g, d, L, u)[RowOf(d, L, q)][ColOf(d, L, q)] == u[q]
  {
    Coordinates(d);
  }

  /** Overwriting two cells of a placed line is placing the updated line. */
  lemma PlaceTwo(g: Grid, d: Direction, L: int, u: seq<int>, q1: int, v1: int, q2: int, v2: int)
    requires IsGrid(g) && 0 <= L < 4 && |u| == 4 && 0 <= q1 < 4 && 0 <= q2 < 4
    ensures SetCell(SetCell(Place(g, d, L, u), RowOf(d, L, q1), ColOf(d, L, q1), v1),
                    RowOf(d, L, q2), ColOf(d, L, q2), v2) == Place(g, d, L, u[q1 := v1][q2 := v2])
  {
    PlaceOne(g, d, L, u, q1, v1);
    PlaceOne(g, d, L, u[q1 := v1], q2, v2);
  }

  /** Overwriting one cell of a placed line is placing the updated line. */
  lemma PlaceOne(g: Grid, d: Direction, L: int, u: seq<int>, q: int, v: int)
    requires IsGrid(g) && 0 <= L < 4 && |u| == 4 && 0 <= q < 4
    ensures SetCell(Place(g, d, L, u), RowOf(d, L, q), ColOf(d, L, q), v) == Place(g, d, L, u[q := v])
  {
    Coordinates(d);
    GridEq(SetCell(Place(g, d, L, u), RowOf(d, L, q), ColOf(d, L, q), v), Place(g, d, L, u[q := v]));
  }

  // ---------------------------------------------------------------------
  // Counting over the whole board, in row-major order

  /** The cells in row-major order: cell (r, c) is at index 4 * r + c. */
  function Flatten(g: Grid): (f: seq<int>)
    requires IsGrid(g)
    ensures |f| == 16
  {
    g[0] + g[1] + g[2] + g[3]
  }

  lemma FlattenAt(g: Grid)
    requires IsGrid(g)
    ensures forall r, c :: 0 <= r < 4 && 0 <= c < 4 ==> Flatten(g)[4 * r + c] == g[r][c]
  {
  }

  /** One cell of FlattenAt. */
  lemma FlattenCell(g: Grid, r: int, c: int)
    requires IsGrid(g) && 0 <= r < 4 && 0 <= c < 4
    ensures Flatten(g)[4 * r + c] == g[r][c]
  {
    FlattenAt(g);
  }

  function ZeroCount(g: Grid): nat
    requires IsGrid(g)
  {
    Count0(Flatten(g))
  }

  function TileSum(g: Grid): int
    requires IsGrid(g)
  {
    Sum(Flatten(g))
  }

  /** Every cell is empty or a power of two from 2 up. */
  predicate ValidTiles(g: Grid)
    requires IsGrid(g)
  {
    forall r, c :: 0 <= r < 4 && 0 <= c < 4 ==> IsTile(g[r][c])
  }

  /** The board is full exactly when its empty-cell count is 0. */
  lemma ZeroCountNone(g: Grid)
    requires IsGrid(g)
    ensures ZeroCount(g) == 0 <==> forall r, c :: 0 <= r < 4 && 0 <= c < 4 ==> g[r][c] != 0
  {
    Count0None(Flatten(g));
    FlattenAt(g);
  }

  /** Overwriting one cell changes the empty-cell count only by that cell. */
  lemma ZeroCountSetCell(g: Grid, r: int, c: int, v: int)
    requires IsGrid(g) && 0 <= r < 4 && 0 <= c < 4
    ensures ZeroCount(SetCell(g, r, c, v)) ==
              ZeroCount(g) - (if g[r][c] == 0 then 1 else 0) + (if v == 0 then 1 else 0)
  {
    var h := SetCell(g, r, c, v);
    FlattenAt(g);
    FlattenAt(h);
    assert Flatten(h) == Flatten(g)[4 * r + c := v];
    Count0Update(Flatten(g), 4 * r + c, v);
  }

  /** Moving a tile into an empty cell keeps the empty-cell count and the
      tile values. */
  lemma MoveCells(g: Grid, r1: int, c1: int, r2: int, c2: int)
    requires IsGrid(g) && 0 <= r1 < 4 && 0 <= c1 < 4 && 0 <= r2 < 4 && 0 <= c2 < 4
    requires g[r1][c1] == 0
    ensures var h := SetCell(SetCell(g, r1, c1, g[r2][c2]), r2, c2, 0);
      ZeroCount(h) == ZeroCount(g) && (ValidTiles(g) ==> ValidTiles(h))
  {
    var g1 := SetCell(g, r1, c1, g[r2][c2]);
    ZeroCountSetCell(g, r1, c1, g[r2][c2]);
    ZeroCountSetCell(g1, r2, c2, 0);
    if ValidTiles(g) {
      ValidTilesSetCell(g, r1, c1, g[r2][c2]);
      ValidTilesSetCell(g1, r2, c2, 0);
    }
  }

  /** Merging two equal tiles, the first doubled and the second emptied,
      frees one cell and keeps the tile values. */
  lemma MergeCells(g: Grid, r1: int, c1: int, r2: int, c2: int)
    requires IsGrid(g) && 0 <= r1 < 4 && 0 <= c1 < 4 && 0 <= r2 < 4 && 0 <= c2 < 4
    requires (r1, c1) != (r2, c2) && g[r1][c1] != 0 && g[r1][c1] == g[r2][c2]
    ensures var h := SetCell(SetCell(g, r1, c1, 2 * g[r1][c1]), r2, c2, 0);
      ZeroCount(h) == ZeroCount(g) + 1 && (ValidTiles(g) ==> ValidTiles(h))
  {
    var x := g[r1][c1];
    var g1 := SetCell(g, r1, c1, 2 * x);
    ZeroCountSetCell(g, r1, c1, 2 * x);
    ZeroCountSetCell(g1, r2, c2, 0);
    if ValidTiles(g) {
      assert IsTile(x);
      assert IsPow2(2 * x);
      ValidTilesSetCell(g, r1, c1, 2 * x);
      ValidTilesSetCell(g1, r2, c2, 0);
    }
  }

  /** Writing a tile value into a cell keeps every cell a tile value. */
  lemma ValidTilesSetCell(g: Grid, r: int, c: int, v: int)
    requires IsGrid(g) && 0 <= r < 4 && 0 <= c < 4 && ValidTiles(g) && IsTile(v)
    ensures ValidTiles(SetCell(g, r, c, v))
  {
    var h := SetCell(g, r, c, v);
    forall r', c' | 0 <= r' < 4 && 0 <= c' < 4
      ensures IsTile(h[r'][c'])
    {
      if r' != r || c' != c {
        assert h[r'][c'] == g[r'][c'];
      }
    }
  }

  /** Overwriting one cell changes the total only by that cell. */
  lemma TileSumSetCell(g: Grid, r: int, c: int, v: int)
    requires IsGrid(g) && 0 <= r < 4 && 0 <= c < 4
    ensures TileSum(SetCell(g, r, c, v)) == TileSum(g) - g[r][c] + v
  {
    var h := SetCell(g, r, c, v);
    FlattenAt(g);
    FlattenAt(h);
    assert Flatten(h) == Flatten(g)[4 * r + c := v];
    SumUpdate(Flatten(g), 4 * r + c, v);
  }

  function Z(v: int): int
  {
    if v == 0 then 1 else 0
  }

  lemma Count0Four(s: seq<int>)
    requires |s| == 4
    ensures Count0(s) == Z(s[0]) + Z(s[1]) + Z(s[2]) + Z(s[3])
  {
    var s1, s2, s3 := s[1..], s[2..], s[3..];
    assert s1[1..] == s2 && s2[1..] == s3 && s3[1..] == [];
    assert Count0(s3) == Z(s[3]);
    assert Count0(s2) == Z(s[2]) + Count0(s3);
    assert Count0(s1) == Z(s[1]) + Count0(s2);
  }

  lemma SumFour(s: seq<int>)
    requires |s| == 4
    ensures Sum(s) == s[0] + s[1] + s[2] + s[3]
  {
    var s1, s2, s3 := s[1..], s[2..], s[3..];
    assert s1[1..] == s2 && s2[1..] == s3 && s3[1..] == [];
    assert Sum(s3) == s[3];
    assert Sum(s2) == s[2] + Sum(s3);
    assert Sum(s1) == s[1] + Sum(s2);
  }

  /** The empty-cell count and the total, cell by cell. */
  lemma ByCells(g: Grid)
    requires IsGrid(g)
    ensures ZeroCount(g) ==
      Z(g[0][0]) + Z(g[0][1]) + Z(g[0][2]) + Z(g[0][3]) +
      Z(g[1][0]) + Z(g[1][1]) + Z(g[1][2]) + Z(g[1][3]) +
      Z(g[2][0]) + Z(g[2][1]) + Z(g[2][2]) + Z(g[2][3]) +
      Z(g[3][0]) + Z(g[3][1]) + Z(g[3][2]) + Z(g[3][3])
    ensures TileSum(g) ==
      g[0][0] + g[0][1] + g[0][2] + g[0][3] +
      g[1][0] + g[1][1] + g[1][2] + g[1][3] +
      g[2][0] + g[2][1] + g[2][2] + g[2][3] +
      g[3][0] + g[3][1] + g[3][2] + g[3][3]
  {
    Count0Append(g[0] + g[1] + g[2], g[3]);
    Count0Append(g[0] + g[1], g[2]);
    Count0Append(g[0], g[1]);
    SumAppend(g[0] + g[1] + g[2], g[3]);
    SumAppend(g[0] + g[1], g[2]);
    SumAppend(g[0], g[1]);
    Count0Four(g[0]); Count0Four(g[1]); Count0Four(g[2]); Count0Four(g[3]);
    SumFour(g[0]); SumFour(g[1]); SumFour(g[2]); SumFour(g[3]);
  }

  /** Whatever the direction, the board's empty cells and total are those
      of its four lines together. */
  lemma ByLines(g: Grid, d: Direction)
    requires IsGrid(g)
    ensures ZeroCount(g) ==
      Count0(Line(g, d, 0)) + Count0(Line(g, d, 1)) + Count0(Line(g, d, 2)) + Count0(Line(g, d, 3))
    ensures TileSum(g) ==
      Sum(Line(g, d, 0)) + Sum(Line(g, d, 1)) + Sum(Line(g, d, 2)) + Sum(Line(g, d, 3))
  {
    ByCells(g);
    Count0Four(Line(g, d, 0)); Count0Four(Line(g, d, 1));
    Count0Four(Line(g, d, 2)); Count0Four(Line(g, d, 3));
    SumFour(Line(g, d, 0)); SumFour(Line(g, d, 1));
    SumFour(Line(g, d, 2)); SumFour(Line(g, d, 3));
  }

  // ---------------------------------------------------------------------
  // A move

  /** The board after a move in direction d: every line collapsed toward
      the edge on its own. */
  function Moved(g: Grid, d: Direction): (h: Grid)
    requires IsGrid(g)
    ensures IsGrid(h)
  {
    seq(4, r requires 0 <= r < 4 =>
      seq(4, c requires 0 <= c < 4 =>
        Collapse(Line(g, d, LineIndex(d, r, c)))[Position(d, r, c)]))
  }

  /** The points a move in direction d earns: the values of all the tiles
      its merges produce. */
  function MoveGain(g: Grid, d: Direction): int
    requires IsGrid(g)
  {
    LineGain(Line(g, d, 0)) + LineGain(Line(g, d, 1)) + LineGain(Line(g, d, 2)) + LineGain(Line(g, d, 3))
  }

  /** The number of merges a move in direction d performs. */
  function MergeCount(g: Grid, d: Direction): nat
    requires IsGrid(g)
  {
    |Merges(NonZeros(Line(g, d, 0)))| + |Merges(NonZeros(Line(g, d, 1)))| +
    |Merges(NonZeros(Line(g, d, 2)))| + |Merges(NonZeros(Line(g, d, 3)))|
  }

  /** Each line after a move depends on that line alone: it is the line
      collapsed, packed toward the edge. */
  lemma MovedLine(g: Grid, d: Direction, L: int)
    requires IsGrid(g) && 0 <= L < 4
    ensures Line(Moved(g, d), d, L) == Collapse(Line(g, d, L))
    ensures Packed(Line(Moved(g, d), d, L))
  {
    Coordinates(d);
    CollapsePacked(Line(g, d, L));
  }

  /** A board whose every line is the collapse of the same line of g is
      the board g moved. */
  lemma LinesDetermine(h: Grid, g: Grid, d: Direction)
    requires IsGrid(h) && IsGrid(g)
    requires forall L :: 0 <= L < 4 ==> Line(h, d, L) == Collapse(Line(g, d, L))
    ensures h == Moved(g, d)
  {
    forall r, c | 0 <= r < 4 && 0 <= c < 4 ensures h[r][c] == Moved(g, d)[r][c] {
      CellOnLine(h, d, r, c);
    }
    GridEq(h, Moved(g, d));
  }

  /** Moving left, a row of four 2s becomes two 4s and scores 8, not one 8;
      and in a row 2, 2, 4 the 4 made by the first pair does not merge
      with the 4 beside it. */
  lemma MergeExamples(g: Grid)
    requires IsGrid(g) && g[0] == [2, 2, 2, 2] && g[1] == [2, 2, 4, 0]
    ensures Moved(g, Left)[0] == [4, 4, 0, 0] && LineGain(g[0]) == 8
    ensures Moved(g, Left)[1] == [4, 4, 0, 0] && LineGain(g[1]) == 4
  {
    var h := Moved(g, Left);
    MovedLine(g, Left, 0);
    MovedLine(g, Left, 1);
    CollapseExamples();
    assert Line(g, Left, 0) == g[0] && Line(g, Left, 1) == g[1];
    assert Line(h, Left, 0) == h[0] && Line(h, Left, 1) == h[1];
  }

  /** A move conserves the total of the tiles. */
  lemma MovedSum(g: Grid, d: Direction)
    requires IsGrid(g)
    ensures TileSum(Moved(g, d)) == TileSum(g)
  {
    var h := Moved(g, d);
    ByLines(g, d);
    ByLines(h, d);
    MovedLine(g, d, 0); MovedLine(g, d, 1); MovedLine(g, d, 2); MovedLine(g, d, 3);
    CollapseSum(Line(g, d, 0)); CollapseSum(Line(g, d, 1));
    CollapseSum(Line(g, d, 2)); CollapseSum(Line(g, d, 3));
  }

  /** A move frees one cell per merge. */
  lemma MovedZeroCount(g: Grid, d: Direction)
    requires IsGrid(g)
    ensures ZeroCount(Moved(g, d)) == ZeroCount(g) + MergeCount(g, d)
  {
    var h := Moved(g, d);
    ByLines(g, d);
    ByLines(h, d);
    MovedLine(g, d, 0); MovedLine(g, d, 1); MovedLine(g, d, 2); MovedLine(g, d, 3);
    CollapseCount0(Line(g, d, 0)); CollapseCount0(Line(g, d, 1));
    CollapseCount0(Line(g, d, 2)); CollapseCount0(Line(g, d, 3));
  }

  /** A move keeps every cell empty or a power of two from 2 up. */
  lemma MovedTiles(g: Grid, d: Direction)
    requires IsGrid(g) && ValidTiles(g)
    ensures ValidTiles(Moved(g, d))
  {
    var h := Moved(g, d);
    forall L | 0 <= L < 4 ensures AllTiles(Collapse(Line(g, d, L))) {
      CollapseTiles(Line(g, d, L));
    }
    forall r, c | 0 <= r < 4 && 0 <= c < 4 ensures IsTile(h[r][c]) {
      Coordinates(d);
    }
  }

  /** With proper tiles, a move never costs points. */
  lemma MoveGainNonNegative(g: Grid, d: Direction)
    requires IsGrid(g) && ValidTiles(g)
    ensures MoveGain(g, d) >= 0
  {
    forall L | 0 <= L < 4 ensures LineGain(Line(g, d, L)) >= 0 {
      var t := Line(g, d, L);
      Coordinates(d);
      NonZerosTiles(t);
      MergesGain(NonZeros(t));
    }
  }

  // ---------------------------------------------------------------------
  // The end of the game

  /** The cell at (r, c) equals its neighbour below or to its right. */
  predicate EqualNeighbour(g: Grid, r: int, c: int)
    requires IsGrid(g) && 0 <= r < 4 && 0 <= c < 4
  {
    (r < 3 && g[r][c] == g[r + 1][c]) || (c < 3 && g[r][c] == g[r][c + 1])
  }

  /** Some two orthogonally adjacent cells hold the same value. */
  ghost predicate CanMerge(g: Grid)
    requires IsGrid(g)
  {
    exists r, c :: 0 <= r < 4 && 0 <= c < 4 && EqualNeighbour(g, r, c)
  }

  /** No empty cell and no adjacent pair to merge. */
  ghost predicate GameOver(g: Grid)
    requires IsGrid(g)
  {
    ZeroCount(g) == 0 && !CanMerge(g)
  }

  /** At the end of the game no move changes the board. */
  lemma GameOverStuck(g: Grid, d: Direction)
    requires IsGrid(g) && GameOver(g)
    ensures Moved(g, d) == g
  {
    ZeroCountNone(g);
    Coordinates(d);
    forall L | 0 <= L < 4 ensures Collapse(Line(g, d, L)) == Line(g, d, L) {
      var t := Line(g, d, L);
      forall p | 0 <= p < 3 ensures t[p] != t[p + 1] {
        match d
        case Left => assert !EqualNeighbour(g, L, p);
        case Right => assert !EqualNeighbour(g, L, 2 - p);
        case Up => assert !EqualNeighbour(g, p, L);
        case Down => assert !EqualNeighbour(g, 2 - p, L);
      }
      CollapseFixed(t);
    }
    GridEq(Moved(g, d), g);
  }

  // ---------------------------------------------------------------------
  // Spawning a tile

  /** The number of empty cells before (r, c) in row-major order. */
  function ZerosBefore(g: Grid, r: int, c: int): nat
    requires IsGrid(g) && 0 <= r < 4 && 0 <= c < 4
  {
    Count0(Flatten(g)[..4 * r + c])
  }

  /** The board with a 2 in its k-th empty cell (from 0, in row-major
      order); unchanged when there are no more than k empty cells. */
  function Spawned(g: Grid, k: int): (h: Grid)
    requires IsGrid(g)
    ensures IsGrid(h)
  {
    seq(4, r requires 0 <= r < 4 =>
      seq(4, c requires 0 <= c < 4 =>
        if g[r][c] == 0 && ZerosBefore(g, r, c) == k then 2 else g[r][c]))
  }

  /** Found at (r, c), the k-th empty cell is the only one that changes. */
  lemma SpawnedAt(g: Grid, k: int, r: int, c: int)
    requires IsGrid(g) && 0 <= r < 4 && 0 <= c < 4
    requires g[r][c] == 0 && ZerosBefore(g, r, c) == k
    ensures Spawned(g, k) == SetCell(g, r, c, 2)
    ensures ZeroCount(Spawned(g, k)) == ZeroCount(g) - 1
    ensures ValidTiles(g) ==> ValidTiles(Spawned(g, k))
  {
    ZeroCountSetCell(g, r, c, 2);
    assert IsPow2(2);
    var f := Flatten(g);
    FlattenAt(g);
    forall r', c' | 0 <= r' < 4 && 0 <= c' < 4 && g[r'][c'] == 0 && ZerosBefore(g, r', c') == k
      ensures r' == r && c' == c
    {
      var n, m := 4 * r + c, 4 * r' + c';
      if n < m {
        Count0Prefix(f, n, m);
      } else if m < n {
        Count0Prefix(f, m, n);
      }
    }
    GridEq(Spawned(g, k), SetCell(g, r, c, 2));
  }

  /** With k below the number of empty cells, a spawn fills exactly one
      empty cell with a 2. */
  lemma SpawnedOne(g: Grid, k: nat) returns (r: int, c: int)
    requires IsGrid(g) && k < ZeroCount(g)
    ensures 0 <= r < 4 && 0 <= c < 4 && g[r][c] == 0 && Spawned(g, k) == SetCell(g, r, c, 2)
    ensures ZeroCount(Spawned(g, k)) == ZeroCount(g) - 1
    ensures TileSum(Spawned(g, k)) == TileSum(g) + 2
    ensures ValidTiles(g) ==> ValidTiles(Spawned(g, k))
  {
    var f := Flatten(g);
    var n := KthZero(f, k);
    FlattenAt(g);
    r, c := n / 4, n % 4;
    assert 4 * r + c == n;
    SpawnedAt(g, k, r, c);
    TileSumSetCell(g, r, c, 2);
  }

  /** The empty board of a new game. */
  function Empty(): (g: Grid)
    ensures IsGrid(g)
  {
    seq(4, _ => Zeros(4))
  }

  /** The empty board has sixteen empty cells and no tiles. */
  lemma EmptyCounts()
    ensures forall r, c :: 0 <= r < 4 && 0 <= c < 4 ==> Empty()[r][c] == 0
    ensures ZeroCount(Empty()) == 16 && TileSum(Empty()) == 0
  {
    var e := Empty();
    forall r, c | 0 <= r < 4 && 0 <= c < 4
      ensures e[r][c] == 0
    {
      assert e[r] == Zeros(4);
    }
    ByCells(e);
  }

  /** A new game: the empty board with two tiles spawned. */
  function Initial(k1: int, k2: int): (g: Grid)
    ensures IsGrid(g)
  {
    Spawned(Spawned(Empty(), k1), k2)
  }

  /** With draws in range, a new game has exactly two tiles, both 2. */
  lemma InitialTiles(k1: nat, k2: nat)
    requires k1 < 16 && k2 < 15
    ensures ZeroCount(Initial(k1, k2)) == 14
    ensures TileSum(Initial(k1, k2)) == 4
    ensures forall r, c :: 0 <= r < 4 && 0 <= c < 4 ==>
      Initial(k1, k2)[r][c] == 0 || Initial(k1, k2)[r][c] == 2
  {
    var e := Empty();
    EmptyCounts();
    var r1, c1 := SpawnedOne(e, k1);
    var g1 := Spawned(e, k1);
    var r2, c2 := SpawnedOne(g1, k2);
    var g2 := Spawned(g1, k2);
    assert g2 == SetCell(SetCell(e, r1, c1, 2), r2, c2, 2);
    assert Initial(k1, k2) == g2;
    forall r, c | 0 <= r < 4 && 0 <= c < 4
      ensures g2[r][c] == 0 || g2[r][c] == 2
    {
      assert e[r][c] == 0;
    }
  }
}
