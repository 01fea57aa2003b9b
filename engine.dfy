/** The game engine: the board array, the move and score counters and the
    running count of empty cells, with the operations the key handler
    drives. Each operation is proved against the reference functions of
    module Board. */
module Engine {
  import opened Lines
  import opened Sweep
  import opened Board

  /** A key press: one of the four arrow keys, or any other key. */
  datatype Key = Arrow(dir: Direction) | Other

  /** The board after the move a key asks for; other keys move nothing. */
  function AfterKey(g: Grid, key: Key): (h: Grid)
    requires IsGrid(g)
    ensures IsGrid(h)
  {
    if key.Arrow? then Moved(g, key.dir) else g
  }

  /** The board after a spawn, which does nothing on a full board. */
  function AfterSpawn(g: Grid, k: int): (h: Grid)
    requires IsGrid(g)
    ensures IsGrid(h)
  {
    if ZeroCount(g) == 0 then g else Spawned(g, k)
  }

  /** The four neighbour comparisons the engine makes for one cell. */
  predicate NeighbourCheck(g: Grid, r: int, c: int)
    requires IsGrid(g) && 0 <= r < 4 && 0 <= c < 4
  {
    (r > 0 && g[r][c] == g[r - 1][c]) || (r < 3 && g[r][c] == g[r + 1][c]) ||
    (c > 0 && g[r][c] == g[r][c - 1]) || (c < 3 && g[r][c] == g[r][c + 1])
  }

  // ---------------------------------------------------------------------
  // The scan of a move, cell by cell

  /** A move toward the bottom or the right edge scans rows and columns
      from 3 down to 0; the other two scan them from 0 up to 3. */
  predicate Reversed(d: Direction)
  {
    d == Down || d == Right
  }

  /** The loop counter at scan index x. */
  function Scan(reverse: bool, x: int): int
  {
    if reverse then 3 - x else x
  }

  /** The scan index of the row of the n-th cell a move visits: n / 4. */
  function ScanIndex(n: int): (a: int)
    requires 0 <= n <= 16
    ensures 0 <= a <= 4 && 4 * a <= n < 4 * a + 4
  {
    if n < 4 then 0 else if n < 8 then 1 else if n < 12 then 2 else if n < 16 then 3 else 4
  }

  /** The row of the n-th cell a move visits. */
  function ScanRow(d: Direction, n: int): (r: int)
    requires 0 <= n < 16
    ensures 0 <= r < 4
  {
    Scan(Reversed(d), ScanIndex(n))
  }

  /** The column of the n-th cell a move visits. */
  function ScanCol(d: Direction, n: int): (c: int)
    requires 0 <= n < 16
    ensures 0 <= c < 4
  {
    Scan(Reversed(d), n - 4 * ScanIndex(n))
  }

  /** The line of the n-th cell a move visits. */
  function ScanLine(d: Direction, n: int): (L: int)
    requires 0 <= n < 16
    ensures 0 <= L < 4
  {
    LineIndex(d, ScanRow(d, n), ScanCol(d, n))
  }

  /** The position on its line of the n-th cell a move visits. */
  function ScanPos(d: Direction, n: int): (p: int)
    requires 0 <= n < 16
    ensures 0 <= p < 4
  {
    Position(d, ScanRow(d, n), ScanCol(d, n))
  }

  /** The board after the engine's step at cell (row, col) of a move in
      direction d: the cell's line is visited at the cell's position. */
  function VisitGrid(g: Grid, d: Direction, row: int, col: int): (h: Grid)
    requires IsGrid(g) && 0 <= row < 4 && 0 <= col < 4
    ensures IsGrid(h)
  {
    var L := LineIndex(d, row, col);
    Place(g, d, L, Visit(Line(g, d, L), Position(d, row, col)))
  }

  /** The points the engine's step at cell (row, col) scores. */
  function VisitScore(g: Grid, d: Direction, row: int, col: int): int
    requires IsGrid(g) && 0 <= row < 4 && 0 <= col < 4
  {
    VisitGain(Line(g, d, LineIndex(d, row, col)), Position(d, row, col))
  }

  /** How many positions of line L the first n steps of a move in
      direction d have visited. The lines are rows for LEFT and RIGHT, so
      the scan finishes one line before it starts the next; they are
      columns for UP and DOWN, so each row of the scan advances every line
      by one position. */
  function Done(d: Direction, n: int, L: int): (m: int)
    requires 0 <= n <= 16 && 0 <= L < 4
    ensures 0 <= m <= 4
  {
    var s := Scan(Reversed(d), L);
    var a := ScanIndex(n);
    if d == Left || d == Right then (if s < a then 4 else if s == a then n - 4 * a else 0)
    else a + (if s < n - 4 * a then 1 else 0)
  }

  /** Done for the four lines. */
  function DoneAll(d: Direction, n: int): (pos: seq<int>)
    requires 0 <= n <= 16
    ensures |pos| == 4 && forall L :: 0 <= L < 4 ==> 0 <= pos[L] <= 4
  {
    seq(4, L requires 0 <= L < 4 => Done(d, n, L))
  }

  /** Before the scan no line is visited. */
  lemma DoneStart(d: Direction, n: int)
    requires n == 0
    ensures DoneAll(d, n) == [0, 0, 0, 0]
  {
  }

  /** After all sixteen steps every line is visited to its end. */
  lemma DoneFull(d: Direction, L: int)
    requires 0 <= L < 4
    ensures DoneAll(d, 16)[L] == 4
  {
  }

  /** The n-th step of the scan visits the next position of its line,
      and advances that line alone. */
  lemma DoneStep(d: Direction, n: int)
    requires 0 < n <= 16
    ensures DoneAll(d, n - 1)[ScanLine(d, n - 1)] == ScanPos(d, n - 1)
    ensures DoneAll(d, n) == DoneAll(d, n - 1)[ScanLine(d, n - 1) := ScanPos(d, n - 1) + 1]
  {
    var L, p := ScanLine(d, n - 1), ScanPos(d, n - 1);
    var u, w := DoneAll(d, n - 1), DoneAll(d, n);
    DoneLine(d, n - 1, L);
    forall L' | 0 <= L' < 4 ensures w[L'] == u[L := p + 1][L'] {
      DoneLine(d, n - 1, L');
    }
  }

  /** DoneStep for one line L'. */
  lemma DoneLine(d: Direction, n: int, L': int)
    requires 0 <= n < 16 && 0 <= L' < 4
    ensures var r, c := ScanRow(d, n), ScanCol(d, n);
      var L, p := LineIndex(d, r, c), Position(d, r, c);
      (L' == L ==> Done(d, n, L') == p) &&
      Done(d, n + 1, L') == Done(d, n, L') + (if L' == L then 1 else 0)
  {
    var a := ScanIndex(n);
    if n - 4 * a < 3 {
      assert ScanIndex(n + 1) == a;
    } else {
      assert ScanIndex(n + 1) == a + 1;
    }
    match d
    case Left =>
    case Right =>
    case Up =>
    case Down =>
  }

  /** Cell (row, col) is the n-th one the scan visits when the loop
      counters stand at row and col. */
  lemma ScanStep(d: Direction, rev: bool, row: int, col: int, n: int)
    requires rev == Reversed(d) && 0 <= row < 4 && 0 <= col < 4
    requires n == 4 * Scan(rev, row) + Scan(rev, col)
    ensures 0 <= n < 16 && ScanRow(d, n) == row && ScanCol(d, n) == col
  {
  }

  /** Step i of a move's scan as recorded in a trace: board i + 1 is board
      i with the i-th cell visited, and score i + 1 adds what that visit
      scores. */
  predicate ScanNext(d: Direction, boards: seq<Grid>, gains: seq<int>, i: int)
    requires 0 <= i < 16 && i + 1 < |boards| && i + 1 < |gains|
  {
    IsGrid(boards[i]) &&
    boards[i + 1] == VisitGrid(boards[i], d, ScanRow(d, i), ScanCol(d, i)) &&
    gains[i + 1] == gains[i] + VisitScore(boards[i], d, ScanRow(d, i), ScanCol(d, i))
  }

  /** A recorded step stays recorded when the trace grows. */
  lemma ScanNextExtend(d: Direction, boards: seq<Grid>, gains: seq<int>, g: Grid, x: int, i: int)
    requires 0 <= i < 16 && i + 1 < |boards| && i + 1 < |gains|
    requires ScanNext(d, boards, gains, i)
    ensures ScanNext(d, boards + [g], gains + [x], i)
  {
    var boards', gains' := boards + [g], gains + [x];
    assert boards'[i] == boards[i] && boards'[i + 1] == boards[i + 1];
    assert gains'[i] == gains[i] && gains'[i + 1] == gains[i + 1];
  }

  /** boards and gains record the sixteen steps of a move's scan from board
      g0: the boards after each step and the points scored so far. */
  predicate IsTrace(g0: Grid, d: Direction, boards: seq<Grid>, gains: seq<int>)
  {
    |boards| == 17 && |gains| == 17 && boards[0] == g0 && gains[0] == 0 &&
    forall i :: 0 <= i < 16 ==> ScanNext(d, boards, gains, i)
  }

  /** Extending a record of the first n steps by the visit of the n-th
      cell records the first n + 1 steps. */
  lemma ScanAppend(d: Direction, boards: seq<Grid>, gains: seq<int>, n: int) returns (boards': seq<Grid>, gains': seq<int>)
    requires 0 <= n < 16 && |boards| == n + 1 && |gains| == n + 1 && IsGrid(boards[n])
    requires forall i :: 0 <= i < n ==> ScanNext(d, boards, gains, i)
    ensures |boards'| == n + 2 && |gains'| == n + 2 && boards'[0] == boards[0] && gains'[0] == gains[0]
    ensures IsGrid(boards'[n + 1]) && forall i :: 0 <= i < n + 1 ==> ScanNext(d, boards', gains', i)
  {
    var g, r, c := boards[n], ScanRow(d, n), ScanCol(d, n);
    boards', gains' := boards + [VisitGrid(g, d, r, c)], gains + [gains[n] + VisitScore(g, d, r, c)];
    forall i | 0 <= i < n
      ensures ScanNext(d, boards', gains', i)
    {
      ScanNextExtend(d, boards, gains, boards'[n + 1], gains'[n + 1], i);
    }
  }

  /** The scan of a move from g0 has a trace, and it ends at the Moved
      board having scored MoveGain. */
  lemma ScanTrace(g0: Grid, d: Direction) returns (boards: seq<Grid>, gains: seq<int>)
    requires IsGrid(g0)
    ensures |boards| == 17 && |gains| == 17 && boards[0] == g0 && gains[0] == 0
    ensures forall i :: 0 <= i < 16 ==> ScanNext(d, boards, gains, i)
    ensures IsGrid(boards[16]) && boards[16] == Moved(g0, d) && gains[16] == MoveGain(g0, d)
  {
    boards, gains := [g0], [0];
    var n := 0;
    while n < 16
      invariant 0 <= n <= 16 && |boards| == n + 1 && |gains| == n + 1
      invariant boards[0] == g0 && gains[0] == 0 && IsGrid(boards[n])
      invariant forall i :: 0 <= i < n ==> ScanNext(d, boards, gains, i)
    {
      boards, gains := ScanAppend(d, boards, gains, n);
      n := n + 1;
    }
    TraceMoves(g0, d, boards, gains);
  }

  /** The score still pending on the four lines, line L visited up to
      pos[L]. */
  function PendingAll(g: Grid, d: Direction, pos: seq<int>): int
    requires IsGrid(g) && |pos| == 4 && forall L :: 0 <= L < 4 ==> 0 <= pos[L] <= 4
  {
    Pending(Line(g, d, 0), pos[0]) + Pending(Line(g, d, 1), pos[1]) +
    Pending(Line(g, d, 2), pos[2]) + Pending(Line(g, d, 3), pos[3])
  }

  /** Changing line L alone, and its position, changes the pending score by
      that line's change. */
  lemma PendingStep(g: Grid, h: Grid, d: Direction, pos: seq<int>, L: int, n: int)
    requires IsGrid(g) && IsGrid(h) && 0 <= L < 4 && 0 <= n <= 4
    requires |pos| == 4 && forall L' :: 0 <= L' < 4 ==> 0 <= pos[L'] <= 4
    requires forall L' :: 0 <= L' < 4 && L' != L ==> Line(h, d, L') == Line(g, d, L')
    ensures PendingAll(h, d, pos[L := n]) ==
      PendingAll(g, d, pos) - Pending(Line(g, d, L), pos[L]) + Pending(Line(h, d, L), n)
  {
    assert L == 0 || L == 1 || L == 2 || L == 3;
  }

  /** The state of a move's scan: line L of g, which was line L of g0
      before the move, is in LineInv up to position pos[L], and the points
      gained so far plus those still pending are the whole gain of the
      move. */
  predicate Progress(g0: Grid, g: Grid, d: Direction, pos: seq<int>, gained: int)
    requires IsGrid(g0) && IsGrid(g)
  {
    |pos| == 4 && (forall L :: 0 <= L < 4 ==> 0 <= pos[L] <= 4) &&
    (forall L :: 0 <= L < 4 ==> LineInv(Line(g0, d, L), Line(g, d, L), pos[L])) &&
    gained + PendingAll(g, d, pos) == MoveGain(g0, d)
  }

  /** Before the scan nothing is visited and nothing gained. */
  lemma ProgressStart(g0: Grid, d: Direction)
    requires IsGrid(g0)
    ensures Progress(g0, g0, d, [0, 0, 0, 0], 0)
  {
    SweepStart(Line(g0, d, 0));
    SweepStart(Line(g0, d, 1));
    SweepStart(Line(g0, d, 2));
    SweepStart(Line(g0, d, 3));
  }

  /** Placing, as line L, a line that is in LineInv a position further
      keeps Progress, with the pending score the line gave up added to the
      points gained. */
  lemma ProgressReplace(g0: Grid, g: Grid, d: Direction, pos: seq<int>, gained: int, L: int, p: int, u: seq<int>, x: int,
                         h: Grid, pos': seq<int>, gained': int)
    requires IsGrid(g0) && IsGrid(g) && 0 <= L < 4 && 0 <= p < 4 && |u| == 4
    requires Progress(g0, g, d, pos, gained) && pos[L] == p
    requires LineInv(Line(g0, d, L), u, p + 1)
    requires Pending(Line(g, d, L), p) == x + Pending(u, p + 1)
    requires h == Place(g, d, L, u) && pos' == pos[L := p + 1] && gained' == gained + x
    ensures IsGrid(h) && Progress(g0, h, d, pos', gained')
  {
    PlaceLines(g, d, L, u);
    forall L' | 0 <= L' < 4
      ensures LineInv(Line(g0, d, L'), Line(h, d, L'), pos'[L'])
    {
      if L' != L {
        assert Line(h, d, L') == Line(g, d, L') && pos'[L'] == pos[L'];
      }
    }
    PendingStep(g, h, d, pos, L, p + 1);
  }

  /** The n-th step of a trace replaces the line of the scan's n-th cell
      by one that is in LineInv a position further, and scores the pending
      points that line gives up. */
  lemma TraceVisit(g0: Grid, d: Direction, boards: seq<Grid>, gains: seq<int>, n: int) returns (u: seq<int>, x: int)
    requires IsGrid(g0) && IsTrace(g0, d, boards, gains) && 0 < n <= 16 && IsGrid(boards[n - 1])
    requires LineInv(Line(g0, d, ScanLine(d, n - 1)), Line(boards[n - 1], d, ScanLine(d, n - 1)), ScanPos(d, n - 1))
    ensures |u| == 4 && IsGrid(boards[n])
    ensures boards[n] == Place(boards[n - 1], d, ScanLine(d, n - 1), u) && gains[n] == gains[n - 1] + x
    ensures LineInv(Line(g0, d, ScanLine(d, n - 1)), u, ScanPos(d, n - 1) + 1)
    ensures Pending(Line(boards[n - 1], d, ScanLine(d, n - 1)), ScanPos(d, n - 1)) == x + Pending(u, ScanPos(d, n - 1) + 1)
  {
    assert ScanNext(d, boards, gains, n - 1);
    var t, p := Line(boards[n - 1], d, ScanLine(d, n - 1)), ScanPos(d, n - 1);
    u, x := Visit(t, p), VisitGain(t, p);
    StepVisit(Line(g0, d, ScanLine(d, n - 1)), t, p);
  }

  /** After n steps of a trace, each line is in LineInv up to the
      positions visited, and the points scored plus those pending are the
      move's gain. */
  lemma {:induction false} TraceProgress(g0: Grid, d: Direction, boards: seq<Grid>, gains: seq<int>, n: int)
    requires IsGrid(g0) && IsTrace(g0, d, boards, gains) && 0 <= n <= 16
    ensures IsGrid(boards[n]) && Progress(g0, boards[n], d, DoneAll(d, n), gains[n])
  {
    if n == 0 {
      ProgressStart(g0, d);
      DoneStart(d, n);
      assert boards[n] == g0 && gains[n] == 0;
    } else {
      TraceProgress(g0, d, boards, gains, n - 1);
      DoneStep(d, n);
      var L, p := ScanLine(d, n - 1), ScanPos(d, n - 1);
      var u, x := TraceVisit(g0, d, boards, gains, n);
      ProgressReplace(g0, boards[n - 1], d, DoneAll(d, n - 1), gains[n - 1], L, p, u, x,
                      boards[n], DoneAll(d, n), gains[n]);
    }
  }

  /** The engine's scan over all sixteen cells is the reference move: any
      trace of it ends at the Moved board having scored MoveGain. */
  lemma TraceMoves(g0: Grid, d: Direction, boards: seq<Grid>, gains: seq<int>)
    requires IsGrid(g0) && IsTrace(g0, d, boards, gains)
    ensures IsGrid(boards[16]) && boards[16] == Moved(g0, d) && gains[16] == MoveGain(g0, d)
  {
    var n := 16;
    TraceProgress(g0, d, boards, gains, n);
    var g, pos := boards[n], DoneAll(d, n);
    forall L | 0 <= L < 4
      ensures Line(g, d, L) == Collapse(Line(g0, d, L)) && Pending(Line(g, d, L), pos[L]) == 0
    {
      DoneFull(d, L);
      SweepDone(Line(g0, d, L), Line(g, d, L), pos[L]);
    }
    LinesDetermine(g, g0, d);
  }

  class Game {
    /** The tile values, indexed [row, col]; 0 is an empty cell. */
    var grid: array2<int>
    var moves: int
    var score: int
    /** The number of empty cells, kept up to date operation by operation. */
    var emptyCount: int
    /** The board as a value, kept equal to the array. */
    ghost var cells: Grid

    /** The array is 4x4 and holds the board cells. */
    ghost predicate Synced()
      reads this, grid
    {
      grid.Length0 == 4 && grid.Length1 == 4 && IsGrid(cells) &&
      forall r, c :: 0 <= r < 4 && 0 <= c < 4 ==> grid[r, c] == cells[r][c]
    }

    /** The engine's invariant: the counter matches the empty cells, every
        tile is a power of two from 2 up, and the counters are not
        negative. */
    ghost predicate Valid()
      reads this, grid
    {
      Synced() && emptyCount == ZeroCount(cells) && ValidTiles(cells) &&
      score >= 0 && moves >= 0
    }

    /** A new game with the two spawn draws k1 and k2. */
    constructor (k1: nat, k2: nat)
      requires k1 < 16 && k2 < 15
      ensures Valid() && fresh(grid)
      ensures cells == Initial(k1, k2) && emptyCount == 14
      ensures score == 0 && moves == 0
    {
      grid := new int[4, 4]((r, c) => 0);
      cells := Empty();
      moves, score, emptyCount := 0, 0, 16;
      new;
      InitGame(k1, k2);
    }

    /** Starts a new game: counters reset, an empty board, then two tiles
        spawned with the draws k1 and k2. */
    method InitGame(k1: nat, k2: nat)
      requires k1 < 16 && k2 < 15
      modifies this
      ensures Valid() && fresh(grid)
      ensures cells == Initial(k1, k2) && emptyCount == 14
      ensures score == 0 && moves == 0
    {
      emptyCount := 16;
      score := 0;
      moves := 0;
      grid := new int[4, 4]((r, c) => 0);
      cells := Empty();
      ByCells(cells);
      AddNewNumber(k1);
      AddNewNumber(k2);
    }

    /** Puts a 2 into the k-th empty cell, counting in row-major order from
        0; does nothing on a full board. k is the random draw, below the
        number of empty cells. */
    method AddNewNumber(k: nat)
      requires Valid()
      requires emptyCount > 0 ==> k < emptyCount
      modifies this`emptyCount, this`cells, grid
      ensures Valid()
      ensures cells == AfterSpawn(old(cells), k)
      ensures emptyCount == if old(emptyCount) == 0 then 0 else old(emptyCount) - 1
    {
      if emptyCount == 0 {
        return;
      }
      var tileToSkip := k;
      emptyCount := emptyCount - 1;
      ghost var f := Flatten(cells);
      var row := 0;
      while row < 4
        invariant 0 <= row <= 4
        invariant Synced() && cells == old(cells) && emptyCount == old(emptyCount) - 1
        invariant 0 <= tileToSkip && tileToSkip + Count0(f[..4 * row]) == k
      {
        var col := 0;
        while col < 4
          invariant 0 <= col <= 4
          invariant Synced() && cells == old(cells) && emptyCount == old(emptyCount) - 1
          invariant 0 <= tileToSkip && tileToSkip + Count0(f[..4 * row + col]) == k
        {
          Count0Next(f, 4 * row + col);
          FlattenCell(cells, row, col);
          if grid[row, col] == 0 {
            if tileToSkip == 0 {
              grid[row, col] := 2;
              SpawnedAt(cells, k, row, col);
              cells := SetCell(cells, row, col, 2);
              return;
            }
            tileToSkip := tileToSkip - 1;
          }
          col := col + 1;
        }
        row := row + 1;
      }
      Count0Whole(f);
      assert false;
    }

    /** Copies the tile at (r2, c2) into (r1, c1) and empties (r2, c2). */
    method MoveTile(r1: int, c1: int, r2: int, c2: int)
      requires Valid()
      requires 0 <= r1 < 4 && 0 <= c1 < 4 && 0 <= r2 < 4 && 0 <= c2 < 4
      modifies this`cells, grid
      ensures Synced()
      ensures cells == SetCell(SetCell(old(cells), r1, c1, old(cells[r2][c2])), r2, c2, 0)
      ensures old(cells[r1][c1]) == 0 ==> Valid()
    {
      grid[r1, c1] := grid[r2, c2];
      grid[r2, c2] := 0;
      if cells[r1][c1] == 0 {
        MoveCells(cells, r1, c1, r2, c2);
      }
      cells := SetCell(SetCell(cells, r1, c1, cells[r2][c2]), r2, c2, 0);
    }

    /** Compares the tile at (r1, c1) with the cell (r2, c2). With either
        cell empty it answers false (keep looking) and changes nothing; with
        different tiles it answers true (stop) and changes nothing; with
        equal tiles it doubles the first, empties the second, adds the new
        value to the score, counts the freed cell and answers true. */
    method MatchTile(r1: int, c1: int, r2: int, c2: int) returns (stop: bool)
      requires Valid()
      requires 0 <= r1 < 4 && 0 <= c1 < 4 && 0 <= r2 < 4 && 0 <= c2 < 4 && (r1, c1) != (r2, c2)
      modifies this`score, this`emptyCount, this`cells, grid
      ensures Valid()
      ensures stop <==> old(cells[r1][c1]) != 0 && old(cells[r2][c2]) != 0
      ensures var x := old(cells[r1][c1]);
        if x != 0 && x == old(cells[r2][c2]) then
          cells == SetCell(SetCell(old(cells), r1, c1, 2 * x), r2, c2, 0) &&
          score == old(score) + 2 * x && emptyCount == old(emptyCount) + 1
        else
          cells == old(cells) && score == old(score) && emptyCount == old(emptyCount)
    {
      if grid[r1, c1] == 0 || grid[r2, c2] == 0 {
        return false;
      }
      if grid[r1, c1] != grid[r2, c2] {
        return true;
      }
      grid[r1, c1] := grid[r1, c1] * 2;
      grid[r2, c2] := 0;
      score := score + grid[r1, c1];
      emptyCount := emptyCount + 1;
      MergeCells(cells, r1, c1, r2, c2);
      cells := SetCell(SetCell(cells, r1, c1, 2 * cells[r1][c1]), r2, c2, 0);
      return true;
    }

    /** The match scan from the tile at position p of line L, which is line
        t placed on board g: it looks away from the
        edge the move goes toward, past empty cells, and stops at the
        first tile, where it merges the two when they are equal, or at the
        end of the line. */
    method MatchScan(dir: Direction, L: int, p: int, ghost g: Grid, ghost t: seq<int>)
      requires Valid() && IsGrid(g) && 0 <= L < 4 && 0 <= p < 4 && |t| == 4
      requires cells == Place(g, dir, L, t) && t[p] != 0
      modifies this`score, this`emptyCount, this`cells, grid
      ensures Valid()
      ensures var i := NextFrom(t, p + 1);
        cells == Place(g, dir, L, Matched(t, p, i)) && score == old(score) + MatchGain(t, p, i)
    {
      var row, col := RowOf(dir, L, p), ColOf(dir, L, p);
      PlaceCell(g, dir, L, t, p);
      var j := p + 1;
      while j < 4
        invariant p + 1 <= j <= 4
        invariant Valid() && cells == old(cells) && score == old(score)
        invariant NextFrom(t, p + 1) == NextFrom(t, j)
      {
        PlaceCell(g, dir, L, t, j);
        var stop := MatchTile(row, col, RowOf(dir, L, j), ColOf(dir, L, j));
        if stop {
          if t[j] == t[p] {
            PlaceTwo(g, dir, L, t, p, 2 * t[p], j, 0);
          }
          return;
        }
        j := j + 1;
      }
    }

    /** The slide of the tile at position p of line L toward the edge
        through empty cells; it stops at the edge or next to a tile. The
        line is t placed on board g. */
    method Slide(dir: Direction, L: int, p: int, ghost g: Grid, ghost t: seq<int>)
      requires Valid() && IsGrid(g) && 0 <= L < 4 && 0 <= p < 4 && |t| == 4
      requires cells == Place(g, dir, L, t) && t[p] != 0
      modifies this`cells, grid
      ensures Valid()
      ensures cells == Place(g, dir, L, Slid(t, p, SlideTo(t, p)))
    {
      ghost var v := t[p];
      var j := p;
      assert t[p := 0][j := v] == t;
      while j > 0 && grid[RowOf(dir, L, j - 1), ColOf(dir, L, j - 1)] == 0
        invariant 0 <= j <= p
        invariant Valid()
        invariant cells == Place(g, dir, L, t[p := 0][j := v])
        invariant SlideTo(t, j) == SlideTo(t, p) && (j < p ==> t[j] == 0)
      {
        ShiftTile(dir, L, j, g, t, p, v);
        j := j - 1;
      }
      if j > 0 {
        PlaceCell(g, dir, L, t[p := 0][j := v], j - 1);
      }
    }

    /** One step of a slide: the tile at position j of line L moves into
        the empty position j - 1. */
    method ShiftTile(dir: Direction, L: int, j: int, ghost g: Grid, ghost t: seq<int>, ghost p: int, ghost v: int)
      requires Valid() && IsGrid(g) && 0 <= L < 4 && 0 < j <= p < 4 && |t| == 4
      requires cells == Place(g, dir, L, t[p := 0][j := v])
      requires grid[RowOf(dir, L, j - 1), ColOf(dir, L, j - 1)] == 0 && (j < p ==> t[j] == 0)
      modifies this`cells, grid
      ensures Valid() && cells == Place(g, dir, L, t[p := 0][j - 1 := v])
      ensures t[j - 1] == 0 && SlideTo(t, j - 1) == SlideTo(t, j)
    {
      ghost var u := t[p := 0][j := v];
      var r1, c1, r2, c2 := RowOf(dir, L, j - 1), ColOf(dir, L, j - 1), RowOf(dir, L, j), ColOf(dir, L, j);
      PlaceCell(g, dir, L, u, j - 1);
      assert t[j - 1] == u[j - 1] == 0;
      PlaceCell(g, dir, L, u, j);
      assert cells[r1][c1] == 0 && cells[r2][c2] == v;
      MoveTile(r1, c1, r2, c2);
      PlaceTwo(g, dir, L, u, j - 1, v, j, 0);
      SlideStep(t, p, j, v);
    }

    /** The body of a move's scan at cell (row, col): an empty cell is
        skipped; a tile is matched, then slid. */
    method VisitCell(dir: Direction, row: int, col: int)
      requires Valid() && 0 <= row < 4 && 0 <= col < 4
      modifies this`score, this`emptyCount, this`cells, grid
      ensures Valid()
      ensures cells == VisitGrid(old(cells), dir, row, col)
      ensures score == old(score) + VisitScore(old(cells), dir, row, col)
    {
      var L, p := LineIndex(dir, row, col), Position(dir, row, col);
      ghost var g0, t := cells, Line(cells, dir, L);
      CellOnLine(g0, dir, row, col);
      if grid[row, col] == 0 {
        PlaceSame(g0, dir, L);
        return;
      }
      PlaceSame(g0, dir, L);
      MatchScan(dir, L, p, g0, t);
      ghost var t1 := Matched(t, p, NextFrom(t, p + 1));
      Slide(dir, L, p, g0, t1);
    }

    /** One move in direction dir. The move counter goes up by one whether
        or not anything moves; the board becomes the reference Moved board
        and the score rises by the value of every tile the merges produce. */
    method DoAction(dir: Direction)
      requires Valid()
      modifies this`moves, this`score, this`emptyCount, this`cells, grid
      ensures Valid()
      ensures cells == Moved(old(cells), dir)
      ensures score == old(score) + MoveGain(old(cells), dir)
      ensures moves == old(moves) + 1
    {
      moves := moves + 1;
      ghost var score0 := score;
      ghost var boards, gains := ScanTrace(cells, dir);
      ghost var n := 0;
      var reverse := dir == Down || dir == Right;
      var row := if reverse then 3 else 0;
      while if reverse then row >= 0 else row < 4
        invariant if reverse then -1 <= row <= 3 else 0 <= row <= 4
        invariant n == 4 * Scan(reverse, row)
        invariant Valid() && moves == old(moves) + 1
        invariant cells == boards[n] && score == score0 + gains[n]
        decreases if reverse then row + 1 else 4 - row
      {
        var col := if reverse then 3 else 0;
        while if reverse then col >= 0 else col < 4
          invariant if reverse then -1 <= col <= 3 else 0 <= col <= 4
          invariant n == 4 * Scan(reverse, row) + Scan(reverse, col)
          invariant Valid() && moves == old(moves) + 1
          invariant cells == boards[n] && score == score0 + gains[n]
          decreases if reverse then col + 1 else 4 - col
        {
          ScanStep(dir, reverse, row, col, n);
          assert ScanNext(dir, boards, gains, n);
          VisitCell(dir, row, col);
          n := n + 1;
          col := if reverse then col - 1 else col + 1;
        }
        row := if reverse then row - 1 else row + 1;
      }
      assert n == 16;
    }

    /** The board is full exactly when the empty-cell counter is 0. */
    function IsFull(): (full: bool)
      reads this, grid
      requires Valid()
      ensures full <==> forall r, c :: 0 <= r < 4 && 0 <= c < 4 ==> grid[r, c] != 0
    {
      ZeroCountNone(cells);
      emptyCount == 0
    }

    /** Whether some cell equals one of its neighbours, checking every cell
        against all four sides. */
    method CheckForPossibleMove() returns (possible: bool)
      requires Valid()
      ensures possible <==> CanMerge(cells)
    {
      var row := 0;
      while row < 4
        invariant 0 <= row <= 4
        invariant forall r, c :: 0 <= r < row && 0 <= c < 4 ==> !NeighbourCheck(cells, r, c)
      {
        var col := 0;
        while col < 4
          invariant 0 <= col <= 4
          invariant forall r, c :: 0 <= r < row && 0 <= c < 4 ==> !NeighbourCheck(cells, r, c)
          invariant forall c :: 0 <= c < col ==> !NeighbourCheck(cells, row, c)
        {
          if row > 0 && grid[row, col] == grid[row - 1, col] {
            assert EqualNeighbour(cells, row - 1, col);
            return true;
          }
          if row < 3 && grid[row, col] == grid[row + 1, col] {
            assert EqualNeighbour(cells, row, col);
            return true;
          }
          if col > 0 && grid[row, col] == grid[row, col - 1] {
            assert EqualNeighbour(cells, row, col - 1);
            return true;
          }
          if col < 3 && grid[row, col] == grid[row, col + 1] {
            assert EqualNeighbour(cells, row, col);
            return true;
          }
          col := col + 1;
        }
        row := row + 1;
      }
      assert forall r, c :: 0 <= r < 4 && 0 <= c < 4 ==> !EqualNeighbour(cells, r, c) by {
        forall r, c | 0 <= r < 4 && 0 <= c < 4 ensures !EqualNeighbour(cells, r, c) {
          assert !NeighbourCheck(cells, r, c);
        }
      }
      return false;
    }

    /** One key press: the move for an arrow key (none for any other key),
        then always a spawn with the draw k, then a new game with the draws
        k1 and k2 if the board is full with no adjacent pair to merge. */
    method KeyPressed(key: Key, k: nat, k1: nat, k2: nat)
      requires Valid()
      requires ZeroCount(AfterKey(cells, key)) > 0 ==> k < ZeroCount(AfterKey(cells, key))
      requires k1 < 16 && k2 < 15
      modifies this, grid
      ensures Valid()
      ensures var g := AfterSpawn(AfterKey(old(cells), key), k);
        if GameOver(g) then
          cells == Initial(k1, k2) && score == 0 && moves == 0
        else
          cells == g && grid == old(grid) &&
          score == old(score) + (if key.Arrow? then MoveGain(old(cells), key.dir) else 0) &&
          moves == old(moves) + (if key.Arrow? then 1 else 0)
    {
      if key.Arrow? {
        DoAction(key.dir);
      }
      AddNewNumber(k);
      ZeroCountNone(cells);
      if IsFull() {
        var possible := CheckForPossibleMove();
        if !possible {
          InitGame(k1, k2);
        }
      }
    }
  }
}
