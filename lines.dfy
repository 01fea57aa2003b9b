/** Reference semantics of a single line of the board.

    A line is the four cells of one row or one column, listed starting at
    the edge the tiles move toward; 0 stands for an empty cell. A move
    collapses every line on its own: the nonzero tiles keep their order,
    equal neighbours merge pairwise starting at the edge, and a tile made by
    a merge takes no part in another merge in the same move. */
module Lines {

  /** The tiles of a line, empty cells dropped, in order. */
  function NonZeros(s: seq<int>): (r: seq<int>)
    ensures |r| <= |s|
    ensures forall i :: 0 <= i < |r| ==> r[i] != 0
  {
    if s == [] then []
    else if s[0] == 0 then NonZeros(s[1..])
    else [s[0]] + NonZeros(s[1..])
  }

  /** The number of empty cells. */
  function Count0(s: seq<int>): nat
  {
    if s == [] then 0 else (if s[0] == 0 then 1 else 0) + Count0(s[1..])
  }

  function Sum(s: seq<int>): int
  {
    if s == [] then 0 else s[0] + Sum(s[1..])
  }

  /** n empty cells. */
  function Zeros(n: nat): (r: seq<int>)
    ensures |r| == n
  {
    seq(n, _ => 0)
  }

  /** The tiles left after merging equal neighbours pairwise, the pair
      nearest the edge first. */
  function Merge(xs: seq<int>): (r: seq<int>)
    ensures |r| <= |xs| <= 2 * |r|
  {
    if |xs| < 2 then xs
    else if xs[0] == xs[1] then [2 * xs[0]] + Merge(xs[2..])
    else [xs[0]] + Merge(xs[1..])
  }

  /** The values of the tiles that Merge produces by merging, in order:
      one entry per merge, each one what the score gains for it. */
  function Merges(xs: seq<int>): (r: seq<int>)
    ensures |Merge(xs)| + |r| == |xs|
  {
    if |xs| < 2 then []
    else if xs[0] == xs[1] then [2 * xs[0]] + Merges(xs[2..])
    else Merges(xs[1..])
  }

  /** The line after a move: merged tiles packed against the edge, then
      empty cells. */
  function Collapse(s: seq<int>): (r: seq<int>)
    ensures |r| == |s|
  {
    var m := Merge(NonZeros(s));
    m + Zeros(|s| - |m|)
  }

  /** What a move earns on this line. */
  function LineGain(s: seq<int>): int
  {
    Sum(Merges(NonZeros(s)))
  }

  /** No tile follows an empty cell. */
  predicate Packed(s: seq<int>)
  {
    forall i, j :: 0 <= i < j < |s| && s[i] == 0 ==> s[j] == 0
  }

  predicate NoZeros(s: seq<int>)
  {
    forall i :: 0 <= i < |s| ==> s[i] != 0
  }

  predicate IsPow2(n: int)
    decreases if n < 1 then 0 else n
  {
    n == 1 || (n >= 2 && n % 2 == 0 && IsPow2(n / 2))
  }

  /** A cell value the game can produce: empty, or a power of two from 2 up. */
  predicate IsTile(v: int)
  {
    v == 0 || (v >= 2 && IsPow2(v))
  }

  predicate AllTiles(s: seq<int>)
  {
    forall i :: 0 <= i < |s| ==> IsTile(s[i])
  }

  // ---------------------------------------------------------------------
  // Algebra of the helpers

  lemma {:induction false} NonZerosAppend(a: seq<int>, b: seq<int>)
    ensures NonZeros(a + b) == NonZeros(a) + NonZeros(b)
  {
    if a == [] {
      assert a + b == b;
    } else {
      assert (a + b)[1..] == a[1..] + b;
      NonZerosAppend(a[1..], b);
    }
  }

  lemma {:induction false} NonZerosOfZeros(n: nat)
    ensures NonZeros(Zeros(n)) == []
  {
    if n > 0 {
      assert Zeros(n)[1..] == Zeros(n - 1);
      NonZerosOfZeros(n - 1);
    }
  }

  lemma {:induction false} NonZerosOfNoZeros(s: seq<int>)
    requires NoZeros(s)
    ensures NonZeros(s) == s
  {
    if s != [] {
      NonZerosOfNoZeros(s[1..]);
    }
  }

  lemma {:induction false} Count0Append(a: seq<int>, b: seq<int>)
    ensures Count0(a + b) == Count0(a) + Count0(b)
  {
    if a == [] {
      assert a + b == b;
    } else {
      assert (a + b)[1..] == a[1..] + b;
      Count0Append(a[1..], b);
    }
  }

  /** Every cell is either empty or a tile. */
  lemma {:induction false} Count0NonZeros(s: seq<int>)
    ensures Count0(s) + |NonZeros(s)| == |s|
  {
    if s != [] {
      Count0NonZeros(s[1..]);
    }
  }

  lemma {:induction false} Count0OfZeros(n: nat)
    ensures Count0(Zeros(n)) == n
  {
    if n > 0 {
      assert Zeros(n)[1..] == Zeros(n - 1);
      Count0OfZeros(n - 1);
    }
  }

  /** A line has no empty cell exactly when its empty-cell count is 0. */
  lemma {:induction false} Count0None(s: seq<int>)
    ensures Count0(s) == 0 <==> NoZeros(s)
  {
    if s != [] {
      Count0None(s[1..]);
      if Count0(s) == 0 {
        assert forall i :: 1 <= i < |s| ==> s[i] == s[1..][i - 1];
      }
    }
  }

  /** Overwriting one cell changes the count by what left and what came. */
  lemma {:induction false} Count0Update(s: seq<int>, n: nat, v: int)
    requires n < |s|
    ensures Count0(s[n := v]) == Count0(s) - (if s[n] == 0 then 1 else 0) + (if v == 0 then 1 else 0)
  {
    if n > 0 {
      assert s[n := v][1..] == s[1..][n - 1 := v];
      Count0Update(s[1..], n - 1, v);
    }
  }

  /** Counting empty cells along a prefix only ever grows, and strictly
      across an empty cell. */
  lemma Count0Prefix(s: seq<int>, i: nat, j: nat)
    requires i < j <= |s|
    ensures Count0(s[..i]) + (if s[i] == 0 then 1 else 0) <= Count0(s[..j])
  {
    assert s[..j] == s[..i] + [s[i]] + s[i + 1..j];
    Count0Append(s[..i] + [s[i]], s[i + 1..j]);
    Count0Append(s[..i], [s[i]]);
  }

  /** Extending a prefix by one cell counts that cell. */
  lemma Count0Next(s: seq<int>, n: nat)
    requires n < |s|
    ensures Count0(s[..n + 1]) == Count0(s[..n]) + (if s[n] == 0 then 1 else 0)
  {
    assert s[..n + 1] == s[..n] + [s[n]];
    Count0Append(s[..n], [s[n]]);
  }

  /** The whole sequence as a prefix of itself. */
  lemma Count0Whole(s: seq<int>)
    ensures Count0(s[..|s|]) == Count0(s)
  {
    assert s[..|s|] == s;
  }

  /** When there are more than k empty cells, the k-th one (from 0) exists. */
  lemma {:induction false} KthZero(s: seq<int>, k: nat) returns (n: nat)
    requires k < Count0(s)
    ensures n < |s| && s[n] == 0 && Count0(s[..n]) == k
  {
    if s[0] == 0 && k == 0 {
      n := 0;
    } else {
      var k' := if s[0] == 0 then k - 1 else k;
      var n' := KthZero(s[1..], k');
      n := n' + 1;
      assert s[..n][1..] == s[1..][..n'];
    }
  }

  lemma {:induction false} SumAppend(a: seq<int>, b: seq<int>)
    ensures Sum(a + b) == Sum(a) + Sum(b)
  {
    if a == [] {
      assert a + b == b;
    } else {
      assert (a + b)[1..] == a[1..] + b;
      SumAppend(a[1..], b);
    }
  }

  /** Overwriting one element changes the sum by what left and what came. */
  lemma {:induction false} SumUpdate(s: seq<int>, n: nat, v: int)
    requires n < |s|
    ensures Sum(s[n := v]) == Sum(s) - s[n] + v
  {
    if n > 0 {
      assert s[n := v][1..] == s[1..][n - 1 := v];
      SumUpdate(s[1..], n - 1, v);
    }
  }

  lemma {:induction false} SumOfZeros(n: nat)
    ensures Sum(Zeros(n)) == 0
  {
    if n > 0 {
      assert Zeros(n)[1..] == Zeros(n - 1);
      SumOfZeros(n - 1);
    }
  }

  /** Dropping empty cells does not change the total. */
  lemma {:induction false} SumNonZeros(s: seq<int>)
    ensures Sum(NonZeros(s)) == Sum(s)
  {
    if s != [] {
      SumNonZeros(s[1..]);
    }
  }

  /** A packed line is its tiles followed by empty cells, and its tiles are
      exactly the cells before the first empty one. */
  lemma {:induction false} PackedSplit(s: seq<int>)
    requires Packed(s)
    ensures s == NonZeros(s) + Zeros(|s| - |NonZeros(s)|)
    ensures forall i :: 0 <= i < |s| ==> (s[i] != 0 <==> i < |NonZeros(s)|)
  {
    if s != [] {
      var t := s[1..];
      assert Packed(t) by {
        forall i, j | 0 <= i < j < |t| && t[i] == 0 ensures t[j] == 0 {
          assert s[i + 1] == 0;
        }
      }
      PackedSplit(t);
      if s[0] == 0 {
        assert forall i :: 0 <= i < |s| ==> s[i] == 0;
        NonZerosOfZeros(|s|);
        assert s == Zeros(|s|);
      } else {
        assert s == [s[0]] + t;
      }
    }
  }

  /** Tiles followed by empty cells form a packed line with those tiles. */
  lemma PackedOf(u: seq<int>, n: nat)
    requires NoZeros(u)
    ensures Packed(u + Zeros(n))
    ensures NonZeros(u + Zeros(n)) == u
  {
    NonZerosAppend(u, Zeros(n));
    NonZerosOfZeros(n);
    NonZerosOfNoZeros(u);
  }

  // ---------------------------------------------------------------------
  // Properties of the pairwise merge

  /** Merging never creates an empty cell. */
  lemma {:induction false} MergeNoZeros(xs: seq<int>)
    requires NoZeros(xs)
    ensures NoZeros(Merge(xs))
  {
    if |xs| >= 2 {
      if xs[0] == xs[1] {
        MergeNoZeros(xs[2..]);
      } else {
        MergeNoZeros(xs[1..]);
      }
    }
  }

  /** Merging conserves the total value of the tiles. */
  lemma {:induction false} SumMerge(xs: seq<int>)
    ensures Sum(Merge(xs)) == Sum(xs)
  {
    if |xs| >= 2 {
      if xs[0] == xs[1] {
        SumMerge(xs[2..]);
        assert xs == [xs[0], xs[1]] + xs[2..];
        SumAppend([xs[0], xs[1]], xs[2..]);
        SumAppend([2 * xs[0]], Merge(xs[2..]));
      } else {
        SumMerge(xs[1..]);
        SumAppend([xs[0]], Merge(xs[1..]));
      }
    }
  }

  /** Merging powers of two yields powers of two. */
  lemma {:induction false} MergeTiles(xs: seq<int>)
    requires NoZeros(xs) && AllTiles(xs)
    ensures AllTiles(Merge(xs))
  {
    if |xs| >= 2 {
      if xs[0] == xs[1] {
        MergeTiles(xs[2..]);
        assert IsPow2(2 * xs[0]);
      } else {
        MergeTiles(xs[1..]);
      }
    }
  }

  /** Each point scored is a tile value that stays on the line: the values
      produced by merges occur among the merged tiles. */
  lemma {:induction false} MergesOnLine(xs: seq<int>)
    ensures multiset(Merges(xs)) <= multiset(Merge(xs))
  {
    if |xs| >= 2 {
      if xs[0] == xs[1] {
        MergesOnLine(xs[2..]);
      } else {
        MergesOnLine(xs[1..]);
      }
    }
  }

  /** With positive tiles the gain is positive exactly when some pair
      merged, and it never exceeds the tiles' total. */
  lemma {:induction false} MergesGain(xs: seq<int>)
    requires forall i :: 0 <= i < |xs| ==> xs[i] > 0
    ensures 0 <= Sum(Merges(xs)) <= Sum(xs)
    ensures Sum(Merges(xs)) == 0 <==> Merge(xs) == xs
  {
    if |xs| >= 2 {
      if xs[0] == xs[1] {
        MergesGain(xs[2..]);
        assert xs == [xs[0], xs[1]] + xs[2..];
        SumAppend([xs[0], xs[1]], xs[2..]);
        SumAppend([2 * xs[0]], Merges(xs[2..]));
        assert |Merge(xs)| < |xs|;
      } else {
        MergesGain(xs[1..]);
        assert xs == [xs[0]] + xs[1..];
        SumAppend([xs[0]], xs[1..]);
        if Merge(xs) == xs {
          assert Merge(xs[1..]) == xs[1..];
        }
      }
    }
  }

  /** After the merge no tile is more than twice the largest tile before
      it. (That no tile merges twice in a move is Sweep.VisitKeepsPlaced.) */
  lemma {:induction false} MergeBound(xs: seq<int>, m: int)
    requires 0 <= m && forall i :: 0 <= i < |xs| ==> xs[i] <= m
    ensures forall i :: 0 <= i < |Merge(xs)| ==> Merge(xs)[i] <= 2 * m
  {
    if |xs| >= 2 {
      if xs[0] == xs[1] {
        MergeBound(xs[2..], m);
        assert Merge(xs) == [2 * xs[0]] + Merge(xs[2..]);
      } else {
        MergeBound(xs[1..], m);
        assert Merge(xs) == [xs[0]] + Merge(xs[1..]);
      }
    }
  }

  /** Four 2s collapse to two 4s scoring 8, not to one 8; in 2, 2, 4 the 4
      made by the first pair does not merge with the 4 beside it. */
  lemma CollapseExamples()
    ensures Collapse([2, 2, 2, 2]) == [4, 4, 0, 0] && LineGain([2, 2, 2, 2]) == 8
    ensures Collapse([2, 2, 4, 0]) == [4, 4, 0, 0] && LineGain([2, 2, 4, 0]) == 4
  {
    assert NonZeros([2]) == [2];
    assert [2, 2][1..] == [2];
    assert NonZeros([2, 2]) == [2, 2];
    assert [2, 2, 2][1..] == [2, 2];
    assert NonZeros([2, 2, 2]) == [2, 2, 2];
    assert [2, 2, 2, 2][1..] == [2, 2, 2];
    assert NonZeros([2, 2, 2, 2]) == [2, 2, 2, 2];
    assert [2, 2, 2, 2][2..] == [2, 2];
    assert Merge([2, 2, 2, 2]) == [4, 4] && Merges([2, 2, 2, 2]) == [4, 4];
    assert NonZeros([0]) == [];
    assert [4, 0][1..] == [0];
    assert NonZeros([4, 0]) == [4];
    assert [2, 4, 0][1..] == [4, 0];
    assert NonZeros([2, 4, 0]) == [2, 4];
    assert [2, 2, 4, 0][1..] == [2, 4, 0];
    assert NonZeros([2, 2, 4, 0]) == [2, 2, 4];
    assert [2, 2, 4][2..] == [4];
    assert Merge([2, 2, 4]) == [4, 4] && Merges([2, 2, 4]) == [4];
    assert Zeros(2) == [0, 0];
  }

  /** A line with no empty cell and no two equal neighbours is left as it is. */
  lemma {:induction false} MergeFixed(xs: seq<int>)
    requires forall i :: 0 <= i < |xs| - 1 ==> xs[i] != xs[i + 1]
    ensures Merge(xs) == xs
  {
    if |xs| >= 2 {
      MergeFixed(xs[1..]);
    }
  }

  // ---------------------------------------------------------------------
  // Properties of a collapsed line

  /** After a move the line is packed against the edge, and its tiles are
      the pairwise merge of the tiles before the move. */
  lemma CollapsePacked(s: seq<int>)
    ensures Packed(Collapse(s))
    ensures NonZeros(Collapse(s)) == Merge(NonZeros(s))
  {
    var m := Merge(NonZeros(s));
    MergeNoZeros(NonZeros(s));
    PackedOf(m, |s| - |m|);
  }

  /** A move conserves the total value on the line. */
  lemma CollapseSum(s: seq<int>)
    ensures Sum(Collapse(s)) == Sum(s)
  {
    var m := Merge(NonZeros(s));
    SumAppend(m, Zeros(|s| - |m|));
    SumOfZeros(|s| - |m|);
    SumMerge(NonZeros(s));
    SumNonZeros(s);
  }

  /** Each merge frees exactly one cell. */
  lemma CollapseCount0(s: seq<int>)
    ensures Count0(Collapse(s)) == Count0(s) + |Merges(NonZeros(s))|
  {
    var m := Merge(NonZeros(s));
    Count0Append(m, Zeros(|s| - |m|));
    Count0OfZeros(|s| - |m|);
    MergeNoZeros(NonZeros(s));
    Count0None(m);
    Count0NonZeros(s);
  }

  /** A move keeps every cell empty or a power of two from 2 up. */
  lemma CollapseTiles(s: seq<int>)
    requires AllTiles(s)
    ensures AllTiles(Collapse(s))
  {
    var nz := NonZeros(s);
    assert AllTiles(nz) by {
      NonZerosTiles(s);
    }
    MergeTiles(nz);
  }

  lemma {:induction false} NonZerosTiles(s: seq<int>)
    requires AllTiles(s)
    ensures AllTiles(NonZeros(s))
  {
    if s != [] {
      NonZerosTiles(s[1..]);
    }
  }

  /** A full line without two equal neighbours does not change. */
  lemma CollapseFixed(s: seq<int>)
    requires NoZeros(s)
    requires forall i :: 0 <= i < |s| - 1 ==> s[i] != s[i + 1]
    ensures Collapse(s) == s
  {
    NonZerosOfNoZeros(s);
    MergeFixed(s);
  }
}
