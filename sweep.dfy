/** The scan a move runs along one line, one position at a time.

    At each nonzero position p (counted from the target edge) the engine
    first looks away from the edge for the next tile and merges it into the
    tile at p when the two are equal, then slides the tile at p toward the
    edge through empty cells. LineInv is what holds of a line once the
    positions before p are done; the step lemmas show that one position
    keeps it, so that a finished scan is exactly Collapse. */
module Sweep {
  import opened Lines

  /** Line t, which started the move as s, has had positions [0, p)
      processed: that part is packed, and its tiles followed by the merge of
      the untouched rest give the merge of the whole original line. */
  predicate LineInv(s: seq<int>, t: seq<int>, p: int)
  {
    |t| == |s| && 0 <= p <= |t| && Packed(t[..p]) &&
    NonZeros(t[..p]) + Merge(NonZeros(t[p..])) == Merge(NonZeros(s))
  }

  /** The score the rest of the scan still earns on this line. */
  function Pending(t: seq<int>, p: int): int
    requires 0 <= p <= |t|
  {
    Sum(Merges(NonZeros(t[p..])))
  }

  /** The line after the match scan from the tile at p stopped at i: the
      first tile beyond p, or the end of the line when there is none. The
      two merge when they are equal. */
  function Matched(t: seq<int>, p: int, i: int): seq<int>
    requires 0 <= p < i <= |t|
  {
    if i < |t| && t[i] == t[p] then t[p := 2 * t[p]][i := 0] else t
  }

  /** The points the match scan from p that stopped at i earns. */
  function MatchGain(t: seq<int>, p: int, i: int): int
    requires 0 <= p < i <= |t|
  {
    if i < |t| && t[i] == t[p] then 2 * t[p] else 0
  }

  /** The line after the tile at p has slid down to position k. */
  function Slid(t: seq<int>, p: int, k: int): seq<int>
    requires 0 <= k <= p < |t|
  {
    t[p := 0][k := t[p]]
  }

  /** Where a match scan that looks at positions j, j + 1, ... stops: the
      first tile, or the end of the line when there is none. */
  function NextFrom(t: seq<int>, j: int): (i: int)
    requires 0 <= j <= |t|
    ensures j <= i <= |t| && (i < |t| ==> t[i] != 0)
    decreases |t| - j
  {
    if j == |t| then |t| else if t[j] != 0 then j else NextFrom(t, j + 1)
  }

  /** The match scan passes only empty cells. */
  lemma {:induction false} NextFromEmpty(t: seq<int>, j: int)
    requires 0 <= j <= |t|
    ensures forall m :: j <= m < NextFrom(t, j) ==> t[m] == 0
    decreases |t| - j
  {
    if j < |t| && t[j] == 0 {
      NextFromEmpty(t, j + 1);
    }
  }

  /** Where a tile at position j ends when it slides toward position 0
      through empty cells. */
  function SlideTo(t: seq<int>, j: int): (k: int)
    requires 0 <= j <= |t|
    ensures 0 <= k <= j && (k > 0 ==> t[k - 1] != 0)
  {
    if j > 0 && t[j - 1] == 0 then SlideTo(t, j - 1) else j
  }

  /** The slide passes only empty cells. */
  lemma {:induction false} SlideToEmpty(t: seq<int>, j: int)
    requires 0 <= j <= |t|
    ensures forall m :: SlideTo(t, j) <= m < j ==> t[m] == 0
  {
    if j > 0 && t[j - 1] == 0 {
      SlideToEmpty(t, j - 1);
    }
  }

  /** What the engine does at position p of a line: nothing on an empty
      cell; for a tile, the match scan from p and then the slide. */
  function Visit(t: seq<int>, p: int): seq<int>
    requires 0 <= p < |t|
  {
    if t[p] == 0 then t
    else
      var t1 := Matched(t, p, NextFrom(t, p + 1));
      Slid(t1, p, SlideTo(t1, p))
  }

  /** The points the engine scores at position p of a line. */
  function VisitGain(t: seq<int>, p: int): int
    requires 0 <= p < |t|
  {
    if t[p] == 0 then 0 else MatchGain(t, p, NextFrom(t, p + 1))
  }

  /** One step of the slide: the tile held at j moves to j - 1. */
  lemma SlideStep(t: seq<int>, p: int, j: int, v: int)
    requires 0 < j <= p < |t| && (j < p ==> t[j] == 0)
    ensures t[p := 0][j := v][j - 1 := v][j := 0] == t[p := 0][j - 1 := v]
  {
    var a, b := t[p := 0][j := v][j - 1 := v][j := 0], t[p := 0][j - 1 := v];
    forall i | 0 <= i < |a| ensures a[i] == b[i] {
    }
  }

  /** Nothing is processed at the start, and the whole gain is pending. */
  lemma SweepStart(s: seq<int>)
    ensures LineInv(s, s, 0)
    ensures Pending(s, 0) == LineGain(s)
  {
    assert s[0..] == s;
    assert s[..0] == [];
  }

  /** Once every position is processed the line is the collapsed original
      and nothing is pending. */
  lemma SweepDone(s: seq<int>, t: seq<int>, p: int)
    requires LineInv(s, t, p) && p == |t|
    ensures t == Collapse(s)
    ensures Pending(t, p) == 0
  {
    assert t[..|t|] == t;
    assert t[|t|..] == [];
    PackedSplit(t);
  }

  /** An empty position is skipped. */
  lemma StepEmpty(s: seq<int>, t: seq<int>, p: int)
    requires LineInv(s, t, p) && p < |t| && t[p] == 0
    ensures LineInv(s, t, p + 1)
    ensures Pending(t, p) == Pending(t, p + 1)
  {
    var a := t[..p];
    var b := t[..p + 1];
    assert b == a + [0];
    NonZerosAppend(a, [0]);
    assert NonZeros([0]) == [];
    assert NonZeros(b) == NonZeros(a);
    assert t[p..] == [0] + t[p + 1..];
    NonZerosAppend([0], t[p + 1..]);
    assert NonZeros(t[p..]) == NonZeros(t[p + 1..]);
    assert Packed(b) by {
      forall i, j | 0 <= i < j < |b| && b[i] == 0 ensures b[j] == 0 {
        if j < p {
          assert a[i] == 0;
        }
      }
    }
  }

  /** Two equal tiles in front of the rest merge into one. */
  lemma MergePair(x: int, r: seq<int>)
    ensures Merge([x, x] + r) == [2 * x] + Merge(r)
    ensures Merges([x, x] + r) == [2 * x] + Merges(r)
  {
    assert ([x, x] + r)[2..] == r;
  }

  /** A tile that differs from the next one (or is last) stays alone. */
  lemma MergeSingle(x: int, q: seq<int>)
    requires q == [] || q[0] != x
    ensures Merge([x] + q) == [x] + Merge(q)
    ensures Merges([x] + q) == Merges(q)
  {
    assert ([x] + q)[1..] == q;
  }

  /** After the slide, the processed part is its old tiles, the new tile
      and then empty cells. */
  lemma SlidPrefix(t1: seq<int>, p: int, k: int)
    requires 0 <= k <= p < |t1| && t1[p] != 0
    requires Packed(t1[..p]) && k == |NonZeros(t1[..p])|
    ensures var u := Slid(t1, p, k)[..p + 1];
      Packed(u) && NonZeros(u) == NonZeros(t1[..p]) + [t1[p]]
  {
    var a := t1[..p];
    var na := NonZeros(a);
    var v := t1[p];
    var u := Slid(t1, p, k)[..p + 1];
    var w := na + [v] + Zeros(p - k);
    PackedSplit(a);
    forall j | 0 <= j < p + 1
      ensures u[j] == w[j]
    {
      if j < k {
        assert a[j] == na[j];
      } else if j > k && j < p {
        assert a[j] == 0;
      }
    }
    assert u == w;
    assert NoZeros(na + [v]);
    PackedOf(na + [v], p - k);
  }

  /** The tiles from p on, when the next tile after p is at i. */
  lemma TilesFrom(t: seq<int>, p: int, i: int)
    requires 0 <= p < i <= |t|
    requires forall j :: p < j < i ==> t[j] == 0
    ensures NonZeros(t[p..]) == NonZeros([t[p]]) + NonZeros(t[i..])
    ensures NonZeros(t[p + 1..]) == NonZeros(t[i..])
  {
    var z := Zeros(i - p - 1);
    NonZerosOfZeros(i - p - 1);
    assert t[p + 1..] == z + t[i..];
    NonZerosAppend(z, t[i..]);
    assert t[p..] == [t[p]] + t[p + 1..];
    NonZerosAppend([t[p]], t[p + 1..]);
  }

  /** Processing a tile at p whose match scan stopped at i keeps LineInv,
      and the score earned is taken off what is pending. The tile ends at
      position |NonZeros(t[..p])|, just after the tiles already packed. */
  lemma StepTile(s: seq<int>, t: seq<int>, p: int, i: int)
    requires LineInv(s, t, p) && p < |t| && t[p] != 0
    requires p < i <= |t|
    requires forall j :: p < j < i ==> t[j] == 0
    requires i < |t| ==> t[i] != 0
    ensures |NonZeros(t[..p])| <= p
    ensures LineInv(s, Slid(Matched(t, p, i), p, |NonZeros(t[..p])|), p + 1)
    ensures Pending(t, p) ==
              MatchGain(t, p, i) + Pending(Slid(Matched(t, p, i), p, |NonZeros(t[..p])|), p + 1)
  {
    var k := |NonZeros(t[..p])|;
    var t1 := Matched(t, p, i);
    var t2 := Slid(t1, p, k);
    assert t1[..p] == t[..p];
    SlidPrefix(t1, p, k);
    assert t2[p + 1..] == t1[p + 1..];
    MatchedRest(t, p, i);
    Reassemble(s, t, t2, p, [t1[p]], Merge(NonZeros(t1[p + 1..])));
  }

  /** Visiting position p keeps LineInv one position further, and what it
      scores is what the pending score falls by. */
  lemma StepVisit(s: seq<int>, t: seq<int>, p: int)
    requires LineInv(s, t, p) && p < |t|
    ensures |Visit(t, p)| == |t|
    ensures LineInv(s, Visit(t, p), p + 1)
    ensures Pending(t, p) == VisitGain(t, p) + Pending(Visit(t, p), p + 1)
  {
    if t[p] == 0 {
      StepEmpty(s, t, p);
    } else {
      var i := NextFrom(t, p + 1);
      var t1 := Matched(t, p, i);
      NextFromEmpty(t, p + 1);
      StepTile(s, t, p, i);
      assert t1[..p] == t[..p];
      SlideToPacked(t1, p);
    }
  }

  /** A tile, once placed in the packed part of the line, is never touched
      again: visiting position q leaves the first |NonZeros(t[..q])|
      positions as they are, so no placed tile merges a second time. */
  lemma VisitKeepsPlaced(s: seq<int>, t: seq<int>, q: int)
    requires LineInv(s, t, q) && q < |t|
    ensures var k := |NonZeros(t[..q])|;
      k <= q && |Visit(t, q)| == |t| && Visit(t, q)[..k] == t[..k]
  {
    if t[q] != 0 {
      var t1 := Matched(t, q, NextFrom(t, q + 1));
      assert t1[..q] == t[..q];
      SlideToPacked(t1, q);
    }
  }

  /** Before a packed prefix the slide stops just after its tiles. */
  lemma SlideToPacked(t: seq<int>, p: int)
    requires 0 <= p < |t| && Packed(t[..p])
    ensures SlideTo(t, p) == |NonZeros(t[..p])|
  {
    var k := SlideTo(t, p);
    SlideToEmpty(t, p);
    PackedSplit(t[..p]);
    if k < p {
      assert t[..p][k] == t[k] == 0;
    }
    if k > 0 {
      assert t[..p][k - 1] == t[k - 1];
    }
  }

  /** What the match scan leaves: the merge of the tiles from p on is the
      tile at p (doubled if it merged) followed by the merge of the tiles
      beyond p afterwards, and what they earn is the match's gain plus what
      the tiles beyond p still earn. */
  lemma MatchedRest(t: seq<int>, p: int, i: int)
    requires 0 <= p < i <= |t| && t[p] != 0
    requires forall j :: p < j < i ==> t[j] == 0
    requires i < |t| ==> t[i] != 0
    ensures Merge(NonZeros(t[p..])) ==
              [Matched(t, p, i)[p]] + Merge(NonZeros(Matched(t, p, i)[p + 1..]))
    ensures Sum(Merges(NonZeros(t[p..]))) ==
              MatchGain(t, p, i) + Sum(Merges(NonZeros(Matched(t, p, i)[p + 1..])))
  {
    var x := t[p];
    var t1 := Matched(t, p, i);
    TilesFrom(t, p, i);
    var rest := NonZeros(t[i..]);
    if i < |t| && t[i] == x {
      TilesFrom(t, i, i + 1);
      var r := NonZeros(t[i + 1..]);
      assert NonZeros(t[p..]) == [x, x] + r;
      MergePair(x, r);
      TilesFrom(t1, i, i + 1);
      TilesFrom(t1, p, i);
      assert t1[i + 1..] == t[i + 1..];
      assert NonZeros(t1[p + 1..]) == r;
      SumAppend([2 * x], Merges(r));
    } else {
      if i < |t| {
        TilesFrom(t, i, i + 1);
      } else {
        assert t[i..] == [];
      }
      MergeSingle(x, rest);
    }
  }

  /** The pieces of one step put back together. */
  lemma Reassemble(s: seq<int>, t: seq<int>, t2: seq<int>, p: int, v: seq<int>, m: seq<int>)
    requires LineInv(s, t, p) && p < |t| && |t2| == |t|
    requires Packed(t2[..p + 1]) && NonZeros(t2[..p + 1]) == NonZeros(t[..p]) + v
    requires Merge(NonZeros(t[p..])) == v + m
    requires m == Merge(NonZeros(t2[p + 1..]))
    ensures LineInv(s, t2, p + 1)
  {
  }
}
