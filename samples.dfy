/** The sample window: a fixed ring buffer of motion-sensor readings with a
    median query (over a sorted scratch copy) and a maximum query. */
module SampleWindow {

  import opened Platform

  /** Number of slots; odd, so the median is a single middle element. */
  const SampleCount: nat := 5

  // ---------------------------------------------------------------------------
  // The comparator handed to qsort

  /** `cmp_int` as written: the 32-bit difference of its operands. */
  function CmpInt(va: int, vb: int): (r: int)
    requires IsInt(va) && IsInt(vb)
    ensures IsInt(r)
    ensures IsInt(va - vb) ==> r == va - vb
  {
    Wrap32(va - vb)
  }

  /** The difference overflows for operands far apart: INT_MAX compares as
      smaller than -1. */
  lemma CmpIntOverflows()
    ensures IntMax > -1 && CmpInt(IntMax, -1) < 0
  {
    assert IntMax - -1 == 0x8000_0000;
  }

  /** The comparator as evidently intended: the sign of the comparison. */
  function CmpOrder(va: int, vb: int): (r: int)
    ensures r < 0 <==> va < vb
    ensures r == 0 <==> va == vb
    ensures r > 0 <==> va > vb
  {
    if va < vb then -1 else if va > vb then 1 else 0
  }

  /** While both operands stay within half the `int` range the comparator as
      written orders them exactly as the intended one does. */
  lemma CmpIntAgreesInHalfRange(va: int, vb: int)
    requires -0x4000_0000 <= va < 0x4000_0000
    requires -0x4000_0000 <= vb < 0x4000_0000
    ensures IsInt(va) && IsInt(vb)
    ensures CmpInt(va, vb) < 0 <==> CmpOrder(va, vb) < 0
    ensures CmpInt(va, vb) == 0 <==> CmpOrder(va, vb) == 0
    ensures CmpInt(va, vb) > 0 <==> CmpOrder(va, vb) > 0
  {
  }

  // ---------------------------------------------------------------------------
  // Ordering, counting and the specification of the sorted copy

  predicate Sorted(s: seq<int>) {
    forall i, j :: 0 <= i < j < |s| ==> s[i] <= s[j]
  }

  /** Inserts `x` into the ascending sequence `s`. */
  function Insert(x: int, s: seq<int>): (r: seq<int>)
    requires Sorted(s)
    ensures |r| == |s| + 1
    ensures Sorted(r)
    ensures multiset(r) == multiset(s) + multiset{x}
  {
    if s == [] || x <= s[0] then
      PrependSorted(x, s);
      [x] + s
    else
      SortedTail(s);
      var rest := Insert(x, s[1..]);
      InsertBehindHead(x, s, rest);
      [s[0]] + rest
  }

  /** A value at most the head of an ascending sequence can go in front. */
  lemma PrependSorted(x: int, s: seq<int>)
    requires Sorted(s) && (s == [] || x <= s[0])
    ensures Sorted([x] + s)
  {
    var r := [x] + s;
    forall i, j | 0 <= i < j < |r| ensures r[i] <= r[j] {
      assert r[j] == s[j - 1];
      if i > 0 {
        assert r[i] == s[i - 1];
      } else {
        assert s[0] <= s[j - 1];
      }
    }
  }

  /** The head of `s`, put in front of `x` inserted into the rest of `s`. */
  lemma InsertBehindHead(x: int, s: seq<int>, rest: seq<int>)
    requires Sorted(s) && s != [] && s[0] < x
    requires Sorted(rest) && multiset(rest) == multiset(s[1..]) + multiset{x}
    ensures Sorted([s[0]] + rest)
    ensures multiset([s[0]] + rest) == multiset(s) + multiset{x}
  {
    assert s == [s[0]] + s[1..];
    if rest != [] {
      assert rest[0] in multiset(rest);
      if rest[0] != x {
        assert rest[0] in multiset(s[1..]);
        var j :| 0 <= j < |s[1..]| && s[1..][j] == rest[0];
        assert s[0] <= s[j + 1];
      }
    }
    PrependSorted(s[0], rest);
  }

  /** The ascending arrangement of `s`. */
  function SortSeq(s: seq<int>): (r: seq<int>)
    ensures |r| == |s|
    ensures Sorted(r)
    ensures multiset(r) == multiset(s)
  {
    if s == [] then []
    else
      assert s == s[..|s| - 1] + [s[|s| - 1]];
      Insert(s[|s| - 1], SortSeq(s[..|s| - 1]))
  }

  /** Two ascending sequences with the same elements are equal: sorting
      determines its result from the multiset alone. */
  lemma {:induction false} SortedUnique(a: seq<int>, b: seq<int>)
    requires Sorted(a) && Sorted(b)
    requires multiset(a) == multiset(b)
    ensures a == b
    decreases |a|
  {
    assert |a| == |multiset(a)| == |multiset(b)| == |b|;
    if a != [] {
      SameHead(a, b);
      DropFirst(a, b);
      SortedTail(a);
      SortedTail(b);
      SortedUnique(a[1..], b[1..]);
      assert a == [a[0]] + a[1..];
      assert b == [b[0]] + b[1..];
    }
  }

  /** Two non-empty ascending sequences with the same elements start with
      the same, smallest, element. */
  lemma SameHead(a: seq<int>, b: seq<int>)
    requires Sorted(a) && Sorted(b) && a != []
    requires multiset(a) == multiset(b)
    ensures b != [] && a[0] == b[0]
  {
    assert a[0] in multiset(b);
    var i :| 0 <= i < |b| && b[i] == a[0];
    assert b[0] in multiset(a);
    var j :| 0 <= j < |a| && a[j] == b[0];
    assert b[0] <= b[i] && a[0] <= a[j];
  }

  /** Removing the same first element from two sequences with equal multisets
      leaves equal multisets. */
  lemma DropFirst(a: seq<int>, b: seq<int>)
    requires a != [] && b != [] && a[0] == b[0]
    requires multiset(a) == multiset(b)
    ensures multiset(a[1..]) == multiset(b[1..])
  {
    assert a == [a[0]] + a[1..];
    assert b == [b[0]] + b[1..];
    assert multiset(a[1..]) == multiset(a) - multiset{a[0]};
    assert multiset(b[1..]) == multiset(b) - multiset{b[0]};
  }

  lemma SortedTail(a: seq<int>)
    requires a != [] && Sorted(a)
    ensures Sorted(a[1..])
  {
    forall i, j | 0 <= i < j < |a| - 1 ensures a[1..][i] <= a[1..][j] {
      assert a[1..][i] == a[i + 1] && a[1..][j] == a[j + 1];
    }
  }

  /** The result of sorting depends only on the multiset of the input. */
  lemma SortSeqOrderIndependent(s: seq<int>, t: seq<int>)
    requires multiset(s) == multiset(t)
    ensures SortSeq(s) == SortSeq(t)
  {
    SortedUnique(SortSeq(s), SortSeq(t));
  }

  /** `SortSeq(s)` is the one ascending sequence with the elements of `s`. */
  lemma SortSeqIsArrangement(s: seq<int>, t: seq<int>)
    requires Sorted(t) && multiset(s) == multiset(t)
    ensures SortSeq(s) == t
  {
    SortedUnique(SortSeq(s), t);
  }

  predicate Beside(x: int, m: int, below: bool) {
    if below then x <= m else x >= m
  }

  /** How many elements of `s` are at most `m` (`below`) or at least `m`. */
  function Count(s: seq<int>, m: int, below: bool): (n: nat)
    ensures n <= |s|
  {
    if s == [] then 0
    else Count(s[..|s| - 1], m, below) + (if Beside(s[|s| - 1], m, below) then 1 else 0)
  }

  lemma {:induction false} CountAppend(a: seq<int>, b: seq<int>, m: int, below: bool)
    ensures Count(a + b, m, below) == Count(a, m, below) + Count(b, m, below)
    decreases |b|
  {
    if b == [] {
      assert a + b == a;
    } else {
      assert (a + b)[..|a + b| - 1] == a + b[..|b| - 1];
      CountAppend(a, b[..|b| - 1], m, below);
    }
  }

  lemma {:induction false} CountPermutation(s: seq<int>, t: seq<int>, m: int, below: bool)
    requires multiset(s) == multiset(t)
    ensures Count(s, m, below) == Count(t, m, below)
    decreases |s|
  {
    assert |s| == |multiset(s)| == |multiset(t)| == |t|;
    if s != [] {
      var n := |s| - 1;
      var x := s[n];
      assert x in multiset(t);
      var i :| 0 <= i < |t| && t[i] == x;
      var rest := t[..i] + t[i + 1..];
      assert multiset(s[..n]) == multiset(rest) by {
        RemoveAt(s, n);
        RemoveAt(t, i);
        assert s[..n] + s[n + 1..] == s[..n];
      }
      CountPermutation(s[..n], rest, m, below);
      CountRemoveAt(t, i, m, below);
    }
  }

  /** Removing the element at `i` lowers the count by that element's share. */
  lemma CountRemoveAt(t: seq<int>, i: nat, m: int, below: bool)
    requires i < |t|
    ensures Count(t, m, below)
      == Count(t[..i] + t[i + 1..], m, below) + (if Beside(t[i], m, below) then 1 else 0)
  {
    var x := t[i];
    assert t == t[..i] + ([x] + t[i + 1..]);
    CountAppend(t[..i], [x] + t[i + 1..], m, below);
    CountAppend([x], t[i + 1..], m, below);
    CountAppend(t[..i], t[i + 1..], m, below);
    assert Count([x], m, below) == (if Beside(x, m, below) then 1 else 0) by {
      assert [x][..0] == [];
    }
  }

  /** Removing the element at `i` removes one occurrence of it. */
  lemma RemoveAt(t: seq<int>, i: nat)
    requires i < |t|
    ensures multiset(t[..i] + t[i + 1..]) == multiset(t) - multiset{t[i]}
  {
    assert t == t[..i] + [t[i]] + t[i + 1..];
  }

  lemma {:induction false} CountAll(s: seq<int>, m: int, below: bool)
    requires forall i :: 0 <= i < |s| ==> Beside(s[i], m, below)
    ensures Count(s, m, below) == |s|
    decreases |s|
  {
    if s != [] {
      CountAll(s[..|s| - 1], m, below);
    }
  }

  /** In an ascending sequence, at least `k + 1` elements are at most the
      element at position `k` ... */
  lemma SortedRankBelow(t: seq<int>, k: nat)
    requires Sorted(t) && k < |t|
    ensures Count(t, t[k], true) >= k + 1
  {
    CountUpTo(t, k, t[k]);
  }

  /** ... and at least `|t| - k` are at least it. */
  lemma SortedRankAbove(t: seq<int>, k: nat)
    requires Sorted(t) && k < |t|
    ensures Count(t, t[k], false) >= |t| - k
  {
    CountFrom(t, k, t[k]);
  }

  /** When the first `k + 1` elements are at most `m`, so many are counted. */
  lemma CountUpTo(t: seq<int>, k: nat, m: int)
    requires k < |t| && forall i :: 0 <= i <= k ==> t[i] <= m
    ensures Count(t, m, true) >= k + 1
  {
    var head, tail := t[..k + 1], t[k + 1..];
    forall i | 0 <= i < |head| ensures Beside(head[i], m, true) {
      assert head[i] == t[i];
    }
    CountAll(head, m, true);
    assert t == head + tail;
    CountAppend(head, tail, m, true);
  }

  /** When the elements from position `k` on are at least `m`, so many are
      counted. */
  lemma CountFrom(t: seq<int>, k: nat, m: int)
    requires k < |t| && forall i :: k <= i < |t| ==> t[i] >= m
    ensures Count(t, m, false) >= |t| - k
  {
    var head, tail := t[..k], t[k..];
    forall i | 0 <= i < |tail| ensures Beside(tail[i], m, false) {
      assert tail[i] == t[k + i];
    }
    CountAll(tail, m, false);
    assert t == head + tail;
    CountAppend(head, tail, m, false);
  }

  /** The middle element of the sorted copy is a median in the statistical
      sense: it occurs in `s`, and more than half the elements are at most
      it and more than half at least it. */
  lemma MiddleIsMedian(s: seq<int>)
    requires |s| % 2 == 1
    ensures SortSeq(s)[|s| / 2] in s
    ensures 2 * Count(s, SortSeq(s)[|s| / 2], true) > |s|
    ensures 2 * Count(s, SortSeq(s)[|s| / 2], false) > |s|
  {
    var t := SortSeq(s);
    var k := |s| / 2;
    assert t[k] in multiset(t);
    SortedRankBelow(t, k);
    SortedRankAbove(t, k);
    CountPermutation(s, t, t[k], true);
    CountPermutation(s, t, t[k], false);
  }

  // ---------------------------------------------------------------------------
  // The maximum

  /** The largest element of a non-empty sequence. */
  function MaxOf(s: seq<int>): (r: int)
    requires s != []
    ensures r in s
    ensures forall i :: 0 <= i < |s| ==> s[i] <= r
  {
    if |s| == 1 then s[0]
    else
      var m := MaxOf(s[..|s| - 1]);
      assert forall i :: 0 <= i < |s| - 1 ==> s[..|s| - 1][i] == s[i];
      if s[|s| - 1] > m then s[|s| - 1] else m
  }

  /** The maximum depends only on the multiset of the elements. */
  lemma MaxOfPermutation(s: seq<int>, t: seq<int>)
    requires s != [] && multiset(s) == multiset(t)
    ensures t != [] && MaxOf(s) == MaxOf(t)
  {
    assert |t| == |multiset(t)| == |multiset(s)| == |s|;
    assert MaxOf(s) in multiset(t) && MaxOf(t) in multiset(s);
    assert MaxOf(s) in t && MaxOf(t) in s;
  }

  // ---------------------------------------------------------------------------
  // The window as a value: what a run of adds leaves behind

  datatype Window = Window(values: seq<int>, index: int)

  predicate WellFormed(w: Window) {
    |w.values| == SampleCount && 0 <= w.index < SampleCount
  }

  /** One `sample_add`: overwrite the slot at the cursor, advance the cursor,
      wrapping at the end. */
  function AddTo(w: Window, val: int): (r: Window)
    requires WellFormed(w)
    ensures WellFormed(r)
    ensures r.values[w.index] == val
    ensures forall i :: 0 <= i < SampleCount && i != w.index ==> r.values[i] == w.values[i]
    ensures r.index == (w.index + 1) % SampleCount
  {
    var next := w.index + 1;
    Window(w.values[w.index := val], if next == SampleCount then 0 else next)
  }

  /** The window after adding every element of `xs`, in order. */
  function AddAll(w: Window, xs: seq<int>): (r: Window)
    requires WellFormed(w)
    ensures WellFormed(r)
  {
    if xs == [] then w else AddTo(AddAll(w, xs[..|xs| - 1]), xs[|xs| - 1])
  }

  /** The cursor has moved on by the number of adds, modulo the window size. */
  lemma {:induction false} AddAllIndex(w: Window, xs: seq<int>)
    requires WellFormed(w)
    ensures AddAll(w, xs).index == (w.index + |xs|) % SampleCount
    decreases |xs|
  {
    if xs != [] {
      AddAllIndex(w, xs[..|xs| - 1]);
    }
  }

  /** `w` holds the run `last` of five values, the oldest at the cursor and
      the rest following it round the ring. */
  predicate Holds(w: Window, last: seq<int>)
    requires WellFormed(w)
  {
    |last| == SampleCount
    && w.values == last[SampleCount - w.index..] + last[..SampleCount - w.index]
  }

  /** Every window holds its own values read round the ring from the
      cursor. */
  lemma HoldsOwnRing(w: Window)
    requires WellFormed(w)
    ensures Holds(w, w.values[w.index..] + w.values[..w.index])
  {
    var v, c := w.values, w.index;
    var ring := v[c..] + v[..c];
    assert ring[SampleCount - c..] == v[..c];
    assert ring[..SampleCount - c] == v[c..];
    assert v == v[..c] + v[c..];
  }

  /** An add overwrites the oldest value of the run and moves the cursor to
      the next oldest. */
  lemma HoldsStep(w: Window, last: seq<int>, x: int)
    requires WellFormed(w) && Holds(w, last)
    ensures Holds(AddTo(w, x), last[1..] + [x])
  {
    var r := AddTo(w, x);
    var next := last[1..] + [x];
    var c := w.index;
    assert w.values[c] == last[0] by {
      assert w.values[c] == last[..SampleCount - c][0];
    }
    if c == SampleCount - 1 {
      assert r.index == 0;
      assert r.values == last[1..] + [x];
      assert next[SampleCount..] == [] && next[..SampleCount] == next;
    } else {
      assert r.index == c + 1;
      assert r.values == last[SampleCount - c..] + [x] + last[1..SampleCount - c];
      assert next[SampleCount - (c + 1)..] == last[SampleCount - c..] + [x];
      assert next[..SampleCount - (c + 1)] == last[1..SampleCount - c];
    }
  }

  /** The last five values of a run that is at least five long. */
  function Recent(s: seq<int>): (r: seq<int>)
    requires |s| >= SampleCount
    ensures |r| == SampleCount
  {
    s[|s| - SampleCount..]
  }

  /** However many values were added, the window holds the last five of its
      starting ring followed by everything added. */
  lemma {:induction false} AddAllHolds(w: Window, xs: seq<int>)
    requires WellFormed(w)
    ensures Holds(AddAll(w, xs), Recent(w.values[w.index..] + w.values[..w.index] + xs))
    decreases |xs|
  {
    var ring := w.values[w.index..] + w.values[..w.index];
    if xs == [] {
      HoldsOwnRing(w);
      assert ring + xs == ring;
    } else {
      AddAllHolds(w, xs[..|xs| - 1]);
      AddOneHolds(w, ring, xs);
    }
  }

  /** The inductive step of `AddAllHolds`: one more add keeps the window
      holding the last five values of the run. */
  lemma AddOneHolds(w: Window, ring: seq<int>, xs: seq<int>)
    requires WellFormed(w) && |ring| == SampleCount && xs != []
    requires Holds(AddAll(w, xs[..|xs| - 1]), Recent(ring + xs[..|xs| - 1]))
    ensures Holds(AddAll(w, xs), Recent(ring + xs))
  {
    var n := |xs| - 1;
    var mid := AddAll(w, xs[..n]);
    var before := Recent(ring + xs[..n]);
    AddAllLast(w, xs);
    RecentStep(ring, xs);
    HoldsStep(mid, before, xs[n]);
  }

  /** Adding a run is adding all but its last value, then that one. */
  lemma AddAllLast(w: Window, xs: seq<int>)
    requires WellFormed(w) && xs != []
    ensures AddAll(w, xs) == AddTo(AddAll(w, xs[..|xs| - 1]), xs[|xs| - 1])
  {
  }

  /** One more value pushes the oldest of the last five out. */
  lemma RecentStep(ring: seq<int>, xs: seq<int>)
    requires |ring| >= SampleCount && xs != []
    ensures Recent(ring + xs) == Recent(ring + xs[..|xs| - 1])[1..] + [xs[|xs| - 1]]
  {
    var n := |xs| - 1;
    var s := ring + xs[..n];
    assert ring + xs == s + [xs[n]];
    var t := s + [xs[n]];
    assert t[..|s|] == s;
  }

  /** After five or more adds the window holds exactly the last five values
      added, the oldest of them at the cursor. */
  lemma LastFiveRotated(w: Window, xs: seq<int>)
    requires WellFormed(w) && |xs| >= SampleCount
    ensures AddAll(w, xs).index == (w.index + |xs|) % SampleCount
    ensures Holds(AddAll(w, xs), xs[|xs| - SampleCount..])
  {
    var ring := w.values[w.index..] + w.values[..w.index];
    AddAllIndex(w, xs);
    AddAllHolds(w, xs);
    assert Recent(ring + xs) == xs[|xs| - SampleCount..];
  }

  /** After five or more adds the window holds exactly the last five values
      added, whatever came before them. */
  lemma LastFiveRemain(w: Window, xs: seq<int>)
    requires WellFormed(w) && |xs| >= SampleCount
    ensures multiset(AddAll(w, xs).values) == multiset(xs[|xs| - SampleCount..])
  {
    LastFiveRotated(w, xs);
    HoldsSameValues(AddAll(w, xs), xs[|xs| - SampleCount..]);
  }

  /** A window holds the values of the run it holds, in some order. */
  lemma HoldsSameValues(w: Window, last: seq<int>)
    requires WellFormed(w) && Holds(w, last)
    ensures multiset(w.values) == multiset(last)
  {
    var p := SampleCount - w.index;
    assert last == last[..p] + last[p..];
  }

  /** After exactly five adds the sorted window is the sorted run of those
      five values, whatever the window held and wherever its cursor stood. */
  lemma FiveAddsSorted(w: Window, xs: seq<int>)
    requires WellFormed(w) && |xs| == SampleCount
    ensures SortSeq(AddAll(w, xs).values) == SortSeq(xs)
  {
    LastFiveRemain(w, xs);
    assert xs[|xs| - SampleCount..] == xs;
    SortSeqOrderIndependent(AddAll(w, xs).values, xs);
  }

  /** After seven adds the maximum is taken over the last five values only. */
  lemma MaxAfterSevenAdds(w: Window, xs: seq<int>)
    requires WellFormed(w) && |xs| == 7
    ensures MaxOf(AddAll(w, xs).values) == MaxOf(xs[2..])
  {
    LastFiveRemain(w, xs);
    MaxOfPermutation(AddAll(w, xs).values, xs[2..]);
  }

  // ---------------------------------------------------------------------------
  // Sorting in place (stands in for qsort with the comparator)

  /** Sorts `a` ascending in place by insertion, comparing with `CmpOrder`. */
  method SortInPlace(a: array<int>)
    modifies a
    ensures Sorted(a[..])
    ensures multiset(a[..]) == multiset(old(a[..]))
  {
    var i := 0;
    while i < a.Length
      invariant 0 <= i <= a.Length
      invariant Sorted(a[..i])
      invariant multiset(a[..]) == multiset(old(a[..]))
    {
      var j := i;
      while j > 0 && CmpOrder(a[j - 1], a[j]) > 0
        invariant 0 <= j <= i
        invariant SortedExcept(a[..i + 1], j)
        invariant multiset(a[..]) == multiset(old(a[..]))
      {
        ghost var before := a[..];
        a[j - 1], a[j] := a[j], a[j - 1];
        SwapStep(before, a[..], i, j);
        j := j - 1;
      }
      SortedExceptDone(a[..i + 1], j);
      i := i + 1;
    }
    assert a[..a.Length] == a[..];
  }

  /** Ascending except that the element at `j` may be smaller than those
      before it: the state of an insertion pass. */
  predicate SortedExcept(s: seq<int>, j: int) {
    forall p, q :: 0 <= p < q < |s| && q != j ==> s[p] <= s[q]
  }

  /** Swapping the element at `j` with a larger one before it keeps the
      pass's shape with the gap one place lower, and keeps the multiset. */
  lemma SwapStep(before: seq<int>, after: seq<int>, i: int, j: int)
    requires 0 < j <= i < |before| && SortedExcept(before[..i + 1], j)
    requires before[j - 1] > before[j]
    requires after == before[j - 1 := before[j]][j := before[j - 1]]
    ensures SortedExcept(after[..i + 1], j - 1)
    ensures multiset(after) == multiset(before)
  {
    var s, t := before[..i + 1], after[..i + 1];
    forall p, q | 0 <= p < q < |t| && q != j - 1 ensures t[p] <= t[q] {
      if q == j {
        if p < j - 1 {
          assert t[p] == s[p] && t[q] == s[j - 1];
        }
      } else if p == j - 1 {
        assert t[p] == s[j] && t[q] == s[q] && s[j - 1] <= s[q];
      } else if p == j {
        assert t[p] == s[j - 1] && t[q] == s[q];
      } else {
        assert t[p] == s[p] && t[q] == s[q];
      }
    }
    assert before == before[..j - 1] + [before[j - 1], before[j]] + before[j + 1..];
    assert after == before[..j - 1] + [before[j], before[j - 1]] + before[j + 1..];
  }

  /** A pass that stopped at the gap `j` has left its prefix ascending. */
  lemma SortedExceptDone(s: seq<int>, j: int)
    requires 0 <= j < |s| && SortedExcept(s, j)
    requires j == 0 || s[j - 1] <= s[j]
    ensures Sorted(s)
  {
    forall p, q | 0 <= p < q < |s| ensures s[p] <= s[q] {
      if q == j && p < j - 1 {
        assert s[p] <= s[j - 1];
      }
    }
  }

  // ---------------------------------------------------------------------------
  // The window object

  class Samples {
    var values: array<int>
    var sorted: array<int>
    var index: int

    ghost predicate Valid()
      reads this
    {
      values.Length == SampleCount && sorted.Length == SampleCount
      && values != sorted && 0 <= index < SampleCount
    }

    /** The window as a value. */
    ghost function Contents(): Window
      reads this, values
    {
      Window(values[..], index)
    }

    /** A zero-initialised window, as a global `Samples` starts. */
    constructor ()
      ensures Valid() && fresh(values) && fresh(sorted)
      ensures values[..] == [0, 0, 0, 0, 0] && index == 0
    {
      values := new int[SampleCount](_ => 0);
      sorted := new int[SampleCount](_ => 0);
      index := 0;
    }

    /** `sample_add`: store `val` at the cursor and advance it. */
    method Add(val: int)
      requires Valid()
      modifies this`index, values
      ensures Valid()
      ensures Contents() == AddTo(old(Contents()), val)
      ensures unchanged(sorted)
    {
      values[index] := val;
      index := index + 1;
      if index == SampleCount {
        index := 0;
      }
    }

    /** `sample_median`: copy into the scratch array, sort it and return the
        middle element. */
    method Median() returns (m: int)
      requires Valid()
      modifies sorted
      ensures unchanged(values)
      ensures Sorted(sorted[..]) && multiset(sorted[..]) == multiset(values[..])
      ensures m == sorted[SampleCount / 2] == SortSeq(values[..])[SampleCount / 2]
      ensures m in values[..]
      ensures 2 * Count(values[..], m, true) > SampleCount
      ensures 2 * Count(values[..], m, false) > SampleCount
    {
      forall i | 0 <= i < SampleCount {
        sorted[i] := values[i];
      }
      assert sorted[..] == values[..];
      SortInPlace(sorted);
      m := sorted[SampleCount / 2];
      SortedUnique(sorted[..], SortSeq(values[..]));
      MiddleIsMedian(values[..]);
    }

    /** `sample_highest`: linear scan for the largest value. */
    method Highest() returns (r: int)
      requires Valid()
      ensures r in values[..]
      ensures forall i :: 0 <= i < SampleCount ==> values[i] <= r
      ensures r == MaxOf(values[..])
    {
      r := values[0];
      var idx := 1;
      while idx < SampleCount
        invariant 1 <= idx <= SampleCount
        invariant r in values[..idx]
        invariant forall i :: 0 <= i < idx ==> values[i] <= r
      {
        if values[idx] > r {
          r := values[idx];
        }
        idx := idx + 1;
      }
      assert values[..SampleCount] == values[..];
    }
  }
}
