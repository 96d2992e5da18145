/** Line ranges in base coordinates and the edits that replace them. */
module Hunks {
  import opened Seqs
  import opened Sorting

  /** One contiguous edit of the base: lines [start, end) give way to `lines`. */
  datatype Hunk<T> = Hunk(start: int, end: int, lines: seq<T>)

  predicate RangesOverlap(s1: int, e1: int, s2: int, e2: int) {
    if s1 == e1 && s2 == e2 && s1 == s2 then true
    else if s1 == e1 then s1 > s2 && s1 < e2
    else if s2 == e2 then s2 > s1 && s2 < e1
    else s1 < e2 && s2 < e1
  }

  /** Cell i is the point 2i+1, the boundary before line i is the point 2i. A non-empty range
      holds its cells and the boundaries strictly inside it; an insertion holds its boundary. */
  predicate InFootprint(s: int, e: int, x: int) {
    if s == e then x == 2 * s else 2 * s < x < 2 * e
  }

  lemma OverlapIsFootprint(s1: int, e1: int, s2: int, e2: int)
    requires s1 <= e1 && s2 <= e2
    ensures RangesOverlap(s1, e1, s2, e2) <==> exists x :: InFootprint(s1, e1, x) && InFootprint(s2, e2, x)
  {
    if RangesOverlap(s1, e1, s2, e2) {
      var x := if s1 == e1 then 2 * s1
               else if s2 == e2 then 2 * s2
               else if s1 < s2 then 2 * s2 + 1 else 2 * s1 + 1;
      assert InFootprint(s1, e1, x) && InFootprint(s2, e2, x);
    }
  }

  /** [s1,e1) lies wholly in front of [s2,e2). */
  predicate RangeBefore(s1: int, e1: int, s2: int, e2: int) {
    e1 <= s2 && s1 < e2
  }

  predicate Overlap<T>(a: Hunk<T>, b: Hunk<T>) { RangesOverlap(a.start, a.end, b.start, b.end) }

  predicate Before<T>(a: Hunk<T>, b: Hunk<T>) { RangeBefore(a.start, a.end, b.start, b.end) }

  predicate Within<T>(h: Hunk<T>, n: int) { 0 <= h.start <= h.end <= n }

  /** Two ranges overlap or lie in one order, never two of the three. */
  lemma Trichotomy(s1: int, e1: int, s2: int, e2: int)
    requires s1 <= e1 && s2 <= e2
    ensures !RangesOverlap(s1, e1, s2, e2) <==> RangeBefore(s1, e1, s2, e2) || RangeBefore(s2, e2, s1, e1)
    ensures !(RangeBefore(s1, e1, s2, e2) && RangeBefore(s2, e2, s1, e1))
  {
  }

  function RangeKey<T>(h: Hunk<T>): Key { (h.start, h.end) }

  /** One side's edit list: in bounds and in order, no two touching the same point. */
  ghost predicate SideValid<T>(hs: seq<Hunk<T>>, n: int) {
    && (forall i :: 0 <= i < |hs| ==> Within(hs[i], n))
    && (forall i, j :: 0 <= i < j < |hs| ==> Before(hs[i], hs[j]))
  }

  /** What the emitting loops need: the cursor never has to move backwards. */
  ghost predicate InOrder<T>(pos: int, hs: seq<Hunk<T>>, n: int)
    decreases hs
  {
    0 <= pos <= n &&
    (hs != [] ==> pos <= hs[0].start <= hs[0].end <= n && InOrder(hs[0].end, hs[1..], n))
  }

  lemma SideValidInOrder<T>(pos: int, hs: seq<Hunk<T>>, n: int)
    requires SideValid(hs, n) && 0 <= pos <= n
    requires hs != [] ==> pos <= hs[0].start
    ensures InOrder(pos, hs, n)
    decreases hs
  {
    if hs != [] {
      SideValidInOrder(hs[0].end, hs[1..], n);
    }
  }

  /** The base from `pos` on with every hunk replaced. */
  ghost function ApplyFrom<T>(base: seq<T>, pos: int, hs: seq<Hunk<T>>): seq<T>
    requires InOrder(pos, hs, |base|)
    decreases hs
  {
    if hs == [] then base[pos..]
    else base[pos..hs[0].start] + hs[0].lines + ApplyFrom(base, hs[0].end, hs[1..])
  }

  /** Consing a hunk onto an edit list, in terms of what it emits. */
  lemma {:induction false} ApplyCons<T>(base: seq<T>, pos: int, h: Hunk<T>, rest: seq<Hunk<T>>)
    requires 0 <= pos <= h.start <= h.end && InOrder(h.end, rest, |base|)
    ensures InOrder(pos, [h] + rest, |base|)
    ensures ApplyFrom(base, pos, [h] + rest) == base[pos..h.start] + h.lines + ApplyFrom(base, h.end, rest)
  {
    var hs := [h] + rest;
    assert hs[0] == h && hs[1..] == rest;
  }

  lemma {:induction false} SplitAt<T>(base: seq<T>, at: int, pos: int, end: int)
    requires 0 <= at <= pos <= end <= |base|
    ensures base[at..end] == base[at..pos] + base[pos..end]
  {
  }

  lemma {:induction false} ApplyEarlier<T>(base: seq<T>, at: int, pos: int, hs: seq<Hunk<T>>)
    requires 0 <= at <= pos && InOrder(pos, hs, |base|)
    ensures InOrder(at, hs, |base|)
    ensures ApplyFrom(base, at, hs) == base[at..pos] + ApplyFrom(base, pos, hs)
  {
    if hs == [] {
      assert base[at..] == base[at..pos] + base[pos..];
    } else {
      var h, tail := hs[0], ApplyFrom(base, hs[0].end, hs[1..]);
      SplitAt(base, at, pos, h.start);
      Assoc(base[at..pos], base[pos..h.start], h.lines);
      Assoc(base[at..pos], base[pos..h.start] + h.lines, tail);
    }
  }

  lemma BeforeIsLess<T>(a: Hunk<T>, b: Hunk<T>)
    requires a.start <= a.end && Before(a, b)
    ensures KeyLess(RangeKey(a), RangeKey(b))
  {
  }

  /** However a library sort treats ties, sorting by (start, end) the elements of a list that is in
      strict order gives back that list. */
  lemma {:induction false} SortedIs<T>(a: seq<Hunk<T>>, b: seq<Hunk<T>>, n: int)
    requires SortedBy(a, RangeKey) && SideValid(b, n)
    requires multiset(a) == multiset(b)
    ensures a == b
  {
    SameMembers(a, b);
    SameMembers(b, a);
    if b != [] {
      var i :| 0 <= i < |a| && a[i] == b[0];
      var j :| 0 <= j < |b| && b[j] == a[0];
      if j > 0 { BeforeIsLess(b[0], b[j]); }
      assert a[0] == b[0];
      DropFirst(a, b);
      SortedIs(a[1..], b[1..], n);
      assert a == [a[0]] + a[1..] && b == [b[0]] + b[1..];
    }
  }

  lemma SideValidSorted<T>(a: seq<Hunk<T>>, n: int)
    requires SideValid(a, n)
    ensures SortedBy(a, RangeKey)
  {
    forall i, j | 0 <= i < j < |a| ensures !KeyLess(RangeKey(a[j]), RangeKey(a[i])) {
      BeforeIsLess(a[i], a[j]);
    }
  }
}
