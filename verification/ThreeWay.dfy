/** Applying two sides' edits to one base when they do not overlap. */
module ThreeWay {
  import opened Sorting
  import opened Seqs
  import opened Hunks

  ghost predicate Disjoint<T>(server: seq<Hunk<T>>, client: seq<Hunk<T>>) {
    forall i, j :: 0 <= i < |server| && 0 <= j < |client| ==> !Overlap(server[i], client[j])
  }

  /** `hasOverlap`. */
  method HasOverlap<T>(server: seq<Hunk<T>>, client: seq<Hunk<T>>) returns (overlap: bool)
    ensures overlap <==> !Disjoint(server, client)
  {
    for i := 0 to |server|
      invariant forall a, b :: 0 <= a < i && 0 <= b < |client| ==> !Overlap(server[a], client[b])
    {
      for j := 0 to |client|
        invariant forall b :: 0 <= b < j ==> !Overlap(server[i], client[b])
      {
        if RangesOverlap(server[i].start, server[i].end, client[j].start, client[j].end) {
          assert Overlap(server[i], client[j]);
          return true;
        }
      }
    }
    return false;
  }

  /** Both sides' hunks in base order. */
  ghost function MergeSides<T>(a: seq<Hunk<T>>, b: seq<Hunk<T>>): (r: seq<Hunk<T>>)
    ensures |r| == |a| + |b|
  {
    if b == [] then a
    else if a != [] && Before(a[0], b[0]) then [a[0]] + MergeSides(a[1..], b)
    else [b[0]] + MergeSides(a, b[1..])
  }

  lemma {:induction false} MergeMembers<T>(a: seq<Hunk<T>>, b: seq<Hunk<T>>)
    ensures multiset(MergeSides(a, b)) == multiset(a) + multiset(b)
  {
    if b != [] {
      BagOfCons(MergeSides(a, b));
      if a != [] && Before(a[0], b[0]) {
        MergeMembers(a[1..], b);
        BagOfCons(a);
      } else {
        MergeMembers(a, b[1..]);
        BagOfCons(b);
      }
    }
  }

  lemma MergeFrom<T>(a: seq<Hunk<T>>, b: seq<Hunk<T>>, x: Hunk<T>)
    requires x in MergeSides(a, b)
    ensures x in a || x in b
  {
    MergeMembers(a, b);
    assert x in multiset(MergeSides(a, b));
  }

  lemma {:induction false} ValidCons<T>(h: Hunk<T>, rest: seq<Hunk<T>>, n: int)
    requires Within(h, n) && SideValid(rest, n)
    requires forall k :: 0 <= k < |rest| ==> Before(h, rest[k])
    ensures SideValid([h] + rest, n)
  {
  }

  lemma {:induction false} MergeValid<T>(a: seq<Hunk<T>>, b: seq<Hunk<T>>, n: int)
    requires SideValid(a, n) && SideValid(b, n) && Disjoint(a, b)
    ensures SideValid(MergeSides(a, b), n)
  {
    if b != [] {
      if a != [] { Trichotomy(a[0].start, a[0].end, b[0].start, b[0].end); }
      if a != [] && Before(a[0], b[0]) {
        var rest := MergeSides(a[1..], b);
        MergeValid(a[1..], b, n);
        forall k | 0 <= k < |rest| ensures Before(a[0], rest[k]) {
          MergeFrom(a[1..], b, rest[k]);
          if rest[k] in b { FirstOfAll(a[0], b, rest[k], n); }
        }
        ValidCons(a[0], rest, n);
      } else {
        var rest := MergeSides(a, b[1..]);
        MergeValid(a, b[1..], n);
        forall k | 0 <= k < |rest| ensures Before(b[0], rest[k]) {
          MergeFrom(a, b[1..], rest[k]);
          if rest[k] in a { FirstOfAll(b[0], a, rest[k], n); }
        }
        ValidCons(b[0], rest, n);
      }
    }
  }

  lemma FirstOfAll<T>(h: Hunk<T>, hs: seq<Hunk<T>>, x: Hunk<T>, n: int)
    requires Within(h, n) && SideValid(hs, n) && hs != [] && Before(h, hs[0]) && x in hs
    ensures Before(h, x)
  {
    var k :| 0 <= k < |hs| && hs[k] == x;
    if k > 0 { assert Before(hs[0], hs[k]); }
  }

  /** Which side is called server makes no difference. */
  lemma MergeSymmetric<T>(a: seq<Hunk<T>>, b: seq<Hunk<T>>, n: int)
    requires SideValid(a, n) && SideValid(b, n) && Disjoint(a, b)
    ensures MergeSides(a, b) == MergeSides(b, a)
  {
    MergeValid(a, b, n);
    MergeValid(b, a, n);
    MergeMembers(a, b);
    MergeMembers(b, a);
    SideValidSorted(MergeSides(a, b), n);
    SortedIs(MergeSides(a, b), MergeSides(b, a), n);
  }

  lemma {:induction false} EmitStep<T>(base: seq<T>, all: seq<Hunk<T>>, k: int, pos: int, done: seq<T>)
    requires 0 <= k < |all| && InOrder(pos, all[k..], |base|)
    ensures InOrder(all[k].end, all[k + 1..], |base|) && 0 <= pos <= all[k].start <= all[k].end <= |base|
    ensures done + ApplyFrom(base, pos, all[k..])
         == done + (base[pos..all[k].start] + all[k].lines) + ApplyFrom(base, all[k].end, all[k + 1..])
  {
    assert all[k..][0] == all[k] && all[k..][1..] == all[k + 1..];
  }

  lemma MergedOrder<T>(all: seq<Hunk<T>>, server: seq<Hunk<T>>, client: seq<Hunk<T>>, n: int)
    requires SideValid(server, n) && SideValid(client, n) && Disjoint(server, client) && n >= 0
    requires SortedBy(all, RangeKey) && multiset(all) == multiset(server + client)
    ensures all == MergeSides(server, client) && SideValid(all, n) && InOrder(0, all, n)
  {
    var m := MergeSides(server, client);
    MergeValid(server, client, n);
    MergeMembers(server, client);
    SortedIs(all, m, n);
    SideValidInOrder(0, m, n);
  }

  /** One turn of the emitting loop. */
  method EmitHunk<T>(base: seq<T>, pos: int, h: Hunk<T>, result: seq<T>) returns (r: seq<T>)
    requires 0 <= pos <= h.start <= |base|
    ensures r == result + (base[pos..h.start] + h.lines)
  {
    r := result;
    if h.start > pos {
      r := r + base[pos..h.start];
    }
    r := r + h.lines;
  }

  /** `applyHunks`: sort, then emit context and replacements from left to right. */
  method ApplyHunks<T>(base: seq<T>, server: seq<Hunk<T>>, client: seq<Hunk<T>>) returns (result: seq<T>)
    requires SideValid(server, |base|) && SideValid(client, |base|) && Disjoint(server, client)
    ensures SideValid(MergeSides(server, client), |base|)
    ensures InOrder(0, MergeSides(server, client), |base|)
    ensures result == ApplyFrom(base, 0, MergeSides(server, client))
  {
    var all := SortSlice(server + client, RangeKey);
    MergedOrder(all, server, client, |base|);
    result := [];
    var pos := 0;
    assert all[0..] == all;
    for k := 0 to |all|
      invariant InOrder(pos, all[k..], |base|)
      invariant ApplyFrom(base, 0, all) == result + ApplyFrom(base, pos, all[k..])
    {
      EmitStep(base, all, k, pos, result);
      result := EmitHunk(base, pos, all[k], result);
      pos := all[k].end;
    }
    if pos < |base| {
      result := result + base[pos..];
    }
  }

  /** `moved` in the coordinates of the text that `applied` has already been applied to: each hunk
      is carried along by the growth of the `applied` hunks in front of it. */
  ghost function ShiftPast<T>(applied: seq<Hunk<T>>, moved: seq<Hunk<T>>, off: int): seq<Hunk<T>>
    decreases |applied| + |moved|
  {
    if moved == [] then []
    else if applied != [] && Before(applied[0], moved[0]) then
      ShiftPast(applied[1..], moved, off + |applied[0].lines| - (applied[0].end - applied[0].start))
    else
      [Hunk(moved[0].start + off, moved[0].end + off, moved[0].lines)] + ShiftPast(applied, moved[1..], off)
  }

  ghost predicate After<T>(hs: seq<Hunk<T>>, pos: int) {
    hs != [] ==> pos <= hs[0].start
  }

  lemma TailDisjoint<T>(a: seq<Hunk<T>>, b: seq<Hunk<T>>)
    requires Disjoint(a, b)
    ensures a != [] ==> Disjoint(a[1..], b)
    ensures b != [] ==> Disjoint(a, b[1..])
  {
  }

  /** Reading `hs` in the settled text gives `out`. */
  ghost predicate Reads<T>(text: seq<T>, at: int, hs: seq<Hunk<T>>, out: seq<T>) {
    InOrder(at, hs, |text|) && ApplyFrom(text, at, hs) == out
  }

  lemma {:induction false} ReadsCons<T>(text: seq<T>, at: int, h: Hunk<T>, hs: seq<Hunk<T>>, ctx: seq<T>, out: seq<T>)
    requires 0 <= at <= h.start <= h.end && Reads(text, h.end, hs, out) && text[at..h.start] == ctx
    ensures Reads(text, at, [h] + hs, ctx + h.lines + out)
  {
    ApplyCons(text, at, h, hs);
  }

  /** The diamond from base position `pos` on, in a text whose first |pre| elements are settled. */
  ghost predicate DiamondAt<T>(base: seq<T>, pos: int, a: seq<Hunk<T>>, b: seq<Hunk<T>>, pre: seq<T>) {
    && InOrder(pos, a, |base|) && InOrder(pos, MergeSides(a, b), |base|)
    && Reads(pre + ApplyFrom(base, pos, a), |pre|, ShiftPast(a, b, |pre| - pos), ApplyFrom(base, pos, MergeSides(a, b)))
  }

  lemma {:induction false} DiamondFrom<T>(base: seq<T>, pos: int, a: seq<Hunk<T>>, b: seq<Hunk<T>>, pre: seq<T>)
    requires SideValid(a, |base|) && SideValid(b, |base|) && Disjoint(a, b)
    requires 0 <= pos <= |base| && After(a, pos) && After(b, pos)
    ensures DiamondAt(base, pos, a, b, pre)
    decreases |a| + |b|
  {
    SideValidInOrder(pos, a, |base|);
    TailDisjoint(a, b);
    if b == [] {
      assert (pre + ApplyFrom(base, pos, a))[|pre|..] == ApplyFrom(base, pos, a);
    } else if a != [] && Before(a[0], b[0]) {
      DiamondFrom(base, a[0].end, a[1..], b, pre + (base[pos..a[0].start] + a[0].lines));
      StepApplied(base, pos, a, b, pre);
    } else {
      if a != [] { Trichotomy(a[0].start, a[0].end, b[0].start, b[0].end); }
      DiamondFrom(base, b[0].end, a, b[1..], pre + base[pos..b[0].end]);
      StepMoved(base, pos, a, b, pre);
    }
  }

  lemma {:induction false} StepApplied<T>(base: seq<T>, pos: int, a: seq<Hunk<T>>, b: seq<Hunk<T>>, pre: seq<T>)
    requires a != [] && b != [] && Before(a[0], b[0])
    requires 0 <= pos <= a[0].start <= a[0].end <= |base|
    requires DiamondAt(base, a[0].end, a[1..], b, pre + (base[pos..a[0].start] + a[0].lines))
    ensures DiamondAt(base, pos, a, b, pre)
  {
    var piece := base[pos..a[0].start] + a[0].lines;
    var pre', tail := pre + piece, ApplyFrom(base, a[0].end, a[1..]);
    Assoc(pre, piece, tail);
    var text := pre' + tail;
    assert text == pre + ApplyFrom(base, pos, a);
    var hs := ShiftPast(a[1..], b, |pre'| - a[0].end);
    assert hs == ShiftPast(a, b, |pre| - pos);
    ApplyEarlier(text, |pre|, |pre'|, hs);
    assert text[|pre|..|pre'|] == piece;
    ApplyCons(base, pos, a[0], MergeSides(a[1..], b));
  }

  lemma {:induction false} SliceInto<T>(pre: seq<T>, base: seq<T>, pos: int, mid: int, end: int, tail: seq<T>)
    requires 0 <= pos <= mid <= end <= |base|
    ensures (pre + base[pos..end] + tail)[|pre|..|pre| + mid - pos] == base[pos..mid]
  {
    var x := base[pos..end];
    assert (pre + x + tail)[|pre|..|pre| + mid - pos] == x[..mid - pos];
    assert x[..mid - pos] == base[pos..mid];
  }

  lemma {:induction false} Settle<T>(base: seq<T>, pos: int, end: int, a: seq<Hunk<T>>, pre: seq<T>)
    requires 0 <= pos <= end <= |base| && InOrder(end, a, |base|)
    ensures InOrder(pos, a, |base|)
    ensures pre + ApplyFrom(base, pos, a) == pre + base[pos..end] + ApplyFrom(base, end, a)
  {
    ApplyEarlier(base, pos, end, a);
    Assoc(pre, base[pos..end], ApplyFrom(base, end, a));
  }

  /** Moving b's first hunk: the text it is read in, and what it contributes there. */
  lemma {:induction false} StepMovedReads<T>(base: seq<T>, pos: int, a: seq<Hunk<T>>, b: seq<Hunk<T>>, pre: seq<T>,
                                             text: seq<T>, out: seq<T>)
    requires b != [] && (a != [] ==> !Before(a[0], b[0]))
    requires 0 <= pos <= b[0].start <= b[0].end <= |base| && InOrder(b[0].end, a, |base|)
    requires text == pre + base[pos..b[0].end] + ApplyFrom(base, b[0].end, a)
    requires Reads(text, |pre| + b[0].end - pos, ShiftPast(a, b[1..], |pre| - pos), out)
    ensures Reads(text, |pre|, ShiftPast(a, b, |pre| - pos), base[pos..b[0].start] + b[0].lines + out)
  {
    var off := |pre| - pos;
    var h := Hunk(b[0].start + off, b[0].end + off, b[0].lines);
    SliceInto(pre, base, pos, b[0].start, b[0].end, ApplyFrom(base, b[0].end, a));
    ReadsCons(text, |pre|, h, ShiftPast(a, b[1..], off), base[pos..b[0].start], out);
  }

  lemma {:induction false} StepMoved<T>(base: seq<T>, pos: int, a: seq<Hunk<T>>, b: seq<Hunk<T>>, pre: seq<T>)
    requires b != [] && (a != [] ==> !Before(a[0], b[0]) && b[0].end <= a[0].start)
    requires 0 <= pos <= b[0].start <= b[0].end <= |base|
    requires DiamondAt(base, b[0].end, a, b[1..], pre + base[pos..b[0].end])
    ensures DiamondAt(base, pos, a, b, pre)
  {
    var end := b[0].end;
    var text := pre + base[pos..end] + ApplyFrom(base, end, a);
    var merged := MergeSides(a, b[1..]);
    var rest := ApplyFrom(base, end, merged);
    hide ShiftPast, InOrder, ApplyFrom;
    StepMovedReads(base, pos, a, b, pre, text, rest);
    ReadsCons(base, pos, b[0], merged, base[pos..b[0].start], rest);
    Settle(base, pos, end, a, pre);
  }

  /** The merge diamond: merging both sides at once is applying one and then the other carried
      along, in either order. */
  lemma MergeDiamond<T>(base: seq<T>, server: seq<Hunk<T>>, client: seq<Hunk<T>>)
    requires SideValid(server, |base|) && SideValid(client, |base|) && Disjoint(server, client)
    ensures InOrder(0, server, |base|) && InOrder(0, client, |base|) && InOrder(0, MergeSides(server, client), |base|)
    ensures var viaServer := ApplyFrom(base, 0, server);
            && InOrder(0, ShiftPast(server, client, 0), |viaServer|)
            && ApplyFrom(viaServer, 0, ShiftPast(server, client, 0)) == ApplyFrom(base, 0, MergeSides(server, client))
    ensures var viaClient := ApplyFrom(base, 0, client);
            && InOrder(0, ShiftPast(client, server, 0), |viaClient|)
            && ApplyFrom(viaClient, 0, ShiftPast(client, server, 0)) == ApplyFrom(base, 0, MergeSides(server, client))
  {
    DiamondFrom(base, 0, server, client, []);
    assert [] + ApplyFrom(base, 0, server) == ApplyFrom(base, 0, server);
    MergeSymmetric(server, client, |base|);
    assert Disjoint(client, server);
    DiamondFrom(base, 0, client, server, []);
    assert [] + ApplyFrom(base, 0, client) == ApplyFrom(base, 0, client);
  }
}
