/** Rendering a merge that has conflicts. */
module Callout {
  import opened Seqs
  import opened Sorting
  import opened Texts
  import opened Hunks
  import opened ThreeWay
  import opened Partition
  import opened PartitionLaws
  import opened Traces
  import opened Merging

  // ----- pieces of text -----

  /** Lines with their newlines. */
  function Terminated(lines: seq<string>): (r: seq<string>)
    ensures |r| == |lines|
  {
    seq(|lines|, i requires 0 <= i < |lines| => lines[i] + "\n")
  }

  function Concat(pieces: seq<string>): string {
    if pieces == [] then "" else pieces[0] + Concat(pieces[1..])
  }

  lemma {:induction false} ConcatAppend(a: seq<string>, b: seq<string>)
    ensures Concat(a + b) == Concat(a) + Concat(b)
  {
    if a == [] {
      assert a + b == b;
    } else {
      assert (a + b)[1..] == a[1..] + b;
      ConcatAppend(a[1..], b);
      Assoc(a[0], Concat(a[1..]), Concat(b));
    }
  }

  /** Joining lines and adding a newline is writing each with its own. */
  lemma {:induction false} JoinTerminated(lines: seq<string>)
    requires lines != []
    ensures Join(lines) + "\n" == Concat(Terminated(lines))
  {
    var t := Terminated(lines);
    if |lines| > 1 {
      JoinTerminated(lines[1..]);
      assert t[1..] == Terminated(lines[1..]);
      Assoc(lines[0] + "\n", Join(lines[1..]), "\n");
    } else {
      assert t == [lines[0] + "\n"] && t[1..] == [];
    }
  }

  /** `strings.TrimRight` of newlines. */
  function TrimNewlines(s: string): string { if EndsNewline(s) then TrimNewlines(s[..|s| - 1]) else s }

  /** `out` is `full` up to newlines at the end: none are gone if they are kept, all if not. */
  ghost predicate Trimmed(out: string, full: string, keep: bool) {
    if keep then out == full
    else
      && !EndsNewline(out) && |out| <= |full| && full[..|out|] == out
      && forall i :: |out| <= i < |full| ==> full[i] == '\n'
  }

  lemma {:induction false} TrimIs(s: string)
    ensures Trimmed(TrimNewlines(s), s, false)
  {
    if EndsNewline(s) { TrimIs(s[..|s| - 1]); }
  }

  // ----- rendering -----

  ghost function KeptLines(): Hunk<string> -> seq<string> { (h: Hunk<string>) => Terminated(h.lines) }

  ghost function BlockLines(emit: Conflict<string> -> string): seq<Tagged<string>> -> seq<string> {
    g => if g == [] then [] else [emit(RegionOf(g))]
  }

  /** Everything the renderer puts in place of base lines, in base order. */
  ghost function Marks(server: seq<Hunk<string>>, client: seq<Hunk<string>>, pool: seq<Tagged<string>>,
                       emit: Conflict<string> -> string): seq<Hunk<string>>
    requires NoneEmpty(Groups(pool))
  {
    MergeSides(KeptMarks(Kept(server, client), KeptLines()), RegionMarks(Groups(pool), BlockLines(emit)))
  }

  /** `marker`: a kept hunk's lines, or a conflict still to be rendered. */
  datatype Marker = KeepMarker(start: int, end: int, newLines: seq<string>)
                  | ConflictMarker(start: int, end: int, conflict: Conflict<string>)

  function MarkerKey(m: Marker): Key { (m.start, m.end) }

  function MarkerPieces(m: Marker, emit: Conflict<string> -> string): seq<string> {
    match m
    case KeepMarker(_, _, newLines) => Terminated(newLines)
    case ConflictMarker(_, _, conflict) => [emit(conflict)]
  }

  function Emitted(m: Marker, emit: Conflict<string> -> string): Hunk<string> {
    Hunk(m.start, m.end, MarkerPieces(m, emit))
  }

  ghost function EmitsWith(emit: Conflict<string> -> string): Marker -> Hunk<string> { m => Emitted(m, emit) }

  ghost function EmittedAll(ms: seq<Marker>, emit: Conflict<string> -> string): (r: seq<Hunk<string>>) {
    Mapped(ms, EmitsWith(emit))
  }

  function ToKeep(h: Hunk<string>): Marker { KeepMarker(h.start, h.end, h.lines) }

  function ToConflict(c: Conflict<string>): Marker { ConflictMarker(c.start, c.end, c) }

  ghost function KeepMarkers(hs: seq<Hunk<string>>): seq<Marker> { Mapped(hs, ToKeep) }

  ghost function ConflictMarkers(cs: seq<Conflict<string>>): seq<Marker> { Mapped(cs, ToConflict) }

  lemma MarkersBag(sorted: seq<Marker>, conflicts: seq<Conflict<string>>, regions: seq<Conflict<string>>,
                   disjoint: seq<Hunk<string>>, emit: Conflict<string> -> string)
    requires multiset(conflicts) == multiset(regions)
    requires multiset(sorted) == multiset(KeepMarkers(disjoint) + ConflictMarkers(conflicts))
    ensures multiset(EmittedAll(sorted, emit))
         == multiset(EmittedAll(KeepMarkers(disjoint), emit)) + multiset(EmittedAll(ConflictMarkers(regions), emit))
  {
    var a, b := KeepMarkers(disjoint), ConflictMarkers(conflicts);
    MappedBag(conflicts, regions, ToConflict);
    MappedBag(b, ConflictMarkers(regions), EmitsWith(emit));
    MappedBag(sorted, a + b, EmitsWith(emit));
    assert EmittedAll(a + b, emit) == EmittedAll(a, emit) + EmittedAll(b, emit);
    BagOfConcat(EmittedAll(a, emit), EmittedAll(b, emit));
  }

  lemma EmittedSorted(sorted: seq<Marker>, emit: Conflict<string> -> string)
    requires SortedBy(sorted, MarkerKey)
    ensures SortedBy(EmittedAll(sorted, emit), RangeKey)
  {
  }

  lemma KeptEmitted(disjoint: seq<Hunk<string>>, emit: Conflict<string> -> string)
    ensures EmittedAll(KeepMarkers(disjoint), emit) == KeptMarks(disjoint, KeptLines())
  {
    var a, b := EmittedAll(KeepMarkers(disjoint), emit), KeptMarks(disjoint, KeptLines());
    forall i | 0 <= i < |disjoint| ensures a[i] == b[i] {
      assert KeepMarkers(disjoint)[i] == ToKeep(disjoint[i]);
      assert a[i] == Emitted(ToKeep(disjoint[i]), emit);
    }
  }

  lemma RegionsEmitted(groups: seq<seq<Tagged<string>>>, emit: Conflict<string> -> string)
    requires NoneEmpty(groups)
    ensures EmittedAll(ConflictMarkers(Regions(groups)), emit) == RegionMarks(groups, BlockLines(emit))
  {
    var a, b := EmittedAll(ConflictMarkers(Regions(groups)), emit), RegionMarks(groups, BlockLines(emit));
    forall i | 0 <= i < |groups| ensures a[i] == b[i] {
      assert ConflictMarkers(Regions(groups))[i] == ToConflict(RegionOf(groups[i]));
      assert a[i] == Emitted(ToConflict(RegionOf(groups[i])), emit);
    }
  }

  /** However ties are broken, the sorted markers emit exactly Marks, in its order. */
  lemma MarkersAre(sorted: seq<Marker>, conflicts: seq<Conflict<string>>, disjoint: seq<Hunk<string>>,
                   pool: seq<Tagged<string>>, server: seq<Hunk<string>>, client: seq<Hunk<string>>, n: int,
                   emit: Conflict<string> -> string)
    requires SideValid(server, n) && SideValid(client, n) && IsPartition(conflicts, disjoint, pool, server, client)
    requires SortedBy(sorted, MarkerKey)
    requires multiset(sorted) == multiset(KeepMarkers(disjoint) + ConflictMarkers(conflicts))
    ensures EmittedAll(sorted, emit) == Marks(server, client, pool, emit)
    ensures SideValid(Marks(server, client, pool, emit), n)
  {
    hide Kept, Groups, MergeSides, SideValid, Regions, EmittedAll, KeptMarks, RegionMarks, SortedBy, IsPool;
    var km, rm := KeptMarks(disjoint, KeptLines()), RegionMarks(Groups(pool), BlockLines(emit));
    MarksValid(server, client, n, pool, KeptLines(), BlockLines(emit));
    MarkersBag(sorted, conflicts, Regions(Groups(pool)), disjoint, emit);
    RegionsEmitted(Groups(pool), emit);
    KeptEmitted(disjoint, emit);
    MergeMembers(km, rm);
    EmittedSorted(sorted, emit);
    SortedIs(EmittedAll(sorted, emit), MergeSides(km, rm), n);
  }

  /** The marker slice, before it is sorted. */
  method CollectMarkers(disjoint: seq<Hunk<string>>, conflicts: seq<Conflict<string>>) returns (markers: seq<Marker>)
    ensures markers == KeepMarkers(disjoint) + ConflictMarkers(conflicts)
  {
    markers := [];
    for i := 0 to |disjoint|
      invariant markers == KeepMarkers(disjoint[..i])
    {
      markers := markers + [ToKeep(disjoint[i])];
    }
    assert disjoint[..|disjoint|] == disjoint;
    for i := 0 to |conflicts|
      invariant markers == KeepMarkers(disjoint) + ConflictMarkers(conflicts[..i])
    {
      markers := markers + [ToConflict(conflicts[i])];
    }
    assert conflicts[..|conflicts|] == conflicts;
  }

  /** One turn of the rendering loop: the context in front of the marker, then the marker. */
  method WriteMarker(base: seq<string>, pos: int, m: Marker, emit: Conflict<string> -> string, b: string)
    returns (r: string)
    requires 0 <= pos <= m.start <= |base|
    ensures r == b + Concat(Terminated(base)[pos..m.start] + MarkerPieces(m, emit))
  {
    r := b;
    var context := base[pos..m.start];
    ConcatAppend(Terminated(base)[pos..m.start], MarkerPieces(m, emit));
    assert Terminated(base)[pos..m.start] == Terminated(context);
    if m.start > pos {
      JoinTerminated(context);
      r := r + Join(context) + "\n";
    }
    match m {
      case KeepMarker(_, _, newLines) =>
        if |newLines| > 0 {
          JoinTerminated(newLines);
          r := r + Join(newLines) + "\n";
        }
      case ConflictMarker(_, _, conflict) =>
        r := r + emit(conflict);
        assert [emit(conflict)][1..] == [];
    }
  }

  lemma WriteStep(base: seq<string>, all: seq<Hunk<string>>, k: int, pos: int, b: string)
    requires 0 <= k < |all| && InOrder(pos, all[k..], |base|)
    ensures InOrder(all[k].end, all[k + 1..], |base|) && 0 <= pos <= all[k].start <= all[k].end <= |base|
    ensures b + Concat(ApplyFrom(base, pos, all[k..]))
         == b + Concat(base[pos..all[k].start] + all[k].lines) + Concat(ApplyFrom(base, all[k].end, all[k + 1..]))
  {
    EmitStep(base, all, k, pos, []);
    var head, tail := base[pos..all[k].start] + all[k].lines, ApplyFrom(base, all[k].end, all[k + 1..]);
    assert [] + ApplyFrom(base, pos, all[k..]) == ApplyFrom(base, pos, all[k..]) && [] + head + tail == head + tail;
    ConcatAppend(head, tail);
    Assoc(b, Concat(head), Concat(tail));
  }

  /** The rendering loop: the cursor only moves forward. */
  method EmitMarkers(base: seq<string>, sorted: seq<Marker>, emit: Conflict<string> -> string) returns (out: string)
    requires InOrder(0, EmittedAll(sorted, emit), |base|)
    ensures out == Concat(ApplyFrom(Terminated(base), 0, EmittedAll(sorted, emit)))
  {
    ghost var all, lines := EmittedAll(sorted, emit), Terminated(base);
    hide InOrder, ApplyFrom, Concat;
    out := "";
    var pos := 0;
    assert all[0..] == all;
    for k := 0 to |sorted|
      invariant InOrder(pos, all[k..], |base|) && 0 <= pos <= |base|
      invariant Concat(ApplyFrom(lines, 0, all)) == out + Concat(ApplyFrom(lines, pos, all[k..]))
    {
      var m := sorted[k];
      WriteStep(lines, all, k, pos, out);
      out := WriteMarker(base, pos, m, emit, out);
      pos := m.end;
    }
    RestIs(lines, pos);
    assert all[|sorted|..] == [];
    if pos < |base| {
      JoinTerminated(base[pos..]);
      assert lines[pos..] == Terminated(base[pos..]);
      out := out + Join(base[pos..]) + "\n";
    }
  }

  lemma RestIs(lines: seq<string>, pos: int)
    requires 0 <= pos <= |lines|
    ensures InOrder<string>(pos, [], |lines|) && ApplyFrom(lines, pos, []) == lines[pos..]
    ensures pos == |lines| ==> Concat(lines[pos..]) == ""
    ensures Concat([]) == ""
  {
  }

  /** The rendered text, before and after trimming. */
  ghost function Rendered(base: seq<string>, marks: seq<Hunk<string>>, trailingNewline: bool): string
    requires InOrder(0, marks, |base|)
  {
    var out := Concat(ApplyFrom(Terminated(base), 0, marks));
    if trailingNewline then out else TrimNewlines(out)
  }

  /** What a piece looks like in the rendered text: a line with its newline, or the conflict's block. */
  ghost function TextOf(base: seq<string>, emit: Conflict<string> -> string): Piece<string> -> string {
    (p: Piece<string>) => match p
         case BaseLine(at) => if 0 <= at < |base| then base[at] + "\n" else ""
         case HunkLine(h, j) => if 0 <= j < |h.lines| then h.lines[j] + "\n" else ""
         case Block(c) => emit(c)
  }

  /** The text shows every base line nothing replaces, every line of every kept hunk and every conflict's
      block, each once and in base order, and nothing else, up to newlines at its end. */
  ghost predicate ShowsAllOf(out: string, trace: seq<Piece<string>>, base: seq<string>, kept: seq<Hunk<string>>,
                             conflicts: seq<Conflict<string>>, emit: Conflict<string> -> string, keep: bool) {
    && ShowsOnce(trace, |base|, kept, conflicts)
    && Trimmed(out, Concat(Mapped(trace, TextOf(base, emit))), keep)
  }

  function ToMark(m: Marker): Mark<string> {
    match m
    case KeepMarker(start, end, newLines) => OfHunk(Hunk(start, end, newLines))
    case ConflictMarker(_, _, conflict) => OfConflict(conflict)
  }

  /** A collected marker is a kept hunk's or a conflict's. */
  ghost predicate Collected(m: Marker, kept: seq<Hunk<string>>, conflicts: seq<Conflict<string>>) {
    match m
    case KeepMarker(start, end, newLines) => Hunk(start, end, newLines) in kept
    case ConflictMarker(start, end, c) => c in conflicts && start == c.start && end == c.end
  }

  lemma CollectedIff(m: Marker, kept: seq<Hunk<string>>, conflicts: seq<Conflict<string>>)
    ensures m in KeepMarkers(kept) + ConflictMarkers(conflicts) <==> Collected(m, kept, conflicts)
  {
    var a, b := KeepMarkers(kept), ConflictMarkers(conflicts);
    if m in a {
      var i :| 0 <= i < |a| && a[i] == m;
      assert a[i] == ToKeep(kept[i]);
    }
    if m in b {
      var i :| 0 <= i < |b| && b[i] == m;
      assert b[i] == ToConflict(conflicts[i]);
    }
    if Collected(m, kept, conflicts) {
      match m {
        case KeepMarker(start, end, newLines) =>
          var i :| 0 <= i < |kept| && kept[i] == Hunk(start, end, newLines);
          assert a[i] == ToKeep(kept[i]) && a[i] in a;
        case ConflictMarker(_, _, c) =>
          var i :| 0 <= i < |conflicts| && conflicts[i] == c;
          assert b[i] == ToConflict(conflicts[i]) && b[i] in b;
      }
    }
  }

  lemma SortedCollected(sorted: seq<Marker>, kept: seq<Hunk<string>>, conflicts: seq<Conflict<string>>, m: Marker)
    requires multiset(sorted) == multiset(KeepMarkers(kept) + ConflictMarkers(conflicts))
    ensures m in sorted <==> Collected(m, kept, conflicts)
  {
    CollectedIff(m, kept, conflicts);
    var all := KeepMarkers(kept) + ConflictMarkers(conflicts);
    assert m in sorted <==> m in multiset(sorted);
    assert m in all <==> m in multiset(all);
  }

  lemma MarkIn(sorted: seq<Marker>, k: Mark<string>)
    ensures k in Mapped(sorted, ToMark) <==> exists m :: m in sorted && ToMark(m) == k
  {
    var made := Mapped(sorted, ToMark);
    if k in made {
      var i :| 0 <= i < |made| && made[i] == k;
      assert sorted[i] in sorted && ToMark(sorted[i]) == k;
    }
    if m :| m in sorted && ToMark(m) == k {
      var i :| 0 <= i < |sorted| && sorted[i] == m;
      assert made[i] == k;
    }
  }

  lemma MarkerMade(m: Marker, base: seq<string>, kept: seq<Hunk<string>>, conflicts: seq<Conflict<string>>,
                   emit: Conflict<string> -> string)
    requires Collected(m, kept, conflicts)
    ensures Made(Emitted(m, emit), ToMark(m), TextOf(base, emit))
  {
  }

  lemma MarkersMade(sorted: seq<Marker>, base: seq<string>, kept: seq<Hunk<string>>, conflicts: seq<Conflict<string>>,
                    emit: Conflict<string> -> string)
    requires multiset(sorted) == multiset(KeepMarkers(kept) + ConflictMarkers(conflicts))
    ensures MadeOf(Mapped(sorted, ToMark), kept, conflicts)
    ensures AllMade(EmittedAll(sorted, emit), Mapped(sorted, ToMark), TextOf(base, emit))
  {
    forall m ensures m in sorted <==> Collected(m, kept, conflicts) { SortedCollected(sorted, kept, conflicts, m); }
    forall k | 0 <= k < |sorted|
      ensures Made(EmittedAll(sorted, emit)[k], Mapped(sorted, ToMark)[k], TextOf(base, emit))
    {
      assert sorted[k] in sorted;
      MarkerMade(sorted[k], base, kept, conflicts, emit);
      assert EmittedAll(sorted, emit)[k] == EmitsWith(emit)(sorted[k]);
    }
    forall h ensures OfHunk(h) in Mapped(sorted, ToMark) <==> h in kept {
      MarkIn(sorted, OfHunk(h));
      if h in kept { assert ToKeep(h) in sorted && ToMark(ToKeep(h)) == OfHunk(h); }
    }
    forall c ensures OfConflict(c) in Mapped(sorted, ToMark) <==> c in conflicts {
      MarkIn(sorted, OfConflict(c));
      if c in conflicts { assert ToConflict(c) in sorted && ToMark(ToConflict(c)) == OfConflict(c); }
    }
  }

  /** `renderConflictFile`. */
  method RenderConflictFile(res: MergeResult, emit: Conflict<string> -> string, ghost server: seq<Hunk<string>>,
                            ghost client: seq<Hunk<string>>, ghost pool: seq<Tagged<string>>)
    returns (out: string, ghost trace: seq<Piece<string>>)
    requires res.Torn? && SideValid(server, |res.base|) && SideValid(client, |res.base|)
    requires IsPartition(res.conflicts, res.disjoint, pool, server, client)
    ensures InOrder(0, Marks(server, client, pool, emit), |res.base|)
    ensures out == Rendered(res.base, Marks(server, client, pool, emit), res.trailingNewline)
    ensures ShowsAllOf(out, trace, res.base, res.disjoint, res.conflicts, emit, res.trailingNewline)
  {
    var markers := CollectMarkers(res.disjoint, res.conflicts);
    var sorted := SortSlice(markers, MarkerKey);
    MarkersAre(sorted, res.conflicts, res.disjoint, pool, server, client, |res.base|, emit);
    SideValidInOrder(0, EmittedAll(sorted, emit), |res.base|);
    MarkersMade(sorted, res.base, res.disjoint, res.conflicts, emit);
    trace := TraceOf(Terminated(res.base), EmittedAll(sorted, emit), Mapped(sorted, ToMark), res.disjoint,
                     res.conflicts, TextOf(res.base, emit));
    hide IsPartition, SideValid, ShowsOnce, EmittedAll, AllMade, MadeOf;
    out := EmitMarkers(res.base, sorted, emit);
    TrimIs(out);
    if !res.trailingNewline {
      out := TrimNewlines(out);
    }
  }

  /** `WriteCalloutFile`: a clean merge, or the rendering of what is torn. */
  method WriteCalloutFile(base: string, server: string, client: string, diff: Differ, emit: Conflict<string> -> string)
    returns (out: string, ghost pool: seq<Tagged<string>>, ghost conflicts: seq<Conflict<string>>,
             ghost trace: seq<Piece<string>>)
    requires Diffs(diff, base, server) && Diffs(diff, base, client)
    ensures MergeText(diff, base, server, client).Some? ==> out == MergeText(diff, base, server, client).value
    ensures MergeText(diff, base, server, client).None? ==>
      var s, c, l := SideOf(diff, base, server), SideOf(diff, base, client), SplitLines(base);
      && IsPool(pool, s, c) && NoneEmpty(Groups(pool)) && InOrder(0, Marks(s, c, pool, emit), |l|)
      && out == Rendered(l, Marks(s, c, pool, emit), WantsNewline(server, client))
    ensures MergeText(diff, base, server, client).None? ==>
      var s, c, l := SideOf(diff, base, server), SideOf(diff, base, client), SplitLines(base);
      && CarriesBoth(conflicts, Kept(s, c), s, c, |l|)
      && ShowsAllOf(out, trace, l, Kept(s, c), conflicts, emit, EndsNewline(server) || EndsNewline(client))
  {
    var res;
    conflicts, trace := [], [];
    res, pool := ThreeWayMerge(base, server, client, diff);
    if res.Clean? {
      return res.content, pool, conflicts, trace;
    }
    ghost var s, c := SideOf(diff, base, server), SideOf(diff, base, client);
    DiffRebuilds(diff, base, server);
    DiffRebuilds(diff, base, client);
    conflicts := res.conflicts;
    hide CarriesBoth, ShowsAllOf, SideOf, Kept, Marks, Rendered, SplitLines;
    out, trace := RenderConflictFile(res, emit, s, c, pool);
  }
}
