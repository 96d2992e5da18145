/** The three-way merge of texts: split, diff, merge or partition, and join. */
module Merging {
  import opened Wrappers
  import opened Seqs
  import opened Sorting
  import opened Texts
  import opened Hunks
  import opened ComputeHunks
  import opened ThreeWay
  import opened Partition
  import opened PartitionLaws
  import opened Conflicts
  import opened Traces

  type Lines = seq<string>

  /** The diff library: a list of chunks for each pair of line lists. */
  type Differ = (Lines, Lines) -> seq<Chunk<string>>

  /** `MergeResult`: the text of a clean merge, or what the two sides cannot agree on. */
  datatype MergeResult =
    | Clean(content: string)
    | Torn(conflicts: seq<Conflict<string>>, disjoint: seq<Hunk<string>>, base: Lines, trailingNewline: bool)

  predicate EndsIn(lines: Lines) { lines != [] && lines[|lines| - 1] == "" }

  /** The diff runs on the joined lines, where a last empty line does not show. */
  function Seen(lines: Lines): Lines { if EndsIn(lines) then lines[..|lines| - 1] else lines }

  ghost function Unseen(lines: Lines): Lines { if EndsIn(lines) then [""] else [] }

  /** A line diff of the two texts as the diff library delivers it. */
  ghost predicate IsDiff(cs: seq<Chunk<string>>, base: Lines, text: Lines) {
    NonEmpty(cs) && Normalised(cs) && OldLines(cs) == Seen(base) && NewLines(cs) == Seen(text)
  }

  ghost predicate Diffs(diff: Differ, base: string, text: string) {
    IsDiff(diff(SplitLines(base), SplitLines(text)), SplitLines(base), SplitLines(text))
  }

  /** A diff library: it finds the difference of any two texts, and none between equal ones. */
  ghost predicate GoodDiffer(diff: Differ) {
    && (forall x, y :: Diffs(diff, x, y))
    && (forall x :: SideOf(diff, x, x) == [])
  }

  /** The coarsest such library: everything seen goes, everything seen comes. */
  function WholeDiff(base: Lines, text: Lines): seq<Chunk<string>> {
    var old', new' := Seen(base), Seen(text);
    if old' == new' then (if old' == [] then [] else [Chunk(Equal, old')])
    else (if old' == [] then [] else [Chunk(Delete, old')]) + (if new' == [] then [] else [Chunk(Insert, new')])
  }

  lemma WholeDiffIsDiff(base: Lines, text: Lines)
    ensures IsDiff(WholeDiff(base, text), base, text)
    ensures Seen(base) == Seen(text) ==> Side(WholeDiff(base, text)) == []
  {
    var old', new' := Seen(base), Seen(text);
    NoChunk();
    hide NonEmpty, Normalised, OldLines, NewLines, Side, Seen;
    if old' != [] { LoneChunk(Equal, old'); LoneChunk(Delete, old'); }
    if new' != [] { LoneChunk(Insert, new'); }
    if old' != [] && new' != [] { TwoChunks(old', new'); }
    assert [Chunk(Delete, old')] + [Chunk(Insert, new')] == [Chunk(Delete, old'), Chunk(Insert, new')];
    assert [Chunk(Delete, old')] + [] == [Chunk(Delete, old')] && [] + [Chunk(Insert, new')] == [Chunk(Insert, new')];
  }

  lemma NoChunk()
    ensures var cs: seq<Chunk<string>> := [];
            NonEmpty(cs) && Normalised(cs) && OldLines(cs) == [] && NewLines(cs) == [] && Side(cs) == []
  {
  }

  lemma LoneChunk(kind: ChunkKind, l: Lines)
    requires l != []
    ensures var cs := [Chunk(kind, l)];
            && NonEmpty(cs) && Normalised(cs) && (kind.Equal? ==> Side(cs) == [])
            && OldLines(cs) == (if kind.Insert? then [] else l) && NewLines(cs) == (if kind.Delete? then [] else l)
  {
    var cs := [Chunk(kind, l)];
    assert cs[1..] == [] && l + [] == l;
    assert OldLines(cs[1..]) == [] && NewLines(cs[1..]) == [];
    assert RawHunks(cs[1..], |l|) == [];
  }

  lemma TwoChunks(old': Lines, new': Lines)
    requires old' != [] && new' != []
    ensures var cs := [Chunk(Delete, old'), Chunk(Insert, new')];
            NonEmpty(cs) && Normalised(cs) && OldLines(cs) == old' && NewLines(cs) == new'
  {
    var cs := [Chunk(Delete, old'), Chunk(Insert, new')];
    LoneChunk(Insert, new');
    assert cs[1..] == [Chunk(Insert, new')] && old' + [] == old' && [] + new' == new';
  }

  lemma WholeDiffIsGood()
    ensures GoodDiffer(WholeDiff)
  {
    hide IsDiff, Side;
    forall x, y ensures Diffs(WholeDiff, x, y) { WholeDiffIsDiff(SplitLines(x), SplitLines(y)); }
    forall x ensures SideOf(WholeDiff, x, x) == [] { WholeDiffIsDiff(SplitLines(x), SplitLines(x)); }
  }

  /** The edit list of one side. */
  ghost function SideOf(diff: Differ, base: string, text: string): seq<Hunk<string>> {
    Side(diff(SplitLines(base), SplitLines(text)))
  }

  lemma SeenAndUnseen(lines: Lines)
    ensures lines == Seen(lines) + Unseen(lines)
  {
  }

  lemma DiffRebuilds(diff: Differ, base: string, text: string)
    requires Diffs(diff, base, text)
    ensures var l, h := SplitLines(base), SideOf(diff, base, text);
            && SideValid(h, |l|) && InOrder(0, h, |l|)
            && ApplyFrom(l, 0, h) == Seen(SplitLines(text)) + Unseen(l)
  {
    var l, cs := SplitLines(base), diff(SplitLines(base), SplitLines(text));
    SeenAndUnseen(l);
    DiffIsValid(cs, l, Unseen(l));
    SideRebuilds(cs, l, Unseen(l));
  }

  // ----- the merge -----

  /** The conflicts and kept hunks of two edit lists, with the pool they came from. */
  ghost predicate IsPartition<T>(conflicts: seq<Conflict<T>>, disjoint: seq<Hunk<T>>, pool: seq<Tagged<T>>,
                                 server: seq<Hunk<T>>, client: seq<Hunk<T>>) {
    && IsPool(pool, server, client) && NoneEmpty(Groups(pool))
    && multiset(conflicts) == multiset(Regions(Groups(pool)))
    && disjoint == Kept(server, client)
  }

  /** The conflicts carry the lines of the hunks that overlap them; with the kept hunks they give all of both
      sides' new lines. */
  ghost predicate CarriesBoth(conflicts: seq<Conflict<string>>, disjoint: seq<Hunk<string>>,
                              server: seq<Hunk<string>>, client: seq<Hunk<string>>, n: int) {
    && (forall k :: 0 <= k < |conflicts| ==> HoldsHunks(conflicts[k], server, client))
    && Carries(conflicts, disjoint, server, true, n) && Carries(conflicts, disjoint, client, false, n)
  }

  /** The merged lines as a text: a newline is added only if one is wanted and none is there. */
  function Finish(lines: Lines, trailingNewline: bool): string {
    var s := Join(lines);
    if trailingNewline && !EndsNewline(s) then s + "\n" else s
  }

  predicate WantsNewline(server: string, client: string) { EndsNewline(server) || EndsNewline(client) }

  /** What merging the three texts gives; None if the two sides overlap. */
  ghost function MergeText(diff: Differ, base: string, server: string, client: string): Option<string>
    requires Diffs(diff, base, server) && Diffs(diff, base, client)
  {
    var l, s, c := SplitLines(base), SideOf(diff, base, server), SideOf(diff, base, client);
    if server == client then Some(server)
    else if !Disjoint(s, c) then None
    else
      assert InOrder(0, MergeSides(s, c), |l|) by { MergedInOrder(diff, base, server, client); }
      Some(Finish(ApplyFrom(l, 0, MergeSides(s, c)), WantsNewline(server, client)))
  }

  lemma MergedInOrder(diff: Differ, base: string, server: string, client: string)
    requires Diffs(diff, base, server) && Diffs(diff, base, client)
    requires Disjoint(SideOf(diff, base, server), SideOf(diff, base, client))
    ensures InOrder(0, MergeSides(SideOf(diff, base, server), SideOf(diff, base, client)), |SplitLines(base)|)
  {
    var n, s, c := |SplitLines(base)|, SideOf(diff, base, server), SideOf(diff, base, client);
    DiffRebuilds(diff, base, server);
    DiffRebuilds(diff, base, client);
    MergeValid(s, c, n);
    SideValidInOrder(0, MergeSides(s, c), n);
  }

  /** The line a piece of a clean merge stands for. */
  ghost function LineOf(base: Lines): Piece<string> -> string {
    (p: Piece<string>) => match p
         case BaseLine(at) => if 0 <= at < |base| then base[at] else ""
         case HunkLine(h, j) => if 0 <= j < |h.lines| then h.lines[j] else ""
         case Block(_) => ""
  }

  ghost function Unmerged(): Hunk<string> -> Mark<string> { (h: Hunk<string>) => OfHunk(h) }

  lemma MergedIs(diff: Differ, base: string, server: string, client: string)
    requires Diffs(diff, base, server) && Diffs(diff, base, client)
    requires server != client && MergeText(diff, base, server, client).Some?
    ensures var l, merged := SplitLines(base), MergeSides(SideOf(diff, base, server), SideOf(diff, base, client));
            && SideValid(merged, |l|) && InOrder(0, merged, |l|)
            && MergeText(diff, base, server, client)
              == Some(Finish(ApplyFrom(l, 0, merged), WantsNewline(server, client)))
  {
    MergedInOrder(diff, base, server, client);
    DiffRebuilds(diff, base, server);
    DiffRebuilds(diff, base, client);
    hide SplitLines, Finish, MergeSides, SideValid, SideOf, InOrder;
    MergeValid(SideOf(diff, base, server), SideOf(diff, base, client), |SplitLines(base)|);
  }

  /** A clean merge shows every line of either side's edits and every base line neither replaced, once and in
      base order, and nothing else. */
  lemma MergeShowsBoth(diff: Differ, base: string, server: string, client: string) returns (trace: seq<Piece<string>>)
    requires Diffs(diff, base, server) && Diffs(diff, base, client)
    requires server != client && MergeText(diff, base, server, client).Some?
    ensures var l := SplitLines(base);
            && ShowsOnce(trace, |l|, SideOf(diff, base, server) + SideOf(diff, base, client), [])
            && MergeText(diff, base, server, client)
               == Some(Finish(Mapped(trace, LineOf(l)), WantsNewline(server, client)))
  {
    var l, s, c := SplitLines(base), SideOf(diff, base, server), SideOf(diff, base, client);
    var merged := MergeSides(s, c);
    MergedIs(diff, base, server, client);
    hide SplitLines, SideOf, Finish, MergeSides, Diffs, Disjoint, MergeText, SideValid, WantsNewline, ShowsOnce;
    MergedHunks(s, c, merged);
    trace := TraceOf(l, merged, Mapped(merged, Unmerged()), s + c, [], LineOf(l));
  }

  lemma MergedHunks(s: seq<Hunk<string>>, c: seq<Hunk<string>>, merged: seq<Hunk<string>>)
    requires merged == MergeSides(s, c)
    ensures MadeOf(Mapped(merged, Unmerged()), s + c, [])
    ensures forall l: Lines :: AllMade(merged, Mapped(merged, Unmerged()), LineOf(l))
  {
    var made := Mapped(merged, Unmerged());
    MergeMembers(s, c);
    forall h ensures OfHunk(h) in made <==> h in s + c {
      assert h in merged <==> h in multiset(merged);
      assert h in s + c <==> h in multiset(s) || h in multiset(c);
      if h in merged {
        var k :| 0 <= k < |merged| && merged[k] == h;
        assert made[k] == OfHunk(h);
      }
      if OfHunk(h) in made {
        var k :| 0 <= k < |made| && made[k] == OfHunk(h);
        assert merged[k] == h;
      }
    }
  }

  /** `ThreeWayMerge`. */
  method ThreeWayMerge(base: string, server: string, client: string, diff: Differ)
    returns (r: MergeResult, ghost pool: seq<Tagged<string>>)
    requires Diffs(diff, base, server) && Diffs(diff, base, client)
    ensures MergeText(diff, base, server, client) == if r.Clean? then Some(r.content) else None
    ensures r.Torn? ==> r.base == SplitLines(base) && r.trailingNewline == WantsNewline(server, client)
    ensures r.Torn? ==> SortedBy(r.conflicts, StartKey)
    ensures r.Torn?
            ==> IsPartition(r.conflicts, r.disjoint, pool, SideOf(diff, base, server), SideOf(diff, base, client))
    ensures r.Torn?
            ==> CarriesBoth(r.conflicts, r.disjoint, SideOf(diff, base, server), SideOf(diff, base, client), |r.base|)
  {
    if server == client {
      return Clean(server), [];
    }
    var trailingNewline := EndsNewline(server) || EndsNewline(client);
    var baseLines, serverLines, clientLines := SplitLines(base), SplitLines(server), SplitLines(client);
    SeenAndUnseen(baseLines);
    var s := ComputeHunks.ComputeHunks(diff(baseLines, serverLines), baseLines, Unseen(baseLines));
    var c := ComputeHunks.ComputeHunks(diff(baseLines, clientLines), baseLines, Unseen(baseLines));
    pool := [];
    var overlap := HasOverlap(s, c);
    if overlap {
      var conflicts, disjoint;
      conflicts, disjoint, pool := PartitionHunks(s, c, |baseLines|);
      return Torn(conflicts, disjoint, baseLines, trailingNewline), pool;
    }
    var merged := ApplyHunks(baseLines, s, c);
    var result := Join(merged);
    if trailingNewline && !EndsNewline(result) {
      result := result + "\n";
    }
    r := Clean(result);
  }

  lemma SwappedDisjoint(a: seq<Hunk<string>>, b: seq<Hunk<string>>, n: int)
    requires SideValid(a, n) && SideValid(b, n)
    ensures Disjoint(a, b) ==> Disjoint(b, a)
  {
    if Disjoint(a, b) {
      forall i, j | 0 <= i < |b| && 0 <= j < |a| ensures !Overlap(b[i], a[j]) { OverlapSymmetric(a[j], b[i]); }
    }
  }

  lemma MergesIff(diff: Differ, base: string, server: string, client: string)
    requires Diffs(diff, base, server) && Diffs(diff, base, client)
    ensures server == client ==> MergeText(diff, base, server, client) == Some(server)
    ensures server != client ==>
      (MergeText(diff, base, server, client).Some?
       <==> Disjoint(SideOf(diff, base, server), SideOf(diff, base, client)))
    ensures WantsNewline(server, client) == WantsNewline(client, server)
  {
  }

  lemma SwappedSides(diff: Differ, base: string, server: string, client: string)
    requires Diffs(diff, base, server) && Diffs(diff, base, client)
    ensures var s, c := SideOf(diff, base, server), SideOf(diff, base, client);
            && (Disjoint(s, c) <==> Disjoint(c, s)) && (Disjoint(s, c) ==> MergeSides(s, c) == MergeSides(c, s))
  {
    var n, s, c := |SplitLines(base)|, SideOf(diff, base, server), SideOf(diff, base, client);
    DiffRebuilds(diff, base, server);
    DiffRebuilds(diff, base, client);
    hide SplitLines, SideOf, Diffs, ApplyFrom, MergeSides, SideValid, Disjoint, InOrder;
    SwappedDisjoint(s, c, n);
    SwappedDisjoint(c, s, n);
    if Disjoint(s, c) { MergeSymmetric(s, c, n); }
  }

  /** Equal texts merge to that text, and it does not matter which side is called server. */
  lemma MergeTextSymmetric(diff: Differ, base: string, server: string, client: string)
    requires Diffs(diff, base, server) && Diffs(diff, base, client)
    ensures server == client ==> MergeText(diff, base, server, client) == Some(server)
    ensures MergeText(diff, base, server, client) == MergeText(diff, base, client, server)
  {
    hide *;
    MergesIff(diff, base, server, client);
    MergesIff(diff, base, client, server);
    SwappedSides(diff, base, server, client);
    if server != client && MergeText(diff, base, server, client).Some? {
      MergedIs(diff, base, server, client);
      MergedIs(diff, base, client, server);
    }
  }

  // ----- one side alone changed -----

  lemma NothingOnTheLeft<T>(hs: seq<Hunk<T>>)
    ensures MergeSides([], hs) == hs
  {
    if hs != [] { NothingOnTheLeft(hs[1..]); }
  }

  /** The text that comes back when `side` has all the edits. */
  ghost function SideText(base: string, side: string, other: string): string {
    Finish(Seen(SplitLines(side)) + Unseen(SplitLines(base)), WantsNewline(side, other))
  }

  lemma ServerSideMerges(diff: Differ, base: string, server: string, client: string)
    requires Diffs(diff, base, server) && Diffs(diff, base, client) && server != client
    requires SideOf(diff, base, client) == []
    ensures MergeText(diff, base, server, client) == Some(SideText(base, server, client))
  {
    DiffRebuilds(diff, base, server);
    hide ApplyFrom, InOrder, SideValid, Seen, Unseen, SplitLines, Join, IsDiff, Side;
  }

  lemma ClientSideMerges(diff: Differ, base: string, server: string, client: string)
    requires Diffs(diff, base, server) && Diffs(diff, base, client) && server != client
    requires SideOf(diff, base, server) == []
    ensures MergeText(diff, base, server, client) == Some(SideText(base, client, server))
  {
    DiffRebuilds(diff, base, client);
    NothingOnTheLeft(SideOf(diff, base, client));
    hide ApplyFrom, InOrder, SideValid, Seen, Unseen, SplitLines, Join, IsDiff, Side;
  }

  /** The condition: a lone newline survives; otherwise the text must not end in an empty line, and must
      end in a newline whenever one would be added. */
  predicate Survives(base: string, side: string, other: string) {
    side == "\n" ||
    (!EndsBlank(side) && (EndsNewline(side) || (!EndsNewline(other) && !(EndsBlank(base) && side != ""))))
  }

  /** What is joined: the side's own last empty line goes, the base's comes. */
  lemma JoinedSide(base: string, side: string)
    ensures var j := Join(Seen(SplitLines(side)) + Unseen(SplitLines(base)));
            && (EndsBlank(side) ==> side == "\n" ==> j == "")
            && (EndsBlank(side) && EndsBlank(base) ==> j == Chomp(side))
            && (EndsBlank(side) && !EndsBlank(base) ==> j == Chomp(Chomp(side)))
            && (!EndsBlank(side) && EndsBlank(base) ==> j == if side == "" then "" else Chomp(side) + "\n")
            && (!EndsBlank(side) && !EndsBlank(base) ==> j == Chomp(side))
  {
    var s := SplitLines(side);
    JoinLines(side);
    LastLineBlank(side);
    LastLineBlank(base);
    assert Unseen(SplitLines(base)) == if EndsBlank(base) then [""] else [];
    hide SplitLines, Unseen;
    if EndsBlank(side) { JoinedBlank(s, side); }
    else if EndsBlank(base) {
      if s != [] { JoinSnoc(s, ""); } else { assert [] + [""] == [""]; }
      hide Join;
    } else {
      assert s + [] == s;
    }
  }

  lemma JoinedBlank(s: Lines, side: string)
    requires EndsIn(s) && Join(s) == Chomp(side) && EndsBlank(side)
    ensures Join(Seen(s) + [""]) == Chomp(side) && Join(Seen(s) + []) == Chomp(Chomp(side))
    ensures side == "\n" ==> Join(Seen(s) + [""]) == "" && Join(Seen(s) + []) == ""
  {
    var front := s[..|s| - 1];
    assert s == front + [""];
    assert front + [] == front;
    hide Join, Chomp;
    JoinedFront(front, side);
  }

  lemma JoinedFront(front: Lines, side: string)
    requires Join(front + [""]) == Chomp(side) && EndsBlank(side)
    ensures Join(front) == Chomp(Chomp(side)) && (side == "\n" ==> Join(front + [""]) == "" && Join(front) == "")
  {
    if front == [] {
      assert front + [""] == [""];
    } else {
      JoinSnoc(front, "");
      var j := Join(front);
      hide Join;
      ChompsTwice(side, j);
    }
  }

  lemma ChompsTwice(side: string, j: string)
    requires Chomp(side) == j + "\n" + ""
    ensures Chomp(Chomp(side)) == j && side != "\n"
  {
    assert j + "\n" + "" == j + "\n";
  }

  /** A change of one side alone comes back as it was written exactly under that condition. */
  lemma SideTextIff(base: string, side: string, other: string)
    ensures SideText(base, side, other) == side <==> Survives(base, side, other)
  {
    JoinedSide(base, side);
    hide SplitLines, Join, Seen, Unseen;
  }

  /** When the other side is the base itself: the text must not end in an empty line, unless that is all
      of it, and must end in a newline if the base does. */
  lemma LoneChangeIff(diff: Differ, base: string, side: string)
    requires Diffs(diff, base, side) && Diffs(diff, base, base) && SideOf(diff, base, base) == []
    ensures var kept := side == "\n" || side == base || (!EndsBlank(side) && (EndsNewline(base) ==> EndsNewline(side)));
            && (MergeText(diff, base, side, base) == Some(side) <==> kept)
            && (MergeText(diff, base, base, side) == Some(side) <==> kept)
  {
    if side != base {
      ServerSideMerges(diff, base, side, base);
      ClientSideMerges(diff, base, base, side);
      SideTextIff(base, side, base);
    }
  }
}
