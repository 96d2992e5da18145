/** What `partitionHunks` returns: every conflict carries the lines of the hunks it stands for. */
module Conflicts {
  import opened Seqs
  import opened Sorting
  import opened Hunks
  import opened ThreeWay
  import opened Partition
  import opened PartitionLaws

  // ----- what the returned conflicts carry -----

  /** The lines a conflict holds for one side, over its range. */
  ghost function SideOfConflict<T>(server: bool): Conflict<T> -> Hunk<T> {
    (c: Conflict<T>) => Hunk(c.start, c.end, if server then c.serverLines else c.clientLines)
  }

  ghost function SideMarks<T>(conflicts: seq<Conflict<T>>, server: bool): seq<Hunk<T>> {
    Mapped(conflicts, SideOfConflict(server))
  }

  /** Conflicts and kept hunks, read in base order, give this side's new lines completely and in order; a
      kept hunk of the other side stands for none. */
  ghost predicate Carries<T(!new)>(conflicts: seq<Conflict<T>>, disjoint: seq<Hunk<T>>, mine: seq<Hunk<T>>,
                                   server: bool, n: int) {
    exists marks: seq<Hunk<T>> ::
      && SideValid(marks, n) && Flat(marks) == Flat(mine)
      && multiset(marks) == multiset(SideMarks(conflicts, server)) + multiset(KeptMarks(disjoint, OwnLines(mine)))
  }

  lemma RegionSideMarks<T>(groups: seq<seq<Tagged<T>>>, side: bool)
    requires NoneEmpty(groups)
    ensures SideMarks(Regions(groups), side) == RegionMarks(groups, SideLines(side))
  {
  }

  lemma SideCarries<T(!new)>(conflicts: seq<Conflict<T>>, server: seq<Hunk<T>>, client: seq<Hunk<T>>, n: int,
                             pool: seq<Tagged<T>>, side: bool)
    requires SideValid(server, n) && SideValid(client, n) && IsPool(pool, server, client) && NoneEmpty(Groups(pool))
    requires multiset(conflicts) == multiset(Regions(Groups(pool)))
    ensures Carries(conflicts, Kept(server, client), if side then server else client, side, n)
  {
    hide Kept, MergeSides, Groups, Flat, KeptMarks, RegionMarks, SideMarks, Regions, SideValid, IsPool, OwnLines,
      SideLines;
    var mine, kept := if side then server else client, Kept(server, client);
    PartitionConserves(server, client, n, pool);
    MarksValid(server, client, n, pool, OwnLines(mine), SideLines(side));
    RegionSideMarks(Groups(pool), side);
    ConflictMarksBag(conflicts, Regions(Groups(pool)), side);
    MergeMembers(KeptMarks(kept, OwnLines(mine)), RegionMarks(Groups(pool), SideLines(side)));
    assert SideValid(MergeSides(KeptMarks(kept, OwnLines(mine)), RegionMarks(Groups(pool), SideLines(side))), n);
  }

  lemma ConflictsCarry<T(!new)>(conflicts: seq<Conflict<T>>, server: seq<Hunk<T>>, client: seq<Hunk<T>>, n: int,
                                pool: seq<Tagged<T>>)
    requires SideValid(server, n) && SideValid(client, n) && IsPool(pool, server, client) && NoneEmpty(Groups(pool))
    requires multiset(conflicts) == multiset(Regions(Groups(pool)))
    ensures Carries(conflicts, Kept(server, client), server, true, n)
    ensures Carries(conflicts, Kept(server, client), client, false, n)
  {
    SideCarries(conflicts, server, client, n, pool, true);
    SideCarries(conflicts, server, client, n, pool, false);
  }

  lemma ConflictMarksBag<T>(conflicts: seq<Conflict<T>>, regions: seq<Conflict<T>>, side: bool)
    requires multiset(conflicts) == multiset(regions)
    ensures multiset(SideMarks(conflicts, side)) == multiset(SideMarks(regions, side))
  {
    MappedBag(conflicts, regions, SideOfConflict(side));
  }

  // ----- conflict by conflict -----

  /** One side's hunks that overlap a range. */
  ghost function Touching<T>(hs: seq<Hunk<T>>, start: int, end: int): (r: seq<Hunk<T>>)
    ensures |r| <= |hs|
  {
    if hs == [] then []
    else
      var last, front := hs[|hs| - 1], Touching(hs[..|hs| - 1], start, end);
      if RangesOverlap(last.start, last.end, start, end) then front + [last] else front
  }

  /** The conflict carries, for each side, the lines of that side's hunks that overlap it, in order. */
  ghost predicate HoldsHunks<T>(c: Conflict<T>, server: seq<Hunk<T>>, client: seq<Hunk<T>>) {
    && c.serverLines == Flat(Touching(server, c.start, c.end))
    && c.clientLines == Flat(Touching(client, c.start, c.end))
  }

  lemma {:induction false} TouchingIs<T>(hs: seq<Hunk<T>>, start: int, end: int, h: Hunk<T>)
    ensures h in Touching(hs, start, end) <==> h in hs && RangesOverlap(h.start, h.end, start, end)
  {
    if hs != [] {
      TouchingIs(hs[..|hs| - 1], start, end, h);
      assert hs == hs[..|hs| - 1] + [hs[|hs| - 1]];
    }
  }

  lemma {:induction false} TouchingValid<T>(hs: seq<Hunk<T>>, start: int, end: int, n: int)
    requires SideValid(hs, n)
    ensures SideValid(Touching(hs, start, end), n)
  {
    if hs != [] {
      var front, r := hs[..|hs| - 1], Touching(hs[..|hs| - 1], start, end);
      TouchingValid(front, start, end, n);
      forall k | 0 <= k < |r| ensures Before(r[k], hs[|hs| - 1]) {
        TouchingIs(front, start, end, r[k]);
        var i :| 0 <= i < |front| && front[i] == r[k];
        assert Before(hs[i], hs[|hs| - 1]);
      }
    }
  }

  /** In a valid list everything but the last hunk lies in front of it. */
  lemma LastIsLast<T>(s: seq<Hunk<T>>, n: int, h: Hunk<T>)
    requires SideValid(s, n) && s != []
    ensures h in s ==> h == s[|s| - 1] || Before(h, s[|s| - 1])
    ensures h in s[..|s| - 1] <==> h in s && h != s[|s| - 1]
  {
    var last := s[|s| - 1];
    Trichotomy(last.start, last.end, last.start, last.end);
    if h in s {
      var k :| 0 <= k < |s| && s[k] == h;
      if k < |s| - 1 { assert Before(s[k], last) && s[..|s| - 1][k] == h; }
    }
    if h in s[..|s| - 1] {
      var k :| 0 <= k < |s| - 1 && s[..|s| - 1][k] == h;
      assert Before(s[k], last);
    }
  }

  lemma SameLast<T>(a: seq<Hunk<T>>, b: seq<Hunk<T>>, n: int)
    requires SideValid(a, n) && SideValid(b, n) && a != [] && b != []
    requires a[|a| - 1] in b && b[|b| - 1] in a
    ensures a[|a| - 1] == b[|b| - 1]
  {
    var x, y := a[|a| - 1], b[|b| - 1];
    LastIsLast(a, n, y);
    LastIsLast(b, n, x);
    assert Within(x, n) && Within(y, n);
    Trichotomy(x.start, x.end, y.start, y.end);
  }

  lemma FrontIn<T>(a: seq<Hunk<T>>, b: seq<Hunk<T>>, c: seq<Hunk<T>>, d: seq<Hunk<T>>, n: int)
    requires SideValid(a, n) && SideValid(b, n) && a != [] && b != [] && a[|a| - 1] == b[|b| - 1]
    requires c == a[..|a| - 1] && d == b[..|b| - 1] && forall h :: h in a ==> h in b
    ensures SideValid(c, n) && forall h :: h in c ==> h in d
  {
    ValidParts(c, [a[|a| - 1]], n) by { assert a == c + [a[|a| - 1]]; }
    hide SideValid;
    forall h | h in c ensures h in d {
      LastIsLast(a, n, h);
      LastIsLast(b, n, h);
    }
  }

  /** Two valid lists with the same hunks are equal. */
  lemma {:induction false} SameValid<T>(a: seq<Hunk<T>>, b: seq<Hunk<T>>, n: int)
    requires SideValid(a, n) && SideValid(b, n) && forall h :: h in a <==> h in b
    ensures a == b
  {
    hide SideValid;
    assert (a != [] ==> a[0] in b) && (b != [] ==> b[0] in a);
    if a != [] {
      assert a[|a| - 1] in b && b[|b| - 1] in a;
      SameLast(a, b, n);
      var c, d := a[..|a| - 1], b[..|b| - 1];
      FrontIn(a, b, c, d, n);
      FrontIn(b, a, d, c, n);
      SameValid(c, d, n);
      assert a == c + [a[|a| - 1]] && b == d + [b[|b| - 1]];
    }
  }

  /** A hunk of a group overlaps the group's region. */
  lemma MemberTouches<T>(g: seq<Tagged<T>>, n: int, k: int)
    requires Chain(g) && FromFirst(g, n) && 0 <= k < |g|
    ensures RangesOverlap(g[k].hunk.start, g[k].hunk.end, g[0].hunk.start, HullEnd(g))
  {
    var h := g[k].hunk;
    HullInBounds(g, n);
    var x := if h.start == h.end then 2 * h.start else 2 * h.start + 1;
    assert InFootprint(h.start, h.end, x);
    HullFootprint(g, n, x);
    OverlapIsFootprint(h.start, h.end, g[0].hunk.start, HullEnd(g));
  }

  /** And no region but its own. */
  lemma OnlyOwnRegion<T>(groups: seq<seq<Tagged<T>>>, n: int, i: int, j: int, h: Hunk<T>, side: bool)
    requires Tidy(groups, n) && 0 <= i < |groups| && 0 <= j < |groups| && Tagged(h, side) in groups[j]
    requires RangesOverlap(h.start, h.end, groups[i][0].hunk.start, HullEnd(groups[i]))
    ensures i == j
  {
    var g, o := groups[i], groups[j];
    var k :| 0 <= k < |o| && o[k] == Tagged(h, side);
    HullInBounds(g, n);
    HullInBounds(o, n);
    OverlapIsFootprint(h.start, h.end, g[0].hunk.start, HullEnd(g));
    var x :| InFootprint(h.start, h.end, x) && InFootprint(g[0].hunk.start, HullEnd(g), x);
    HullFootprint(o, n, x);
    assert InFootprint(o[k].hunk.start, o[k].hunk.end, x);
    OverlapIsFootprint(g[0].hunk.start, HullEnd(g), o[0].hunk.start, HullEnd(o));
    Trichotomy(g[0].hunk.start, HullEnd(g), o[0].hunk.start, HullEnd(o));
  }

  /** A side's hunk overlaps a region exactly when it is in the region's group. */
  lemma TouchesIff<T>(server: seq<Hunk<T>>, client: seq<Hunk<T>>, n: int, pool: seq<Tagged<T>>, i: int, side: bool,
                      h: Hunk<T>)
    requires SideValid(server, n) && SideValid(client, n) && IsPool(pool, server, client)
    requires Tidy(Groups(pool), n) && FlatGroups(Groups(pool)) == pool && 0 <= i < |Groups(pool)|
    ensures var g, mine := Groups(pool)[i], if side then server else client;
            h in OfSide(g, side) <==> h in mine && RangesOverlap(h.start, h.end, g[0].hunk.start, HullEnd(g))
  {
    var groups := Groups(pool);
    var g, mine, theirs := groups[i], if side then server else client, if side then client else server;
    InPool(g, Tagged(h, side));
    InPool(pool, Tagged(h, side));
    FlatGroupsHas(groups, Tagged(h, side));
    SelectSplits(mine, theirs, h);
    hide Groups, OfSide, Select, IsPool, SideValid, FlatGroups, HullEnd;
    if Tagged(h, side) in g {
      var k :| 0 <= k < |g| && g[k] == Tagged(h, side);
      MemberTouches(g, n, k);
      PoolSide(server, client, pool, side);
    }
    if h in mine && RangesOverlap(h.start, h.end, g[0].hunk.start, HullEnd(g)) {
      PoolSide(server, client, pool, side);
      if h in Select(mine, theirs, false) {
        ClearOfRegions(server, client, n, pool, i, side, h);
      }
      var j :| 0 <= j < |groups| && Tagged(h, side) in groups[j];
      OnlyOwnRegion(groups, n, i, j, h, side);
    }
  }

  lemma PoolSide<T>(server: seq<Hunk<T>>, client: seq<Hunk<T>>, pool: seq<Tagged<T>>, side: bool)
    requires IsPool(pool, server, client)
    ensures OfSide(pool, side) == Select(if side then server else client, if side then client else server, true)
  {
  }

  lemma SelectSplits<T>(hs: seq<Hunk<T>>, others: seq<Hunk<T>>, h: Hunk<T>)
    ensures h in hs <==> h in Select(hs, others, true) || h in Select(hs, others, false)
  {
    SelectBoth(hs, others);
    var a, b := Select(hs, others, true), Select(hs, others, false);
    assert h in hs <==> h in multiset(hs);
    assert h in a <==> h in multiset(a);
    assert h in b <==> h in multiset(b);
  }

  lemma GroupIsTouching<T>(server: seq<Hunk<T>>, client: seq<Hunk<T>>, n: int, pool: seq<Tagged<T>>, i: int, side: bool)
    requires SideValid(server, n) && SideValid(client, n) && IsPool(pool, server, client)
    requires Tidy(Groups(pool), n) && FlatGroups(Groups(pool)) == pool && 0 <= i < |Groups(pool)|
    ensures var g := Groups(pool)[i];
            OfSide(g, side) == Touching(if side then server else client, g[0].hunk.start, HullEnd(g))
  {
    var g, mine, theirs := Groups(pool)[i], if side then server else client, if side then client else server;
    var a, b := OfSide(g, side), Touching(mine, g[0].hunk.start, HullEnd(g));
    PoolSide(server, client, pool, side);
    SelectValid(mine, theirs, true, n);
    GroupSideValid(Groups(pool), side, n, i);
    TouchingValid(mine, g[0].hunk.start, HullEnd(g), n);
    hide OfSide, Touching, Groups, SideValid, IsPool, Tidy, Select, HullEnd, FlatGroups;
    forall h ensures h in a <==> h in b {
      TouchesIff(server, client, n, pool, i, side, h);
      TouchingIs(mine, g[0].hunk.start, HullEnd(g), h);
    }
    SameValid(a, b, n);
  }

  /** Each conflict carries exactly the lines of the hunks that overlap it. */
  lemma ConflictsHold<T>(conflicts: seq<Conflict<T>>, server: seq<Hunk<T>>, client: seq<Hunk<T>>, n: int,
                         pool: seq<Tagged<T>>)
    requires SideValid(server, n) && SideValid(client, n) && IsPool(pool, server, client) && NoneEmpty(Groups(pool))
    requires multiset(conflicts) == multiset(Regions(Groups(pool)))
    ensures forall k :: 0 <= k < |conflicts| ==> HoldsHunks(conflicts[k], server, client)
  {
    PoolIsOk(pool, server, client, n);
    GroupsTidy(pool, n);
    SameMembers(conflicts, Regions(Groups(pool)));
    hide Groups, SideValid, IsPool, Tidy, OfSide, HullEnd, Touching, FlatGroups, Flat;
    forall k | 0 <= k < |conflicts| ensures HoldsHunks(conflicts[k], server, client) {
      var i :| 0 <= i < |Regions(Groups(pool))| && Regions(Groups(pool))[i] == conflicts[k];
      GroupIsTouching(server, client, n, pool, i, true);
      GroupIsTouching(server, client, n, pool, i, false);
    }
  }

  // ----- the operation -----

  /** `partitionHunks`: the regions are the groups of one sweep over the sorted overlapping hunks,
      and every other hunk of either side is kept, in base order. */
  method PartitionHunks<T(!new)>(server: seq<Hunk<T>>, client: seq<Hunk<T>>, ghost n: int)
    returns (conflicts: seq<Conflict<T>>, disjoint: seq<Hunk<T>>, ghost pool: seq<Tagged<T>>)
    requires n >= 0 && SideValid(server, n) && SideValid(client, n)
    ensures IsPool(pool, server, client) && NoneEmpty(Groups(pool))
    ensures multiset(conflicts) == multiset(Regions(Groups(pool))) && SortedBy(conflicts, StartKey)
    ensures disjoint == Kept(server, client)
    ensures forall k :: 0 <= k < |conflicts| ==> HoldsHunks(conflicts[k], server, client)
    ensures Carries(conflicts, disjoint, server, true, n) && Carries(conflicts, disjoint, client, false, n)
  {
    var srvOverlap, cliOverlap := MarkOverlaps(server, client, n);
    var srvClear := Pick(server, srvOverlap, false, client);
    var cliClear := Pick(client, cliOverlap, false, server);
    disjoint := SortSlice(srvClear + cliClear, RangeKey);
    SelectValid(server, client, false, n);
    SelectValid(client, server, false, n);
    ClearDisjoint(server, client, n);
    MergedOrder(disjoint, srvClear, cliClear, n);

    var srvHit := Pick(server, srvOverlap, true, client);
    var cliHit := Pick(client, cliOverlap, true, server);
    var tagged := Tag(srvHit, cliHit);
    var sorted := SortSlice(tagged, TagKey);
    pool := sorted;
    PoolSorted(pool, server, client, n);
    PoolIsOk(pool, server, client, n);
    var regions := GroupRegions(sorted);
    conflicts := SortSlice(regions, StartKey);
    ConflictsCarry(conflicts, server, client, n, pool);
    ConflictsHold(conflicts, server, client, n, pool);
  }
}
