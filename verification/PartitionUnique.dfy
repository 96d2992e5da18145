/** The regions do not depend on how the sort breaks ties, nor on which side is called server. */
module PartitionUnique {
  import opened Seqs
  import opened Sorting
  import opened Hunks
  import opened ThreeWay
  import opened Partition
  import opened PartitionLaws

  /** Two orders of one pool. */
  ghost predicate Twins<T>(p: seq<Tagged<T>>, q: seq<Tagged<T>>, n: int) {
    && PoolOk(p) && PoolOk(q)
    && (forall k :: 0 <= k < |p| ==> Within(p[k].hunk, n))
    && (forall side: bool :: OfSide(p, side) == OfSide(q, side) && SideValid(OfSide(p, side), n))
  }

  lemma TwinsAreBags<T>(p: seq<Tagged<T>>, q: seq<Tagged<T>>)
    requires forall side: bool :: OfSide(p, side) == OfSide(q, side)
    ensures multiset(p) == multiset(q)
  {
    forall t: Tagged<T> ensures multiset(p)[t] == multiset(q)[t] {
      OfSideMembers(p, t.server, t.hunk);
      OfSideMembers(q, t.server, t.hunk);
    }
  }

  ghost predicate Ascending(a: seq<Key>) { forall i, j :: 0 <= i < j < |a| ==> !KeyLess(a[j], a[i]) }

  lemma SameLeast(a: seq<Key>, b: seq<Key>)
    requires Ascending(a) && Ascending(b) && multiset(a) == multiset(b) && a != []
    ensures b != [] && a[0] == b[0]
  {
    SameMembers(a, b);
    SameMembers(b, a);
    var i :| 0 <= i < |b| && b[i] == a[0];
    var j :| 0 <= j < |a| && a[j] == b[0];
    assert !KeyLess(a[j], a[0]) || j == 0;
    assert !KeyLess(b[i], b[0]) || i == 0;
  }

  /** A sorted list of keys is determined by what is in it. */
  lemma {:induction false} SortedKeysSame(a: seq<Key>, b: seq<Key>)
    requires Ascending(a) && Ascending(b) && multiset(a) == multiset(b)
    ensures a == b
  {
    SameMembers(a, b);
    if a != [] {
      SameLeast(a, b);
      DropFirst(a, b);
      SortedKeysSame(a[1..], b[1..]);
      assert a == [a[0]] + a[1..] && b == [b[0]] + b[1..];
    }
  }

  /** Position by position the two orders hold equal ranges. */
  ghost predicate SameShape<T>(p: seq<Tagged<T>>, q: seq<Tagged<T>>) {
    |p| == |q| && forall i :: 0 <= i < |p| ==> TagKey(p[i]) == TagKey(q[i])
  }

  lemma SameBagSameShape<T>(p: seq<Tagged<T>>, q: seq<Tagged<T>>)
    requires SortedBy(p, TagKey) && SortedBy(q, TagKey) && multiset(p) == multiset(q)
    ensures SameShape(p, q)
  {
    MappedBag(p, q, TagKey);
    var a, b := Mapped(p, TagKey), Mapped(q, TagKey);
    SortedKeysSame(a, b);
    forall i | 0 <= i < |p| ensures TagKey(p[i]) == TagKey(q[i]) { assert a[i] == b[i]; }
  }

  lemma {:induction false} AbsorbSame<T>(s: int, e: int, p: seq<Tagged<T>>, q: seq<Tagged<T>>)
    requires SameShape(p, q)
    ensures Absorb(s, e, p) == Absorb(s, e, q)
    decreases |p|
  {
    if p != [] {
      assert TagKey(p[0]) == TagKey(q[0]);
      if RangesOverlap(s, e, p[0].hunk.start, p[0].hunk.end) {
        AbsorbSame(s, Max(e, p[0].hunk.end), p[1..], q[1..]);
      }
    }
  }

  lemma {:induction false} HullSame<T>(p: seq<Tagged<T>>, q: seq<Tagged<T>>)
    requires SameShape(p, q) && p != []
    ensures HullEnd(p) == HullEnd(q)
  {
    assert TagKey(p[|p| - 1]) == TagKey(q[|q| - 1]);
    if |p| > 1 { HullSame(p[..|p| - 1], q[..|q| - 1]); }
  }

  lemma GroupSizeSame<T>(p: seq<Tagged<T>>, q: seq<Tagged<T>>)
    requires SameShape(p, q) && p != []
    ensures GroupSize(p) == GroupSize(q)
  {
    assert TagKey(p[0]) == TagKey(q[0]);
    AbsorbSame(p[0].hunk.start, p[0].hunk.end, p[1..], q[1..]);
  }

  /** Equal ranges overlap, so no group ends between two of them. */
  lemma EqualRangesTogether<T>(p: seq<Tagged<T>>, n: int, i: int, j: int)
    requires PoolOk(p) && p != [] && forall k :: 0 <= k < |p| ==> Within(p[k].hunk, n)
    requires 0 <= i < GroupSize(p) && 0 <= j < |p| && TagKey(p[i]) == TagKey(p[j])
    ensures j < GroupSize(p)
  {
    var g := p[..GroupSize(p)];
    GroupFromFirst(p, n);
    GroupChain(p, GroupSize(p));
    MemberEnd(g, i);
    assert g[i] == p[i] && g[0].hunk.start <= g[i].hunk.start;
    forall k | GroupSize(p) <= k < |p| ensures TagKey(p[k]) != TagKey(p[i]) { GroupEnds(p, k); }
  }

  lemma TwinOf<T>(p: seq<Tagged<T>>, q: seq<Tagged<T>>, n: int, i: int) returns (j: int)
    requires Twins(p, q, n) && 0 <= i < |p|
    ensures 0 <= j < |q| && q[j] == p[i]
  {
    TwinsAreBags(p, q);
    SameMembers(p, q);
    hide Twins;
    assert p[i] in q;
    j :| 0 <= j < |q| && q[j] == p[i];
  }

  /** What one order puts into its first group, so does the other. */
  lemma GroupHas<T>(p: seq<Tagged<T>>, q: seq<Tagged<T>>, n: int, i: int)
    requires Twins(p, q, n) && SameShape(p, q) && p != [] && GroupSize(p) == GroupSize(q) && 0 <= i < GroupSize(p)
    ensures p[i] in q[..GroupSize(q)]
  {
    hide GroupSize;
    var j := TwinOf(p, q, n, i);
    assert TagKey(q[j]) == TagKey(p[j]);
    EqualRangesTogether(p, n, i, j);
    assert q[..GroupSize(q)][j] == q[j];
  }

  lemma SideInGroup<T>(p: seq<Tagged<T>>, q: seq<Tagged<T>>, n: int, side: bool)
    requires Twins(p, q, n) && SameShape(p, q) && p != [] && GroupSize(p) == GroupSize(q)
    ensures forall x :: x in OfSide(p[..GroupSize(p)], side) ==> x in OfSide(q[..GroupSize(q)], side)
  {
    var g, h := p[..GroupSize(p)], q[..GroupSize(q)];
    forall x | x in OfSide(g, side) ensures x in OfSide(h, side) {
      InPool(g, Tagged(x, side));
      var i :| 0 <= i < |g| && g[i] == Tagged(x, side);
      GroupHas(p, q, n, i);
      InPool(h, Tagged(x, side));
    }
  }

  /** Two prefixes of one strictly ordered list with the same members are equal. */
  lemma PrefixesSame<T>(a: seq<Hunk<T>>, x: seq<Hunk<T>>, b: seq<Hunk<T>>, y: seq<Hunk<T>>, n: int)
    requires a + x == b + y && SideValid(a + x, n)
    requires (forall h :: h in a ==> h in b) && (forall h :: h in b ==> h in a)
    ensures a == b && x == y
  {
    NotLonger(a, x, b, y, n);
    NotLonger(b, y, a, x, n);
    assert a == (a + x)[..|a|] && b == (b + y)[..|b|];
    assert x == (a + x)[|a|..] && y == (b + y)[|b|..];
  }

  lemma NotLonger<T>(a: seq<Hunk<T>>, x: seq<Hunk<T>>, b: seq<Hunk<T>>, y: seq<Hunk<T>>, n: int)
    requires a + x == b + y && SideValid(a + x, n) && forall h :: h in a ==> h in b
    ensures |a| <= |b|
  {
    var all := a + x;
    if a != [] {
      var k := |a| - 1;
      assert a[k] in b;
      var j :| 0 <= j < |b| && b[j] == a[k];
      assert all[j] == b[j] && all[k] == a[k];
      if j != k { ValidDistinct(all, n, j, k); }
    }
  }

  lemma ValidDistinct<T>(hs: seq<Hunk<T>>, n: int, i: int, j: int)
    requires SideValid(hs, n) && 0 <= i < |hs| && 0 <= j < |hs| && i != j
    ensures hs[i] != hs[j]
  {
    assert Before(hs[i], hs[j]) || Before(hs[j], hs[i]);
  }

  lemma RestSide<T>(p: seq<Tagged<T>>, q: seq<Tagged<T>>, n: int, side: bool)
    requires Twins(p, q, n) && SameShape(p, q) && p != [] && GroupSize(p) == GroupSize(q)
    ensures var m := GroupSize(p);
            && OfSide(p[..m], side) == OfSide(q[..m], side)
            && OfSide(p[m..], side) == OfSide(q[m..], side) && SideValid(OfSide(p[m..], side), n)
  {
    var m := GroupSize(p);
    assert p == p[..m] + p[m..] && q == q[..m] + q[m..];
    OfSideConcat(p[..m], p[m..], side);
    OfSideConcat(q[..m], q[m..], side);
    SideInGroup(p, q, n, side);
    SideInGroup(q, p, n, side);
    hide OfSide, SideValid, GroupSize, SameShape;
    PrefixesSame(OfSide(p[..m], side), OfSide(p[m..], side), OfSide(q[..m], side), OfSide(q[m..], side), n);
    ValidParts(OfSide(p[..m], side), OfSide(p[m..], side), n);
  }

  lemma PoolSuffix<T>(p: seq<Tagged<T>>, m: int)
    requires PoolOk(p) && 0 <= m <= |p|
    ensures PoolOk(p[m..])
  {
  }

  lemma RestIsTwins<T>(p: seq<Tagged<T>>, q: seq<Tagged<T>>, n: int)
    requires Twins(p, q, n) && SameShape(p, q) && p != [] && GroupSize(p) == GroupSize(q)
    ensures Twins(p[GroupSize(p)..], q[GroupSize(q)..], n)
    ensures forall side: bool :: OfSide(p[..GroupSize(p)], side) == OfSide(q[..GroupSize(q)], side)
  {
    forall side: bool
      ensures OfSide(p[..GroupSize(p)], side) == OfSide(q[..GroupSize(q)], side)
      ensures OfSide(p[GroupSize(p)..], side) == OfSide(q[GroupSize(q)..], side)
              && SideValid(OfSide(p[GroupSize(p)..], side), n)
    {
      RestSide(p, q, n, side);
    }
    hide OfSide, SideValid, GroupSize, PoolOk;
    PoolSuffix(p, GroupSize(p));
    PoolSuffix(q, GroupSize(q));
  }

  /** Whatever order the sort leaves equal ranges in, the regions are the same. */
  lemma {:induction false} RegionsSame<T>(p: seq<Tagged<T>>, q: seq<Tagged<T>>, n: int)
    requires Twins(p, q, n)
    ensures NoneEmpty(Groups(p)) && NoneEmpty(Groups(q))
    ensures Regions(Groups(p)) == Regions(Groups(q))
    decreases |p|
  {
    TwinsAreBags(p, q);
    SameBagSameShape(p, q);
    GroupsNonEmpty(p);
    GroupsNonEmpty(q);
    if p != [] {
      GroupSizeSame(p, q);
      RestIsTwins(p, q, n);
      RegionsSame(p[GroupSize(p)..], q[GroupSize(q)..], n);
      FirstRegionSame(p, q);
      RegionsCons(p);
      RegionsCons(q);
    }
  }

  lemma FirstRegionSame<T>(p: seq<Tagged<T>>, q: seq<Tagged<T>>)
    requires p != [] && SameShape(p, q) && GroupSize(p) == GroupSize(q)
    requires forall side: bool :: OfSide(p[..GroupSize(p)], side) == OfSide(q[..GroupSize(q)], side)
    ensures RegionOf(p[..GroupSize(p)]) == RegionOf(q[..GroupSize(q)])
  {
    HullSame(p[..GroupSize(p)], q[..GroupSize(q)]);
    assert TagKey(p[0]) == TagKey(q[0]);
  }

  lemma RegionsCons<T>(p: seq<Tagged<T>>)
    requires p != []
    ensures NoneEmpty(Groups(p)) && NoneEmpty(Groups(p[GroupSize(p)..]))
    ensures Regions(Groups(p)) == [RegionOf(p[..GroupSize(p)])] + Regions(Groups(p[GroupSize(p)..]))
  {
    GroupsNonEmpty(p);
    GroupsNonEmpty(p[GroupSize(p)..]);
    hide RegionOf;
  }

  /** Two runs of the partition on the same edit lists find the same regions. */
  lemma PartitionIsUnique<T>(server: seq<Hunk<T>>, client: seq<Hunk<T>>, n: int, p: seq<Tagged<T>>, q: seq<Tagged<T>>)
    requires SideValid(server, n) && SideValid(client, n) && IsPool(p, server, client) && IsPool(q, server, client)
    ensures NoneEmpty(Groups(p)) && NoneEmpty(Groups(q)) && Regions(Groups(p)) == Regions(Groups(q))
  {
    PoolIsOk(p, server, client, n);
    PoolIsOk(q, server, client, n);
    SelectValid(server, client, true, n);
    SelectValid(client, server, true, n);
    RegionsSame(p, q, n);
  }

  // ----- swapping the sides -----

  ghost function Flip<T>(pool: seq<Tagged<T>>): (r: seq<Tagged<T>>)
    ensures |r| == |pool|
  {
    seq(|pool|, i requires 0 <= i < |pool| => Tagged(pool[i].hunk, !pool[i].server))
  }

  ghost function Swapped<T>(c: Conflict<T>): Conflict<T> { Conflict(c.start, c.end, c.clientLines, c.serverLines) }

  ghost function SwappedAll<T>(cs: seq<Conflict<T>>): seq<Conflict<T>> {
    seq(|cs|, i requires 0 <= i < |cs| => Swapped(cs[i]))
  }

  lemma SwappedCons<T>(c: Conflict<T>, cs: seq<Conflict<T>>)
    ensures SwappedAll([c] + cs) == [Swapped(c)] + SwappedAll(cs)
  {
  }

  lemma {:induction false} FlipSides<T>(pool: seq<Tagged<T>>, side: bool)
    ensures OfSide(Flip(pool), side) == OfSide(pool, !side)
  {
    if pool != [] {
      var front := pool[..|pool| - 1];
      assert Flip(pool)[..|pool| - 1] == Flip(front);
      FlipSides(front, side);
    }
  }

  lemma FlipShape<T>(pool: seq<Tagged<T>>)
    ensures SameShape(pool, Flip(pool))
    ensures SortedBy(pool, TagKey) ==> SortedBy(Flip(pool), TagKey)
  {
    forall i | 0 <= i < |pool| ensures TagKey(pool[i]) == TagKey(Flip(pool)[i]) {}
  }

  lemma {:induction false} FlipRegions<T>(pool: seq<Tagged<T>>)
    ensures NoneEmpty(Groups(pool)) && NoneEmpty(Groups(Flip(pool)))
    ensures Regions(Groups(Flip(pool))) == SwappedAll(Regions(Groups(pool)))
    decreases |pool|
  {
    GroupsNonEmpty(pool);
    GroupsNonEmpty(Flip(pool));
    if pool != [] {
      var f, m := Flip(pool), GroupSize(pool);
      FlipShape(pool);
      GroupSizeSame(pool, f);
      assert f[m..] == Flip(pool[m..]) && f[..m] == Flip(pool[..m]);
      FlipRegions(pool[m..]);
      FlipRegion(pool[..m]);
      SwappedCons(RegionOf(pool[..m]), Regions(Groups(pool[m..])));
      RegionsCons(pool);
      RegionsCons(f);
      hide Groups, RegionOf, GroupSize, Regions;
    }
  }

  lemma FlipRegion<T>(group: seq<Tagged<T>>)
    requires group != []
    ensures RegionOf(Flip(group)) == Swapped(RegionOf(group))
  {
    FlipShape(group);
    HullSame(group, Flip(group));
    FlipSides(group, true);
    FlipSides(group, false);
  }

  /** Calling the other side server gives the same regions with their two texts swapped. */
  lemma PartitionSymmetric<T>(server: seq<Hunk<T>>, client: seq<Hunk<T>>, n: int, p: seq<Tagged<T>>, q: seq<Tagged<T>>)
    requires SideValid(server, n) && SideValid(client, n) && IsPool(p, server, client) && IsPool(q, client, server)
    ensures NoneEmpty(Groups(p)) && NoneEmpty(Groups(q)) && Regions(Groups(q)) == SwappedAll(Regions(Groups(p)))
    ensures Kept(server, client) == Kept(client, server)
  {
    var f := Flip(p);
    FlipShape(p);
    FlipSides(p, true);
    FlipSides(p, false);
    FlipRegions(p);
    PartitionIsUnique(client, server, n, f, q);
    SelectValid(server, client, false, n);
    SelectValid(client, server, false, n);
    ClearDisjoint(server, client, n);
    MergeSymmetric(Select(server, client, false), Select(client, server, false), n);
  }
}
