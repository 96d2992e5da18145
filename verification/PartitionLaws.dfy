/** What the output of PartitionHunks guarantees, for every pair of edit lists. */
module PartitionLaws {
  import opened Seqs
  import opened Sorting
  import opened Hunks
  import opened ThreeWay
  import opened Partition

  /** Each hunk after the first overlaps the region grown from those before it. */
  ghost predicate Chain<T>(g: seq<Tagged<T>>) {
    g != [] && (|g| == 1 ||
      var front, last := g[..|g| - 1], g[|g| - 1].hunk;
      Chain(front) && RangesOverlap(g[0].hunk.start, HullEnd(front), last.start, last.end))
  }

  /** Hunks in bounds, none starting before the first. */
  ghost predicate FromFirst<T>(g: seq<Tagged<T>>, n: int) {
    g != [] && forall k :: 0 <= k < |g| ==> Within(g[k].hunk, n) && g[0].hunk.start <= g[k].hunk.start
  }

  ghost predicate InSome<T>(g: seq<Tagged<T>>, x: int) {
    exists k :: 0 <= k < |g| && InFootprint(g[k].hunk.start, g[k].hunk.end, x)
  }

  lemma UnionOfTwo(s: int, e: int, s2: int, e2: int, x: int)
    requires s <= e && s <= s2 <= e2 && RangesOverlap(s, e, s2, e2)
    ensures InFootprint(s, Max(e, e2), x) <==> InFootprint(s, e, x) || InFootprint(s2, e2, x)
  {
  }

  lemma InSomeSnoc<T>(g: seq<Tagged<T>>, x: int)
    requires |g| > 1
    ensures InSome(g, x) <==> InSome(g[..|g| - 1], x) || InFootprint(g[|g| - 1].hunk.start, g[|g| - 1].hunk.end, x)
  {
    var front := g[..|g| - 1];
    if InSome(front, x) {
      var k :| 0 <= k < |front| && InFootprint(front[k].hunk.start, front[k].hunk.end, x);
      assert g[k] == front[k];
    }
    if InSome(g, x) {
      var k :| 0 <= k < |g| && InFootprint(g[k].hunk.start, g[k].hunk.end, x);
      if k < |front| { assert g[k] == front[k]; }
    }
  }

  lemma HullInBounds<T>(g: seq<Tagged<T>>, n: int)
    requires Chain(g) && FromFirst(g, n)
    ensures 0 <= g[0].hunk.start <= g[0].hunk.end <= HullEnd(g) <= n
  {
    if |g| > 1 {
      assert FromFirst(g[..|g| - 1], n);
      HullInBounds(g[..|g| - 1], n);
    }
  }

  /** A region covers exactly what its hunks cover: growing it never claims untouched base. */
  lemma {:induction false} HullFootprint<T>(g: seq<Tagged<T>>, n: int, x: int)
    requires Chain(g) && FromFirst(g, n)
    ensures g[0].hunk.start <= HullEnd(g)
    ensures InFootprint(g[0].hunk.start, HullEnd(g), x) <==> InSome(g, x)
  {
    HullInBounds(g, n);
    if |g| > 1 {
      var front, last := g[..|g| - 1], g[|g| - 1].hunk;
      assert FromFirst(front, n);
      HullInBounds(front, n);
      HullFootprint(front, n, x);
      UnionOfTwo(g[0].hunk.start, HullEnd(front), last.start, last.end, x);
      InSomeSnoc(g, x);
    } else {
      assert g[0] == g[|g| - 1];
    }
  }

  /** The first m hunks of a group form a chain, and the group ends only where the next hunk is clear. */
  lemma GroupChain<T>(pool: seq<Tagged<T>>, m: int)
    requires PoolOk(pool) && pool != [] && 1 <= m <= GroupSize(pool)
    ensures Grown(pool, 0, m, pool[0].hunk.start, HullEnd(pool[..m])) && Chain(pool[..m])
  {
    assert pool[0..] == pool && pool[0..m] == pool[..m];
    if m == 1 {
      GrownStartRange(pool, 0);
      assert pool[..1] == [pool[0]];
    } else {
      GroupChain(pool, m - 1);
      assert pool[0..m - 1] == pool[..m - 1];
      var s, e := pool[0].hunk.start, HullEnd(pool[..m - 1]);
      assert Absorb(s, e, pool[m - 1..]) > 0;
      assert pool[m - 1..][0] == pool[m - 1];
      GrownStep(pool, 0, m - 1, s, e);
      assert pool[..m][..m - 1] == pool[..m - 1];
    }
  }

  lemma GroupEnds<T>(pool: seq<Tagged<T>>, j: int)
    requires PoolOk(pool) && pool != [] && GroupSize(pool) <= j < |pool|
    ensures RangeBefore(pool[0].hunk.start, HullEnd(pool[..GroupSize(pool)]), pool[j].hunk.start, pool[j].hunk.end)
  {
    var m := GroupSize(pool);
    GroupChain(pool, m);
    assert pool[0..] == pool && pool[m..][0] == pool[m];
    StuckForGood(pool, 0, m, pool[0].hunk.start, HullEnd(pool[..m]), j);
  }

  /** Chains in bounds whose regions lie strictly one after the other. */
  ghost predicate Tidy<T>(groups: seq<seq<Tagged<T>>>, n: int) {
    && (forall i :: 0 <= i < |groups| ==> Chain(groups[i]) && FromFirst(groups[i], n))
    && (forall i, j :: 0 <= i < j < |groups| ==>
          RangeBefore(groups[i][0].hunk.start, HullEnd(groups[i]), groups[j][0].hunk.start, HullEnd(groups[j])))
  }

  ghost function FlatGroups<T>(groups: seq<seq<Tagged<T>>>): seq<Tagged<T>> {
    if groups == [] then [] else groups[0] + FlatGroups(groups[1..])
  }

  lemma FlatGroupsHas<T>(groups: seq<seq<Tagged<T>>>, t: Tagged<T>)
    ensures t in FlatGroups(groups) <==> exists i :: 0 <= i < |groups| && t in groups[i]
  {
    if groups != [] {
      FlatGroupsHas(groups[1..], t);
      if t in FlatGroups(groups[1..]) {
        var i :| 0 <= i < |groups[1..]| && t in groups[1..][i];
        assert t in groups[i + 1];
      }
      if exists i :: 0 <= i < |groups| && t in groups[i] {
        var i :| 0 <= i < |groups| && t in groups[i];
        if i > 0 { assert t in groups[1..][i - 1]; }
      }
    }
  }

  lemma TidyCons<T>(g: seq<Tagged<T>>, rest: seq<seq<Tagged<T>>>, n: int)
    requires Tidy(rest, n) && Chain(g) && FromFirst(g, n)
    requires forall j: int :: 0 <= j < |rest| ==>
      RangeBefore(g[0].hunk.start, HullEnd(g), rest[j][0].hunk.start, HullEnd(rest[j]))
    ensures Tidy([g] + rest, n)
  {
    hide Chain, HullEnd;
  }

  lemma GroupFromFirst<T>(pool: seq<Tagged<T>>, n: int)
    requires PoolOk(pool) && pool != [] && forall k :: 0 <= k < |pool| ==> Within(pool[k].hunk, n)
    ensures FromFirst(pool[..GroupSize(pool)], n)
  {
    forall k | 0 < k < |pool| ensures pool[0].hunk.start <= pool[k].hunk.start {
      assert !KeyLess(TagKey(pool[k]), TagKey(pool[0]));
    }
  }

  lemma GroupBeforeRest<T>(pool: seq<Tagged<T>>, n: int, g: seq<Tagged<T>>)
    requires PoolOk(pool) && pool != []
    requires Chain(g) && FromFirst(g, n) && g[0] in pool[GroupSize(pool)..]
    ensures RangeBefore(pool[0].hunk.start, HullEnd(pool[..GroupSize(pool)]), g[0].hunk.start, HullEnd(g))
  {
    HullInBounds(g, n);
    var k :| 0 <= k < |pool| - GroupSize(pool) && pool[GroupSize(pool)..][k] == g[0];
    GroupEnds(pool, GroupSize(pool) + k);
  }

  lemma RestOk<T>(pool: seq<Tagged<T>>, m: nat)
    requires PoolOk(pool) && m <= |pool|
    ensures PoolOk(pool[m..])
  {
  }

  /** One sweep cuts the pool, in order and without loss, into tidy groups. */
  lemma {:induction false} GroupsTidy<T>(pool: seq<Tagged<T>>, n: int)
    requires PoolOk(pool) && forall k :: 0 <= k < |pool| ==> Within(pool[k].hunk, n)
    ensures Tidy(Groups(pool), n) && FlatGroups(Groups(pool)) == pool
    decreases |pool|
  {
    hide Chain, HullEnd, GroupSize, Absorb, PoolOk;
    if pool != [] {
      var m := GroupSize(pool);
      var g, rest := pool[..m], pool[m..];
      RestOk(pool, m);
      GroupsTidy(rest, n);
      GroupChain(pool, m);
      GroupFromFirst(pool, n);
      var groups: seq<seq<Tagged<T>>> := Groups(rest);
      forall j | 0 <= j < |groups|
        ensures RangeBefore(g[0].hunk.start, HullEnd(g), groups[j][0].hunk.start, HullEnd(groups[j]))
      {
        FlatGroupsHas(groups, groups[j][0]);
        GroupBeforeRest(pool, n, groups[j]);
      }
      TidyCons(g, groups, n);
      assert pool == g + rest;
    }
  }

  /** Hunks that overlap each other are in one region. */
  lemma SameGroup<T>(groups: seq<seq<Tagged<T>>>, n: int, i: int, j: int, a: Tagged<T>, b: Tagged<T>)
    requires Tidy(groups, n) && 0 <= i < |groups| && 0 <= j < |groups|
    requires a in groups[i] && b in groups[j] && Overlap(a.hunk, b.hunk)
    ensures i == j
  {
    OverlapIsFootprint(a.hunk.start, a.hunk.end, b.hunk.start, b.hunk.end);
    var x :| InFootprint(a.hunk.start, a.hunk.end, x) && InFootprint(b.hunk.start, b.hunk.end, x);
    HullFootprint(groups[i], n, x);
    HullFootprint(groups[j], n, x);
    assert InSome(groups[i], x) && InSome(groups[j], x);
  }

  lemma InPool<T>(pool: seq<Tagged<T>>, t: Tagged<T>)
    ensures t in pool <==> t.hunk in OfSide(pool, t.server)
  {
    OfSideMembers(pool, t.server, t.hunk);
    assert t in pool <==> t in multiset(pool);
    assert t.hunk in OfSide(pool, t.server) <==> t.hunk in multiset(OfSide(pool, t.server));
  }

  /** A hunk in the pool overlaps some hunk of the other side, which is in the pool too. */
  lemma Rival<T>(server: seq<Hunk<T>>, client: seq<Hunk<T>>, n: int, pool: seq<Tagged<T>>, t: Tagged<T>)
    returns (r: Tagged<T>)
    requires SideValid(server, n) && SideValid(client, n) && IsPool(pool, server, client) && t in pool
    ensures r in pool && r.server == !t.server && Overlap(t.hunk, r.hunk)
  {
    var mine, theirs := if t.server then server else client, if t.server then client else server;
    InPool(pool, t);
    var k :| 0 <= k < |Select(mine, theirs, true)| && Select(mine, theirs, true)[k] == t.hunk;
    var i := SelectFrom(mine, theirs, true, k);
    var b :| 0 <= b < |theirs| && Overlap(t.hunk, theirs[b]);
    r := Tagged(theirs[b], !t.server);
    OverlapSymmetric(t.hunk, r.hunk);
    assert Overlap(theirs[b], mine[i]);
    SelectHas(theirs, mine, true, r.hunk);
    InPool(pool, r);
  }

  /** Every region is a real conflict: it holds hunks of both sides. */
  lemma RegionsHaveBothSides<T>(server: seq<Hunk<T>>, client: seq<Hunk<T>>, n: int, pool: seq<Tagged<T>>, i: int,
                                side: bool)
    requires SideValid(server, n) && SideValid(client, n) && IsPool(pool, server, client)
    requires 0 <= i < |Groups(pool)|
    ensures OfSide(Groups(pool)[i], side) != []
  {
    var groups := Groups(pool);
    PoolIsOk(pool, server, client, n);
    GroupsTidy(pool, n);
    var t := groups[i][0];
    FlatGroupsHas(groups, t);
    if t.server == side {
      InPool(groups[i], t);
    } else {
      var r := Rival(server, client, n, pool, t);
      FlatGroupsHas(groups, r);
      var j :| 0 <= j < |groups| && r in groups[j];
      SameGroup(groups, n, i, j, t, r);
      InPool(groups[i], r);
    }
  }

  /** Two hunks of one side do not overlap. */
  lemma SameSideClear<T>(side: seq<Hunk<T>>, n: int, a: int, b: int)
    requires SideValid(side, n) && 0 <= a < |side| && 0 <= b < |side| && a != b
    ensures !Overlap(side[a], side[b])
  {
    Trichotomy(side[a].start, side[a].end, side[b].start, side[b].end);
    assert Before(side[a], side[b]) || Before(side[b], side[a]);
  }

  /** A pooled hunk is one of its side's and overlaps a hunk of the other. */
  lemma PoolMember<T>(server: seq<Hunk<T>>, client: seq<Hunk<T>>, pool: seq<Tagged<T>>, t: Tagged<T>) returns (b: int)
    requires IsPool(pool, server, client) && t in pool
    ensures var ours, others := if t.server then server else client, if t.server then client else server;
            0 <= b < |ours| && ours[b] == t.hunk && OverlapsAny(ours[b], others)
  {
    var ours, others := if t.server then server else client, if t.server then client else server;
    InPool(pool, t);
    hide Select, OverlapsAny, SortedBy;
    var k :| 0 <= k < |Select(ours, others, true)| && Select(ours, others, true)[k] == t.hunk;
    b := SelectFrom(ours, others, true, k);
  }

  lemma NotInOther<T>(h: Hunk<T>, side: seq<Hunk<T>>, b: int)
    requires !OverlapsAny(h, side) && 0 <= b < |side|
    ensures !Overlap(h, side[b])
  {
  }

  /** A hunk that overlaps nothing on the other side overlaps nothing in the pool. */
  lemma ClearOfPool<T>(server: seq<Hunk<T>>, client: seq<Hunk<T>>, n: int, pool: seq<Tagged<T>>, t: Tagged<T>,
                       side: bool, a: int)
    requires SideValid(server, n) && SideValid(client, n) && IsPool(pool, server, client) && t in pool
    requires var mine, theirs := if side then server else client, if side then client else server;
             0 <= a < |mine| && !OverlapsAny(mine[a], theirs)
    ensures !Overlap((if side then server else client)[a], t.hunk)
  {
    hide SideValid, IsPool, OverlapsAny, Overlap;
    var mine, theirs := if side then server else client, if side then client else server;
    var b := PoolMember(server, client, pool, t);
    if t.server == side {
      SameSideClear(mine, n, a, b);
    } else {
      NotInOther(mine[a], theirs, b);
    }
  }

  /** A kept hunk overlaps no region. */
  lemma ClearOfRegions<T>(server: seq<Hunk<T>>, client: seq<Hunk<T>>, n: int, pool: seq<Tagged<T>>, i: int, side: bool,
                          h: Hunk<T>)
    requires SideValid(server, n) && SideValid(client, n) && IsPool(pool, server, client)
    requires Tidy(Groups(pool), n) && FlatGroups(Groups(pool)) == pool && 0 <= i < |Groups(pool)|
    requires h in (if side then Select(server, client, false) else Select(client, server, false))
    ensures !RangesOverlap(h.start, h.end, Groups(pool)[i][0].hunk.start, HullEnd(Groups(pool)[i]))
  {
    var g := Groups(pool)[i];
    var mine, theirs := if side then server else client, if side then client else server;
    var k :| 0 <= k < |Select(mine, theirs, false)| && Select(mine, theirs, false)[k] == h;
    var a := SelectFrom(mine, theirs, false, k);
    HullInBounds(g, n);
    OverlapIsFootprint(h.start, h.end, g[0].hunk.start, HullEnd(g));
    forall x | InFootprint(h.start, h.end, x) ensures !InFootprint(g[0].hunk.start, HullEnd(g), x) {
      HullFootprint(g, n, x);
      forall l | 0 <= l < |g| ensures !InFootprint(g[l].hunk.start, g[l].hunk.end, x) {
        FlatGroupsHas(Groups(pool), g[l]);
        ClearOfPool(server, client, n, pool, g[l], side, a);
        OverlapIsFootprint(h.start, h.end, g[l].hunk.start, g[l].hunk.end);
      }
    }
  }

  /** One marker a region, carrying whatever `f` makes of its hunks. */
  ghost function RegionMarks<T, U>(groups: seq<seq<Tagged<T>>>, f: seq<Tagged<T>> -> seq<U>): seq<Hunk<U>>
    requires NoneEmpty(groups)
  {
    seq(|groups|, i requires 0 <= i < |groups| => Hunk(groups[i][0].hunk.start, HullEnd(groups[i]), f(groups[i])))
  }

  /** One marker a kept hunk. */
  ghost function KeptMarks<T, U>(kept: seq<Hunk<T>>, f: Hunk<T> -> seq<U>): seq<Hunk<U>> {
    seq(|kept|, i requires 0 <= i < |kept| => Hunk(kept[i].start, kept[i].end, f(kept[i])))
  }

  ghost function Kept<T>(server: seq<Hunk<T>>, client: seq<Hunk<T>>): seq<Hunk<T>> {
    MergeSides(Select(server, client, false), Select(client, server, false))
  }

  /** Regions and kept hunks are in bounds and pairwise non-overlapping, so they have one base order. */
  lemma MarksValid<T, U>(server: seq<Hunk<T>>, client: seq<Hunk<T>>, n: int, pool: seq<Tagged<T>>,
                         f: Hunk<T> -> seq<U>, g: seq<Tagged<T>> -> seq<U>)
    requires SideValid(server, n) && SideValid(client, n) && IsPool(pool, server, client)
    ensures Tidy(Groups(pool), n) && NoneEmpty(Groups(pool)) && FlatGroups(Groups(pool)) == pool
    ensures SideValid(Kept(server, client), n)
    ensures SideValid(KeptMarks(Kept(server, client), f), n) && SideValid(RegionMarks(Groups(pool), g), n)
    ensures Disjoint(KeptMarks(Kept(server, client), f), RegionMarks(Groups(pool), g))
    ensures SideValid(MergeSides(KeptMarks(Kept(server, client), f), RegionMarks(Groups(pool), g)), n)
  {
    PoolIsOk(pool, server, client, n);
    GroupsTidy(pool, n);
    var groups, kept := Groups(pool), Kept(server, client);
    var srv, cli := Select(server, client, false), Select(client, server, false);
    SelectValid(server, client, false, n);
    SelectValid(client, server, false, n);
    ClearDisjoint(server, client, n);
    MergeValid(srv, cli, n);
    assert NoneEmpty(groups);
    RegionMarksValid(groups, g, n);
    KeptMarksValid(kept, f, n);
    var km, rm := KeptMarks(kept, f), RegionMarks(groups, g);
    forall i, j | 0 <= i < |km| && 0 <= j < |rm| ensures !Overlap(km[i], rm[j]) {
      MergeFrom(srv, cli, kept[i]);
      ClearOfRegions(server, client, n, pool, j, kept[i] in srv, kept[i]);
    }
    MergeValid(km, rm, n);
  }

  lemma RegionMarksValid<T, U>(groups: seq<seq<Tagged<T>>>, g: seq<Tagged<T>> -> seq<U>, n: int)
    requires Tidy(groups, n) && NoneEmpty(groups)
    ensures SideValid(RegionMarks(groups, g), n)
  {
    forall i | 0 <= i < |groups| ensures Within(RegionMarks(groups, g)[i], n) {
      HullInBounds(groups[i], n);
    }
  }

  lemma KeptMarksValid<T, U>(kept: seq<Hunk<T>>, f: Hunk<T> -> seq<U>, n: int)
    requires SideValid(kept, n)
    ensures SideValid(KeptMarks(kept, f), n)
  {
    var km := KeptMarks(kept, f);
    forall i, j | 0 <= i < j < |km| ensures Before(km[i], km[j]) {
      assert Before(kept[i], kept[j]);
    }
  }

  // ----- nothing is lost -----

  lemma FlatConcat<T>(a: seq<Hunk<T>>, b: seq<Hunk<T>>)
    ensures Flat(a + b) == Flat(a) + Flat(b)
  {
    if b == [] {
      assert a + b == a;
    } else {
      var front, last := b[..|b| - 1], b[|b| - 1];
      assert (a + b)[..|a + b| - 1] == a + front;
      FlatConcat(a, front);
      Assoc(Flat(a), Flat(front), last.lines);
    }
  }

  lemma FlatCons<T>(h: Hunk<T>, rest: seq<Hunk<T>>)
    ensures Flat([h] + rest) == h.lines + Flat(rest)
  {
    FlatConcat([h], rest);
    FlatSnoc([], h);
    assert [] + [h] == [h];
  }

  lemma {:induction false} FlatMergeBag<T>(a: seq<Hunk<T>>, b: seq<Hunk<T>>)
    ensures multiset(Flat(MergeSides(a, b))) == multiset(Flat(a)) + multiset(Flat(b))
  {
    if b != [] {
      if a != [] && Before(a[0], b[0]) {
        FlatMergeBag(a[1..], b);
        FlatCons(a[0], MergeSides(a[1..], b));
        BagOfCons(a);
        FlatCons(a[0], a[1..]);
      } else {
        FlatMergeBag(a, b[1..]);
        FlatCons(b[0], MergeSides(a, b[1..]));
        BagOfCons(b);
        FlatCons(b[0], b[1..]);
      }
    }
  }

  /** b carries the lines of the hunks a carries, marker by marker. */
  ghost predicate Mirrors<T>(a: seq<Hunk<Hunk<T>>>, b: seq<Hunk<T>>) {
    |a| == |b| && forall i :: 0 <= i < |a| ==> b[i] == Hunk(a[i].start, a[i].end, Flat(a[i].lines))
  }

  lemma {:induction false} MirrorsMerge<T>(a: seq<Hunk<Hunk<T>>>, a': seq<Hunk<T>>, b: seq<Hunk<Hunk<T>>>,
                                           b': seq<Hunk<T>>)
    requires Mirrors(a, a') && Mirrors(b, b')
    ensures Flat(MergeSides(a', b')) == Flat(Flat(MergeSides(a, b)))
  {
    if b == [] {
      MirrorsFlat(a, a');
    } else if a != [] && Before(a[0], b[0]) {
      MirrorsMerge(a[1..], a'[1..], b, b');
      MirrorsCons(a[0], a'[0], MergeSides(a[1..], b), MergeSides(a'[1..], b'));
    } else {
      MirrorsMerge(a, a', b[1..], b'[1..]);
      MirrorsCons(b[0], b'[0], MergeSides(a, b[1..]), MergeSides(a', b'[1..]));
    }
  }

  lemma MirrorsCons<T>(h: Hunk<Hunk<T>>, h': Hunk<T>, rest: seq<Hunk<Hunk<T>>>, rest': seq<Hunk<T>>)
    requires h'.lines == Flat(h.lines) && Flat(rest') == Flat(Flat(rest))
    ensures Flat([h'] + rest') == Flat(Flat([h] + rest))
  {
    FlatCons(h', rest');
    FlatCons(h, rest);
    FlatConcat(h.lines, Flat(rest));
  }

  lemma {:induction false} MirrorsFlat<T>(a: seq<Hunk<Hunk<T>>>, a': seq<Hunk<T>>)
    requires Mirrors(a, a')
    ensures Flat(a') == Flat(Flat(a))
  {
    if a != [] {
      MirrorsFlat(a[1..], a'[1..]);
      MirrorsCons(a[0], a'[0], a[1..], a'[1..]);
      assert a == [a[0]] + a[1..] && a' == [a'[0]] + a'[1..];
    }
  }

  /** The marker's hunks are valid and stay inside it. */
  ghost predicate Holds<T>(m: Hunk<Hunk<T>>, n: int) {
    && Within(m, n) && SideValid(m.lines, n)
    && forall k :: 0 <= k < |m.lines| ==> Inside(m.lines[k], m)
  }

  ghost predicate Inside<T, U>(h: Hunk<T>, m: Hunk<U>) {
    && m.start <= h.start <= h.end <= m.end
    && forall x :: InFootprint(h.start, h.end, x) ==> InFootprint(m.start, m.end, x)
  }

  lemma InsideBefore<T, U>(a: Hunk<T>, m: Hunk<U>, b: Hunk<T>, l: Hunk<U>)
    requires Inside(a, m) && Inside(b, l) && Before(m, l)
    ensures Before(a, b)
  {
    Trichotomy(m.start, m.end, l.start, l.end);
    Trichotomy(a.start, a.end, b.start, b.end);
    OverlapIsFootprint(m.start, m.end, l.start, l.end);
    OverlapIsFootprint(a.start, a.end, b.start, b.end);
  }

  /** Reading valid markers from left to right gives a valid list of hunks. */
  lemma {:induction false} FlatValid<T>(marks: seq<Hunk<Hunk<T>>>, n: int)
    requires SideValid(marks, n) && forall i :: 0 <= i < |marks| ==> Holds(marks[i], n)
    ensures SideValid(Flat(marks), n)
    ensures forall k :: 0 <= k < |Flat(marks)| ==> exists i :: 0 <= i < |marks| && Inside(Flat(marks)[k], marks[i])
  {
    if marks != [] {
      var front, last := marks[..|marks| - 1], marks[|marks| - 1];
      FlatValid(front, n);
      var a := Flat(front);
      forall k, l | 0 <= k < |a| && 0 <= l < |last.lines| ensures Before(a[k], last.lines[l]) {
        var i :| 0 <= i < |front| && Inside(a[k], front[i]);
        assert Before(marks[i], last);
        InsideBefore(a[k], front[i], last.lines[l], last);
      }
      forall k | 0 <= k < |Flat(marks)| ensures exists i :: 0 <= i < |marks| && Inside(Flat(marks)[k], marks[i]) {
        if k < |a| {
          var i :| 0 <= i < |front| && Inside(a[k], front[i]);
          assert Inside(Flat(marks)[k], marks[i]);
        } else {
          assert Flat(marks)[k] == last.lines[k - |a|];
          assert Inside(Flat(marks)[k], marks[|marks| - 1]);
        }
      }
    }
  }

  // What one side put into a region or a kept hunk: the hunks themselves, or just their lines.

  ghost function SideHunks<T>(side: bool): seq<Tagged<T>> -> seq<Hunk<T>> { g => OfSide(g, side) }

  ghost function SideLines<T>(side: bool): seq<Tagged<T>> -> seq<T> { g => Flat(OfSide(g, side)) }

  ghost function OwnHunk<T>(mine: seq<Hunk<T>>): Hunk<T> -> seq<Hunk<T>> { h => if h in mine then [h] else [] }

  ghost function OwnLines<T>(mine: seq<Hunk<T>>): Hunk<T> -> seq<T> { h => if h in mine then h.lines else [] }

  lemma {:induction false} RegionMarksFlat<T>(groups: seq<seq<Tagged<T>>>, side: bool)
    requires NoneEmpty(groups)
    ensures Flat(RegionMarks(groups, SideHunks(side))) == OfSide(FlatGroups(groups), side)
  {
    if groups != [] {
      var marks := RegionMarks(groups, SideHunks(side));
      assert NoneEmpty(groups[1..]) && marks[1..] == RegionMarks(groups[1..], SideHunks(side));
      RegionMarksFlat(groups[1..], side);
      FlatCons(marks[0], marks[1..]);
      assert marks == [marks[0]] + marks[1..];
      OfSideConcat(groups[0], FlatGroups(groups[1..]), side);
    }
  }

  lemma {:induction false} KeptMarksMerge<T, U>(a: seq<Hunk<T>>, b: seq<Hunk<T>>, f: Hunk<T> -> seq<U>)
    ensures KeptMarks(MergeSides(a, b), f) == MergeSides(KeptMarks(a, f), KeptMarks(b, f))
  {
    if b != [] {
      if a != [] && Before(a[0], b[0]) {
        KeptMarksMerge(a[1..], b, f);
        KeptMarksCons(a[0], MergeSides(a[1..], b), f);
        assert KeptMarks(a, f)[1..] == KeptMarks(a[1..], f);
      } else {
        KeptMarksMerge(a, b[1..], f);
        KeptMarksCons(b[0], MergeSides(a, b[1..]), f);
        assert KeptMarks(b, f)[1..] == KeptMarks(b[1..], f);
      }
    }
  }

  lemma KeptMarksCons<T, U>(h: Hunk<T>, rest: seq<Hunk<T>>, f: Hunk<T> -> seq<U>)
    ensures KeptMarks([h] + rest, f) == [Hunk(h.start, h.end, f(h))] + KeptMarks(rest, f)
  {
  }

  lemma {:induction false} OwnHunksFlat<T>(hs: seq<Hunk<T>>, mine: seq<Hunk<T>>, own: bool)
    requires forall i :: 0 <= i < |hs| ==> (hs[i] in mine <==> own)
    ensures Flat(KeptMarks(hs, OwnHunk(mine))) == if own then hs else []
  {
    if hs != [] {
      OwnHunksFlat(hs[1..], mine, own);
      var m := Hunk(hs[0].start, hs[0].end, if own then [hs[0]] else []);
      assert hs == [hs[0]] + hs[1..];
      KeptMarksCons(hs[0], hs[1..], OwnHunk(mine));
      FlatCons(m, KeptMarks(hs[1..], OwnHunk(mine)));
    }
  }

  lemma {:induction false} SelectBoth<T>(hs: seq<Hunk<T>>, others: seq<Hunk<T>>)
    ensures multiset(hs) == multiset(Select(hs, others, true)) + multiset(Select(hs, others, false))
  {
    if hs != [] {
      var front, last := hs[..|hs| - 1], hs[|hs| - 1];
      SelectBoth(front, others);
      assert hs == front + [last];
      BagOfConcat(front, [last]);
    }
  }

  /** A clear hunk of one side is that side's, and not the other's. */
  lemma ClearIsOwn<T>(hs: seq<Hunk<T>>, others: seq<Hunk<T>>)
    ensures forall i :: 0 <= i < |Select(hs, others, false)| ==> Select(hs, others, false)[i] in hs
    ensures (forall h :: h in hs ==> h.start <= h.end) ==>
            forall i :: 0 <= i < |Select(hs, others, false)| ==> Select(hs, others, false)[i] !in others
  {
    var a := Select(hs, others, false);
    forall i | 0 <= i < |a|
      ensures a[i] in hs && (a[i].start <= a[i].end ==> a[i] !in others)
    {
      var k := SelectFrom(hs, others, false, i);
      forall m | 0 <= m < |others| ensures others[m] != a[i] || a[i].start > a[i].end {
        assert !Overlap(a[i], others[m]);
      }
    }
  }

  /** Of the kept hunks exactly `mine`'s clear ones are in `mine`. */
  lemma OwnHunksBag<T>(server: seq<Hunk<T>>, client: seq<Hunk<T>>, n: int, side: bool)
    requires SideValid(server, n) && SideValid(client, n)
    ensures var mine, theirs := if side then server else client, if side then client else server;
            multiset(Flat(KeptMarks(Kept(server, client), OwnHunk(mine)))) == multiset(Select(mine, theirs, false))
  {
    var mine := if side then server else client;
    var srv, cli := Select(server, client, false), Select(client, server, false);
    ClearIsOwn(server, client);
    ClearIsOwn(client, server);
    OwnHunksFlat(srv, mine, side);
    OwnHunksFlat(cli, mine, !side);
    hide Select, MergeSides, Flat, KeptMarks;
    KeptMarksMerge(srv, cli, OwnHunk(mine));
    FlatMergeBag(KeptMarks(srv, OwnHunk(mine)), KeptMarks(cli, OwnHunk(mine)));
  }

  lemma {:induction false} GroupSideValid<T>(groups: seq<seq<Tagged<T>>>, side: bool, n: int, i: int)
    requires SideValid(OfSide(FlatGroups(groups), side), n) && 0 <= i < |groups|
    ensures SideValid(OfSide(groups[i], side), n)
  {
    var a, b := OfSide(groups[0], side), OfSide(FlatGroups(groups[1..]), side);
    OfSideConcat(groups[0], FlatGroups(groups[1..]), side);
    if i == 0 {
      ValidParts(a, b, n);
    } else {
      ValidParts(a, b, n);
      GroupSideValid(groups[1..], side, n, i - 1);
    }
  }

  lemma ValidParts<T>(a: seq<Hunk<T>>, b: seq<Hunk<T>>, n: int)
    requires SideValid(a + b, n)
    ensures SideValid(a, n) && SideValid(b, n)
  {
    var c := a + b;
    forall i, j | 0 <= i < j < |a| ensures Before(a[i], a[j]) { assert Before(c[i], c[j]); }
    forall i, j | 0 <= i < j < |b| ensures Before(b[i], b[j]) { assert Before(c[|a| + i], c[|a| + j]); }
    forall i | 0 <= i < |a| ensures Within(a[i], n) { assert Within(c[i], n); }
    forall i | 0 <= i < |b| ensures Within(b[i], n) { assert Within(c[|a| + i], n); }
  }

  lemma MemberEnd<T>(g: seq<Tagged<T>>, k: int)
    requires g != [] && 0 <= k < |g|
    ensures g[k].hunk.end <= HullEnd(g)
  {
    if k < |g| - 1 { MemberEnd(g[..|g| - 1], k); }
  }

  lemma GroupHolds<T>(groups: seq<seq<Tagged<T>>>, side: bool, n: int, i: int)
    requires Tidy(groups, n) && NoneEmpty(groups) && 0 <= i < |groups|
    requires SideValid(OfSide(FlatGroups(groups), side), n)
    ensures Holds(RegionMarks(groups, SideHunks(side))[i], n)
  {
    var g, m := groups[i], RegionMarks(groups, SideHunks(side))[i];
    HullInBounds(g, n);
    GroupSideValid(groups, side, n, i);
    forall k | 0 <= k < |m.lines| ensures Inside(m.lines[k], m) {
      var j := OfSideFrom(g, side, k);
      MemberEnd(g, j);
      forall x | InFootprint(m.lines[k].start, m.lines[k].end, x) ensures InFootprint(m.start, m.end, x) {
        HullFootprint(g, n, x);
      }
    }
  }

  lemma OwnHolds<T>(server: seq<Hunk<T>>, client: seq<Hunk<T>>, n: int, side: bool, i: int)
    requires SideValid(Kept(server, client), n)
    requires 0 <= i < |Kept(server, client)|
    ensures var mine := if side then server else client;
            Holds(KeptMarks(Kept(server, client), OwnHunk(mine))[i], n)
  {
  }

  lemma MarksHold<T>(server: seq<Hunk<T>>, client: seq<Hunk<T>>, n: int, pool: seq<Tagged<T>>, side: bool)
    requires SideValid(server, n) && SideValid(client, n) && IsPool(pool, server, client)
    requires Tidy(Groups(pool), n) && NoneEmpty(Groups(pool)) && FlatGroups(Groups(pool)) == pool
    requires SideValid(Kept(server, client), n)
    ensures var km := KeptMarks(Kept(server, client), OwnHunk(if side then server else client));
            var rm := RegionMarks(Groups(pool), SideHunks(side));
            forall i :: 0 <= i < |MergeSides(km, rm)| ==> Holds(MergeSides(km, rm)[i], n)
  {
    var km := KeptMarks(Kept(server, client), OwnHunk(if side then server else client));
    var rm := RegionMarks(Groups(pool), SideHunks(side));
    var marks := MergeSides(km, rm);
    SelectValid(server, client, true, n);
    SelectValid(client, server, true, n);
    hide Kept, MergeSides, SideValid, Holds;
    forall i | 0 <= i < |marks| ensures Holds(marks[i], n) {
      MergeFrom(km, rm, marks[i]);
      if marks[i] in rm {
        var j :| 0 <= j < |rm| && rm[j] == marks[i];
        GroupHolds(Groups(pool), side, n, j);
      } else {
        var j :| 0 <= j < |km| && km[j] == marks[i];
        OwnHolds(server, client, n, side, j);
      }
    }
  }

  /** Reading regions and kept hunks in base order shows each side's hunks completely and in order. */
  lemma SidesSurvive<T>(server: seq<Hunk<T>>, client: seq<Hunk<T>>, n: int, pool: seq<Tagged<T>>, side: bool)
    requires SideValid(server, n) && SideValid(client, n) && IsPool(pool, server, client)
    ensures NoneEmpty(Groups(pool))
    ensures var mine := if side then server else client;
            Flat(MergeSides(KeptMarks(Kept(server, client), OwnHunk(mine)),
                            RegionMarks(Groups(pool), SideHunks(side)))) == mine
  {
    var mine, theirs := if side then server else client, if side then client else server;
    var groups := Groups(pool);
    hide Kept, MergeSides, Holds, Groups, Flat, Select, KeptMarks, RegionMarks;
    MarksValid(server, client, n, pool, OwnHunk(mine), SideHunks(side));
    var km, rm := KeptMarks(Kept(server, client), OwnHunk(mine)), RegionMarks(groups, SideHunks(side));
    var marks := MergeSides(km, rm);
    MarksHold(server, client, n, pool, side);
    FlatValid(marks, n);
    FlatMergeBag(km, rm);
    OwnHunksBag(server, client, n, side);
    RegionMarksFlat(groups, side);
    SelectBoth(mine, theirs);
    SideValidSorted(Flat(marks), n);
    SortedIs(Flat(marks), mine, n);
  }

  /** Conservation: regions and kept hunks read in base order give each side's new lines completely
      and in their original order. */
  lemma PartitionConserves<T>(server: seq<Hunk<T>>, client: seq<Hunk<T>>, n: int, pool: seq<Tagged<T>>)
    requires SideValid(server, n) && SideValid(client, n) && IsPool(pool, server, client)
    ensures NoneEmpty(Groups(pool))
    ensures Flat(MergeSides(KeptMarks(Kept(server, client), OwnLines(server)),
                            RegionMarks(Groups(pool), SideLines(true)))) == Flat(server)
    ensures Flat(MergeSides(KeptMarks(Kept(server, client), OwnLines(client)),
                            RegionMarks(Groups(pool), SideLines(false)))) == Flat(client)
  {
    forall side: bool
      ensures var mine := if side then server else client;
              NoneEmpty(Groups(pool)) &&
              Flat(MergeSides(KeptMarks(Kept(server, client), OwnLines(mine)),
                              RegionMarks(Groups(pool), SideLines(side)))) == Flat(mine)
    {
      var mine := if side then server else client;
      SidesSurvive(server, client, n, pool, side);
      var km, rm := KeptMarks(Kept(server, client), OwnHunk(mine)), RegionMarks(Groups(pool), SideHunks(side));
      forall h: Hunk<T> ensures Flat(OwnHunk(mine)(h)) == OwnLines(mine)(h) { FlatSnoc([], h); }
      MirrorsMerge(km, KeptMarks(Kept(server, client), OwnLines(mine)), rm, RegionMarks(Groups(pool), SideLines(side)));
    }
  }
}
