/** Splitting two overlapping edit lists into conflict regions and the edits that stay clear of them. */
module Partition {
  import opened Seqs
  import opened Sorting
  import opened Hunks
  import opened ThreeWay

  /** `ConflictHunk`: a base region both sides rewrote. */
  datatype Conflict<T> = Conflict(start: int, end: int, serverLines: seq<T>, clientLines: seq<T>)

  /** A hunk with the side it came from. */
  datatype Tagged<T> = Tagged(hunk: Hunk<T>, server: bool)

  function TagKey<T>(t: Tagged<T>): Key { RangeKey(t.hunk) }

  function StartKey<T>(c: Conflict<T>): Key { (c.start, 0) }

  ghost predicate OverlapsAny<T>(h: Hunk<T>, hs: seq<Hunk<T>>) {
    exists b :: 0 <= b < |hs| && Overlap(h, hs[b])
  }

  /** The hunks of `hs` that overlap (flag) or stay clear of (!flag) the other side. */
  ghost function Select<T>(hs: seq<Hunk<T>>, others: seq<Hunk<T>>, flag: bool): (r: seq<Hunk<T>>)
    ensures |r| <= |hs|
  {
    if hs == [] then []
    else
      var last := hs[|hs| - 1];
      var front := Select(hs[..|hs| - 1], others, flag);
      if OverlapsAny(last, others) == flag then front + [last] else front
  }

  ghost function TagAll<T>(hs: seq<Hunk<T>>, server: bool): seq<Tagged<T>> {
    seq(|hs|, i requires 0 <= i < |hs| => Tagged(hs[i], server))
  }

  ghost function OfSide<T>(pool: seq<Tagged<T>>, server: bool): (r: seq<Hunk<T>>)
    ensures |r| <= |pool|
  {
    if pool == [] then []
    else
      var last := pool[|pool| - 1];
      var front := OfSide(pool[..|pool| - 1], server);
      if last.server == server then front + [last.hunk] else front
  }

  ghost function Flat<T>(hs: seq<Hunk<T>>): seq<T> {
    if hs == [] then [] else Flat(hs[..|hs| - 1]) + hs[|hs| - 1].lines
  }

  function Max(a: int, b: int): int { if a < b then b else a }

  /** How many of the following hunks a region grown from [s,e) swallows in one sweep. */
  ghost function Absorb<T>(s: int, e: int, rest: seq<Tagged<T>>): (k: nat)
    ensures k <= |rest|
    decreases |rest|
  {
    if rest == [] || !RangesOverlap(s, e, rest[0].hunk.start, rest[0].hunk.end) then 0
    else 1 + Absorb(s, Max(e, rest[0].hunk.end), rest[1..])
  }

  ghost function HullEnd<T>(group: seq<Tagged<T>>): int
    requires group != []
  {
    var last := group[|group| - 1].hunk.end;
    if |group| == 1 then last else Max(HullEnd(group[..|group| - 1]), last)
  }

  ghost function GroupSize<T>(pool: seq<Tagged<T>>): (k: nat)
    requires pool != []
    ensures 1 <= k <= |pool|
  {
    1 + Absorb(pool[0].hunk.start, pool[0].hunk.end, pool[1..])
  }

  /** One sweep over the sorted pool: each group is what the region of its first hunk swallows. */
  ghost function Groups<T>(pool: seq<Tagged<T>>): seq<seq<Tagged<T>>>
    decreases |pool|
  {
    if pool == [] then [] else [pool[..GroupSize(pool)]] + Groups(pool[GroupSize(pool)..])
  }

  ghost function RegionOf<T>(group: seq<Tagged<T>>): Conflict<T>
    requires group != []
  {
    Conflict(group[0].hunk.start, HullEnd(group), Flat(OfSide(group, true)), Flat(OfSide(group, false)))
  }

  ghost predicate NoneEmpty<T>(groups: seq<seq<Tagged<T>>>) {
    forall g :: 0 <= g < |groups| ==> groups[g] != []
  }

  ghost function Regions<T>(groups: seq<seq<Tagged<T>>>): seq<Conflict<T>>
    requires NoneEmpty(groups)
  {
    seq(|groups|, g requires 0 <= g < |groups| => RegionOf(groups[g]))
  }

  /** The overlapping hunks of both sides in base order; equal ranges in either order. */
  ghost predicate IsPool<T>(pool: seq<Tagged<T>>, server: seq<Hunk<T>>, client: seq<Hunk<T>>) {
    && SortedBy(pool, TagKey)
    && OfSide(pool, true) == Select(server, client, true)
    && OfSide(pool, false) == Select(client, server, true)
  }

  // ----- the flagging loops -----

  lemma OverlapSymmetric<T>(a: Hunk<T>, b: Hunk<T>)
    requires a.start <= a.end && b.start <= b.end
    ensures Overlap(a, b) == Overlap(b, a)
  {
  }

  ghost predicate FlagsFor<T>(flags: seq<bool>, hs: seq<Hunk<T>>, others: seq<Hunk<T>>) {
    |flags| == |hs| && forall i :: 0 <= i < |hs| ==> (flags[i] <==> OverlapsAny(hs[i], others))
  }

  /** Server hunk i against every client hunk. */
  method MarkRow<T>(h: Hunk<T>, client: seq<Hunk<T>>, cliOverlap: array<bool>) returns (hit: bool)
    requires cliOverlap.Length == |client|
    modifies cliOverlap
    ensures hit <==> OverlapsAny(h, client)
    ensures forall b :: 0 <= b < |client| ==> (cliOverlap[b] <==> old(cliOverlap[b]) || Overlap(h, client[b]))
  {
    hit := false;
    for j := 0 to |client|
      invariant hit <==> exists b :: 0 <= b < j && Overlap(h, client[b])
      invariant forall b :: 0 <= b < j ==> (cliOverlap[b] <==> old(cliOverlap[b]) || Overlap(h, client[b]))
      invariant forall b :: j <= b < |client| ==> cliOverlap[b] == old(cliOverlap[b])
    {
      if RangesOverlap(h.start, h.end, client[j].start, client[j].end) {
        assert Overlap(h, client[j]);
        hit := true;
        cliOverlap[j] := true;
      }
    }
  }

  /** Which hunks of each side overlap the other. */
  method MarkOverlaps<T>(server: seq<Hunk<T>>, client: seq<Hunk<T>>, ghost n: int)
    returns (srvOverlap: array<bool>, cliOverlap: array<bool>)
    requires SideValid(server, n) && SideValid(client, n)
    ensures fresh(srvOverlap) && fresh(cliOverlap)
    ensures FlagsFor(srvOverlap[..], server, client) && FlagsFor(cliOverlap[..], client, server)
  {
    hide OverlapsAny, Overlap;
    srvOverlap := new bool[|server|](i => false);
    cliOverlap := new bool[|client|](i => false);
    NoneYet(server, client);
    for i := 0 to |server|
      invariant forall a :: 0 <= a < i ==> (srvOverlap[a] <==> OverlapsAny(server[a], client))
      invariant forall b :: 0 <= b < |client| ==> (cliOverlap[b] <==> OverlapsAny(client[b], server[..i]))
    {
      var hit := MarkRow(server[i], client, cliOverlap);
      srvOverlap[i] := hit;
      RowDone(server, client, i, n);
    }
    assert server[..|server|] == server;
  }

  lemma NoneYet<T>(server: seq<Hunk<T>>, client: seq<Hunk<T>>)
    ensures forall b :: 0 <= b < |client| ==> !OverlapsAny(client[b], server[..0])
  {
  }

  lemma RowDone<T>(server: seq<Hunk<T>>, client: seq<Hunk<T>>, i: int, n: int)
    requires SideValid(server, n) && SideValid(client, n) && 0 <= i < |server|
    ensures forall b :: 0 <= b < |client| ==>
      (OverlapsAny(client[b], server[..i + 1])
       <==> OverlapsAny(client[b], server[..i]) || Overlap(server[i], client[b]))
  {
    forall b | 0 <= b < |client|
      ensures OverlapsAny(client[b], server[..i + 1])
              <==> OverlapsAny(client[b], server[..i]) || Overlap(server[i], client[b])
    {
      OverlapSymmetric(client[b], server[i]);
      OneMore(client[b], server, i);
    }
  }

  lemma OneMore<T>(h: Hunk<T>, hs: seq<Hunk<T>>, i: int)
    requires 0 <= i < |hs|
    ensures OverlapsAny(h, hs[..i + 1]) <==> OverlapsAny(h, hs[..i]) || Overlap(h, hs[i])
  {
    if OverlapsAny(h, hs[..i + 1]) {
      var b :| 0 <= b < i + 1 && Overlap(h, hs[..i + 1][b]);
      if b < i { assert hs[..i][b] == hs[b]; }
    }
    if OverlapsAny(h, hs[..i]) {
      var b :| 0 <= b < i && Overlap(h, hs[..i][b]);
      assert hs[..i + 1][b] == hs[b];
    }
    if Overlap(h, hs[i]) {
      assert hs[..i + 1][i] == hs[i];
    }
  }

  method Pick<T>(hs: seq<Hunk<T>>, flags: array<bool>, flag: bool, ghost others: seq<Hunk<T>>) returns (r: seq<Hunk<T>>)
    requires FlagsFor(flags[..], hs, others)
    ensures r == Select(hs, others, flag)
  {
    r := [];
    for i := 0 to |hs|
      invariant r == Select(hs[..i], others, flag)
    {
      assert hs[..i + 1][..i] == hs[..i];
      assert flags[..][i] == flags[i];
      if flags[i] == flag {
        r := r + [hs[i]];
      }
    }
    assert hs[..|hs|] == hs;
  }

  // ----- the closure loop -----

  ghost predicate PoolOk<T>(pool: seq<Tagged<T>>) {
    && SortedBy(pool, TagKey)
    && (forall k :: 0 <= k < |pool| ==> pool[k].hunk.start <= pool[k].hunk.end)
  }

  /** The region [s,e) grown from pool[i] so far. */
  ghost predicate Grown<T>(pool: seq<Tagged<T>>, i: int, m: int, s: int, e: int) {
    && 0 <= i < m <= |pool|
    && s == pool[i].hunk.start && s <= e
    && (pool[i].hunk.start == pool[i].hunk.end ==> e == s)
    && e == HullEnd(pool[i..m])
    && GroupSize(pool[i..]) == m - i + Absorb(s, e, pool[m..])
  }

  ghost predicate Stuck<T>(pool: seq<Tagged<T>>, m: int, s: int, e: int) {
    0 <= m < |pool| && !RangesOverlap(s, e, pool[m].hunk.start, pool[m].hunk.end)
  }

  /** Everything GrowRegion knows about the region it is growing. */
  ghost predicate Growing<T>(pool: seq<Tagged<T>>, i: int, m: int, c: Conflict<T>) {
    && Grown(pool, i, m, c.start, c.end)
    && c.serverLines == Flat(OfSide(pool[i..m], true)) && c.clientLines == Flat(OfSide(pool[i..m], false))
  }

  function Take<T>(c: Conflict<T>, t: Tagged<T>): Conflict<T> {
    Conflict(c.start, Max(c.end, t.hunk.end),
             if t.server then c.serverLines + t.hunk.lines else c.serverLines,
             if t.server then c.clientLines else c.clientLines + t.hunk.lines)
  }

  lemma GrownStart<T>(pool: seq<Tagged<T>>, i: int)
    requires PoolOk(pool) && 0 <= i < |pool|
    ensures var h := pool[i].hunk;
            Growing(pool, i, i + 1,
                    if pool[i].server then Conflict(h.start, h.end, h.lines, [])
                    else Conflict(h.start, h.end, [], h.lines))
  {
    GrownStartRange(pool, i);
    LoneSide(pool[i]);
    assert pool[i..i + 1] == [pool[i]];
  }

  lemma GrownStartRange<T>(pool: seq<Tagged<T>>, i: int)
    requires PoolOk(pool) && 0 <= i < |pool|
    ensures Grown(pool, i, i + 1, pool[i].hunk.start, pool[i].hunk.end)
  {
    assert pool[i..][0] == pool[i] && pool[i..][1..] == pool[i + 1..];
    assert pool[i..i + 1] == [pool[i]];
  }

  lemma LoneSide<T>(t: Tagged<T>)
    ensures Flat(OfSide([t], t.server)) == t.hunk.lines
    ensures Flat(OfSide([t], !t.server)) == []
  {
    assert [t][..0] == [];
    assert OfSide([t], t.server) == [] + [t.hunk];
    FlatSnoc([], t.hunk);
  }

  lemma GrownStep<T>(pool: seq<Tagged<T>>, i: int, m: int, s: int, e: int)
    requires PoolOk(pool) && Grown(pool, i, m, s, e) && m < |pool|
    requires RangesOverlap(s, e, pool[m].hunk.start, pool[m].hunk.end)
    ensures s <= pool[m].hunk.start
    ensures Grown(pool, i, m + 1, s, Max(e, pool[m].hunk.end))
  {
    assert !KeyLess(TagKey(pool[m]), TagKey(pool[i]));
    assert pool[m..][0] == pool[m] && pool[m..][1..] == pool[m + 1..];
    var g := pool[i..m + 1];
    assert g[|g| - 1] == pool[m] && g[..|g| - 1] == pool[i..m];
  }

  lemma GrowingStep<T>(pool: seq<Tagged<T>>, i: int, m: int, c: Conflict<T>)
    requires PoolOk(pool) && Growing(pool, i, m, c) && m < |pool|
    requires RangesOverlap(c.start, c.end, pool[m].hunk.start, pool[m].hunk.end)
    ensures c.start <= pool[m].hunk.start
    ensures Growing(pool, i, m + 1, Take(c, pool[m]))
  {
    GrownStep(pool, i, m, c.start, c.end);
    var g := pool[i..m + 1];
    assert g[|g| - 1] == pool[m] && g[..|g| - 1] == pool[i..m];
    FlatSnoc(OfSide(pool[i..m], pool[m].server), pool[m].hunk);
  }

  /** Once the next hunk stays clear of the region, so do all later ones. */
  lemma StuckForGood<T>(pool: seq<Tagged<T>>, i: int, m: int, s: int, e: int, j: int)
    requires PoolOk(pool) && Grown(pool, i, m, s, e) && Stuck(pool, m, s, e) && m <= j < |pool|
    ensures !RangesOverlap(s, e, pool[j].hunk.start, pool[j].hunk.end)
    ensures RangeBefore(s, e, pool[j].hunk.start, pool[j].hunk.end)
  {
    var a, x, y := pool[i].hunk, pool[m].hunk, pool[j].hunk;
    assert !KeyLess(TagKey(pool[m]), TagKey(pool[i]));
    if m < j { assert !KeyLess(TagKey(pool[j]), TagKey(pool[m])); }
    Trichotomy(s, e, x.start, x.end);
    Trichotomy(s, e, y.start, y.end);
  }

  lemma RegionsSnoc<T>(groups: seq<seq<Tagged<T>>>, g: seq<Tagged<T>>)
    requires g != [] && NoneEmpty(groups)
    ensures NoneEmpty(groups + [g]) && Regions(groups + [g]) == Regions(groups) + [RegionOf(g)]
  {
    hide RegionOf;
    assert NoneEmpty(groups + [g]);
    assert Regions(groups + [g]) == Regions(groups) + [RegionOf(g)];
  }

  lemma FlatSnoc<T>(hs: seq<Hunk<T>>, h: Hunk<T>)
    ensures Flat(hs + [h]) == Flat(hs) + h.lines
  {
    assert (hs + [h])[..|hs|] == hs;
  }

  lemma GroupsNonEmpty<T>(pool: seq<Tagged<T>>)
    ensures NoneEmpty(Groups(pool))
    decreases |pool|
  {
    if pool != [] { GroupsNonEmpty(pool[GroupSize(pool)..]); }
  }

  lemma StuckGrowing<T>(pool: seq<Tagged<T>>, i: int, m: int, c: Conflict<T>, j: int)
    requires PoolOk(pool) && Growing(pool, i, m, c) && Stuck(pool, m, c.start, c.end) && m <= j < |pool|
    ensures !RangesOverlap(c.start, c.end, pool[j].hunk.start, pool[j].hunk.end)
  {
    StuckForGood(pool, i, m, c.start, c.end, j);
  }

  ghost predicate PrefixUsed(used: seq<bool>, m: int) {
    forall k :: 0 <= k < |used| ==> (used[k] <==> k < m)
  }

  /** Widen the region by one hunk and append its lines to its side. */
  method TakeIn<T>(pool: seq<Tagged<T>>, j: int, c: Conflict<T>, ghost i: int) returns (r: Conflict<T>)
    requires PoolOk(pool) && Growing(pool, i, j, c) && j < |pool|
    requires RangesOverlap(c.start, c.end, pool[j].hunk.start, pool[j].hunk.end)
    ensures Growing(pool, i, j + 1, r)
  {
    GrowingStep(pool, i, j, c);
    var t := pool[j];
    var start, end := c.start, c.end;
    if t.hunk.start < start {
      start := t.hunk.start;
    }
    if t.hunk.end > end {
      end := t.hunk.end;
    }
    if t.server {
      r := Conflict(start, end, c.serverLines + t.hunk.lines, c.clientLines);
    } else {
      r := Conflict(start, end, c.serverLines, c.clientLines + t.hunk.lines);
    }
  }

  method Use(used: array<bool>, j: int)
    requires 0 <= j < used.Length && PrefixUsed(used[..], j)
    modifies used
    ensures PrefixUsed(used[..], j + 1)
  {
    ghost var was := used[..];
    used[j] := true;
    assert used[..] == was[j := true];
  }

  /** One pass over the pool: take in every unused hunk that overlaps the region so far. */
  method GrowPass<T>(pool: seq<Tagged<T>>, ghost i: int, c: Conflict<T>, used: array<bool>, ghost m: int)
    returns (r: Conflict<T>, changed: bool, ghost m': int)
    requires PoolOk(pool) && used.Length == |pool| && Growing(pool, i, m, c) && PrefixUsed(used[..], m)
    modifies used
    ensures Growing(pool, i, m', r) && PrefixUsed(used[..], m')
    ensures m <= m' && (changed <==> m < m')
    ensures m' == |pool| || Stuck(pool, m', r.start, r.end)
  {
    hide HullEnd, GroupSize, Absorb, OfSide, Flat;
    r, changed, m' := c, false, m;
    for j := 0 to |pool|
      invariant Growing(pool, i, m', r) && PrefixUsed(used[..], m')
      invariant m <= m' && (changed <==> m < m')
      invariant j <= m' || Stuck(pool, m', r.start, r.end)
    {
      assert used[..][j] == used[j];
      if used[j] {
        continue;
      }
      var h := pool[j].hunk;
      if j > m' { StuckGrowing(pool, i, m', r, j); }
      if RangesOverlap(r.start, r.end, h.start, h.end) || (r.start == r.end && h.start == h.end && r.start == h.start) {
        assert m' == j;
        r := TakeIn(pool, j, r, i);
        Use(used, j);
        changed, m' := true, j + 1;
      }
    }
  }

  /** The region that grows out of pool[i]: repeat the pass until one changes nothing. */
  method GrowRegion<T>(pool: seq<Tagged<T>>, i: int, used: array<bool>) returns (c: Conflict<T>, ghost m: int)
    requires PoolOk(pool) && 0 <= i < |pool| && used.Length == |pool|
    requires PrefixUsed(used[..], i)
    modifies used
    ensures m == i + GroupSize(pool[i..]) && i < m <= |pool|
    ensures PrefixUsed(used[..], m)
    ensures c == RegionOf(pool[i..m])
  {
    var h := pool[i].hunk;
    c := if pool[i].server then Conflict(h.start, h.end, h.lines, []) else Conflict(h.start, h.end, [], h.lines);
    used[i] := true;
    m := i + 1;
    GrownStart(pool, i);
    var changed := true;
    while changed
      invariant Growing(pool, i, m, c) && PrefixUsed(used[..], m)
      invariant !changed ==> m == |pool| || Stuck(pool, m, c.start, c.end)
      decreases |pool| - m, changed
    {
      c, changed, m := GrowPass(pool, i, c, used, m);
    }
  }

  /** The outer loop: the repeated passes find exactly the groups of a single sweep. */
  method GroupRegions<T>(pool: seq<Tagged<T>>) returns (conflicts: seq<Conflict<T>>)
    requires PoolOk(pool)
    ensures NoneEmpty(Groups(pool)) && conflicts == Regions(Groups(pool))
  {
    GroupsNonEmpty(pool);
    conflicts := [];
    var used := new bool[|pool|](k => false);
    ghost var m, done: seq<seq<Tagged<T>>> := 0, [];
    assert pool[0..] == pool;
    for i := 0 to |pool|
      invariant i <= m <= |pool|
      invariant PrefixUsed(used[..], m)
      invariant NoneEmpty(done) && conflicts == Regions(done)
      invariant Groups(pool) == done + Groups(pool[m..])
    {
      assert used[..][i] == used[i];
      if used[i] {
        continue;
      }
      var c;
      ghost var m';
      c, m' := GrowRegion(pool, i, used);
      GroupsStep(pool, i, m', done);
      RegionsSnoc(done, pool[i..m']);
      conflicts := conflicts + [c];
      m, done := m', done + [pool[i..m']];
    }
  }

  lemma GroupsStep<T>(pool: seq<Tagged<T>>, i: int, m: int, done: seq<seq<Tagged<T>>>)
    requires 0 <= i < |pool| && m == i + GroupSize(pool[i..])
    ensures i < m <= |pool|
    ensures done + Groups(pool[i..]) == done + [pool[i..m]] + Groups(pool[m..])
  {
    var t := pool[i..];
    assert t[..m - i] == pool[i..m] && t[m - i..] == pool[m..];
    Assoc(done, [pool[i..m]], Groups(pool[m..]));
  }

  // ----- putting the pool together -----

  lemma OfSideMembers<T>(pool: seq<Tagged<T>>, side: bool, x: Hunk<T>)
    ensures multiset(OfSide(pool, side))[x] == multiset(pool)[Tagged(x, side)]
  {
    if pool != [] {
      var front, last := pool[..|pool| - 1], pool[|pool| - 1];
      OfSideMembers(front, side, x);
      assert pool == front + [last];
    }
  }

  lemma OfSideTagged<T>(hs: seq<Hunk<T>>, tag: bool, side: bool)
    ensures OfSide(TagAll(hs, tag), side) == if tag == side then hs else []
  {
    if hs != [] {
      var front := hs[..|hs| - 1];
      assert TagAll(hs, tag)[..|hs| - 1] == TagAll(front, tag);
      OfSideTagged(front, tag, side);
      assert hs == front + [hs[|hs| - 1]];
    }
  }

  lemma OfSideConcat<T>(a: seq<Tagged<T>>, b: seq<Tagged<T>>, side: bool)
    ensures OfSide(a + b, side) == OfSide(a, side) + OfSide(b, side)
  {
    if b == [] {
      assert a + b == a;
    } else {
      assert (a + b)[..|a + b| - 1] == a + b[..|b| - 1];
      OfSideConcat(a, b[..|b| - 1], side);
    }
  }

  lemma OfSideSplit<T>(b: seq<Tagged<T>>, k: int, side: bool)
    requires 0 <= k < |b|
    ensures multiset(OfSide(b, side))
         == multiset(OfSide(b[..k] + b[k + 1..], side))
           + (if b[k].server == side then multiset{b[k].hunk} else multiset{})
  {
    assert b == b[..k] + ([b[k]] + b[k + 1..]);
    OfSideConcat(b[..k], [b[k]] + b[k + 1..], side);
    OfSideConcat([b[k]], b[k + 1..], side);
    OfSideConcat(b[..k], b[k + 1..], side);
    assert [b[k]][..0] == [];
  }

  lemma OfSideCons<T>(a: seq<Tagged<T>>, side: bool)
    requires a != []
    ensures multiset(OfSide(a, side))
         == multiset(OfSide(a[1..], side)) + (if a[0].server == side then multiset{a[0].hunk} else multiset{})
  {
    hide OfSide;
    assert a[..0] + a[1..] == a[1..];
    OfSideSplit(a, 0, side);
  }

  lemma SameSide<T>(a: seq<Tagged<T>>, b: seq<Tagged<T>>, side: bool)
    requires multiset(a) == multiset(b)
    ensures multiset(OfSide(a, side)) == multiset(OfSide(b, side))
    decreases |a|
  {
    hide OfSide;
    if a == [] {
      SameMembers(a, b);
      assert a == b;
    } else {
      var k := FindFirst(a, b);
      OfSideCons(a, side);
      OfSideSplit(b, k, side);
      SameSide(a[1..], b[..k] + b[k + 1..], side);
    }
  }

  lemma OfSideFrom<T>(pool: seq<Tagged<T>>, side: bool, k: int) returns (i: int)
    requires 0 <= k < |OfSide(pool, side)|
    ensures k <= i < |pool| && pool[i] == Tagged(OfSide(pool, side)[k], side)
  {
    var front, last := pool[..|pool| - 1], pool[|pool| - 1];
    if last.server == side && k == |OfSide(front, side)| {
      i := |pool| - 1;
    } else {
      i := OfSideFrom(front, side, k);
    }
  }

  /** Sorting the pool leaves each side's hunks in their own order. */
  lemma OfSideSorted<T>(pool: seq<Tagged<T>>, side: bool)
    requires SortedBy(pool, TagKey)
    ensures SortedBy(OfSide(pool, side), RangeKey)
  {
    if pool != [] {
      var front := pool[..|pool| - 1];
      OfSideSorted(front, side);
      forall k | 0 <= k < |OfSide(front, side)|
        ensures !KeyLess(TagKey(pool[|pool| - 1]), RangeKey(OfSide(front, side)[k]))
      {
        var i := OfSideFrom(front, side, k);
        assert pool[i] == front[i];
      }
    }
  }

  lemma SelectFrom<T>(hs: seq<Hunk<T>>, others: seq<Hunk<T>>, flag: bool, k: int) returns (i: int)
    requires 0 <= k < |Select(hs, others, flag)|
    ensures k <= i < |hs| && hs[i] == Select(hs, others, flag)[k] && OverlapsAny(hs[i], others) == flag
  {
    var front := hs[..|hs| - 1];
    if OverlapsAny(hs[|hs| - 1], others) == flag && k == |Select(front, others, flag)| {
      i := |hs| - 1;
    } else {
      i := SelectFrom(front, others, flag, k);
    }
  }

  lemma SelectValid<T>(hs: seq<Hunk<T>>, others: seq<Hunk<T>>, flag: bool, n: int)
    requires SideValid(hs, n)
    ensures SideValid(Select(hs, others, flag), n)
  {
    if hs != [] {
      var front := hs[..|hs| - 1];
      SelectValid(front, others, flag, n);
      forall k | 0 <= k < |Select(front, others, flag)|
        ensures Before(Select(front, others, flag)[k], hs[|hs| - 1])
      {
        var i := SelectFrom(front, others, flag, k);
      }
    }
  }

  lemma SelectHas<T>(hs: seq<Hunk<T>>, others: seq<Hunk<T>>, flag: bool, h: Hunk<T>)
    requires h in hs && OverlapsAny(h, others) == flag
    ensures h in Select(hs, others, flag)
  {
    if hs[|hs| - 1] != h {
      assert h in hs[..|hs| - 1];
      SelectHas(hs[..|hs| - 1], others, flag, h);
    }
  }

  /** The hunks that overlap nothing on the other side may be merged. */
  lemma ClearDisjoint<T>(server: seq<Hunk<T>>, client: seq<Hunk<T>>, n: int)
    requires SideValid(server, n) && SideValid(client, n)
    ensures Disjoint(Select(server, client, false), Select(client, server, false))
  {
    var a, b := Select(server, client, false), Select(client, server, false);
    forall i, j | 0 <= i < |a| && 0 <= j < |b| ensures !Overlap(a[i], b[j]) {
      var k := SelectFrom(server, client, false, i);
      var l := SelectFrom(client, server, false, j);
      assert !Overlap(server[k], client[l]);
    }
  }

  /** The overlapping hunks of both sides, tagged, in any order. */
  ghost predicate TaggedOverlaps<T>(pool: seq<Tagged<T>>, server: seq<Hunk<T>>, client: seq<Hunk<T>>) {
    multiset(pool) == multiset(TagAll(Select(server, client, true), true) + TagAll(Select(client, server, true), false))
  }

  lemma PoolSorted<T>(pool: seq<Tagged<T>>, server: seq<Hunk<T>>, client: seq<Hunk<T>>, n: int)
    requires SideValid(server, n) && SideValid(client, n)
    requires SortedBy(pool, TagKey) && TaggedOverlaps(pool, server, client)
    ensures IsPool(pool, server, client)
  {
    var s, c := Select(server, client, true), Select(client, server, true);
    var raw := TagAll(s, true) + TagAll(c, false);
    SelectValid(server, client, true, n);
    SelectValid(client, server, true, n);
    forall side ensures OfSide(pool, side) == if side then s else c {
      SameSide(pool, raw, side);
      OfSideConcat(TagAll(s, true), TagAll(c, false), side);
      OfSideTagged(s, true, side);
      OfSideTagged(c, false, side);
      OfSideSorted(pool, side);
      SortedIs(OfSide(pool, side), if side then s else c, n);
    }
  }

  lemma PoolIsOk<T>(pool: seq<Tagged<T>>, server: seq<Hunk<T>>, client: seq<Hunk<T>>, n: int)
    requires SideValid(server, n) && SideValid(client, n) && IsPool(pool, server, client)
    ensures PoolOk(pool)
    ensures forall k :: 0 <= k < |pool| ==> Within(pool[k].hunk, n)
  {
    forall k | 0 <= k < |pool| ensures Within(pool[k].hunk, n) {
      var t := pool[k];
      OfSideMembers(pool, t.server, t.hunk);
      assert t in multiset(pool);
      assert t.hunk in OfSide(pool, t.server);
      SelectValid(server, client, true, n);
      SelectValid(client, server, true, n);
    }
  }

  method Tag<T>(server: seq<Hunk<T>>, client: seq<Hunk<T>>) returns (pool: seq<Tagged<T>>)
    ensures pool == TagAll(server, true) + TagAll(client, false)
  {
    pool := [];
    for i := 0 to |server|
      invariant pool == TagAll(server, true)[..i]
    {
      pool := pool + [Tagged(server[i], true)];
    }
    for j := 0 to |client|
      invariant pool == TagAll(server, true) + TagAll(client, false)[..j]
    {
      pool := pool + [Tagged(client[j], false)];
    }
  }
}
