/** The highest accepted sequence number of each client, and when it was last heard from. */
module IdemCaches {
  import opened Protocol

  /** Nanoseconds. */
  type Time = int

  const SECOND: int := 1_000_000_000

  /** `idemRecord`: what the snapshot file holds for a client. */
  datatype IdemRecord = IdemRecord(highest: nat, lastSeen: int)

  function HighestOf(highest: map<ClientID, nat>, client: ClientID): nat {
    if client in highest then highest[client] else 0
  }

  /** Seconds are all the snapshot keeps of a time. */
  function ToSeconds(t: Time): int { t / SECOND }

  datatype Seen = Seen(id: ClientID, t: Time)

  /** Every entry of `last` once, in any order. */
  ghost predicate IsListing(s: seq<Seen>, last: map<ClientID, Time>) {
    && (forall i, j :: 0 <= i < j < |s| ==> s[i].id != s[j].id)
    && (forall i :: 0 <= i < |s| ==> s[i].id in last && last[s[i].id] == s[i].t)
    && (forall id :: id in last ==> exists i :: 0 <= i < |s| && s[i].id == id)
  }

  ghost function Ids(s: seq<Seen>): (r: set<ClientID>)
    ensures forall id :: id in r <==> exists i :: 0 <= i < |s| && s[i].id == id
  {
    set i | 0 <= i < |s| :: s[i].id
  }

  lemma {:induction false} IdsCount(s: seq<Seen>)
    requires forall i, j :: 0 <= i < j < |s| ==> s[i].id != s[j].id
    ensures |Ids(s)| == |s|
  {
    if s != [] {
      var front, last := s[..|s| - 1], s[|s| - 1];
      IdsCount(front);
      IdsSnoc(front, last);
      assert s == front + [last];
      NewId(front, last.id);
      hide Ids;
    }
  }

  lemma NewId(s: seq<Seen>, id: ClientID)
    requires forall i :: 0 <= i < |s| ==> s[i].id != id
    ensures |Ids(s) + {id}| == |Ids(s)| + 1
  {
  }

  lemma IdsOneMore(s: seq<Seen>, i: int)
    requires 0 <= i < |s|
    ensures Ids(s[..i + 1]) == Ids(s[..i]) + {s[i].id}
  {
    assert s[..i + 1] == s[..i] + [s[i]];
    IdsSnoc(s[..i], s[i]);
  }

  lemma IdsSnoc(s: seq<Seen>, e: Seen)
    ensures Ids(s + [e]) == Ids(s) + {e.id}
  {
    var r := s + [e];
    assert r[|s|] == e;
    forall i | 0 <= i < |s| ensures s[i].id in Ids(r) { assert r[i] == s[i]; }
  }

  /** The first k entries are the oldest ones, oldest first. */
  ghost predicate OldestFirst(s: seq<Seen>, k: int) {
    forall i, j :: 0 <= i < j < |s| && i < k ==> s[i].t <= s[j].t
  }

  /** Where a swap of i and j takes k from. */
  function Swapped(i: int, j: int, k: int): int { if k == i then j else if k == j then i else k }

  lemma SwapAt(s: seq<Seen>, i: int, j: int, k: int)
    requires 0 <= i <= j < |s| && 0 <= k < |s|
    ensures s[i := s[j]][j := s[i]][k] == s[Swapped(i, j, k)]
  {
  }

  lemma SwapListing(s: seq<Seen>, i: int, j: int, last: map<ClientID, Time>)
    requires IsListing(s, last) && 0 <= i <= j < |s|
    ensures IsListing(s[i := s[j]][j := s[i]], last)
  {
    var r := s[i := s[j]][j := s[i]];
    assert |r| == |s|;
    forall k | 0 <= k < |s| ensures r[k] == s[Swapped(i, j, k)] && 0 <= Swapped(i, j, k) < |s| { SwapAt(s, i, j, k); }
    forall id | id in last ensures exists k :: 0 <= k < |r| && r[k].id == id {
      var k :| 0 <= k < |s| && s[k].id == id;
      assert r[Swapped(i, j, k)].id == id;
    }
    forall k, l | 0 <= k < l < |r| ensures r[k].id != r[l].id {
      assert Swapped(i, j, k) != Swapped(i, j, l);
    }
  }

  lemma SwapOldest(s: seq<Seen>, i: int, oldest: int)
    requires 0 <= i <= oldest < |s| && OldestFirst(s, i)
    requires forall k :: i <= k < |s| ==> s[oldest].t <= s[k].t
    ensures OldestFirst(s[i := s[oldest]][oldest := s[i]], i + 1)
  {
  }

  ghost function Restrict(last: map<ClientID, Time>, ids: set<ClientID>): map<ClientID, Time> {
    map id | id in last && id in ids :: last[id]
  }

  lemma ListOne(s: seq<Seen>, last: map<ClientID, Time>, ids: set<ClientID>, id: ClientID)
    requires IsListing(s, Restrict(last, ids)) && id in last && id !in ids
    ensures IsListing(s + [Seen(id, last[id])], Restrict(last, ids + {id}))
  {
    var r, m := s + [Seen(id, last[id])], Restrict(last, ids + {id});
    forall x | x in m ensures exists i :: 0 <= i < |r| && r[i].id == x {
      if x == id {
        assert r[|s|].id == x;
      } else {
        assert x in Restrict(last, ids);
        var i :| 0 <= i < |s| && s[i].id == x;
        assert r[i].id == x;
      }
    }
  }

  function Numbers(disk: map<ClientID, IdemRecord>): map<ClientID, nat> { map id | id in disk :: disk[id].highest }

  function Times(disk: map<ClientID, IdemRecord>): map<ClientID, Time> {
    map id | id in disk :: disk[id].lastSeen * SECOND
  }

  ghost function Part(disk: map<ClientID, IdemRecord>, ids: set<ClientID>): map<ClientID, IdemRecord> {
    map id | id in disk && id in ids :: disk[id]
  }

  lemma LoadOne(highest: map<ClientID, nat>, last: map<ClientID, Time>, disk: map<ClientID, IdemRecord>,
                ids: set<ClientID>, id: ClientID)
    requires id in disk
    ensures (highest + Numbers(Part(disk, ids)))[id := disk[id].highest] == highest + Numbers(Part(disk, ids + {id}))
    ensures (last + Times(Part(disk, ids)))[id := disk[id].lastSeen * SECOND] == last + Times(Part(disk, ids + {id}))
  {
  }

  lemma LoadEnds(highest: map<ClientID, nat>, last: map<ClientID, Time>, disk: map<ClientID, IdemRecord>)
    ensures highest + Numbers(Part(disk, {})) == highest && last + Times(Part(disk, {})) == last
    ensures Part(disk, disk.Keys) == disk
  {
  }

  method Oldest(entries: array<Seen>, i: int) returns (oldest: int)
    requires 0 <= i < entries.Length
    ensures i <= oldest < entries.Length
    ensures forall k :: i <= k < entries.Length ==> entries[oldest].t <= entries[k].t
  {
    oldest := i;
    for j := i + 1 to entries.Length
      invariant i <= oldest < entries.Length
      invariant forall k :: i <= k < j ==> entries[oldest].t <= entries[k].t
    {
      if entries[j].t < entries[oldest].t {
        oldest := j;
      }
    }
  }

  /** The partial selection sort: only the entries to evict are put in place. */
  method SelectOldest(entries: array<Seen>, count: int, ghost last: map<ClientID, Time>)
    requires 0 <= count <= entries.Length && IsListing(entries[..], last)
    modifies entries
    ensures IsListing(entries[..], last) && OldestFirst(entries[..], count)
  {
    for i := 0 to count
      invariant IsListing(entries[..], last) && OldestFirst(entries[..], i)
    {
      var oldest := Oldest(entries, i);
      ghost var s := entries[..];
      SwapListing(s, i, oldest, last);
      SwapOldest(s, i, oldest);
      entries[i], entries[oldest] := entries[oldest], entries[i];
      assert entries[..] == s[i := s[oldest]][oldest := s[i]];
    }
  }

  lemma ListingCount(s: seq<Seen>, last: map<ClientID, Time>)
    requires IsListing(s, last)
    ensures |s| == |last|
  {
    IdsCount(s);
    assert Ids(s) == last.Keys;
  }

  /** The least recently seen `count` clients are gone and nothing else has changed. */
  ghost predicate Evicted(before: map<ClientID, Time>, after: map<ClientID, Time>, count: int) {
    && after.Keys <= before.Keys && |after| == |before| - count
    && (forall id :: id in after ==> after[id] == before[id])
    && (forall gone, kept :: gone in before && gone !in after && kept in after ==> before[gone] <= before[kept])
  }

  /** Whoever is still there has the same number as before. */
  ghost predicate KeepsNumbers(before: map<ClientID, nat>, after: map<ClientID, nat>) {
    forall id :: id in after ==> id in before && after[id] == before[id]
  }

  lemma KeepsSome(before: map<ClientID, nat>, gone: set<ClientID>)
    ensures KeepsNumbers(before, before - gone)
    ensures gone == {} ==> before - gone == before
  {
  }

  lemma EvictedFirst(s: seq<Seen>, count: int, before: map<ClientID, Time>, after: map<ClientID, Time>)
    requires IsListing(s, before) && 0 <= count <= |s| && OldestFirst(s, count)
    requires after == before - Ids(s[..count])
    ensures Evicted(before, after, count)
  {
    ListingCount(s, before);
    IdsCount(s[..count]);
    assert after.Keys == before.Keys - Ids(s[..count]);
    assert Ids(s[..count]) <= before.Keys;
    forall gone, kept | gone in before && gone !in after && kept in after ensures before[gone] <= before[kept] {
      var i :| 0 <= i < count && s[..count][i].id == gone;
      var j :| 0 <= j < |s| && s[j].id == kept;
      forall k | 0 <= k < count ensures s[k].id in Ids(s[..count]) { assert s[..count][k].id == s[k].id; }
      assert kept !in Ids(s[..count]);
      assert s[i].t <= s[j].t;
    }
  }

  class IdemCache {
    var highest: map<ClientID, nat>
    var last: map<ClientID, Time>
    var dirty: bool

    ghost predicate Valid() reads this { highest.Keys == last.Keys }

    constructor ()
      ensures Valid() && highest == map[] && last == map[] && !dirty
    {
      highest, last, dirty := map[], map[], false;
    }

    /** Only a number above everything seen so far is accepted. */
    method Accept(client: ClientID, seqno: nat, now: Time) returns (ok: bool)
      requires Valid()
      modifies this
      ensures Valid() && (ok <==> seqno > HighestOf(old(highest), client))
      ensures ok ==> highest == old(highest)[client := seqno] && last == old(last)[client := now] && dirty
      ensures !ok ==> highest == old(highest) && last == old(last) && dirty == old(dirty)
    {
      if seqno <= HighestOf(highest, client) {
        return false;
      }
      highest := highest[client := seqno];
      last := last[client := now];
      dirty := true;
      return true;
    }

    /** The snapshot keeps every number, and times to the second. */
    method Persist() returns (disk: map<ClientID, IdemRecord>)
      requires Valid()
      modifies this`dirty
      ensures !dirty
      ensures disk.Keys == highest.Keys
      ensures forall id :: id in disk ==> disk[id] == IdemRecord(highest[id], ToSeconds(last[id]))
    {
      disk := map id | id in highest :: IdemRecord(highest[id], ToSeconds(last[id]));
      dirty := false;
    }

    method Load(disk: map<ClientID, IdemRecord>)
      requires Valid()
      modifies this`highest, this`last
      ensures Valid()
      ensures highest == old(highest) + Numbers(disk)
      ensures last == old(last) + Times(disk)
    {
      hide Numbers, Times, Part;
      ghost var done: set<ClientID> := {};
      var todo := disk.Keys;
      LoadEnds(highest, last, disk);
      while todo != {}
        invariant Valid() && todo == disk.Keys - done && done <= disk.Keys
        invariant highest == old(highest) + Numbers(Part(disk, done))
        invariant last == old(last) + Times(Part(disk, done))
        decreases todo
      {
        var id :| id in todo;
        LoadOne(old(highest), old(last), disk, done, id);
        highest := highest[id := disk[id].highest];
        last := last[id := disk[id].lastSeen * SECOND];
        todo, done := todo - {id}, done + {id};
      }
      assert done == disk.Keys;
      LoadEnds(highest, last, disk);
    }

    method Entries() returns (entries: array<Seen>)
      ensures fresh(entries) && IsListing(entries[..], last)
    {
      var list: seq<Seen> := [];
      ghost var done: set<ClientID> := {};
      var todo := last.Keys;
      while todo != {}
        invariant todo == last.Keys - done && done <= last.Keys
        invariant IsListing(list, Restrict(last, done))
        decreases todo
      {
        var id :| id in todo;
        ListOne(list, last, done, id);
        list := list + [Seen(id, last[id])];
        todo, done := todo - {id}, done + {id};
      }
      assert last == Restrict(last, done);
      entries := new Seen[|list|](i requires 0 <= i < |list| => list[i]);
      assert entries[..] == list;
    }

    method Evict(entries: array<Seen>, count: int)
      requires Valid() && 0 <= count <= entries.Length
      modifies this`highest, this`last
      ensures Valid() && last == old(last) - Ids(entries[..count]) && highest == old(highest) - Ids(entries[..count])
    {
      for i := 0 to count
        invariant Valid() && last == old(last) - Ids(entries[..i]) && highest == old(highest) - Ids(entries[..i])
      {
        var id := entries[i].id;
        IdsOneMore(entries[..], i);
        highest := highest - {id};
        last := last - {id};
      }
    }

    /** Put the oldest entries in front and delete those. */
    method EvictOldest(count: int)
      requires Valid() && 0 <= count <= |last|
      modifies this`highest, this`last
      ensures Valid() && Evicted(old(last), last, count) && KeepsNumbers(old(highest), highest)
    {
      hide IsListing, OldestFirst, Evicted, Ids, KeepsNumbers;
      var entries := Entries();
      ListingCount(entries[..], last);
      SelectOldest(entries, count, last);
      ListingCount(entries[..], last);
      assert entries[..][..count] == entries[..count];
      ghost var gone := Ids(entries[..count]);
      EvictedFirst(entries[..], count, last, last - gone);
      KeepsSome(highest, gone);
      Evict(entries, count);
    }

    /** Keep at most n entries, evicting the least recently seen. */
    method CapEntries(n: nat)
      requires Valid()
      modifies this
      ensures Valid() && KeepsNumbers(old(highest), highest)
      ensures |old(highest)| <= n ==> highest == old(highest) && last == old(last) && dirty == old(dirty)
      ensures |old(highest)| > n ==> Evicted(old(last), last, |old(highest)| - n) && |highest| == n && dirty
    {
      assert |highest| == |highest.Keys| == |last.Keys| == |last|;
      if |highest| <= n {
        return;
      }
      EvictOldest(|last| - n);
      assert |highest| == |highest.Keys| == |last.Keys| == |last|;
      dirty := true;
    }

    /** Drop every client not heard from since the cutoff. */
    method Prune(threshold: Time, now: Time)
      requires Valid()
      modifies this`highest, this`last
      ensures Valid()
      ensures forall id :: id in last <==> id in old(last) && old(last)[id] >= now - threshold
      ensures forall id :: id in last ==> last[id] == old(last)[id] && highest[id] == old(highest)[id]
    {
      var cutoff := now - threshold;
      var todo := last.Keys;
      while todo != {}
        invariant Valid() && todo <= last.Keys
        invariant forall id :: id in last <==> id in old(last) && (id in todo || old(last)[id] >= cutoff)
        invariant forall id :: id in last ==> last[id] == old(last)[id] && highest[id] == old(highest)[id]
        decreases todo
      {
        var id :| id in todo;
        if last[id] < cutoff {
          highest := highest - {id};
          last := last - {id};
        }
        todo := todo - {id};
      }
    }
  }

  /** A restart gives back every number; times come back cut to whole seconds. */
  method Restart(cache: IdemCache) returns (fresh': IdemCache)
    requires cache.Valid()
    modifies cache`dirty
    ensures fresh(fresh') && fresh'.Valid() && fresh'.highest == cache.highest && fresh'.last.Keys == cache.last.Keys
    ensures forall id :: id in cache.last ==> 0 <= cache.last[id] - fresh'.last[id] < SECOND
    ensures forall a, b :: a in cache.last && b in cache.last && cache.last[a] <= cache.last[b]
              ==> fresh'.last[a] <= fresh'.last[b]
  {
    var disk := cache.Persist();
    fresh' := new IdemCache();
    fresh'.Load(disk);
  }
}
