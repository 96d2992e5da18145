/** Moving local files out of the way of a bootstrap. */
module Collision {
  import opened Wrappers
  import opened Protocol
  import opened Paths

  // ----- the name search -----

  /** No slash may come in with the keyname. */
  function Sanitized(keyname: string): (r: string)
    ensures |r| == |keyname| && forall i :: 0 <= i < |r| ==> r[i] != '/'
  {
    seq(|keyname|, i requires 0 <= i < |keyname| => if keyname[i] == '/' then '-' else keyname[i])
  }

  function Suffix(i: nat): string { if i == 0 then "" else "." + Decimal(i) }

  /** The i-th name tried: the keyname, and from the second on a number, go before the extension. */
  function Candidate(path: Path, keyname: string, i: nat): Path {
    Dir(path) + (NewStem(path, keyname) + Suffix(i) + Ext(Base(path)))
  }

  function NewStem(path: Path, keyname: string): string { Stem(Base(path)) + "." + Sanitized(keyname) }

  lemma CandidatesDiffer(path: Path, keyname: string, i: nat, j: nat)
    requires Candidate(path, keyname, i) == Candidate(path, keyname, j)
    ensures i == j
  {
    SameMiddle(Dir(path), NewStem(path, keyname), Suffix(i), Suffix(j), Ext(Base(path)));
    SuffixInjective(i, j);
  }

  /** Different clients try different names, up to slashes in their keynames. */
  lemma KeynamesDiffer(path: Path, a: string, b: string, i: nat)
    requires Candidate(path, a, i) == Candidate(path, b, i)
    ensures Sanitized(a) == Sanitized(b)
  {
    var d, s, tail := Dir(path), Stem(Base(path)) + ".", Suffix(i) + Ext(Base(path));
    hide Dir, Stem, Base, Ext, Suffix, Sanitized;
    var x, y := Sanitized(a), Sanitized(b);
    assert Candidate(path, a, i) == d + (s + x + tail) && Candidate(path, b, i) == d + (s + y + tail);
    SameMiddle(d, s, x, y, tail);
  }

  lemma SameMiddle(d: string, s: string, a: string, b: string, e: string)
    requires d + (s + a + e) == d + (s + b + e)
    ensures a == b
  {
    var x, y := d + (s + a + e), d + (s + b + e);
    assert |x| == |y|;
    assert a == x[|d| + |s|..|d| + |s| + |a|] && b == y[|d| + |s|..|d| + |s| + |b|];
  }

  lemma SuffixInjective(i: nat, j: nat)
    requires Suffix(i) == Suffix(j)
    ensures i == j
  {
    if i > 0 && j > 0 {
      assert Decimal(i) == Suffix(i)[1..] && Decimal(j) == Suffix(j)[1..];
      DecimalInjective(i, j);
    }
  }

  lemma NewStemHasNoSlash(path: Path, keyname: string)
    ensures !Has(NewStem(path, keyname), '/') && !Has(Ext(Base(path)), '/')
    ensures |NewStem(path, keyname)| > |Stem(Base(path))|
  {
    DirIsDir(path);
    ExtShape(Base(path));
    NoSlashParts(Stem(Base(path)), Ext(Base(path)));
    NoSlash(Stem(Base(path)), ".");
    NoSlash(Stem(Base(path)) + ".", Sanitized(keyname));
  }

  lemma NoSlashParts(a: string, b: string)
    requires !Has(a + b, '/')
    ensures !Has(a, '/') && !Has(b, '/')
  {
    forall i | 0 <= i < |a| ensures a[i] != '/' { assert (a + b)[i] == a[i]; }
    forall i | 0 <= i < |b| ensures b[i] != '/' { assert (a + b)[|a| + i] == b[i]; }
  }

  /** A candidate stays in the directory and keeps a present extension. */
  lemma CandidateIsSibling(path: Path, keyname: string, i: nat)
    ensures Dir(Candidate(path, keyname, i)) == Dir(path)
    ensures Ext(Base(path)) != "" ==> Ext(Base(Candidate(path, keyname, i))) == Ext(Base(path))
    ensures Candidate(path, keyname, i) != path
  {
    hide Dir, Base, Ext, Stem, Has, IsDir, NewStem, Suffix;
    var s, e := NewStem(path, keyname) + Suffix(i), Ext(Base(path));
    NewStemHasNoSlash(path, keyname);
    NumberHasNoSlash(i);
    NoSlash(NewStem(path, keyname), Suffix(i));
    NoSlash(s, e);
    DirIsDir(path);
    SplitJoin(Dir(path), s + e);
    ExtShape(Base(path));
    if e != "" { ExtJoin(s, e); }
    assert |Candidate(path, keyname, i)| > |Dir(path)| + |Stem(Base(path)) + e| == |path|;
  }

  lemma NumberHasNoSlash(i: nat)
    ensures !Has(Suffix(i), '/')
  {
    DecimalHasNoSlash(i);
    NoSlash(".", Decimal(i));
  }

  ghost predicate AllTaken(path: Path, keyname: string, n: nat, existing: set<Path>) {
    forall i :: 0 <= i < n ==> Candidate(path, keyname, i) in existing
  }

  ghost function Tried(path: Path, keyname: string, n: nat): set<Path> {
    set i | 0 <= i < n :: Candidate(path, keyname, i)
  }

  /** Each candidate found taken uses up one more of the taken names. */
  lemma OneFewer(path: Path, keyname: string, n: nat, existing: set<Path>)
    requires AllTaken(path, keyname, n + 1, existing)
    ensures |existing - Tried(path, keyname, n + 1)| < |existing - Tried(path, keyname, n)|
  {
    hide Candidate;
    var c := Candidate(path, keyname, n);
    forall i | 0 <= i < n ensures Candidate(path, keyname, i) != c {
      if Candidate(path, keyname, i) == c { CandidatesDiffer(path, keyname, i, n); }
    }
    assert c in existing - Tried(path, keyname, n);
    assert existing - Tried(path, keyname, n + 1) == existing - Tried(path, keyname, n) - {c};
  }

  lemma OneMoreTaken(path: Path, keyname: string, n: nat, existing: set<Path>)
    ensures AllTaken(path, keyname, 0, existing)
    ensures AllTaken(path, keyname, n, existing) && Candidate(path, keyname, n) in existing ==>
      AllTaken(path, keyname, n + 1, existing)
  {
    hide Candidate;
  }

  /** `RenameForCollision`: the search has no bound, yet ends, because only finitely many names are
      taken. It returns the first candidate that is not. */
  method RenameForCollision(path: Path, keyname: string, existing: set<Path>) returns (r: Path, ghost n: nat)
    requires path != "" && keyname != ""
    ensures r == Candidate(path, keyname, n) && r !in existing
    ensures AllTaken(path, keyname, n, existing)
  {
    hide Candidate, AllTaken, Tried;
    r, n := Candidate(path, keyname, 0), 0;
    OneMoreTaken(path, keyname, 0, existing);
    if r !in existing {
      return;
    }
    var i := 1;
    while true
      invariant i >= 1 && AllTaken(path, keyname, i, existing)
      decreases |existing - Tried(path, keyname, i)|
    {
      r, n := Candidate(path, keyname, i), i;
      if r !in existing {
        return;
      }
      OneMoreTaken(path, keyname, i, existing);
      OneFewer(path, keyname, i, existing);
      i := i + 1;
    }
  }

  // ----- renaming staged writes before a bootstrap is applied -----

  ghost predicate StagedAt(snap: seq<StagedOp>, i: int, p: Path) {
    0 <= i < |snap| && snap[i].op.ty.OpWrite? && snap[i].op.path == p
  }

  /** Each path is written at most once. */
  ghost predicate DistinctStaged(snap: seq<StagedOp>) {
    forall i, j, p :: StagedAt(snap, i, p) && StagedAt(snap, j, p) ==> i == j
  }

  /** The staged write of s and the incoming write of op want different content at one path. */
  predicate Collides(s: StagedOp, op: Op) {
    s.op.ty.OpWrite? && op.ty.OpWrite? && s.op.path == op.path && HashOf(Payload(s.op)) != HashOf(Payload(op))
  }

  /** Only the path and the pre-hash of an op may change, and only both together. */
  ghost predicate OnlyMoved(was: StagedOp, now: StagedOp) {
    now == was || now == was.(op := was.op.(path := now.op.path, preHash := None))
  }

  ghost function ServerPaths(ops: seq<Op>): set<Path> { set i | 0 <= i < |ops| && ops[i].ty.OpWrite? :: ops[i].path }

  ghost function StagedPaths(snap: seq<StagedOp>): set<Path> {
    set i | 0 <= i < |snap| && snap[i].op.ty.OpWrite? :: snap[i].op.path
  }

  method PathsOfWrites(ops: seq<Op>) returns (r: set<Path>)
    ensures r == ServerPaths(ops)
  {
    r := {};
    for i := 0 to |ops|
      invariant r == set k | 0 <= k < i && ops[k].ty.OpWrite? :: ops[k].path
    {
      if ops[i].ty.OpWrite? {
        r := r + {ops[i].path};
      }
    }
  }

  method PathsOfStaged(snap: seq<StagedOp>) returns (r: set<Path>)
    ensures r == StagedPaths(snap)
  {
    r := {};
    for i := 0 to |snap|
      invariant r == set k | 0 <= k < i && snap[k].op.ty.OpWrite? :: snap[k].op.path
    {
      if snap[i].op.ty.OpWrite? {
        r := r + {snap[i].op.path};
      }
    }
  }

  method FindStaged(snap: seq<StagedOp>, p: Path) returns (at: Option<nat>)
    ensures at.None? ==> forall i :: !StagedAt(snap, i, p)
    ensures at.Some? ==> StagedAt(snap, at.value, p)
  {
    for i := 0 to |snap|
      invariant forall k :: 0 <= k < i ==> !StagedAt(snap, k, p)
    {
      if snap[i].op.ty.OpWrite? && snap[i].op.path == p {
        return Some(i);
      }
    }
    return None;
  }

  /** A name this run made, new to the server and to the staged log. */
  ghost predicate IsFresh(p: Path, ops: seq<Op>, was: seq<StagedOp>, taken: set<Path>) {
    p in taken && p !in ServerPaths(ops) && p !in StagedPaths(was)
  }

  /** What has been achieved once the first n bootstrap ops are dealt with. */
  ghost predicate Settled(ops: seq<Op>, n: int, was: seq<StagedOp>, now: seq<StagedOp>, taken: set<Path>) {
    && 0 <= n <= |ops| && |now| == |was|
    && (forall i :: 0 <= i < |was| ==> OnlyMoved(was[i], now[i]))
    && DistinctStaged(now)
    && taken >= ServerPaths(ops)
    && (forall i :: 0 <= i < |was| && now[i] != was[i] ==> IsFresh(now[i].op.path, ops, was, taken))
    && (forall i :: 0 <= i < |was| && now[i] != was[i] ==> exists k :: 0 <= k < n && Collides(was[i], ops[k]))
    && (forall i, k :: 0 <= i < |was| && 0 <= k < n ==> !Collides(now[i], ops[k]))
  }

  lemma SettledStart(ops: seq<Op>, snap: seq<StagedOp>)
    requires DistinctStaged(snap)
    ensures Settled(ops, 0, snap, snap, ServerPaths(ops))
  {
  }

  /** No staged write collides with the next bootstrap op. */
  lemma SettledSkip(ops: seq<Op>, n: int, was: seq<StagedOp>, now: seq<StagedOp>, taken: set<Path>)
    requires Settled(ops, n, was, now, taken) && n < |ops|
    requires forall i :: 0 <= i < |now| ==> !Collides(now[i], ops[n])
    ensures Settled(ops, n + 1, was, now, taken)
  {
  }

  function Moved(s: StagedOp, p: Path): StagedOp { s.(op := s.op.(path := p, preHash := None)) }

  lemma StillDistinct(now: seq<StagedOp>, at: int, fresh': Path)
    requires DistinctStaged(now) && 0 <= at < |now| && now[at].op.ty.OpWrite? && fresh' !in StagedPaths(now)
    ensures DistinctStaged(now[at := Moved(now[at], fresh')])
  {
    var next := now[at := Moved(now[at], fresh')];
    forall i, j, p | StagedAt(next, i, p) && StagedAt(next, j, p) ensures i == j {
      if i != at { assert StagedAt(now, i, p); assert next[i].op.path in StagedPaths(now); }
      if j != at { assert StagedAt(now, j, p); assert next[j].op.path in StagedPaths(now); }
    }
  }

  /** The staged write at `at` collides with the next bootstrap op and moves to a fresh name. */
  lemma SettledMove(ops: seq<Op>, n: int, was: seq<StagedOp>, now: seq<StagedOp>, taken: set<Path>, at: int,
                    fresh': Path)
    requires Settled(ops, n, was, now, taken) && n < |ops| && 0 <= at < |now| && Collides(now[at], ops[n])
    requires DistinctStaged(was)
    requires fresh' !in taken && fresh' !in StagedPaths(now)
    ensures Settled(ops, n + 1, was, now[at := Moved(now[at], fresh')], taken + {fresh'})
  {
    var next := now[at := Moved(now[at], fresh')];
    StillDistinct(now, at, fresh');
    StartsUnmoved(ops, n, was, now, taken, at);
    NotStagedBefore(ops, n, was, now, taken, fresh');
    forall i, k | 0 <= i < |was| && 0 <= k < n + 1 ensures !Collides(next[i], ops[k]) {
      if i == at {
        if ops[k].ty.OpWrite? { assert ops[k].path in ServerPaths(ops); }
      } else if k == n {
        if StagedAt(now, i, ops[n].path) { assert StagedAt(now, at, ops[n].path); }
      }
    }
    forall i | 0 <= i < |was| && next[i] != was[i] ensures exists k :: 0 <= k < n + 1 && Collides(was[i], ops[k]) {
      if i == at { assert Collides(was[at], ops[n]); }
    }
  }

  /** An entry that collides with a bootstrap write has not been moved yet. */
  lemma StartsUnmoved(ops: seq<Op>, n: int, was: seq<StagedOp>, now: seq<StagedOp>, taken: set<Path>, at: int)
    requires Settled(ops, n, was, now, taken) && n < |ops| && 0 <= at < |now| && Collides(now[at], ops[n])
    ensures now[at] == was[at]
  {
    assert ops[n].path in ServerPaths(ops);
  }

  lemma NotStagedBefore(ops: seq<Op>, n: int, was: seq<StagedOp>, now: seq<StagedOp>, taken: set<Path>, fresh': Path)
    requires Settled(ops, n, was, now, taken) && fresh' !in taken && fresh' !in StagedPaths(now)
    ensures fresh' !in StagedPaths(was)
  {
    forall i | 0 <= i < |was| && was[i].op.ty.OpWrite? ensures was[i].op.path != fresh' {
      if now[i] != was[i] {
        var k :| 0 <= k < n && Collides(was[i], ops[k]);
        assert ops[k].path in ServerPaths(ops);
      } else {
        assert now[i].op.path in StagedPaths(now);
      }
    }
  }

  /** `renameCollidingStagedOnBootstrap`: afterwards no staged write collides with a bootstrap write;
      moved ops got fresh names, nothing else about any op or their order changed, and only ops that
      did collide were moved. */
  method RenameColliding(ops: seq<Op>, snap: seq<StagedOp>, keyname: string)
    returns (out: seq<StagedOp>, ghost taken: set<Path>)
    requires DistinctStaged(snap)
    requires forall i :: 0 <= i < |ops| && ops[i].ty.OpWrite? ==> ops[i].path != ""
    ensures keyname == "" ==> out == snap
    ensures keyname != "" ==> Settled(ops, |ops|, snap, out, taken)
  {
    out := snap;
    var serverPaths := PathsOfWrites(ops);
    taken := serverPaths;
    if keyname == "" {
      return;
    }
    SettledStart(ops, snap);
    for n := 0 to |ops|
      invariant Settled(ops, n, snap, out, serverPaths)
    {
      var op := ops[n];
      if !op.ty.OpWrite? {
        SettledSkip(ops, n, snap, out, serverPaths);
        continue;
      }
      var local := FindStaged(out, op.path);
      OnlyOne(out, op, local);
      if local.None? || HashOf(Payload(op)) == HashOf(Payload(out[local.value].op)) {
        SettledSkip(ops, n, snap, out, serverPaths);
        continue;
      }
      var stagedPaths := PathsOfStaged(out);
      var newPath, _ := RenameForCollision(op.path, keyname, serverPaths + stagedPaths);
      SettledMove(ops, n, snap, out, serverPaths, local.value, newPath);
      out := out[local.value := Moved(out[local.value], newPath)];
      serverPaths := serverPaths + {newPath};
    }
    taken := serverPaths;
  }

  lemma OnlyOne(snap: seq<StagedOp>, op: Op, local: Option<nat>)
    requires DistinctStaged(snap) && op.ty.OpWrite?
    requires local.None? ==> forall i :: !StagedAt(snap, i, op.path)
    requires local.Some? ==> StagedAt(snap, local.value, op.path)
    ensures forall i :: 0 <= i < |snap| && Collides(snap[i], op) ==> local == Some(i)
  {
    forall i | 0 <= i < |snap| && Collides(snap[i], op) ensures local == Some(i) {
      assert StagedAt(snap, i, op.path);
    }
  }

  /** What Settled comes to for the caller. */
  lemma SettledMeans(ops: seq<Op>, was: seq<StagedOp>, now: seq<StagedOp>, taken: set<Path>)
    requires Settled(ops, |ops|, was, now, taken)
    ensures |now| == |was| && DistinctStaged(now)
    ensures forall i :: 0 <= i < |was| ==>
      now[i].op.seqno == was[i].op.seqno && now[i].op.data == was[i].op.data && now[i].frozen == was[i].frozen
    ensures forall i, k :: 0 <= i < |was| && 0 <= k < |ops| ==> !Collides(now[i], ops[k])
    ensures forall i :: 0 <= i < |was| ==>
      (now[i] != was[i] <==> exists k :: 0 <= k < |ops| && Collides(was[i], ops[k]))
  {
    forall i | 0 <= i < |was| && now[i] == was[i] ensures !exists k :: 0 <= k < |ops| && Collides(was[i], ops[k]) {
      forall k | 0 <= k < |ops| ensures !Collides(was[i], ops[k]) { assert !Collides(now[i], ops[k]); }
    }
  }
}
