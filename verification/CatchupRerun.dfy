/** A whole catchup applied twice: nothing changes the second time exactly when no single op changes anything. */
module CatchupReruns {
  import opened Wrappers
  import opened Sorting
  import opened Protocol
  import opened Paths
  import opened Classification
  import opened ClientLogs
  import opened Rebasing
  import opened Merging
  import opened Reruns

  // ----- the stores, path by path -----

  datatype Slot = Slot(disk: Option<Content>, base: Option<Content>, row: Option<Hash>)

  function Get<V>(m: map<Path, V>, p: Path): Option<V> { if p in m then Some(m[p]) else None }

  function SlotAt(l: Local, p: Path): Slot { Slot(Get(l.disk, p), Get(l.base, p), Get(l.manifest, p)) }

  lemma SameMap<V>(m: map<Path, V>, n: map<Path, V>)
    requires forall p :: Get(m, p) == Get(n, p)
    ensures m == n
  {
    forall p ensures (p in m <==> p in n) && (p in m ==> m[p] == n[p]) { assert Get(m, p) == Get(n, p); }
  }

  lemma SameLocal(l: Local, m: Local)
    requires forall p :: SlotAt(l, p) == SlotAt(m, p)
    ensures l == m
  {
    forall p ensures Get(l.disk, p) == Get(m.disk, p) && Get(l.base, p) == Get(m.base, p)
                  && Get(l.manifest, p) == Get(m.manifest, p)
    {
      assert SlotAt(l, p) == SlotAt(m, p);
    }
    SameMap(l.disk, m.disk);
    SameMap(l.base, m.base);
    SameMap(l.manifest, m.manifest);
  }

  /** The decision acts on the op's path and its sidecar only. */
  ghost predicate StaysHome(op: Op, d: Decision) {
    WriteOrDelete(op) && !d.action.ActionApplyRename? && (d.action.ActionWriteSidecar? ==> PlacedAt(d.sidecarPath, op))
  }

  lemma AppliedElsewhere(l: Local, op: Op, d: Decision, q: Path)
    requires StaysHome(op, d) && !PlacedAt(q, op)
    ensures SlotAt(Applied(l, op, d), q) == SlotAt(l, q)
  {
    hide SidecarPath;
  }

  lemma PutsLocal(l: Local, m: Local, op: Op, d: Decision, q: Path)
    requires WriteOrDelete(op) && SlotAt(l, q) == SlotAt(m, q)
    ensures SlotAt(PutServer(l, op), q) == SlotAt(PutServer(m, op), q)
    ensures SlotAt(PutSidecar(l, d), q) == SlotAt(PutSidecar(m, d), q)
  {
  }

  lemma DiskLocal(l: Local, m: Local, p: Path, c: Content, q: Path)
    requires SlotAt(l, q) == SlotAt(m, q)
    ensures SlotAt(l.(disk := l.disk[p := c]), q) == SlotAt(m.(disk := m.disk[p := c]), q)
    ensures SlotAt(l.(disk := l.disk - {p}), q) == SlotAt(m.(disk := m.disk - {p}), q)
    ensures SlotAt(Local(l.disk - {p}, l.base - {p}, l.manifest - {p}), q)
         == SlotAt(Local(m.disk - {p}, m.base - {p}, m.manifest - {p}), q)
    ensures SlotAt(Local(l.disk[p := c], l.base[p := c], l.manifest[p := HashOf(c)]), q)
         == SlotAt(Local(m.disk[p := c], m.base[p := c], m.manifest[p := HashOf(c)]), q)
  {
  }

  /** What it does on a path depends on that path alone. */
  lemma AppliedLocal(l: Local, m: Local, op: Op, d: Decision, q: Path)
    requires StaysHome(op, d) && SlotAt(l, q) == SlotAt(m, q)
    ensures SlotAt(Applied(l, op, d), q) == SlotAt(Applied(m, op, d), q)
  {
    hide SidecarPath, PlacedAt, PutServer, PutSidecar, SlotAt;
    var p, c := PrimaryPath(op), Bytes(d.content);
    DiskLocal(l, m, p, c, q);
    match d.action {
      case ActionAutoMerge => PutsLocal(l.(disk := l.disk[p := c]), m.(disk := m.disk[p := c]), op, d, q);
      case ActionWriteConflict => PutsLocal(l.(disk := l.disk[p := c]), m.(disk := m.disk[p := c]), op, d, q);
      case ActionWriteSidecar =>
        PutsLocal(l, m, op, d, q);
        PutsLocal(PutSidecar(l, d), PutSidecar(m, d), op, d, q);
        DiskLocal(PutServer(PutSidecar(l, d), op), PutServer(PutSidecar(m, d), op), p, c, q);
      case _ =>
    }
  }

  // ----- catchups -----

  /** Writes and deletes, one a path, none ignored, whose paths and sidecar names are all different. */
  ghost predicate SeparateOps(ops: seq<Op>, env: Env) {
    && CleanCatchup(ops, map[], env)
    && forall i, j, q :: 0 <= i < j < |ops| && PlacedAt(q, ops[i]) ==> !PlacedAt(q, ops[j])
  }

  /** What the i-th op meets in the staged log. */
  function Met(ops: seq<Op>, i: nat, staged: seq<StagedOp>): Option<Op>
    requires i < |ops|
  {
    StagedAt(staged, PrimaryPath(ops[i]))
  }

  /** The i-th op's decision, taken on the stores as they were before the catchup. */
  function Own(l: Local, ops: seq<Op>, i: nat, staged: seq<StagedOp>, env: Env): Decision
    requires i < |ops|
  {
    Classify(ops[i], Met(ops, i, staged), ContextFor(env, l, ops[i]))
  }

  lemma OpFacts(ops: seq<Op>, env: Env, i: nat)
    requires SeparateOps(ops, env) && i < |ops|
    ensures ValidateOp(ops[i]) && WriteOrDelete(ops[i]) && PrimaryPath(ops[i]) == ops[i].path == TargetPath(ops[i])
    ensures !env.excluded(ops[i].path) && SidecarPath(ops[i].path, Stamp(ops[i])) != ops[i].path
  {
    assert SidecarFree(ops[i], map[], env) && SidecarClear(ops[i], ops[i]);
    hide SidecarPath, Stamp;
  }

  lemma MetFacts(ops: seq<Op>, i: nat, staged: seq<StagedOp>, env: Env)
    requires SeparateOps(ops, env) && OrderedLog(staged) && i < |ops|
    ensures var s := Met(ops, i, staged);
            s.Some? ==> ValidateOp(s.value) && WriteOrDelete(s.value) && s.value.path == ops[i].path
  {
    OpFacts(ops, env, i);
    StagedAtIs(staged, ops[i].path);
  }

  lemma OwnStaysHome(l: Local, ops: seq<Op>, i: nat, staged: seq<StagedOp>, env: Env)
    requires SeparateOps(ops, env) && OrderedLog(staged) && i < |ops|
    ensures StaysHome(ops[i], Own(l, ops, i, staged, env))
  {
    OpFacts(ops, env, i);
    MetFacts(ops, i, staged, env);
    DecisionShape(ops[i], Met(ops, i, staged), ContextFor(env, l, ops[i]));
    hide Classify, SidecarPath;
  }

  lemma SameContext(l: Local, m: Local, op: Op, env: Env)
    requires SlotAt(l, PrimaryPath(op)) == SlotAt(m, PrimaryPath(op))
    ensures ContextFor(env, l, op) == ContextFor(env, m, op)
  {
    var p := PrimaryPath(op);
    assert Get(l.base, p) == Get(m.base, p);
  }

  /** After the first n ops a path one of them is placed at is as that op alone leaves it; any other path
      is as it was. */
  ghost predicate PassedAt(l: Local, ops: seq<Op>, n: nat, staged: seq<StagedOp>, env: Env, q: Path)
    requires n <= |ops|
  {
    var now := SlotAt(PassAll(l, ops[..n], staged, env).local, q);
    && (forall i: nat :: i < n && PlacedAt(q, ops[i]) ==>
          now == SlotAt(Applied(l, ops[i], Own(l, ops, i, staged, env)), q))
    && ((forall i: nat :: i < n ==> !PlacedAt(q, ops[i])) ==> now == SlotAt(l, q))
  }

  lemma {:induction false} PassAt(l: Local, ops: seq<Op>, n: nat, staged: seq<StagedOp>, env: Env, q: Path)
    requires SeparateOps(ops, env) && OrderedLog(staged) && n <= |ops|
    ensures PassedAt(l, ops, n, staged, env, q)
    decreases n
  {
    hide SeparateOps, OrderedLog, PassedAt, Own, Decide, PassAll;
    if n == 0 {
      NothingPassed(l, ops, staged, env, q);
    } else {
      PassAt(l, ops, n - 1, staged, env, ops[n - 1].path);
      PassAt(l, ops, n - 1, staged, env, q);
      DecidesOwn(l, ops, n - 1, staged, env);
      PassAtStep(l, ops, n - 1, staged, env, q);
    }
  }

  lemma NothingPassed(l: Local, ops: seq<Op>, staged: seq<StagedOp>, env: Env, q: Path)
    ensures PassedAt(l, ops, 0, staged, env, q)
  {
    assert ops[..0] == [];
  }

  lemma PassAtStep(l: Local, ops: seq<Op>, m: nat, staged: seq<StagedOp>, env: Env, q: Path)
    requires SeparateOps(ops, env) && OrderedLog(staged) && m < |ops| && PassedAt(l, ops, m, staged, env, q)
    requires Decide(PassAll(l, ops[..m], staged, env), ops[m], staged, env) == Own(l, ops, m, staged, env)
    ensures PassedAt(l, ops, m + 1, staged, env, q)
  {
    hide Own, SeparateOps, OrderedLog, Applied, PassAll, ContextFor, SlotAt, StaysHome, PlacedAt, Decide;
    var before, d := PassAll(l, ops[..m], staged, env).local, Own(l, ops, m, staged, env);
    OwnStaysHome(l, ops, m, staged, env);
    PassOne(l, ops, m, staged, env);
    if PlacedAt(q, ops[m]) {
      NotEarlier(ops, env, m, q);
      AppliedLocal(l, before, ops[m], d, q);
    } else {
      AppliedElsewhere(before, ops[m], d, q);
    }
  }

  lemma NotEarlier(ops: seq<Op>, env: Env, m: nat, q: Path)
    requires SeparateOps(ops, env) && m < |ops| && PlacedAt(q, ops[m])
    ensures forall i: nat :: i < m ==> !PlacedAt(q, ops[i])
  {
    hide PlacedAt, CleanCatchup;
  }

  /** The op is decided as it would be alone. */
  lemma DecidesOwn(l: Local, ops: seq<Op>, m: nat, staged: seq<StagedOp>, env: Env)
    requires SeparateOps(ops, env) && m < |ops| && PassedAt(l, ops, m, staged, env, ops[m].path)
    ensures Decide(PassAll(l, ops[..m], staged, env), ops[m], staged, env) == Own(l, ops, m, staged, env)
  {
    OpFacts(ops, env, m);
    assert PlacedAt(ops[m].path, ops[m]);
    hide Classify, PlacedAt, PassAll, SidecarPath, SlotAt, ContextFor;
    NotEarlier(ops, env, m, ops[m].path);
    SameContext(PassAll(l, ops[..m], staged, env).local, l, ops[m], env);
  }

  lemma PassOne(l: Local, ops: seq<Op>, m: nat, staged: seq<StagedOp>, env: Env)
    requires SeparateOps(ops, env) && m < |ops|
    requires Decide(PassAll(l, ops[..m], staged, env), ops[m], staged, env) == Own(l, ops, m, staged, env)
    ensures var p, d := PassAll(l, ops[..m], staged, env), Own(l, ops, m, staged, env);
            PassAll(l, ops[..m + 1], staged, env) ==
              Pass(Applied(p.local, ops[m], d),
                   if d.replacement.Some? then p.kept + [StagedOp(d.replacement.value, env.freeze)] else p.kept)
  {
    hide Own, Applied, Decide, SeparateOps, SidecarPath;
    OpFacts(ops, env, m);
    assert ops[..m + 1][..m] == ops[..m];
  }

  // ----- what is kept -----

  /** The i-th op's survivor. */
  ghost predicate Survivor(l: Local, ops: seq<Op>, i: int, staged: seq<StagedOp>, env: Env, x: StagedOp)
    requires 0 <= i < |ops|
  {
    var r := Own(l, ops, i, staged, env).replacement;
    r.Some? && x == StagedOp(r.value, env.freeze)
  }

  /** Some op of the first n has it for its survivor. */
  ghost predicate SomeSurvivor(l: Local, ops: seq<Op>, n: nat, staged: seq<StagedOp>, env: Env, x: StagedOp)
    requires n <= |ops|
  {
    exists i :: 0 <= i < n && Survivor(l, ops, i, staged, env, x)
  }

  lemma OneMoreKept(l: Local, ops: seq<Op>, m: nat, staged: seq<StagedOp>, env: Env, x: StagedOp)
    requires m < |ops|
    ensures SomeSurvivor(l, ops, m + 1, staged, env, x) <==>
            SomeSurvivor(l, ops, m, staged, env, x) || Survivor(l, ops, m, staged, env, x)
  {
    hide Survivor;
  }

  lemma PassIs(l: Local, ops: seq<Op>, m: nat, staged: seq<StagedOp>, env: Env)
    requires SeparateOps(ops, env) && OrderedLog(staged) && m < |ops|
    ensures var r := Own(l, ops, m, staged, env).replacement;
            PassAll(l, ops[..m + 1], staged, env).kept ==
              PassAll(l, ops[..m], staged, env).kept + (if r.Some? then [StagedOp(r.value, env.freeze)] else [])
  {
    hide PassAll, Own, Applied, SeparateOps, OrderedLog, PassedAt;
    PassAt(l, ops, m, staged, env, ops[m].path);
    DecidesOwn(l, ops, m, staged, env);
    PassOne(l, ops, m, staged, env);
  }

  lemma {:induction false} KeptIs(l: Local, ops: seq<Op>, n: nat, staged: seq<StagedOp>, env: Env, x: StagedOp)
    requires SeparateOps(ops, env) && OrderedLog(staged) && n <= |ops|
    ensures x in PassAll(l, ops[..n], staged, env).kept <==> SomeSurvivor(l, ops, n, staged, env, x)
    decreases n
  {
    hide Own, Applied, SeparateOps, OrderedLog, SomeSurvivor;
    if n == 0 {
      assert ops[..0] == [];
      assert !SomeSurvivor(l, ops, 0, staged, env, x) by { NoSurvivorYet(l, ops, staged, env, x); }
    } else {
      hide PassAll;
      KeptIs(l, ops, n - 1, staged, env, x);
      PassIs(l, ops, n - 1, staged, env);
      OneMoreKept(l, ops, n - 1, staged, env, x);
    }
  }

  lemma NoSurvivorYet(l: Local, ops: seq<Op>, staged: seq<StagedOp>, env: Env, x: StagedOp)
    ensures !SomeSurvivor(l, ops, 0, staged, env, x)
  {
  }

  // ----- the staged log afterwards -----

  lemma RebasedIs(l: Local, ops: seq<Op>, staged: seq<StagedOp>, env: Env, x: StagedOp)
    requires SeparateOps(ops, env) && OrderedLog(staged)
    ensures x in Rebased(l, ops, staged, env) <==>
      SomeSurvivor(l, ops, |ops|, staged, env, x) || (x in staged && !TouchedKey(ops, env, PrimaryPath(x.op)))
  {
    hide PassAll, SomeSurvivor, TouchedKey, PrimaryPath, Untouched, StableSort, SeparateOps, OrderedLog;
    assert ops[..|ops|] == ops;
    KeptIs(l, ops, |ops|, staged, env, x);
    UntouchedIs(staged, ops, env, x);
    SortedHas(PassAll(l, ops, staged, env).kept + Untouched(staged, ops, env), x);
  }

  lemma RebasedOrdered(l: Local, ops: seq<Op>, staged: seq<StagedOp>, env: Env)
    requires SeparateOps(ops, env) && OrderedLog(staged)
    ensures OrderedLog(Rebased(l, ops, staged, env))
  {
    var kept, rest := PassAll(l, ops, staged, env).kept, Untouched(staged, ops, env);
    var r := Rebased(l, ops, staged, env);
    var a, b := AllSources(l, ops, staged, map[], env);
    CameFromDistinct(kept + rest, a + b, staged);
    SortDistinct(kept + rest);
    hide StableSort, CleanCatchup, PassAll, Untouched, CameFrom, TouchedKey;
    forall i | 0 <= i < |r| ensures ValidateOp(r[i].op) && WriteOrDelete(r[i].op) {
      assert r[i] in kept + rest;
      if r[i] !in kept { UntouchedIs(staged, ops, env, r[i]); }
    }
  }

  lemma SurvivorPlaced(l: Local, ops: seq<Op>, i: int, staged: seq<StagedOp>, env: Env, x: StagedOp)
    requires SeparateOps(ops, env) && OrderedLog(staged) && 0 <= i < |ops| && Survivor(l, ops, i, staged, env, x)
    ensures PlacedAt(x.op.path, ops[i]) && ValidateOp(x.op) && WriteOrDelete(x.op)
  {
    OpFacts(ops, env, i);
    MetFacts(ops, i, staged, env);
    var s := Met(ops, i, staged);
    if s.Some? { RebasesOne(ops[i], s.value, ContextFor(env, l, ops[i]), map[]); }
    hide SidecarPath;
  }

  /** The i-th op, alone. */
  function Alone(l: Local, ops: seq<Op>, i: nat, staged: seq<StagedOp>, env: Env): Outcome
    requires i < |ops|
  {
    Incoming(l, ops[i], Met(ops, i, staged), env)
  }

  lemma AloneIs(l: Local, ops: seq<Op>, i: nat, staged: seq<StagedOp>, env: Env)
    requires i < |ops|
    ensures var e, d := Alone(l, ops, i, staged, env), Own(l, ops, i, staged, env);
            && e.local == Applied(l, ops[i], d)
            && e.here == if d.replacement.Some? && d.replacement.value.path == ops[i].path then d.replacement else None
  {
    hide Classify, Applied;
  }

  lemma TouchedHere(ops: seq<Op>, env: Env, p: Path)
    requires SeparateOps(ops, env)
    ensures TouchedKey(ops, env, p) <==> exists i :: 0 <= i < |ops| && ops[i].path == p
  {
    forall i | 0 <= i < |ops| ensures PrimaryPath(ops[i]) == ops[i].path && !env.excluded(TargetPath(ops[i])) {
      OpFacts(ops, env, i);
    }
    hide SeparateOps, PrimaryPath, TargetPath;
  }

  /** An op of the new log that is keyed by the i-th op's path is its survivor. */
  lemma HereIs(l: Local, ops: seq<Op>, i: nat, staged: seq<StagedOp>, env: Env, x: StagedOp)
    requires SeparateOps(ops, env) && OrderedLog(staged) && i < |ops|
    ensures x in Rebased(l, ops, staged, env) && PrimaryPath(x.op) == ops[i].path ==>
      Survivor(l, ops, i, staged, env, x)
  {
    hide Rebased, Survivor, SomeSurvivor, TouchedKey, SeparateOps, OrderedLog, PlacedAt, PrimaryPath;
    if x in Rebased(l, ops, staged, env) && PrimaryPath(x.op) == ops[i].path {
      RebasedIs(l, ops, staged, env, x);
      TouchedHere(ops, env, ops[i].path);
      var m := SurvivorOf(l, ops, staged, env, x);
      SurvivorPlaced(l, ops, m, staged, env, x);
      OneHome(ops, env, i, m, x.op);
    }
  }

  lemma SurvivorOf(l: Local, ops: seq<Op>, staged: seq<StagedOp>, env: Env, x: StagedOp) returns (m: nat)
    requires SomeSurvivor(l, ops, |ops|, staged, env, x)
    ensures m < |ops| && Survivor(l, ops, m, staged, env, x)
  {
    hide Survivor;
    m :| 0 <= m < |ops| && Survivor(l, ops, m, staged, env, x);
  }

  lemma OneHome(ops: seq<Op>, env: Env, i: nat, m: nat, op: Op)
    requires SeparateOps(ops, env) && i < |ops| && m < |ops|
    requires WriteOrDelete(op) && PrimaryPath(op) == ops[i].path && PlacedAt(op.path, ops[m])
    ensures i == m
  {
    assert PlacedAt(op.path, ops[i]);
    hide PlacedAt, CleanCatchup;
  }

  lemma StagedAtOnly(staged: seq<StagedOp>, p: Path, x: Option<Op>)
    requires OrderedLog(staged)
    requires forall y :: y in staged && y.op.path == p ==> x == Some(y.op)
    requires x.Some? ==> exists y :: y in staged && y.op == x.value && y.op.path == p
    ensures StagedAt(staged, p) == x
  {
    StagedAtIs(staged, p);
    hide StagedAt, OrderedLog;
    if StagedAt(staged, p).Some? {
      var i :| 0 <= i < |staged| && staged[i].op.path == p && staged[i].op == StagedAt(staged, p).value;
      assert staged[i] in staged;
    }
  }

  /** The second time, the i-th op meets what it left the first time. */
  lemma MetAgain(l: Local, ops: seq<Op>, i: nat, staged: seq<StagedOp>, env: Env)
    requires SeparateOps(ops, env) && OrderedLog(staged) && i < |ops|
    ensures Met(ops, i, Rebased(l, ops, staged, env)) == Alone(l, ops, i, staged, env).here
  {
    var r, here := Rebased(l, ops, staged, env), Alone(l, ops, i, staged, env).here;
    RebasedOrdered(l, ops, staged, env);
    OpFacts(ops, env, i);
    AloneIs(l, ops, i, staged, env);
    forall y | y in r && y.op.path == ops[i].path ensures here == Some(y.op) {
      assert ValidateOp(y.op) && WriteOrDelete(y.op);
      HereIs(l, ops, i, staged, env, y);
    }
    if here.Some? {
      var x := StagedOp(here.value, env.freeze);
      assert Survivor(l, ops, i, staged, env, x);
      RebasedIs(l, ops, staged, env, x);
      assert x in r;
    }
    hide Rebased, Alone, OrderedLog;
    StagedAtOnly(r, ops[i].path, here);
  }

  // ----- the second time -----

  /** After the catchup a path of the i-th op is as that op alone leaves it. */
  lemma AsAlone(l: Local, ops: seq<Op>, i: nat, staged: seq<StagedOp>, env: Env, q: Path)
    requires SeparateOps(ops, env) && OrderedLog(staged) && i < |ops| && PlacedAt(q, ops[i])
    ensures SlotAt(PassAll(l, ops, staged, env).local, q) == SlotAt(Alone(l, ops, i, staged, env).local, q)
  {
    PassAt(l, ops, |ops|, staged, env, q);
    AloneIs(l, ops, i, staged, env);
    assert ops[..|ops|] == ops;
    hide SlotAt, PassAll, Applied, Own, Alone, PlacedAt;
  }

  /** The second decision is the one the op takes when it alone is applied twice. */
  lemma SecondOwn(l: Local, ops: seq<Op>, i: nat, staged: seq<StagedOp>, env: Env)
    requires SeparateOps(ops, env) && OrderedLog(staged) && i < |ops|
    ensures var e := Alone(l, ops, i, staged, env);
            Own(PassAll(l, ops, staged, env).local, ops, i, Rebased(l, ops, staged, env), env)
              == Classify(ops[i], e.here, ContextFor(env, e.local, ops[i]))
  {
    OpFacts(ops, env, i);
    assert PlacedAt(ops[i].path, ops[i]);
    hide PassAll, Rebased, Alone, Classify, ContextFor, SlotAt, PlacedAt, Met;
    AsAlone(l, ops, i, staged, env, ops[i].path);
    SameContext(PassAll(l, ops, staged, env).local, Alone(l, ops, i, staged, env).local, ops[i], env);
    MetAgain(l, ops, i, staged, env);
  }

  /** The stores, and the staged op on the path, do not change when the i-th op alone is applied again. */
  ghost predicate KeepsStores(l: Local, ops: seq<Op>, i: nat, staged: seq<StagedOp>, env: Env)
    requires i < |ops|
  {
    var e := Alone(l, ops, i, staged, env);
    Applied(e.local, ops[i], Classify(ops[i], e.here, ContextFor(env, e.local, ops[i]))) == e.local
  }

  ghost predicate KeepsHere(l: Local, ops: seq<Op>, i: nat, staged: seq<StagedOp>, env: Env)
    requires i < |ops|
  {
    var e := Alone(l, ops, i, staged, env);
    Incoming(e.local, ops[i], e.here, env).here == e.here
  }

  lemma IdleIs(l: Local, ops: seq<Op>, i: nat, staged: seq<StagedOp>, env: Env)
    requires i < |ops|
    ensures RerunIsIdle(l, ops[i], Met(ops, i, staged), env) <==>
            KeepsStores(l, ops, i, staged, env) && KeepsHere(l, ops, i, staged, env)
  {
    hide Classify, Applied, ContextFor, Met;
  }

  /** On a path of the i-th op, the second catchup does what that op does when it alone is applied twice. */
  lemma SecondAt(l: Local, ops: seq<Op>, i: nat, staged: seq<StagedOp>, env: Env, q: Path)
    requires SeparateOps(ops, env) && OrderedLog(staged) && i < |ops| && PlacedAt(q, ops[i])
    ensures var m, e := PassAll(l, ops, staged, env).local, Alone(l, ops, i, staged, env);
            var d := Classify(ops[i], e.here, ContextFor(env, e.local, ops[i]));
            && SlotAt(m, q) == SlotAt(e.local, q) && StaysHome(ops[i], d)
            && SlotAt(PassAll(m, ops, Rebased(l, ops, staged, env), env).local, q)
            == SlotAt(Applied(e.local, ops[i], d), q)
  {
    var m, log, e := PassAll(l, ops, staged, env).local, Rebased(l, ops, staged, env), Alone(l, ops, i, staged, env);
    hide PassAll, Rebased, Alone, Classify, ContextFor, SlotAt, PlacedAt, Applied, StaysHome, Own;
    hide OrderedLog, SeparateOps;
    AsAlone(l, ops, i, staged, env, q);
    RebasedOrdered(l, ops, staged, env);
    SecondOwn(l, ops, i, staged, env);
    AsAlone(m, ops, i, log, env, q);
    AloneIs(m, ops, i, log, env);
    OwnStaysHome(m, ops, i, log, env);
    AppliedLocal(m, e.local, ops[i], Own(m, ops, i, log, env), q);
  }

  lemma StoresKeptOne(l: Local, ops: seq<Op>, i: nat, staged: seq<StagedOp>, env: Env)
    requires SeparateOps(ops, env) && OrderedLog(staged) && i < |ops|
    requires var m := PassAll(l, ops, staged, env).local; PassAll(m, ops, Rebased(l, ops, staged, env), env).local == m
    ensures KeepsStores(l, ops, i, staged, env)
  {
    var e := Alone(l, ops, i, staged, env);
    var d := Classify(ops[i], e.here, ContextFor(env, e.local, ops[i]));
    assert PlacedAt(ops[i].path, ops[i]);
    SecondAt(l, ops, i, staged, env, ops[i].path);
    hide PassAll, Rebased, Alone, Classify, ContextFor, SlotAt, PlacedAt, Applied, StaysHome, OrderedLog, SeparateOps;
    forall q ensures SlotAt(Applied(e.local, ops[i], d), q) == SlotAt(e.local, q) {
      if PlacedAt(q, ops[i]) {
        SecondAt(l, ops, i, staged, env, q);
      } else {
        AppliedElsewhere(e.local, ops[i], d, q);
      }
    }
    SameLocal(Applied(e.local, ops[i], d), e.local);
  }

  lemma StoresKeptAll(l: Local, ops: seq<Op>, staged: seq<StagedOp>, env: Env)
    requires SeparateOps(ops, env) && OrderedLog(staged)
    requires forall i :: 0 <= i < |ops| ==> KeepsStores(l, ops, i, staged, env)
    ensures var m := PassAll(l, ops, staged, env).local; PassAll(m, ops, Rebased(l, ops, staged, env), env).local == m
  {
    var m, log := PassAll(l, ops, staged, env).local, Rebased(l, ops, staged, env);
    RebasedOrdered(l, ops, staged, env);
    assert ops[..|ops|] == ops;
    hide PassAll, Rebased, Alone, SlotAt, PlacedAt, OrderedLog, SeparateOps, Own;
    forall q ensures SlotAt(PassAll(m, ops, log, env).local, q) == SlotAt(m, q) {
      if i :| 0 <= i < |ops| && PlacedAt(q, ops[i]) {
        SecondAt(l, ops, i, staged, env, q);
        assert KeepsStores(l, ops, i, staged, env);
      } else {
        PassAt(m, ops, |ops|, log, env, q);
      }
    }
    SameLocal(PassAll(m, ops, log, env).local, m);
  }

  /** What the second catchup leaves of the i-th op's survivor. */
  lemma HereAgain(l: Local, ops: seq<Op>, i: nat, staged: seq<StagedOp>, env: Env)
    requires SeparateOps(ops, env) && OrderedLog(staged) && i < |ops|
    ensures var m, log := PassAll(l, ops, staged, env).local, Rebased(l, ops, staged, env);
            var e := Alone(l, ops, i, staged, env);
            && Alone(m, ops, i, log, env).here == Incoming(e.local, ops[i], e.here, env).here
            && Met(ops, i, log) == e.here && OrderedLog(log)
            && Met(ops, i, Rebased(m, ops, log, env)) == Alone(m, ops, i, log, env).here
  {
    var m, log := PassAll(l, ops, staged, env).local, Rebased(l, ops, staged, env);
    RebasedOrdered(l, ops, staged, env);
    SecondOwn(l, ops, i, staged, env);
    AloneIs(m, ops, i, log, env);
    MetAgain(l, ops, i, staged, env);
    MetAgain(m, ops, i, log, env);
    hide PassAll, Rebased, Alone, Classify, ContextFor, Applied, Own, OrderedLog, SeparateOps, Met;
  }

  /** Where nothing changes for the op alone, its survivor of the second catchup is the one of the first. */
  lemma SameSurvivor(l: Local, ops: seq<Op>, i: nat, staged: seq<StagedOp>, env: Env, x: StagedOp)
    requires SeparateOps(ops, env) && OrderedLog(staged) && i < |ops| && KeepsHere(l, ops, i, staged, env)
    ensures var m, log := PassAll(l, ops, staged, env).local, Rebased(l, ops, staged, env);
            var e := Alone(l, ops, i, staged, env);
            Survivor(m, ops, i, log, env, x) <==> e.here == Some(x.op) && x.frozen == env.freeze
  {
    var m, log := PassAll(l, ops, staged, env).local, Rebased(l, ops, staged, env);
    HereAgain(l, ops, i, staged, env);
    AloneIs(m, ops, i, log, env);
    OpFacts(ops, env, i);
    if Met(ops, i, log) == None { assert Own(m, ops, i, log, env).replacement == None; }
    hide PassAll, Rebased, Alone, Classify, ContextFor, Applied, Own, OrderedLog, SeparateOps, Met;
  }

  /** In such a log everything but the last op has a smaller number. */
  lemma LastIsLargest(s: seq<StagedOp>, z: StagedOp)
    requires NumbersIncrease(s) && s != []
    ensures var last := s[|s| - 1];
            && (z in s ==> z == last || z.op.seqno < last.op.seqno)
            && (z in s[..|s| - 1] <==> z in s && z.op.seqno < last.op.seqno)
  {
    if z in s {
      var k :| 0 <= k < |s| && s[k] == z;
      if k < |s| - 1 { assert s[..|s| - 1][k] == z; }
    }
  }

  lemma SameEnds(a: seq<StagedOp>, b: seq<StagedOp>, c: seq<StagedOp>, d: seq<StagedOp>)
    requires NumbersIncrease(a) && NumbersIncrease(b) && a != [] && b != [] && forall x :: x in a <==> x in b
    requires c == a[..|a| - 1] && d == b[..|b| - 1]
    ensures a[|a| - 1] == b[|b| - 1]
    ensures forall z :: z in c <==> z in d
  {
    hide NumbersIncrease;
    assert a[|a| - 1] in b && b[|b| - 1] in a;
    LastIsLargest(a, b[|b| - 1]);
    LastIsLargest(b, a[|a| - 1]);
    forall z ensures z in c <==> z in d {
      LastIsLargest(a, z);
      LastIsLargest(b, z);
    }
  }

  lemma {:induction false} SameIncreasing(a: seq<StagedOp>, b: seq<StagedOp>)
    requires NumbersIncrease(a) && NumbersIncrease(b) && forall x :: x in a <==> x in b
    ensures a == b
  {
    assert (a != [] ==> a[0] in b) && (b != [] ==> b[0] in a);
    if a != [] {
      var c, d := a[..|a| - 1], b[..|b| - 1];
      SameEnds(a, b, c, d);
      SameIncreasing(c, d);
      assert a == c + [a[|a| - 1]] && b == d + [b[|b| - 1]];
    }
  }

  /** The members of the log do not change. */
  lemma SameLogAt(l: Local, ops: seq<Op>, staged: seq<StagedOp>, env: Env, x: StagedOp)
    requires SeparateOps(ops, env) && OrderedLog(staged)
    requires forall i :: 0 <= i < |ops| ==> KeepsHere(l, ops, i, staged, env)
    ensures var m, log := PassAll(l, ops, staged, env).local, Rebased(l, ops, staged, env);
            x in Rebased(m, ops, log, env) <==> x in log
  {
    var m, log := PassAll(l, ops, staged, env).local, Rebased(l, ops, staged, env);
    RebasedOrdered(l, ops, staged, env);
    RebasedIs(m, ops, log, env, x);
    TouchedHere(ops, env, PrimaryPath(x.op));
    hide PassAll, Rebased, Alone, Survivor, SomeSurvivor, OrderedLog, SeparateOps, TouchedKey, KeepsHere, PrimaryPath;
    if x in log && TouchedKey(ops, env, PrimaryPath(x.op)) {
      var i :| 0 <= i < |ops| && ops[i].path == PrimaryPath(x.op);
      HereIs(l, ops, i, staged, env, x);
      StaysSurvivor(l, ops, i, staged, env, x);
      SurvivorCounts(m, ops, i, log, env, x);
    }
    if SomeSurvivor(m, ops, |ops|, log, env, x) {
      var i := SurvivorOf(m, ops, log, env, x);
      SameSurvivor(l, ops, i, staged, env, x);
      WasSurvivor(l, ops, i, staged, env, x);
      SurvivorCounts(l, ops, i, staged, env, x);
      RebasedIs(l, ops, staged, env, x);
    }
  }

  lemma SurvivorCounts(l: Local, ops: seq<Op>, i: nat, staged: seq<StagedOp>, env: Env, x: StagedOp)
    requires i < |ops| && Survivor(l, ops, i, staged, env, x)
    ensures SomeSurvivor(l, ops, |ops|, staged, env, x)
  {
    hide Survivor;
  }

  lemma WasSurvivor(l: Local, ops: seq<Op>, i: nat, staged: seq<StagedOp>, env: Env, x: StagedOp)
    requires i < |ops| && Alone(l, ops, i, staged, env).here == Some(x.op) && x.frozen == env.freeze
    ensures Survivor(l, ops, i, staged, env, x)
  {
    AloneIs(l, ops, i, staged, env);
    hide Alone, Own;
  }

  lemma StaysSurvivor(l: Local, ops: seq<Op>, i: nat, staged: seq<StagedOp>, env: Env, x: StagedOp)
    requires SeparateOps(ops, env) && OrderedLog(staged) && i < |ops| && KeepsHere(l, ops, i, staged, env)
    requires Survivor(l, ops, i, staged, env, x) && PrimaryPath(x.op) == ops[i].path
    ensures Survivor(PassAll(l, ops, staged, env).local, ops, i, Rebased(l, ops, staged, env), env, x)
  {
    SurvivorPlaced(l, ops, i, staged, env, x);
    AloneIs(l, ops, i, staged, env);
    hide Alone, Own, PassAll, Rebased, KeepsHere, SeparateOps, OrderedLog, PlacedAt;
    SameSurvivor(l, ops, i, staged, env, x);
  }

  /** Applying the catchup once more changes neither the stores nor the staged log. */
  ghost predicate CatchupIsIdle(l: Local, ops: seq<Op>, staged: seq<StagedOp>, env: Env) {
    var m, log := PassAll(l, ops, staged, env).local, Rebased(l, ops, staged, env);
    PassAll(m, ops, log, env).local == m && Rebased(m, ops, log, env) == log
  }

  lemma LogKept(l: Local, ops: seq<Op>, staged: seq<StagedOp>, env: Env)
    requires SeparateOps(ops, env) && OrderedLog(staged)
    requires forall i :: 0 <= i < |ops| ==> KeepsHere(l, ops, i, staged, env)
    ensures var m, log := PassAll(l, ops, staged, env).local, Rebased(l, ops, staged, env);
            Rebased(m, ops, log, env) == log
  {
    var m, log := PassAll(l, ops, staged, env).local, Rebased(l, ops, staged, env);
    RebasedOrdered(l, ops, staged, env);
    RebasedOrdered(m, ops, log, env);
    hide PassAll, Rebased, SeparateOps, KeepsHere, NumbersIncrease;
    forall x ensures x in Rebased(m, ops, log, env) <==> x in log { SameLogAt(l, ops, staged, env, x); }
    SameIncreasing(Rebased(m, ops, log, env), log);
  }

  /** The catchup as a whole is idle exactly when each of its ops alone is. */
  lemma CatchupIdleIff(l: Local, ops: seq<Op>, staged: seq<StagedOp>, env: Env)
    requires SeparateOps(ops, env) && OrderedLog(staged)
    ensures CatchupIsIdle(l, ops, staged, env) <==>
            forall i :: 0 <= i < |ops| ==> RerunIsIdle(l, ops[i], Met(ops, i, staged), env)
  {
    hide PassAll, Rebased, SeparateOps, OrderedLog, KeepsStores, RerunIsIdle, Met, Alone;
    forall i | 0 <= i < |ops|
      ensures RerunIsIdle(l, ops[i], Met(ops, i, staged), env)
         <==> KeepsStores(l, ops, i, staged, env) && KeepsHere(l, ops, i, staged, env)
    {
      IdleIs(l, ops, i, staged, env);
    }
    if CatchupIsIdle(l, ops, staged, env) {
      forall i | 0 <= i < |ops| ensures KeepsStores(l, ops, i, staged, env) && KeepsHere(l, ops, i, staged, env) {
        StoresKeptOne(l, ops, i, staged, env);
        HereAgain(l, ops, i, staged, env);
      }
    }
    if forall i :: 0 <= i < |ops| ==> KeepsStores(l, ops, i, staged, env) && KeepsHere(l, ops, i, staged, env) {
      StoresKeptAll(l, ops, staged, env);
      LogKept(l, ops, staged, env);
    }
  }

  /** Replaying a whole catchup is idle except in three cases, each a condition on one incoming op, the
      staged op it meets, the stores and the text it leaves on disk. */
  lemma CatchupRerunIff(l: Local, ops: seq<Op>, staged: seq<StagedOp>, env: Env, diff: Differ)
    requires GoodTools(env.tools, diff) && SeparateOps(ops, env) && OrderedLog(staged)
    ensures CatchupIsIdle(l, ops, staged, env) <==>
            forall i :: 0 <= i < |ops| && Met(ops, i, staged).Some? ==>
              Repeats(l, ops[i], Met(ops, i, staged).value, env)
  {
    hide CatchupIsIdle, GoodTools, SeparateOps, OrderedLog, RerunIsIdle, Met, Repeats;
    CatchupIdleIff(l, ops, staged, env);
    forall i | 0 <= i < |ops|
      ensures RerunIsIdle(l, ops[i], Met(ops, i, staged), env)
         <==> (Met(ops, i, staged).Some? ==> Repeats(l, ops[i], Met(ops, i, staged).value, env))
    {
      OpFacts(ops, env, i);
      MetFacts(ops, i, staged, env);
      RerunIff(l, ops[i], Met(ops, i, staged), env, diff);
    }
  }
}
