/** Applying incoming ops on the client: what happens to the local stores and to the staged log. */
module Rebasing {
  import opened Wrappers
  import opened Seqs
  import opened Sorting
  import opened Protocol
  import opened Paths
  import opened Faithfulness
  import opened Classification
  import opened ClientLogs

  /** The vault on disk, the merge bases, and the client's view of the server. */
  datatype Local = Local(disk: Tree, base: Tree, manifest: map<Path, Hash>)

  function Moved<V>(m: map<Path, V>, from: Path, to: Path): map<Path, V> {
    if from in m then (m - {from})[to := m[from]] else m
  }

  function Bytes(data: Option<Content>): Content { if data.Some? then data.value else "" }

  // ----- applyDecision -----

  function PutServer(l: Local, op: Op): Local {
    if op.ty.OpDelete? then l.(manifest := l.manifest - {PrimaryPath(op)}, base := l.base - {PrimaryPath(op)})
    else l.(manifest := l.manifest[PrimaryPath(op) := HashOf(Payload(op))],
            base := l.base[PrimaryPath(op) := Payload(op)])
  }

  function PutSidecar(l: Local, d: Decision): Local {
    l.(manifest := l.manifest[d.sidecarPath := HashOf(Bytes(d.sidecarContent))],
       disk := l.disk[d.sidecarPath := Bytes(d.sidecarContent)])
  }

  function Applied(l: Local, op: Op, d: Decision): Local {
    var p := PrimaryPath(op);
    match d.action
    case ActionApply =>
      var c := Bytes(d.content);
      Local(l.disk[p := c], l.base[p := c], l.manifest[p := HashOf(c)])
    case ActionAutoMerge => PutServer(l.(disk := l.disk[p := Bytes(d.content)]), op)
    case ActionWriteConflict => PutServer(l.(disk := l.disk[p := Bytes(d.content)]), op)
    case ActionApplyDelete => Local(l.disk - {p}, l.base - {p}, l.manifest - {p})
    case ActionApplyRename =>
      var m := Local(Moved(l.disk, op.from, op.to), Moved(l.base, op.from, op.to), Moved(l.manifest, op.from, op.to));
      if d.sidecarPath != "" && Bytes(d.sidecarContent) != "" then PutSidecar(m, d) else m
    case ActionWriteSidecar =>
      var m := PutServer(PutSidecar(l, d), op);
      if op.ty.OpDelete? then m.(disk := m.disk - {p}) else m
    case ActionNoop => l
  }

  /** A tree as the manifest records it. */
  function ManifestOf(t: Tree): map<Path, Hash> { map p | p in t :: HashOf(t[p]) }

  /** The client's view and its merge bases are those of tree t. */
  ghost predicate Tracks(l: Local, t: Tree) { l.manifest == ManifestOf(t) && l.base == t }

  /** Which decisions leave the view behind: a deletion met by a staged op that makes it a no-op, and
      any that also enters a sidecar into the manifest. */
  predicate Strays(op: Op, d: Decision, t: Tree) {
    d.action.ActionWriteSidecar? || (d.action.ActionNoop? && PrimaryPath(op) in t)
  }

  /** What the table can say about an incoming write or delete. */
  lemma DecisionShape(op: Op, staged: Option<Op>, ctx: Context)
    requires ValidateOp(op) && WriteOrDelete(op) && (staged.Some? ==> ValidateOp(staged.value))
    ensures var d := Classify(op, staged, ctx);
            && !d.action.ActionApplyRename?
            && (d.action.ActionApply? ==> op.ty.OpWrite? && d.content == op.data)
            && (d.action.ActionApplyDelete? || d.action.ActionNoop? ==> op.ty.OpDelete?)
            && (d.action.ActionWriteSidecar? ==> d.sidecarPath == SidecarPath(op.path, ctx.stamp))
  {
    hide FormatFor, IsText, SidecarPath;
  }

  lemma PutServerTracks(l: Local, op: Op, t: Tree)
    requires ValidateOp(op) && WriteOrDelete(op) && Tracks(l, t)
    ensures PutServer(l, op).manifest == ManifestOf(ApplyOp(op, t)) && PutServer(l, op).base == ApplyOp(op, t)
  {
  }

  lemma AppliedIsPut(l: Local, op: Op, d: Decision)
    requires ValidateOp(op) && WriteOrDelete(op)
    requires !d.action.ActionApplyRename? && !d.action.ActionNoop?
    requires d.action.ActionApply? ==> op.ty.OpWrite? && d.content == op.data
    requires d.action.ActionApplyDelete? ==> op.ty.OpDelete?
    ensures var start := if d.action.ActionWriteSidecar? then PutSidecar(l, d) else l;
            && Applied(l, op, d).manifest == PutServer(start, op).manifest
            && Applied(l, op, d).base == PutServer(start, op).base
  {
  }

  /** A decision that does not stray takes the client's view along with the server. */
  lemma TracksUnlessStrays(l: Local, op: Op, staged: Option<Op>, ctx: Context, t: Tree)
    requires ValidateOp(op) && WriteOrDelete(op) && Tracks(l, t)
    requires staged.Some? ==> ValidateOp(staged.value)
    requires !Strays(op, Classify(op, staged, ctx), t)
    ensures Tracks(Applied(l, op, Classify(op, staged, ctx)), ApplyOp(op, t))
  {
    var d := Classify(op, staged, ctx);
    DecisionShape(op, staged, ctx);
    if d.action.ActionNoop? {
      NoopTracksIff(op, t);
    } else {
      AppliedIsPut(l, op, d);
      hide Classify;
      PutServerTracks(l, op, t);
    }
  }

  /** An incoming write or delete: the manifest follows the server exactly when the decision neither
      is a no-op on a present path nor writes a sidecar; the merge bases follow in that case too. */
  lemma ManifestTracksIff(l: Local, op: Op, staged: Option<Op>, ctx: Context, t: Tree)
    requires ValidateOp(op) && WriteOrDelete(op) && Tracks(l, t)
    requires staged.Some? ==> ValidateOp(staged.value) && SidecarPath(op.path, ctx.stamp) !in t
    ensures var d := Classify(op, staged, ctx);
            && (Applied(l, op, d).manifest == ManifestOf(ApplyOp(op, t)) <==> !Strays(op, d, t))
            && (!Strays(op, d, t) ==> Tracks(Applied(l, op, d), ApplyOp(op, t)))
  {
    var d := Classify(op, staged, ctx);
    DecisionShape(op, staged, ctx);
    if !Strays(op, d, t) {
      TracksUnlessStrays(l, op, staged, ctx, t);
    } else if d.action.ActionNoop? {
      NoopTracksIff(op, t);
    } else {
      AppliedIsPut(l, op, d);
      SidecarLonger(op.path, ctx.stamp);
      assert d.sidecarPath in PutServer(PutSidecar(l, d), op).manifest;
      assert d.sidecarPath !in ManifestOf(ApplyOp(op, t));
    }
  }

  /** Which staged op makes an incoming write or delete stray: a deletion, unless both delete what is
      gone already; an edit met by a deletion when it has to go to a sidecar; a rename met by a deletion. */
  lemma StraysIff(op: Op, staged: Option<Op>, ctx: Context, t: Tree)
    requires ValidateOp(op) && WriteOrDelete(op) && (staged.Some? ==> ValidateOp(staged.value))
    ensures Strays(op, Classify(op, staged, ctx), t) <==>
      staged.Some? &&
      match staged.value.ty
      case OpDelete => op.ty.OpWrite? || op.path in t
      case OpWrite => op.ty.OpDelete?
        && (staged.value.binary || !IsText(Payload(staged.value)) || FormatFor(op.path, ctx.gitMode) == FormatSidecar)
      case OpRename => op.ty.OpDelete? && op.path in t
      case OpUnknown => false
  {
  }

  lemma NoopTracksIff(op: Op, t: Tree)
    requires op.ty.OpDelete?
    ensures ManifestOf(t) == ManifestOf(ApplyOp(op, t)) <==> op.path !in t
    ensures op.path !in t ==> ApplyOp(op, t) == t
  {
    if op.path in t { assert op.path in ManifestOf(t) && op.path !in ManifestOf(ApplyOp(op, t)); }
    else { assert ApplyOp(op, t) == t; }
  }

  /** The sidecar is the only stray entry a sidecar decision makes, and its content is right. */
  lemma SidecarIsTheOnlyStray(l: Local, op: Op, staged: Op, ctx: Context, t: Tree)
    requires ValidateOp(op) && WriteOrDelete(op) && Tracks(l, t) && ValidateOp(staged)
    requires Classify(op, Some(staged), ctx).action.ActionWriteSidecar?
    ensures var d := Classify(op, Some(staged), ctx);
            && Applied(l, op, d).manifest
              == ManifestOf(ApplyOp(op, t))[SidecarPath(op.path, ctx.stamp) := HashOf(Bytes(d.sidecarContent))]
            && Applied(l, op, d).base == ApplyOp(op, t)
  {
    var d := Classify(op, Some(staged), ctx);
    DecisionShape(op, Some(staged), ctx);
    hide Classify;
    AppliedIsPut(l, op, d);
    SidecarLonger(op.path, ctx.stamp);
    PutServerTracks(l, op, t);
    SidecarThenServer(l, d, op);
    hide Applied, PutServer, PutSidecar, ManifestOf;
  }

  lemma SidecarThenServer(l: Local, d: Decision, op: Op)
    requires d.sidecarPath != PrimaryPath(op)
    ensures PutServer(PutSidecar(l, d), op).manifest
            == PutServer(l, op).manifest[d.sidecarPath := HashOf(Bytes(d.sidecarContent))]
    ensures PutServer(PutSidecar(l, d), op).base == PutServer(l, op).base
  {
  }

  /** A staged edit that survives a write or delete is on disk where its op says, except under a write
      that it neither merges with nor can show as a conflict: then the incoming content is applied as it
      is, and the sidecar is in the staged log only. */
  lemma EditOnDiskIff(l: Local, op: Op, staged: Op, ctx: Context)
    requires ValidateOp(op) && WriteOrDelete(op)
    requires ValidateOp(staged) && staged.ty.OpWrite? && staged.path == op.path
    requires SidecarPath(op.path, ctx.stamp) !in l.disk
    ensures var d := Classify(op, Some(staged), ctx);
            var r := d.replacement.value;
            d.replacement.Some? &&
            (Lookup(Applied(l, op, d).disk, r.path) == Some(HashOf(Payload(r))) <==>
             (op.ty.OpWrite? ==> StaysInPlace(op, staged, ctx)))
  {
    SidecarLonger(op.path, ctx.stamp);
    EditsSurvive(op, staged, ctx);
    DecisionShape(op, Some(staged), ctx);
    EditNotAbsent(op, staged, ctx);
    hide Classify, SidecarPath, StaysInPlace;
  }

  lemma EditNotAbsent(op: Op, staged: Op, ctx: Context)
    requires ValidateOp(op) && WriteOrDelete(op)
    requires ValidateOp(staged) && staged.ty.OpWrite? && staged.path == op.path
    ensures var d := Classify(op, Some(staged), ctx);
            && !d.action.ActionNoop? && !d.action.ActionApplyDelete? && !d.action.ActionApplyRename?
            && (d.action.ActionApply? <==> op.ty.OpWrite? && !StaysInPlace(op, staged, ctx))
            && (d.action.ActionApply? || d.action.ActionWriteSidecar? ==>
                  && d.replacement.Some? && d.replacement.value.path == d.sidecarPath
                  && d.sidecarPath == SidecarPath(op.path, ctx.stamp) && d.replacement.value.data == d.sidecarContent)
            && (d.action.ActionWriteSidecar? ==> op.ty.OpDelete?)
  {
    hide FormatFor, IsText, SidecarPath;
  }

  /** Renames find their source, or at least do not wipe a present target. */
  ghost predicate RenamesFind(ops: seq<Op>, t: Tree) {
    forall i :: 0 <= i < |ops| && ops[i].ty.OpRename? ==>
      ops[i].from in Apply(ops[..i], t) || ops[i].to !in Apply(ops[..i], t)
  }

  lemma RenamesFindFront(ops: seq<Op>, t: Tree)
    requires RenamesFind(ops, t) && ops != []
    ensures var front, op := ops[..|ops| - 1], ops[|ops| - 1];
            RenamesFind(front, t) && (op.ty.OpRename? ==> op.from in Apply(front, t) || op.to !in Apply(front, t))
  {
    var front := ops[..|ops| - 1];
    forall i | 0 <= i < |front| && front[i].ty.OpRename?
      ensures front[i].from in Apply(front[..i], t) || front[i].to !in Apply(front[..i], t)
    {
      assert front[..i] == ops[..i];
    }
  }

  lemma RenameTracks(from: Path, to: Path, t: Tree)
    requires from in t || to !in t
    ensures var u := if from in t then (t - {from})[to := t[from]] else t - {from, to};
            Moved(ManifestOf(t), from, to) == ManifestOf(u) && Moved(t, from, to) == u
  {
    if from !in t { assert t - {from, to} == t; }
    else { assert ManifestOf((t - {from})[to := t[from]]) == (ManifestOf(t) - {from})[to := HashOf(t[from])]; }
  }

  // ----- classifyAndApply -----

  datatype Env = Env(gitMode: bool, tools: Tools, freeze: bool, excluded: Path -> bool)

  /** The op's time as it appears in a sidecar name. */
  function Stamp(op: Op): string {
    if op.ts == 0 then "" else Decimal(if op.ts < 0 then -op.ts else op.ts)
  }

  function ContextFor(env: Env, l: Local, op: Op): Context {
    Context(if PrimaryPath(op) in l.base then l.base[PrimaryPath(op)] else "", env.gitMode, Stamp(op), env.tools)
  }

  /** `stagedByPath`: the last staged op keyed by the path. */
  function StagedAt(staged: seq<StagedOp>, p: Path): Option<Op> {
    if staged == [] then None
    else
      var last := staged[|staged| - 1].op;
      if !last.ty.OpUnknown? && PrimaryPath(last) == p then Some(last) else StagedAt(staged[..|staged| - 1], p)
  }

  /** The local stores, and the staged ops that survive the ops so far. */
  datatype Pass = Pass(local: Local, kept: seq<StagedOp>)

  function Decide(p: Pass, op: Op, staged: seq<StagedOp>, env: Env): Decision {
    Classify(op, StagedAt(staged, PrimaryPath(op)), ContextFor(env, p.local, op))
  }

  function PassStep(p: Pass, op: Op, staged: seq<StagedOp>, env: Env): Pass {
    if env.excluded(TargetPath(op)) then p
    else
      var d := Decide(p, op, staged, env);
      Pass(Applied(p.local, op, d),
           if d.replacement.Some? then p.kept + [StagedOp(d.replacement.value, env.freeze)] else p.kept)
  }

  function PassAll(l: Local, ops: seq<Op>, staged: seq<StagedOp>, env: Env): Pass {
    if ops == [] then Pass(l, []) else PassStep(PassAll(l, ops[..|ops| - 1], staged, env), ops[|ops| - 1], staged, env)
  }

  predicate TouchedKey(ops: seq<Op>, env: Env, p: Path) {
    exists i :: 0 <= i < |ops| && !env.excluded(TargetPath(ops[i])) && PrimaryPath(ops[i]) == p
  }

  /** The staged ops on paths that no incoming op touches. */
  function Untouched(staged: seq<StagedOp>, ops: seq<Op>, env: Env): (r: seq<StagedOp>)
    ensures |r| <= |staged|
  {
    if staged == [] then []
    else
      var front, last := Untouched(staged[..|staged| - 1], ops, env), staged[|staged| - 1];
      if TouchedKey(ops, env, PrimaryPath(last.op)) then front else front + [last]
  }

  function SeqKey(s: StagedOp): Key { (s.op.seqno, 0) }

  /** The staged log after the catchup: survivors and untouched ops, back in sequence order. */
  function Rebased(l: Local, ops: seq<Op>, staged: seq<StagedOp>, env: Env): seq<StagedOp> {
    StableSort(PassAll(l, ops, staged, env).kept + Untouched(staged, ops, env), SeqKey)
  }

  // ----- the rebase theorem -----

  ghost predicate DistinctPaths(ops: seq<Op>) { forall i, j :: 0 <= i < j < |ops| ==> ops[i].path != ops[j].path }

  /** Well-formed writes and deletes in sequence order. */
  ghost predicate OrderedLog(staged: seq<StagedOp>) {
    && (forall i :: 0 <= i < |staged| ==> ValidateOp(staged[i].op) && WriteOrDelete(staged[i].op))
    && NumbersIncrease(staged)
  }

  /** And one op a path. */
  ghost predicate CleanLog(staged: seq<StagedOp>) {
    && OrderedLog(staged)
    && (forall i, j :: 0 <= i < j < |staged| ==> staged[i].op.path != staged[j].op.path)
  }

  /** Every op expects what t holds. */
  ghost predicate Anchored(staged: seq<StagedOp>, t: Tree) {
    forall i :: 0 <= i < |staged| ==> staged[i].op.preHash == Lookup(t, staged[i].op.path)
  }

  predicate SidecarFree(op: Op, t: Tree, env: Env) { !env.excluded(op.path) && SidecarPath(op.path, Stamp(op)) !in t }

  predicate SidecarClear(op: Op, other: Op) { SidecarPath(op.path, Stamp(op)) != other.path }

  /** A catchup of writes and deletes, one a path, none ignored, whose sidecar names are free. */
  ghost predicate CleanCatchup(ops: seq<Op>, t: Tree, env: Env) {
    && AllValid(ops) && WritesAndDeletes(ops) && DistinctPaths(ops)
    && (forall i :: 0 <= i < |ops| ==> SidecarFree(ops[i], t, env))
    && (forall i, j :: 0 <= i < |ops| && 0 <= j < |ops| ==> SidecarClear(ops[i], ops[j]))
  }

  lemma {:induction false} StagedAtIs(staged: seq<StagedOp>, p: Path)
    requires OrderedLog(staged)
    ensures StagedAt(staged, p).Some? ==>
      exists i :: 0 <= i < |staged| && staged[i].op.path == p && staged[i].op == StagedAt(staged, p).value
    ensures StagedAt(staged, p).None? ==> forall i :: 0 <= i < |staged| ==> staged[i].op.path != p
  {
    if staged != [] {
      StagedAtIs(staged[..|staged| - 1], p);
    }
  }

  /** Each kept op comes from one staged op, whose path the n-th incoming op has. */
  ghost predicate CameFrom(kept: seq<StagedOp>, from: seq<nat>, staged: seq<StagedOp>) {
    && |from| == |kept|
    && (forall k :: 0 <= k < |from| ==> from[k] < |staged| && kept[k].op.seqno == staged[from[k]].op.seqno)
    && (forall k, l :: 0 <= k < l < |from| ==> from[k] != from[l])
  }

  ghost predicate AllClean(ops: seq<StagedOp>, t: Tree) {
    forall k :: 0 <= k < |ops| ==>
      ValidateOp(ops[k].op) && WriteOrDelete(ops[k].op) && ops[k].op.preHash == Lookup(t, ops[k].op.path)
  }

  lemma SkipsOp(ops: seq<Op>, t: Tree, p: Path)
    requires forall i :: 0 <= i < |ops| ==> ops[i].path != p
    requires WritesAndDeletes(ops)
    ensures Lookup(Apply(ops, t), p) == Lookup(t, p)
  {
    forall i | 0 <= i < |ops| ensures !Touches(ops[i], p) {}
    ApplyFrame(ops, t, p);
  }

  ghost predicate PlacedAt(p: Path, op: Op) { p == op.path || p == SidecarPath(op.path, Stamp(op)) }

  ghost predicate PlacedBySome(p: Path, ops: seq<Op>) { exists i :: 0 <= i < |ops| && PlacedAt(p, ops[i]) }

  /** Where the survivors of the first ops may live: on an incoming path or at its sidecar. */
  ghost predicate Placed(kept: seq<StagedOp>, ops: seq<Op>) {
    forall k :: 0 <= k < |kept| ==> PlacedBySome(kept[k].op.path, ops)
  }

  /** The next incoming op leaves alone what survived the earlier ones. */
  lemma KeepsSurvivors(kept: seq<StagedOp>, ops: seq<Op>, op: Op, t: Tree, env: Env)
    requires CleanCatchup(ops + [op], t, env) && Placed(kept, ops) && AllClean(kept, Apply(ops, t))
    ensures AllClean(kept, Apply(ops + [op], t)) && Placed(kept, ops + [op])
  {
    hide ValidateOp, SidecarFree, SidecarPath, Apply, PlacedAt, PlacedBySome;
    var all := ops + [op];
    ApplySnoc(ops, op, t);
    assert all[|ops|] == op;
    forall k | 0 <= k < |kept|
      ensures kept[k].op.preHash == Lookup(Apply(all, t), kept[k].op.path)
      ensures PlacedBySome(kept[k].op.path, all)
    {
      StillPlaced(kept[k].op.path, ops, op, t, env);
    }
  }

  lemma StillPlaced(p: Path, ops: seq<Op>, op: Op, t: Tree, env: Env)
    requires CleanCatchup(ops + [op], t, env) && PlacedBySome(p, ops)
    ensures PlacedBySome(p, ops + [op]) && p != op.path
  {
    var all := ops + [op];
    var i :| 0 <= i < |ops| && PlacedAt(p, ops[i]);
    assert all[i] == ops[i] && all[|ops|] == op;
    assert SidecarClear(all[i], all[|ops|]) && all[i].path != all[|ops|].path;
  }

  lemma CatchupFront(ops: seq<Op>, t: Tree, env: Env)
    requires CleanCatchup(ops, t, env) && ops != []
    ensures CleanCatchup(ops[..|ops| - 1], t, env) && ops == ops[..|ops| - 1] + [ops[|ops| - 1]]
  {
    hide SidecarFree, SidecarClear, ValidateOp;
    var front := ops[..|ops| - 1];
    assert forall i :: 0 <= i < |front| ==> front[i] == ops[i];
  }

  /** The survivor of the last incoming op. */
  lemma LastSurvivor(p: Pass, ops: seq<Op>, staged: seq<StagedOp>, t: Tree, env: Env)
    requires CleanCatchup(ops, t, env) && OrderedLog(staged) && ops != []
    ensures var op := ops[|ops| - 1];
            var r := Decide(p, op, staged, env).replacement;
            r.Some? ==> && ValidateOp(r.value) && WriteOrDelete(r.value)
                        && r.value.preHash == Lookup(Apply(ops, t), r.value.path)
                        && PlacedAt(r.value.path, op)
                        && (exists i :: && 0 <= i < |staged| && staged[i].op.path == op.path
                                        && staged[i].op.seqno == r.value.seqno)
  {
    var op, front := ops[|ops| - 1], ops[..|ops| - 1];
    var s := StagedAt(staged, op.path);
    StagedAtIs(staged, op.path);
    assert SidecarFree(op, t, env) && forall i :: 0 <= i < |ops| ==> SidecarClear(op, ops[i]);
    if s.Some? {
      RebasesOne(op, s.value, ContextFor(env, p.local, op), Apply(front, t));
      KeepsNumber(op, s.value, ContextFor(env, p.local, op));
      SkipsOp(ops, t, SidecarPath(op.path, Stamp(op)));
    }
  }

  ghost predicate PathIn(p: Path, ops: seq<Op>, n: int) { exists i :: 0 <= i < n <= |ops| && p == ops[i].path }

  /** The incoming ops' survivors: anchored, well-formed, each from its own staged op. */
  ghost predicate PassHolds(kept: seq<StagedOp>, from: seq<nat>, ops: seq<Op>, staged: seq<StagedOp>, t: Tree) {
    && CameFrom(kept, from, staged) && Placed(kept, ops) && AllClean(kept, Apply(ops, t))
    && (forall k :: 0 <= k < |from| ==> PathIn(staged[from[k]].op.path, ops, |ops|))
  }

  lemma {:induction false} PassRebases(l: Local, ops: seq<Op>, staged: seq<StagedOp>, t: Tree, env: Env)
    returns (from: seq<nat>)
    requires CleanCatchup(ops, t, env) && OrderedLog(staged)
    ensures PassHolds(PassAll(l, ops, staged, env).kept, from, ops, staged, t)
  {
    if ops == [] {
      from := [];
    } else {
      hide Decide, CleanCatchup, OrderedLog, PassHolds, Apply, Placed, AllClean;
      var front, op := ops[..|ops| - 1], ops[|ops| - 1];
      CatchupFront(ops, t, env);
      from := PassRebases(l, front, staged, t, env);
      var p := PassAll(l, front, staged, env);
      KeepsSurvivors(p.kept, front, op, t, env);
      LastSurvivor(p, ops, staged, t, env);
      var r := Decide(p, op, staged, env).replacement;
      OldSources(p.kept, from, ops, staged, t);
      if r.Some? {
        var i :| 0 <= i < |staged| && staged[i].op.path == op.path && staged[i].op.seqno == r.value.seqno;
        OneMoreSurvivor(p.kept, from, StagedOp(r.value, env.freeze), i, ops, staged, t);
        from := from + [i];
      }
    }
  }

  lemma OldSources(kept: seq<StagedOp>, from: seq<nat>, ops: seq<Op>, staged: seq<StagedOp>, t: Tree)
    requires ops != [] && PassHolds(kept, from, ops[..|ops| - 1], staged, t)
    requires Placed(kept, ops) && AllClean(kept, Apply(ops, t))
    ensures PassHolds(kept, from, ops, staged, t)
    ensures forall k :: 0 <= k < |from| ==> PathIn(staged[from[k]].op.path, ops, |ops| - 1)
  {
    var front := ops[..|ops| - 1];
    forall k | 0 <= k < |from|
      ensures PathIn(staged[from[k]].op.path, ops, |ops| - 1) && PathIn(staged[from[k]].op.path, ops, |ops|)
    {
      var i :| 0 <= i < |front| && staged[from[k]].op.path == front[i].path;
      assert ops[i] == front[i];
    }
  }

  lemma OneMoreSurvivor(kept: seq<StagedOp>, from: seq<nat>, s: StagedOp, i: nat, ops: seq<Op>, staged: seq<StagedOp>,
                        t: Tree)
    requires ops != [] && DistinctPaths(ops) && i < |staged|
    requires PassHolds(kept, from, ops, staged, t)
    requires forall k :: 0 <= k < |from| ==> PathIn(staged[from[k]].op.path, ops, |ops| - 1)
    requires var op := ops[|ops| - 1];
             && staged[i].op.path == op.path && staged[i].op.seqno == s.op.seqno
             && PlacedAt(s.op.path, op)
             && ValidateOp(s.op) && WriteOrDelete(s.op) && s.op.preHash == Lookup(Apply(ops, t), s.op.path)
    ensures PassHolds(kept + [s], from + [i], ops, staged, t)
  {
    hide ValidateOp, SidecarPath, Apply, PlacedAt;
    NewSource(from, i, ops, staged);
    assert PathIn(staged[i].op.path, ops, |ops|) && ops[|ops| - 1].path == staged[i].op.path;
    assert PlacedBySome(s.op.path, ops) by { assert PlacedAt(s.op.path, ops[|ops| - 1]); }
    hide PlacedBySome, PathIn;
    assert Placed(kept + [s], ops);
  }

  lemma NewSource(from: seq<nat>, i: nat, ops: seq<Op>, staged: seq<StagedOp>)
    requires ops != [] && DistinctPaths(ops) && i < |staged| && staged[i].op.path == ops[|ops| - 1].path
    requires forall k :: 0 <= k < |from| ==>
      from[k] < |staged| && PathIn(staged[from[k]].op.path, ops, |ops| - 1)
    ensures forall k :: 0 <= k < |from| ==> from[k] != i
  {
    forall k | 0 <= k < |from| ensures from[k] != i {
      var j :| 0 <= j < |ops| - 1 && staged[from[k]].op.path == ops[j].path;
      assert ops[j].path != ops[|ops| - 1].path;
    }
  }

  /** Where in the staged log the untouched ops are. */
  ghost predicate AreUntouched(staged: seq<StagedOp>, ops: seq<Op>, env: Env, from: seq<nat>) {
    && |from| == |Untouched(staged, ops, env)|
    && (forall k :: 0 <= k < |from| ==>
          && from[k] < |staged| && Untouched(staged, ops, env)[k] == staged[from[k]]
          && !TouchedKey(ops, env, PrimaryPath(staged[from[k]].op)))
    && forall k, l :: 0 <= k < l < |from| ==> from[k] < from[l]
  }

  /** Which of the staged ops the incoming ops leave alone. */
  lemma {:induction false} UntouchedFrom(staged: seq<StagedOp>, ops: seq<Op>, env: Env) returns (from: seq<nat>)
    ensures AreUntouched(staged, ops, env, from)
  {
    if staged == [] {
      from := [];
    } else {
      var front := staged[..|staged| - 1];
      from := UntouchedFrom(front, ops, env);
      assert forall k :: 0 <= k < |from| ==> staged[from[k]] == front[from[k]];
      if !TouchedKey(ops, env, PrimaryPath(staged[|staged| - 1].op)) { from := from + [|staged| - 1]; }
    }
  }

  lemma KeyedByPath(ops: seq<Op>, t: Tree, env: Env, i: int)
    requires CleanCatchup(ops, t, env) && 0 <= i < |ops|
    ensures !env.excluded(TargetPath(ops[i])) && PrimaryPath(ops[i]) == ops[i].path
  {
    assert SidecarFree(ops[i], t, env);
    hide SidecarPath, AllValid, DistinctPaths, SidecarClear;
  }

  lemma PathInIsTouched(ops: seq<Op>, t: Tree, env: Env, p: Path)
    requires CleanCatchup(ops, t, env)
    ensures TouchedKey(ops, env, p) <==> PathIn(p, ops, |ops|)
  {
    forall i | 0 <= i < |ops| ensures !env.excluded(TargetPath(ops[i])) && PrimaryPath(ops[i]) == ops[i].path {
      KeyedByPath(ops, t, env, i);
    }
    hide CleanCatchup, PrimaryPath, TargetPath;
  }

  lemma UntouchedNotIn(staged: seq<StagedOp>, ops: seq<Op>, t: Tree, env: Env, from: seq<nat>)
    requires CleanCatchup(ops, t, env) && OrderedLog(staged) && AreUntouched(staged, ops, env, from)
    ensures forall k :: 0 <= k < |from| ==> !PathIn(staged[from[k]].op.path, ops, |ops|)
  {
    forall k | 0 <= k < |from| ensures !PathIn(staged[from[k]].op.path, ops, |ops|) {
      PathInIsTouched(ops, t, env, staged[from[k]].op.path);
    }
  }

  lemma UntouchedIsClean(staged: seq<StagedOp>, ops: seq<Op>, t: Tree, env: Env, from: seq<nat>)
    requires CleanCatchup(ops, t, env) && OrderedLog(staged) && Anchored(staged, t)
    requires AreUntouched(staged, ops, env, from)
    ensures AllClean(Untouched(staged, ops, env), Apply(ops, t))
  {
    UntouchedNotIn(staged, ops, t, env, from);
    forall k | 0 <= k < |from| ensures staged[from[k]].op.preHash == Lookup(Apply(ops, t), staged[from[k]].op.path) {
      var p := staged[from[k]].op.path;
      forall i | 0 <= i < |ops| ensures ops[i].path != p { assert !PathIn(p, ops, |ops|); }
      SkipsOp(ops, t, p);
    }
  }

  lemma {:induction false} InsertDistinct(x: StagedOp, s: seq<StagedOp>)
    requires NumbersDistinct(s) && forall i :: 0 <= i < |s| ==> s[i].op.seqno != x.op.seqno
    ensures NumbersDistinct(Insert(x, s, SeqKey))
  {
    InsertAdds(x, s, SeqKey);
    if s != [] && KeyLess(SeqKey(s[0]), SeqKey(x)) {
      var rest := Insert(x, s[1..], SeqKey);
      InsertAdds(x, s[1..], SeqKey);
      InsertDistinct(x, s[1..]);
      forall j | 0 <= j < |rest| ensures rest[j].op.seqno != s[0].op.seqno { assert rest[j] == x || rest[j] in s[1..]; }
    }
  }

  lemma {:induction false} SortDistinct(s: seq<StagedOp>)
    requires NumbersDistinct(s)
    ensures NumbersIncrease(StableSort(s, SeqKey)) && NumbersDistinct(StableSort(s, SeqKey))
    ensures forall x :: x in StableSort(s, SeqKey) <==> x in s
  {
    var r := StableSort(s, SeqKey);
    StableSortSorts(s, SeqKey);
    SameMembers(r, s);
    SameMembers(s, r);
    if s != [] {
      SortDistinct(s[1..]);
      var rest := StableSort(s[1..], SeqKey);
      forall i | 0 <= i < |rest| ensures rest[i].op.seqno != s[0].op.seqno { assert rest[i] in s[1..]; }
      InsertDistinct(s[0], rest);
    }
    forall i, j | 0 <= i < j < |r| ensures r[i].op.seqno < r[j].op.seqno {
      assert !KeyLess(SeqKey(r[j]), SeqKey(r[i]));
    }
  }

  lemma CameFromDistinct(s: seq<StagedOp>, from: seq<nat>, staged: seq<StagedOp>)
    requires CameFrom(s, from, staged) && OrderedLog(staged)
    ensures NumbersDistinct(s)
  {
    forall k, l | 0 <= k < l < |s| ensures s[k].op.seqno != s[l].op.seqno {
      assert from[k] != from[l];
      assert staged[from[k]].op.seqno != staged[from[l]].op.seqno;
    }
  }

  /** Survivors and untouched ops together, each from its own staged op. */
  lemma AllSources(l: Local, ops: seq<Op>, staged: seq<StagedOp>, t: Tree, env: Env) returns (a: seq<nat>, b: seq<nat>)
    requires CleanCatchup(ops, t, env) && OrderedLog(staged)
    ensures var kept, rest := PassAll(l, ops, staged, env).kept, Untouched(staged, ops, env);
            && PassHolds(kept, a, ops, staged, t) && CameFrom(kept + rest, a + b, staged)
            && AreUntouched(staged, ops, env, b)
  {
    var kept, rest := PassAll(l, ops, staged, env).kept, Untouched(staged, ops, env);
    a := PassRebases(l, ops, staged, t, env);
    b := UntouchedFrom(staged, ops, env);
    UntouchedNotIn(staged, ops, t, env, b);
    hide CleanCatchup, OrderedLog, PathIn, Untouched, PassAll, Apply;
    JoinSources(kept, a, rest, b, ops, staged);
  }

  lemma CleanConcat(a: seq<StagedOp>, b: seq<StagedOp>, t: Tree)
    requires AllClean(a, t) && AllClean(b, t)
    ensures AllClean(a + b, t)
  {
  }

  lemma AllFrom(l: Local, ops: seq<Op>, staged: seq<StagedOp>, t: Tree, env: Env) returns (from: seq<nat>)
    requires CleanCatchup(ops, t, env) && OrderedLog(staged) && Anchored(staged, t)
    ensures var all := PassAll(l, ops, staged, env).kept + Untouched(staged, ops, env);
            CameFrom(all, from, staged) && AllClean(all, Apply(ops, t))
  {
    hide CleanCatchup, OrderedLog, PathIn, Untouched, PassAll, Anchored, Apply;
    hide AllClean, CameFrom, Placed, AreUntouched;
    var a, b := AllSources(l, ops, staged, t, env);
    UntouchedIsClean(staged, ops, t, env, b);
    CleanConcat(PassAll(l, ops, staged, env).kept, Untouched(staged, ops, env), Apply(ops, t));
    from := a + b;
  }

  lemma JoinSources(kept: seq<StagedOp>, a: seq<nat>, rest: seq<StagedOp>, b: seq<nat>, ops: seq<Op>,
                    staged: seq<StagedOp>)
    requires CameFrom(kept, a, staged) && CameFrom(rest, b, staged)
    requires forall k :: 0 <= k < |a| ==> PathIn(staged[a[k]].op.path, ops, |ops|)
    requires forall k :: 0 <= k < |b| ==> !PathIn(staged[b[k]].op.path, ops, |ops|)
    ensures CameFrom(kept + rest, a + b, staged)
  {
    hide PathIn;
    forall k, m | 0 <= k < |a| && 0 <= m < |b| ensures a[k] != b[m] {
      assert PathIn(staged[a[k]].op.path, ops, |ops|) && !PathIn(staged[b[m]].op.path, ops, |ops|);
    }
  }

  /** Rebase correctness: if every staged op's pre-hash matched the server at the old base, then after
      any catchup of writes and deletes every op in the new log matches the server at the new one; the
      numbers are drawn from the old log and strictly increase. */
  lemma RebaseCorrect(l: Local, ops: seq<Op>, staged: seq<StagedOp>, t: Tree, env: Env)
    requires CleanCatchup(ops, t, env) && OrderedLog(staged) && Anchored(staged, t)
    ensures var r := Rebased(l, ops, staged, env);
            && AllClean(r, Apply(ops, t)) && NumbersIncrease(r)
            && forall k :: 0 <= k < |r| ==> HasNumber(staged, r[k].op.seqno)
  {
    var all := PassAll(l, ops, staged, env).kept + Untouched(staged, ops, env);
    var from := AllFrom(l, ops, staged, t, env);
    CameFromDistinct(all, from, staged);
    SortDistinct(all);
    var r := Rebased(l, ops, staged, env);
    hide StableSort, CleanCatchup, OrderedLog, Anchored, PassAll, Untouched, Apply;
    MembersClean(r, all, from, staged, Apply(ops, t));
  }

  lemma MembersClean(r: seq<StagedOp>, all: seq<StagedOp>, from: seq<nat>, staged: seq<StagedOp>, t: Tree)
    requires AllClean(all, t) && CameFrom(all, from, staged) && forall x :: x in r <==> x in all
    ensures AllClean(r, t) && forall k :: 0 <= k < |r| ==> HasNumber(staged, r[k].op.seqno)
  {
    forall k | 0 <= k < |all| ensures HasNumber(staged, all[k].op.seqno) {
      assert staged[from[k]].op.seqno == all[k].op.seqno;
    }
    forall k | 0 <= k < |r| ensures r[k] in all { assert r[k] in r; }
  }

  // ----- nothing is dropped that should not be -----

  lemma Grows(a: seq<StagedOp>, b: seq<StagedOp>, n: nat)
    requires HasNumber(a, n) || HasNumber(b, n)
    ensures HasNumber(a + b, n)
  {
    if HasNumber(a, n) {
      var k :| 0 <= k < |a| && a[k].op.seqno == n;
      assert (a + b)[k] == a[k];
    } else {
      var k :| 0 <= k < |b| && b[k].op.seqno == n;
      assert (a + b)[|a| + k] == b[k];
    }
  }

  lemma SurvivorHere(p: Pass, op: Op, staged: seq<StagedOp>, env: Env, i: int)
    requires ValidateOp(op) && WriteOrDelete(op) && CleanLog(staged) && 0 <= i < |staged|
    requires staged[i].op.path == op.path && !(op.ty.OpDelete? && staged[i].op.ty.OpDelete?)
    ensures var r := Decide(p, op, staged, env).replacement; r.Some? && r.value.seqno == staged[i].op.seqno
  {
    StagedAtIs(staged, op.path);
    var s := StagedAt(staged, op.path).value;
    RebasesOne(op, s, ContextFor(env, p.local, op), map[]);
    KeepsNumber(op, s, ContextFor(env, p.local, op));
    hide Classify;
  }

  /** An incoming op keeps what survived before, and the staged op on its own path. */
  lemma StepKeeps(p: Pass, ops: seq<Op>, staged: seq<StagedOp>, t: Tree, env: Env, i: int)
    requires CleanCatchup(ops, t, env) && CleanLog(staged) && ops != [] && 0 <= i < |staged|
    ensures var op := ops[|ops| - 1];
            var kept := PassStep(p, op, staged, env).kept;
            && (HasNumber(p.kept, staged[i].op.seqno) ==> HasNumber(kept, staged[i].op.seqno))
            && (staged[i].op.path == op.path && !(op.ty.OpDelete? && staged[i].op.ty.OpDelete?)
                ==> HasNumber(kept, staged[i].op.seqno))
  {
    var op, n := ops[|ops| - 1], staged[i].op.seqno;
    assert SidecarFree(op, t, env);
    var here := staged[i].op.path == op.path && !(op.ty.OpDelete? && staged[i].op.ty.OpDelete?);
    if here { SurvivorHere(p, op, staged, env, i); }
    hide Applied, HasNumber, Decide, CleanCatchup, CleanLog;
    var r := Decide(p, op, staged, env).replacement;
    if r.Some? {
      var s := [StagedOp(r.value, env.freeze)];
      if here { HasSeq(s, s[0]); }
      if here || HasNumber(p.kept, n) { Grows(p.kept, s, n); }
    }
  }

  lemma {:induction false} KeptHas(l: Local, ops: seq<Op>, staged: seq<StagedOp>, t: Tree, env: Env, j: int, i: int)
    requires CleanCatchup(ops, t, env) && CleanLog(staged)
    requires 0 <= j < |ops| && 0 <= i < |staged| && staged[i].op.path == ops[j].path
    requires !(ops[j].ty.OpDelete? && staged[i].op.ty.OpDelete?)
    ensures HasNumber(PassAll(l, ops, staged, env).kept, staged[i].op.seqno)
    decreases |ops|
  {
    hide PassStep, HasNumber, CleanCatchup, CleanLog;
    var front := ops[..|ops| - 1];
    CatchupFront(ops, t, env);
    StepKeeps(PassAll(l, front, staged, env), ops, staged, t, env, i);
    if j < |ops| - 1 {
      KeptHas(l, front, staged, t, env, j, i);
    }
  }

  lemma {:induction false} UntouchedHas(staged: seq<StagedOp>, ops: seq<Op>, env: Env, i: int)
    requires 0 <= i < |staged| && !TouchedKey(ops, env, PrimaryPath(staged[i].op))
    ensures staged[i] in Untouched(staged, ops, env)
  {
    if i < |staged| - 1 { UntouchedHas(staged[..|staged| - 1], ops, env, i); }
  }

  /** Every staged op is still in the log, under its number, unless it deletes what a deletion has
      just come in for. */
  lemma NothingDropped(l: Local, ops: seq<Op>, staged: seq<StagedOp>, t: Tree, env: Env, i: int)
    requires CleanCatchup(ops, t, env) && CleanLog(staged) && 0 <= i < |staged|
    requires staged[i].op.ty.OpDelete? ==>
      forall j :: 0 <= j < |ops| && ops[j].path == staged[i].op.path ==> !ops[j].ty.OpDelete?
    ensures HasNumber(Rebased(l, ops, staged, env), staged[i].op.seqno)
  {
    var kept, rest := PassAll(l, ops, staged, env).kept, Untouched(staged, ops, env);
    PathInIsTouched(ops, t, env, staged[i].op.path);
    assert PrimaryPath(staged[i].op) == staged[i].op.path;
    hide PassAll, Untouched, CleanCatchup, TouchedKey, CleanLog, StableSort, HasNumber;
    if PathIn(staged[i].op.path, ops, |ops|) {
      var j :| 0 <= j < |ops| && staged[i].op.path == ops[j].path;
      KeptHas(l, ops, staged, t, env, j, i);
    } else {
      UntouchedHas(staged, ops, env, i);
      HasSeq(rest, staged[i]);
    }
    SortKeeps(kept, rest, staged[i].op.seqno);
  }

  lemma HasSeq(s: seq<StagedOp>, x: StagedOp)
    requires x in s
    ensures HasNumber(s, x.op.seqno)
  {
    var k :| 0 <= k < |s| && s[k] == x;
  }

  lemma SortKeeps(a: seq<StagedOp>, b: seq<StagedOp>, n: nat)
    requires HasNumber(a, n) || HasNumber(b, n)
    ensures HasNumber(StableSort(a + b, SeqKey), n)
  {
    if HasNumber(a, n) {
      var k :| 0 <= k < |a| && a[k].op.seqno == n;
      InSorted(a + b, k);
    } else {
      var k :| 0 <= k < |b| && b[k].op.seqno == n;
      InSorted(a + b, |a| + k);
    }
  }

  lemma InSorted(s: seq<StagedOp>, k: int)
    requires 0 <= k < |s|
    ensures HasNumber(StableSort(s, SeqKey), s[k].op.seqno)
  {
    StableSortSorts(s, SeqKey);
    SameMembers(s, StableSort(s, SeqKey));
    var j :| 0 <= j < |StableSort(s, SeqKey)| && StableSort(s, SeqKey)[j] == s[k];
  }

  /** A staged op that no incoming op is keyed like stays in the log as it is. */
  lemma StaysStaged(l: Local, ops: seq<Op>, staged: seq<StagedOp>, t: Tree, env: Env, k: int)
    requires CleanCatchup(ops, t, env) && 0 <= k < |staged|
    requires forall i :: 0 <= i < |ops| ==> ops[i].path != PrimaryPath(staged[k].op)
    ensures staged[k] in Rebased(l, ops, staged, env)
  {
    PathInIsTouched(ops, t, env, PrimaryPath(staged[k].op));
    hide CleanCatchup, TouchedKey, PassAll, Untouched, StableSort, PrimaryPath;
    UntouchedHas(staged, ops, env, k);
    SortHas(PassAll(l, ops, staged, env).kept, Untouched(staged, ops, env), staged[k]);
  }

  lemma SortHas(a: seq<StagedOp>, b: seq<StagedOp>, x: StagedOp)
    requires x in b
    ensures x in StableSort(a + b, SeqKey)
  {
    StableSortSorts(a + b, SeqKey);
    hide StableSort;
    SameMembers(a + b, StableSort(a + b, SeqKey));
    var k :| 0 <= k < |b| && b[k] == x;
    assert (a + b)[|a| + k] == x;
  }

  lemma {:induction false} UntouchedIs(staged: seq<StagedOp>, ops: seq<Op>, env: Env, x: StagedOp)
    ensures x in Untouched(staged, ops, env) <==> x in staged && !TouchedKey(ops, env, PrimaryPath(x.op))
  {
    hide TouchedKey, PrimaryPath;
    if staged != [] {
      var front, last := staged[..|staged| - 1], staged[|staged| - 1];
      assert staged == front + [last];
      UntouchedIs(front, ops, env, x);
    }
  }

  lemma SortedHas(all: seq<StagedOp>, x: StagedOp)
    ensures x in StableSort(all, SeqKey) <==> x in all
  {
    StableSortSorts(all, SeqKey);
    hide StableSort;
    SameMembers(all, StableSort(all, SeqKey));
    SameMembers(StableSort(all, SeqKey), all);
  }

  // ----- the client's view over a whole catchup -----

  /** No incoming op is decided in a way that leaves the view behind. */
  ghost predicate NoneStrays(l: Local, ops: seq<Op>, staged: seq<StagedOp>, t: Tree, env: Env) {
    forall n :: 0 <= n < |ops| ==>
      !Strays(ops[n], Decide(PassAll(l, ops[..n], staged, env), ops[n], staged, env), Apply(ops[..n], t))
  }

  ghost predicate ValidLog(staged: seq<StagedOp>) { forall i :: 0 <= i < |staged| ==> ValidateOp(staged[i].op) }

  lemma {:induction false} StagedAtValid(staged: seq<StagedOp>, p: Path)
    requires ValidLog(staged)
    ensures StagedAt(staged, p).Some? ==> ValidateOp(StagedAt(staged, p).value)
  {
    if staged != [] { StagedAtValid(staged[..|staged| - 1], p); }
  }

  /** Well-formed writes and deletes that no ignore rule keeps out. */
  ghost predicate PlainCatchup(ops: seq<Op>, env: Env) {
    forall i :: 0 <= i < |ops| ==> ValidateOp(ops[i]) && WriteOrDelete(ops[i]) && !env.excluded(ops[i].path)
  }

  lemma StraysFront(l: Local, ops: seq<Op>, staged: seq<StagedOp>, t: Tree, env: Env)
    requires NoneStrays(l, ops, staged, t, env) && ops != []
    ensures NoneStrays(l, ops[..|ops| - 1], staged, t, env)
  {
    var front := ops[..|ops| - 1];
    forall n | 0 <= n < |front|
      ensures !Strays(front[n], Decide(PassAll(l, front[..n], staged, env), front[n], staged, env),
                      Apply(front[..n], t))
    {
      assert front[..n] == ops[..n];
    }
  }

  /** After a catchup that never strays the manifest and the merge bases are those of the new server
      tree, however many of its ops share a path. */
  lemma {:induction false} CatchupTracks(l: Local, ops: seq<Op>, staged: seq<StagedOp>, t: Tree, env: Env)
    requires PlainCatchup(ops, env) && ValidLog(staged) && Tracks(l, t) && NoneStrays(l, ops, staged, t, env)
    ensures Tracks(PassAll(l, ops, staged, env).local, Apply(ops, t))
  {
    if ops != [] {
      var front, op := ops[..|ops| - 1], ops[|ops| - 1];
      StraysFront(l, ops, staged, t, env);
      assert !Strays(op, Decide(PassAll(l, front, staged, env), op, staged, env), Apply(front, t));
      hide Strays, Decide, NoneStrays;
      CatchupTracks(l, front, staged, t, env);
      LastTracks(PassAll(l, front, staged, env), op, staged, Apply(front, t), env);
    }
  }

  lemma LastTracks(p: Pass, op: Op, staged: seq<StagedOp>, t: Tree, env: Env)
    requires ValidateOp(op) && WriteOrDelete(op) && !env.excluded(op.path) && ValidLog(staged) && Tracks(p.local, t)
    requires !Strays(op, Decide(p, op, staged, env), t)
    ensures Tracks(PassStep(p, op, staged, env).local, ApplyOp(op, t))
  {
    StagedAtValid(staged, op.path);
    TracksUnlessStrays(p.local, op, StagedAt(staged, op.path), ContextFor(env, p.local, op), t);
  }

  /** With nothing staged no catchup strays. */
  lemma NothingStagedTracks(l: Local, ops: seq<Op>, t: Tree, env: Env)
    requires PlainCatchup(ops, env) && Tracks(l, t)
    ensures Tracks(PassAll(l, ops, [], env).local, Apply(ops, t)) && Rebased(l, ops, [], env) == []
  {
    CatchupTracks(l, ops, [], t, env);
    NothingKept(l, ops, env);
  }

  lemma {:induction false} NothingKept(l: Local, ops: seq<Op>, env: Env)
    ensures PassAll(l, ops, [], env).kept == []
  {
    if ops != [] { NothingKept(l, ops[..|ops| - 1], env); }
  }

  /** A staged edit whose conflicts are written into the file itself. */
  predicate TextWrite(s: StagedOp, env: Env) {
    s.op.ty.OpWrite? && !s.op.binary && IsText(Payload(s.op)) && FormatFor(s.op.path, env.gitMode) != FormatSidecar
  }

  lemma {:induction false} StagedAtFrom(staged: seq<StagedOp>, p: Path)
    requires StagedAt(staged, p).Some?
    ensures exists i :: 0 <= i < |staged| && staged[i].op == StagedAt(staged, p).value && PrimaryPath(staged[i].op) == p
  {
    var last := staged[|staged| - 1].op;
    if last.ty.OpUnknown? || PrimaryPath(last) != p {
      StagedAtFrom(staged[..|staged| - 1], p);
      var i :| 0 <= i < |staged| - 1 && staged[..|staged| - 1][i].op == StagedAt(staged, p).value
            && PrimaryPath(staged[..|staged| - 1][i].op) == p;
      assert staged[i].op == StagedAt(staged, p).value;
    }
  }

  /** With nothing but such edits staged, no catchup strays. */
  lemma TextEditsKeepView(l: Local, ops: seq<Op>, staged: seq<StagedOp>, t: Tree, env: Env)
    requires PlainCatchup(ops, env) && ValidLog(staged) && forall i :: 0 <= i < |staged| ==> TextWrite(staged[i], env)
    ensures NoneStrays(l, ops, staged, t, env)
  {
    forall n | 0 <= n < |ops|
      ensures !Strays(ops[n], Decide(PassAll(l, ops[..n], staged, env), ops[n], staged, env), Apply(ops[..n], t))
    {
      var p := PassAll(l, ops[..n], staged, env);
      var s := StagedAt(staged, ops[n].path);
      StagedAtValid(staged, ops[n].path);
      if s.Some? {
        StagedAtFrom(staged, ops[n].path);
        var i :| 0 <= i < |staged| && staged[i].op == s.value && PrimaryPath(staged[i].op) == ops[n].path;
        assert TextWrite(staged[i], env);
      }
      StraysIff(ops[n], s, ContextFor(env, p.local, ops[n]), Apply(ops[..n], t));
    }
  }
}
