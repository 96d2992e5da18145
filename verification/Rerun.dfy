/** The same catchup applied twice, as happens when a crash hits before base.json is written. */
module Reruns {
  import opened Wrappers
  import opened Protocol
  import opened Paths
  import opened Faithfulness
  import opened Classification
  import opened Rebasing
  import opened Texts
  import opened Merging
  import opened MergedText

  /** The text tools: the modelled merge, a conflict rendering that makes text of text, and a notice that
      does so too and always adds something. */
  ghost predicate GoodTools(tools: Tools, diff: Differ) {
    && GoodDiffer(diff)
    && (forall b, s, c :: tools.merge3(b, s, c) == MergeText(diff, b, s, c))
    && (forall f, b, s, c :: IsText(s) && IsText(c) ==> IsText(tools.conflict(f, b, s, c)))
    && (forall f, c :: IsText(c) ==> IsText(tools.notice(f, c)))
    && (forall f, c :: |tools.notice(f, c)| > |c|)
  }

  /** The stores and the staged op on the path, after the op came in. */
  datatype Outcome = Outcome(local: Local, here: Option<Op>)

  function Incoming(l: Local, op: Op, staged: Option<Op>, env: Env): Outcome {
    var d := Classify(op, staged, ContextFor(env, l, op));
    Outcome(Applied(l, op, d),
            if d.replacement.Some? && d.replacement.value.path == op.path then d.replacement else None)
  }

  /** The catchup is replayed from the start when a crash hits between the staged log and base.json. */
  ghost predicate RerunIsIdle(l: Local, op: Op, staged: Option<Op>, env: Env) {
    var once := Incoming(l, op, staged, env);
    Incoming(once.local, op, once.here, env) == once
  }

  lemma MapTwice<V>(m: map<Path, V>, a: Path, x: V, p: Path, y: V)
    ensures m[p := y][p := y] == m[p := y] && m - {p} - {p} == m - {p}
    ensures a != p ==> m[a := x][p := y][a := x][p := y] == m[a := x][p := y]
    ensures a != p ==> (m[a := x] - {p})[a := x] - {p} == m[a := x] - {p}
    ensures m[a := x][a := x] == m[a := x]
  {
  }

  lemma SidecarTwice(l: Local, op: Op, d: Decision)
    requires WriteOrDelete(op) && d.action.ActionWriteSidecar? && d.sidecarPath != op.path
    ensures Applied(Applied(l, op, d), op, d) == Applied(l, op, d)
  {
    var a, p, side := d.sidecarPath, op.path, Bytes(d.sidecarContent);
    MapTwice(l.disk, a, side, p, side);
    MapTwice(l.base, p, Payload(op), p, Payload(op));
    MapTwice(l.manifest, a, HashOf(side), p, HashOf(Payload(op)));
  }

  lemma InPlaceTwice(l: Local, op: Op, d: Decision)
    requires WriteOrDelete(op) && !d.action.ActionApplyRename? && !d.action.ActionWriteSidecar?
    ensures Applied(Applied(l, op, d), op, d) == Applied(l, op, d)
  {
    var p, c := op.path, Bytes(d.content);
    MapTwice(l.disk, p, c, p, c);
    MapTwice(l.base, p, Payload(op), p, c);
    MapTwice(l.manifest, p, HashOf(Payload(op)), p, HashOf(c));
  }

  /** Carrying out one decision twice is carrying it out once. */
  lemma AppliedTwice(l: Local, op: Op, d: Decision)
    requires WriteOrDelete(op) && !d.action.ActionApplyRename? && d.sidecarPath != op.path
    ensures Applied(Applied(l, op, d), op, d) == Applied(l, op, d)
  {
    hide Applied;
    if d.action.ActionWriteSidecar? { SidecarTwice(l, op, d); } else { InPlaceTwice(l, op, d); }
  }

  lemma RerunNothingStaged(l: Local, op: Op, env: Env)
    requires ValidateOp(op) && WriteOrDelete(op)
    ensures RerunIsIdle(l, op, None, env)
  {
    var d := Classify(op, None, ContextFor(env, l, op));
    AppliedTwice(l, op, d.(sidecarPath := op.path + "x"));
    hide ManifestOf;
  }

  lemma RerunWriteOverDelete(l: Local, op: Op, s: Op, env: Env)
    requires ValidateOp(op) && op.ty.OpWrite? && ValidateOp(s) && s.ty.OpDelete? && s.path == op.path
    ensures RerunIsIdle(l, op, Some(s), env)
  {
    SidecarLonger(op.path, Stamp(op));
    var d := Classify(op, Some(s), ContextFor(env, l, op));
    var once := Incoming(l, op, Some(s), env);
    assert once.here == d.replacement;
    hide SidecarPath, Stamp;
    AppliedTwice(l, op, d);
  }

  /** The first decision over a staged edit that stays in place, and the text it leaves. */
  lemma FirstInPlace(op: Op, s: Op, ctx: Context, diff: Differ)
    requires GoodTools(ctx.tools, diff)
    requires ValidateOp(op) && op.ty.OpWrite? && ValidateOp(s) && s.ty.OpWrite? && s.path == op.path
    requires StaysInPlace(op, s, ctx)
    ensures var d, text := Classify(op, Some(s), ctx), InPlaceText(op, s, ctx);
            && (d.action.ActionAutoMerge? || d.action.ActionWriteConflict?) && d.content == Some(text)
            && d.sidecarPath == ""
            && d.replacement == Some(KeptWrite(s, op.path, Some(text), Some(HashOf(Payload(op))))) && IsText(text)
  {
    assert Diffs(diff, ctx.base, Payload(op)) && Diffs(diff, ctx.base, Payload(s));
    assert ctx.tools.merge3(ctx.base, Payload(op), Payload(s)) == MergeText(diff, ctx.base, Payload(op), Payload(s));
    MergeIsText(diff, ctx.base, Payload(op), Payload(s));
    hide MergeText, IsText, FormatFor, Diffs;
  }

  /** The second one: the server side is the base now, so it merges the text once more. */
  lemma SecondInPlace(op: Op, r: Op, text: Content, c: Context, diff: Differ) returns (again: Content)
    requires GoodTools(c.tools, diff) && c.base == Payload(op)
    requires ValidateOp(op) && op.ty.OpWrite? && !op.binary && IsText(Payload(op)) && IsText(text)
    requires r.ty.OpWrite? && r.path == op.path && !r.binary && r.data == Some(text)
    ensures again == text <==> Settled(text, Payload(op))
    ensures Classify(op, Some(r), c) == Decision(ActionAutoMerge, Some(again), "", None, KindNone, FormatNone,
                                                 Some(KeptWrite(r, op.path, Some(again), Some(HashOf(Payload(op))))))
  {
    var s := Payload(op);
    assert Diffs(diff, s, text) && Diffs(diff, s, s) && SideOf(diff, s, s) == [];
    assert c.tools.merge3(s, s, text) == MergeText(diff, s, s, text);
    MergeAgainIff(diff, s, text);
    again := MergeText(diff, s, s, text).value;
    hide MergeText, IsText, FormatFor, Diffs;
  }

  /** A write over an edit that stays in place, replayed: idle exactly when the text on disk settles. */
  lemma RerunInPlaceIff(l: Local, op: Op, s: Op, env: Env, diff: Differ)
    requires GoodTools(env.tools, diff)
    requires ValidateOp(op) && op.ty.OpWrite? && ValidateOp(s) && s.ty.OpWrite? && s.path == op.path
    requires StaysInPlace(op, s, ContextFor(env, l, op))
    ensures RerunIsIdle(l, op, Some(s), env) <==> Settled(InPlaceText(op, s, ContextFor(env, l, op)), Payload(op))
  {
    hide Classify, GoodTools, InPlaceText, StaysInPlace, MergeText, Settled, Diffs, SideOf;
    var ctx := ContextFor(env, l, op);
    var d, text := Classify(op, Some(s), ctx), InPlaceText(op, s, ctx);
    FirstInPlace(op, s, ctx, diff);
    InPlaceFacts(op, s, ctx);
    var once := Applied(l, op, d);
    assert Incoming(l, op, Some(s), env) == Outcome(once, d.replacement);
    assert once == PutServer(l.(disk := l.disk[op.path := text]), op);
    var r, c := d.replacement.value, ContextFor(env, once, op);
    var again := SecondInPlace(op, r, text, c, diff);
    PutTwice(once, op, text, again);
  }

  lemma InPlaceFacts(op: Op, s: Op, ctx: Context)
    requires StaysInPlace(op, s, ctx)
    ensures !op.binary && !s.binary && IsText(Payload(op))
  {
  }

  lemma PutTwice(l: Local, op: Op, text: Content, again: Content)
    requires op.ty.OpWrite? && op.path in l.disk && l.disk[op.path] == text
    requires op.path in l.base && l.base[op.path] == Payload(op)
    requires op.path in l.manifest && l.manifest[op.path] == HashOf(Payload(op))
    ensures PutServer(l.(disk := l.disk[op.path := again]), op) == l <==> again == text
  {
    var twice := PutServer(l.(disk := l.disk[op.path := again]), op);
    assert twice.disk[op.path] == again;
    assert twice.base == l.base && twice.manifest == l.manifest;
    if again == text { assert twice.disk == l.disk; }
  }

  /** A write over an edit that went to the sidecar meets nothing the second time. */
  lemma RerunOverSidecar(l: Local, op: Op, s: Op, env: Env)
    requires ValidateOp(op) && op.ty.OpWrite? && ValidateOp(s) && s.ty.OpWrite? && s.path == op.path
    requires !StaysInPlace(op, s, ContextFor(env, l, op))
    ensures RerunIsIdle(l, op, Some(s), env)
  {
    SidecarLonger(op.path, Stamp(op));
    var d := Classify(op, Some(s), ContextFor(env, l, op));
    var once := Incoming(l, op, Some(s), env);
    assert d.action.ActionApply? && d.content == op.data && once.here == None;
    assert Classify(op, None, ContextFor(env, once.local, op)) == Plain(ActionApply, op.data);
    hide Classify, StaysInPlace, SidecarPath, Stamp;
    AppliedTwice(l, op, d);
  }

  /** An edit that went to the sidecar leaves nothing to meet the deletion the second time. */
  lemma RerunDeleteOverBinary(l: Local, op: Op, s: Op, env: Env)
    requires ValidateOp(op) && op.ty.OpDelete? && ValidateOp(s) && s.ty.OpWrite? && s.path == op.path
    requires !TextWrite(StagedOp(s, false), env)
    ensures RerunIsIdle(l, op, Some(s), env)
  {
    SidecarLonger(op.path, Stamp(op));
    var once := Incoming(l, op, Some(s), env);
    assert once.here == None;
    hide SidecarPath, Stamp, FormatFor, IsText;
    assert once.local.disk - {op.path} == once.local.disk;
    assert once.local.base - {op.path} == once.local.base;
    assert once.local.manifest - {op.path} == once.local.manifest;
  }

  /** An edit that stayed on its path is met once more, and noticed once more. */
  lemma RerunDeleteOverText(l: Local, op: Op, s: Op, env: Env, diff: Differ)
    requires ValidateOp(op) && op.ty.OpDelete? && ValidateOp(s) && s.ty.OpWrite? && s.path == op.path
    requires GoodTools(env.tools, diff) && TextWrite(StagedOp(s, false), env)
    ensures !RerunIsIdle(l, op, Some(s), env)
  {
    var format := FormatFor(s.path, env.gitMode);
    var text := env.tools.notice(format, Payload(s));
    var again := env.tools.notice(format, text);
    var once := Incoming(l, op, Some(s), env);
    assert IsText(text) && |again| > |text|;
    assert once.here == Some(KeptWrite(s, op.path, Some(text), None));
    assert Incoming(once.local, op, once.here, env).here == Some(KeptWrite(s, op.path, Some(again), None));
  }

  lemma RerunDeleteOverDeleteIff(l: Local, op: Op, s: Op, env: Env)
    requires ValidateOp(op) && op.ty.OpDelete? && ValidateOp(s) && s.ty.OpDelete? && s.path == op.path
    ensures RerunIsIdle(l, op, Some(s), env) <==> op.path !in l.disk && op.path !in l.base && op.path !in l.manifest
  {
    var once := Incoming(l, op, Some(s), env);
    assert once == Outcome(l, None);
    var twice := Incoming(l, op, None, env);
    assert twice.local == Local(l.disk - {op.path}, l.base - {op.path}, l.manifest - {op.path});
    if twice == once {
      assert op.path !in once.local.disk && op.path !in once.local.base && op.path !in once.local.manifest;
    }
  }

  /** Replaying an incoming write or delete is idle except in three cases: a write over an edit that stays
      in place, when the text on disk does not settle; a deletion over such an edit, which gets a second
      notice; and a deletion over a deletion, which only the second time is recorded. */
  lemma RerunIff(l: Local, op: Op, staged: Option<Op>, env: Env, diff: Differ)
    requires GoodTools(env.tools, diff)
    requires ValidateOp(op) && WriteOrDelete(op)
    requires staged.Some? ==>
      ValidateOp(staged.value) && WriteOrDelete(staged.value) && staged.value.path == op.path
    ensures RerunIsIdle(l, op, staged, env) <==> (staged.Some? ==> Repeats(l, op, staged.value, env))
  {
    hide RerunIsIdle;
    if staged.None? {
      RerunNothingStaged(l, op, env);
    } else {
      var s := staged.value;
      match (op.ty, s.ty)
      case (OpWrite, OpWrite) =>
        if StaysInPlace(op, s, ContextFor(env, l, op)) { RerunInPlaceIff(l, op, s, env, diff); }
        else { RerunOverSidecar(l, op, s, env); }
      case (OpWrite, OpDelete) => RerunWriteOverDelete(l, op, s, env);
      case (OpDelete, OpWrite) =>
        if TextWrite(StagedOp(s, false), env) { RerunDeleteOverText(l, op, s, env, diff); }
        else { RerunDeleteOverBinary(l, op, s, env); }
      case (OpDelete, OpDelete) => RerunDeleteOverDeleteIff(l, op, s, env);
    }
  }

  /** The condition, read off the two ops, the stores and the text left on disk. */
  predicate Repeats(l: Local, op: Op, s: Op, env: Env) {
    match (op.ty, s.ty)
    case (OpWrite, OpWrite) =>
      var ctx := ContextFor(env, l, op);
      StaysInPlace(op, s, ctx) ==> Settled(InPlaceText(op, s, ctx), Payload(op))
    case (OpDelete, OpWrite) => !TextWrite(StagedOp(s, false), env)
    case (OpDelete, OpDelete) => op.path !in l.disk && op.path !in l.base && op.path !in l.manifest
    case _ => true
  }

  lemma TrimmedOnce(diff: Differ)
    requires GoodDiffer(diff)
    ensures MergeText(diff, "y\n", "y\n", "y\n\n\n\n") == Some("y\n\n")
  {
    var base, side := "y\n", "y\n\n\n\n";
    assert Diffs(diff, base, base) && Diffs(diff, base, side) && SideOf(diff, base, base) == [];
    ClientSideMerges(diff, base, base, side);
    JoinedSide(base, side);
    assert Chomp(side) == "y\n\n\n" && Chomp(Chomp(side)) == "y\n\n";
    hide MergeText, SplitLines, Join, Seen, Unseen, Diffs, SideOf;
  }

  /** A concrete run: the incoming text is the base already, the staged one ends in empty lines, and each
      replay takes one of them away. */
  lemma EachReplayTrims(l: Local, env: Env, diff: Differ)
    requires GoodTools(env.tools, diff) && "a.md" in l.base && l.base["a.md"] == "y\n"
    ensures var op, s := Write("a.md", 1, None, "y\n"), Write("a.md", 2, None, "y\n\n\n\n");
            InPlaceText(op, s, ContextFor(env, l, op)) == "y\n\n" && !RerunIsIdle(l, op, Some(s), env)
  {
    var op, s := Write("a.md", 1, None, "y\n"), Write("a.md", 2, None, "y\n\n\n\n");
    var ctx := ContextFor(env, l, op);
    TrimmedOnce(diff);
    assert ctx.tools.merge3("y\n", "y\n", Payload(s)) == Some("y\n\n");
    hide MergeText, RerunIsIdle, FormatFor, GoodDiffer;
    assert StaysInPlace(op, s, ctx) && InPlaceText(op, s, ctx) == "y\n\n";
    RerunInPlaceIff(l, op, s, env, diff);
  }
}
