/** What a catchup does to the files: with nothing staged, beside what is staged, and over what is staged. */
module Effects {
  import opened Wrappers
  import opened Sorting
  import opened Protocol
  import opened Paths
  import opened Faithfulness
  import opened Classification
  import opened Rebasing

  // ----- with nothing staged -----

  /** Disk, merge bases and manifest are all those of t. */
  ghost predicate InSync(l: Local, t: Tree) { l.disk == t && Tracks(l, t) }

  /** Well-formed ops, renames included, that no ignore rule keeps out. */
  ghost predicate GoodCatchup(ops: seq<Op>, env: Env) {
    forall i :: 0 <= i < |ops| ==> ValidateOp(ops[i]) && !env.excluded(TargetPath(ops[i]))
  }

  lemma OneSyncs(p: Pass, op: Op, t: Tree, env: Env)
    requires ValidateOp(op) && !env.excluded(TargetPath(op)) && InSync(p.local, t)
    requires op.ty.OpRename? ==> op.from in t || op.to !in t
    ensures InSync(PassStep(p, op, [], env).local, ApplyOp(op, t))
  {
    if op.ty.OpRename? {
      RenameTracks(op.from, op.to, t);
    } else {
      assert op.ty.OpWrite? ==> ManifestOf(ApplyOp(op, t)) == ManifestOf(t)[op.path := HashOf(Payload(op))];
      assert op.ty.OpDelete? ==> ManifestOf(ApplyOp(op, t)) == ManifestOf(t) - {op.path};
    }
  }

  /** With nothing staged, any catchup takes files, bases and manifest from one server tree to the next. */
  lemma {:induction false} CatchupSyncs(l: Local, ops: seq<Op>, t: Tree, env: Env)
    requires GoodCatchup(ops, env) && RenamesFind(ops, t) && InSync(l, t)
    ensures InSync(PassAll(l, ops, [], env).local, Apply(ops, t))
  {
    if ops != [] {
      var front, op := ops[..|ops| - 1], ops[|ops| - 1];
      RenamesFindFront(ops, t);
      hide InSync, RenamesFind;
      CatchupSyncs(l, front, t, env);
      OneSyncs(PassAll(l, front, [], env), op, Apply(front, t), env);
    }
  }

  // ----- beside what is staged -----

  /** No staged op touches the path, and no incoming op that meets a staged one has it for its sidecar. */
  ghost predicate OutOfReach(q: Path, ops: seq<Op>, staged: seq<StagedOp>) {
    && (forall i :: 0 <= i < |staged| ==> !Touches(staged[i].op, q))
    && (forall i :: 0 <= i < |ops| && StagedAt(staged, PrimaryPath(ops[i])).Some? ==>
          q != SidecarPath(TargetPath(ops[i]), Stamp(ops[i])))
  }

  /** File, base and manifest entry of the path are as in t. */
  ghost predicate Agrees(l: Local, t: Tree, q: Path) {
    && Lookup(l.disk, q) == Lookup(t, q) && Lookup(l.base, q) == Lookup(t, q)
    && (q in l.manifest <==> q in t) && (q in t ==> l.manifest[q] == HashOf(t[q]))
  }

  lemma StagedTouches(staged: seq<StagedOp>, q: Path)
    requires ValidLog(staged)
    ensures StagedAt(staged, q).Some? ==> exists i :: 0 <= i < |staged| && Touches(staged[i].op, q)
  {
    if StagedAt(staged, q).Some? {
      StagedAtFrom(staged, q);
      var i :| 0 <= i < |staged| && staged[i].op == StagedAt(staged, q).value && PrimaryPath(staged[i].op) == q;
      assert ValidateOp(staged[i].op);
      PrimaryIsTouched(staged[i].op);
    }
  }

  lemma NothingThere(q: Path, ops: seq<Op>, staged: seq<StagedOp>)
    requires ValidLog(staged) && OutOfReach(q, ops, staged)
    ensures StagedAt(staged, q) == None
  {
    StagedTouches(staged, q);
  }

  lemma MetHere(l: Local, op: Op, d: Decision, t: Tree, q: Path)
    requires ValidateOp(op) && WriteOrDelete(op) && q == op.path
    requires d == if op.ty.OpWrite? then Plain(ActionApply, op.data) else Plain(ActionApplyDelete, None)
    ensures Agrees(Applied(l, op, d), ApplyOp(op, t), q)
  {
  }

  lemma MetElsewhere(l: Local, op: Op, d: Decision, t: Tree, q: Path)
    requires WriteOrDelete(op) && !d.action.ActionApplyRename? && q != op.path && Agrees(l, t, q)
    requires d.action.ActionWriteSidecar? ==> q != d.sidecarPath
    ensures Agrees(Applied(l, op, d), ApplyOp(op, t), q)
  {
    assert PrimaryPath(op) == op.path;
  }

  lemma MetRename(l: Local, op: Op, t: Tree, q: Path)
    requires op.ty.OpRename? && (op.from in t || op.to !in t)
    requires Agrees(l, t, q) && Agrees(l, t, op.from)
    ensures Agrees(Applied(l, op, Plain(ActionApplyRename, None)), ApplyOp(op, t), q)
  {
    assert op.from in l.disk <==> Lookup(l.disk, op.from).Some?;
    assert op.from in l.base <==> Lookup(l.base, op.from).Some?;
  }

  lemma AgreesStep(p: Pass, ops: seq<Op>, n: nat, staged: seq<StagedOp>, env: Env, t: Tree, q: Path)
    requires n < |ops| && GoodCatchup(ops, env) && ValidLog(staged) && OutOfReach(q, ops, staged)
    requires Agrees(p.local, t, q)
    requires var op := ops[n];
             op.ty.OpRename? ==>
               OutOfReach(op.from, ops, staged) && Agrees(p.local, t, op.from) && (op.from in t || op.to !in t)
    ensures Agrees(PassStep(p, ops[n], staged, env).local, ApplyOp(ops[n], t), q)
  {
    var op, d := ops[n], Decide(p, ops[n], staged, env);
    assert ValidateOp(op) && !env.excluded(TargetPath(op));
    hide Agrees, Applied, GoodCatchup, SidecarPath, Stamp;
    if op.ty.OpRename? {
      NothingThere(op.from, ops, staged);
      MetRename(p.local, op, t, q);
    } else if q == op.path {
      NothingThere(q, ops, staged);
      MetHere(p.local, op, d, t, q);
    } else {
      StagedAtValid(staged, op.path);
      DecisionShape(op, StagedAt(staged, op.path), ContextFor(env, p.local, op));
      hide Classify;
      MetElsewhere(p.local, op, d, t, q);
    }
  }

  /** Whatever is staged, out of its reach files, bases and manifest follow the server through any catchup that
      renames nothing within its reach. */
  lemma {:induction false} OthersFollow(l: Local, ops: seq<Op>, n: nat, staged: seq<StagedOp>, t: Tree, env: Env,
                                        q: Path)
    requires n <= |ops| && GoodCatchup(ops, env) && ValidLog(staged) && RenamesFind(ops, t)
    requires forall p :: OutOfReach(p, ops, staged) ==> Agrees(l, t, p)
    requires forall i :: 0 <= i < |ops| && ops[i].ty.OpRename? ==> OutOfReach(ops[i].from, ops, staged)
    requires OutOfReach(q, ops, staged)
    ensures Agrees(PassAll(l, ops[..n], staged, env).local, Apply(ops[..n], t), q)
    decreases n
  {
    hide Agrees, GoodCatchup, OutOfReach, ValidLog, PassStep, ApplyOp;
    if n == 0 {
      assert ops[..0] == [];
    } else {
      var m: nat, op := n - 1, ops[n - 1];
      assert ops[..n][..m] == ops[..m];
      OthersFollow(l, ops, m, staged, t, env, q);
      if op.ty.OpRename? {
        OthersFollow(l, ops, m, staged, t, env, op.from);
        assert op.from in Apply(ops[..m], t) || op.to !in Apply(ops[..m], t);
      }
      AgreesStep(PassAll(l, ops[..m], staged, env), ops, m, staged, env, Apply(ops[..m], t), q);
    }
  }

  lemma CatchupFollows(l: Local, ops: seq<Op>, staged: seq<StagedOp>, t: Tree, env: Env)
    requires GoodCatchup(ops, env) && ValidLog(staged) && RenamesFind(ops, t)
    requires forall p :: OutOfReach(p, ops, staged) ==> Agrees(l, t, p)
    requires forall i :: 0 <= i < |ops| && ops[i].ty.OpRename? ==> OutOfReach(ops[i].from, ops, staged)
    ensures forall q :: OutOfReach(q, ops, staged) ==> Agrees(PassAll(l, ops, staged, env).local, Apply(ops, t), q)
  {
    assert ops[..|ops|] == ops;
    hide Agrees, OutOfReach, GoodCatchup, ValidLog;
    forall q | OutOfReach(q, ops, staged) ensures Agrees(PassAll(l, ops, staged, env).local, Apply(ops, t), q) {
      OthersFollow(l, ops, |ops|, staged, t, env, q);
    }
  }

  // ----- over what is staged -----

  /** What one incoming op over one staged op on its key leaves: the stores, and the staged log. */
  datatype After = After(local: Local, log: seq<StagedOp>)

  function Over(l: Local, op: Op, s: StagedOp, env: Env): After {
    After(PassAll(l, [op], [s], env).local, Rebased(l, [op], [s], env))
  }

  ghost predicate Meet(op: Op, s: StagedOp, env: Env) {
    ValidateOp(op) && ValidateOp(s.op) && PrimaryPath(s.op) == PrimaryPath(op) && !env.excluded(TargetPath(op))
  }

  function BaseText(l: Local, p: Path): Content { if p in l.base then l.base[p] else "" }

  lemma OverIs(l: Local, op: Op, s: StagedOp, env: Env)
    requires Meet(op, s, env)
    ensures var d := Classify(op, Some(s.op), Context(BaseText(l, PrimaryPath(op)), env.gitMode, Stamp(op), env.tools));
            Over(l, op, s, env) == After(Applied(l, op, d),
                                         if d.replacement.Some?
                                           then [StagedOp(d.replacement.value, env.freeze)] else [])
  {
    var d := Classify(op, Some(s.op), ContextFor(env, l, op));
    assert [op][..0] == [] && [s][..0] == [];
    assert StagedAt([s], PrimaryPath(op)) == Some(s.op);
    assert PassAll(l, [], [s], env) == Pass(l, []);
    hide Classify, Applied, ContextFor;
    assert TouchedKey([op], env, PrimaryPath(s.op)) by { assert [op][0] == op; }
    assert Untouched([s], [op], env) == [];
    var kept := PassAll(l, [op], [s], env).kept;
    assert kept == (if d.replacement.Some? then [StagedOp(d.replacement.value, env.freeze)] else []);
    assert kept + [] == kept;
    SortOne(kept);
  }

  lemma SortOne(kept: seq<StagedOp>)
    requires |kept| <= 1
    ensures StableSort(kept, SeqKey) == kept
  {
    if kept != [] { assert kept[1..] == [] && kept == [kept[0]]; }
  }

  /** The write and the delete that survive of a staged op. */
  function Rewritten(s: StagedOp, path: Path, data: Option<Content>, preHash: Option<Hash>, env: Env): StagedOp {
    StagedOp(Op(s.op.seqno, OpWrite, path, "", "", data, false, preHash, s.op.ts, ""), env.freeze)
  }

  function Redeleted(s: StagedOp, path: Path, preHash: Option<Hash>, env: Env): StagedOp {
    StagedOp(Op(s.op.seqno, OpDelete, path, "", "", None, false, preHash, s.op.ts, ""), env.freeze)
  }

  function SidecarOf(op: Op): Path { SidecarPath(TargetPath(op), Stamp(op)) }

  /** A rename moves file, base and entry; over a staged write the edit is re-sent to the new name as a creation,
      a staged delete follows the file, and a staged rename of the same file gives way. */
  lemma RenameOver(l: Local, op: Op, s: StagedOp, env: Env)
    requires Meet(op, s, env) && op.ty.OpRename?
    ensures Over(l, op, s, env) == After(
              Local(Moved(l.disk, op.from, op.to), Moved(l.base, op.from, op.to), Moved(l.manifest, op.from, op.to)),
              match s.op.ty
              case OpWrite => [Rewritten(s, op.to, s.op.data, None, env)]
              case OpDelete => [Redeleted(s, op.to, s.op.preHash, env)]
              case _ => [])
  {
    OverIs(l, op, s, env);
    hide SidecarPath, FormatFor, IsText;
  }

  /** A write over a staged delete is put beside the file, which stays deleted; over a staged rename it takes the
      old name, and the rename becomes a write without data. */
  lemma WriteOverOthers(l: Local, op: Op, s: StagedOp, env: Env)
    requires Meet(op, s, env) && op.ty.OpWrite? && !s.op.ty.OpWrite?
    ensures var p, side, data := op.path, SidecarOf(op), op.data.value;
            Over(l, op, s, env) ==
              if s.op.ty.OpDelete?
              then After(Local(l.disk[side := data], l.base[p := data],
                               l.manifest[side := HashOf(data)][p := HashOf(data)]),
                         [Redeleted(s, p, Some(HashOf(data)), env)])
              else After(Local(l.disk[p := data], l.base[p := data], l.manifest[p := HashOf(data)]),
                         [Rewritten(s, side, None, None, env)])
  {
    OverIs(l, op, s, env);
    hide SidecarPath, FormatFor, IsText;
  }

  /** A write over a staged edit: merged or shown as a conflict in the file, or else the incoming text takes
      the file and the edit is staged at the sidecar. Bases and entries are the server's. */
  lemma WriteOverEdit(l: Local, op: Op, s: StagedOp, env: Env)
    requires Meet(op, s, env) && op.ty.OpWrite? && s.op.ty.OpWrite?
    ensures var p, base, theirs, ours := op.path, BaseText(l, op.path), op.data.value, s.op.data.value;
            var texts := !op.binary && !s.op.binary && IsText(theirs) && IsText(ours);
            var merged, format := env.tools.merge3(base, theirs, ours), FormatFor(p, env.gitMode);
            var text := if merged.Some? then merged.value else env.tools.conflict(format, base, theirs, ours);
            Over(l, op, s, env) ==
              if texts && (merged.Some? || format != FormatSidecar)
              then After(Local(l.disk[p := text], l.base[p := theirs], l.manifest[p := HashOf(theirs)]),
                         [Rewritten(s, p, Some(text), Some(HashOf(theirs)), env)])
              else After(Local(l.disk[p := theirs], l.base[p := theirs], l.manifest[p := HashOf(theirs)]),
                         [Rewritten(s, SidecarOf(op), Some(ours), None, env)])
  {
    OverIs(l, op, s, env);
    hide SidecarPath, FormatFor, IsText;
  }

  /** A delete over a staged edit: the file is kept with a notice, or else goes and the edit is kept beside it. */
  lemma DeleteOverEdit(l: Local, op: Op, s: StagedOp, env: Env)
    requires Meet(op, s, env) && op.ty.OpDelete? && s.op.ty.OpWrite?
    ensures var p, side, format, ours := op.path, SidecarOf(op), FormatFor(op.path, env.gitMode), s.op.data.value;
            Over(l, op, s, env) ==
              if !s.op.binary && IsText(ours) && format != FormatSidecar
              then var text := env.tools.notice(format, ours);
                   After(Local(l.disk[p := text], l.base - {p}, l.manifest - {p}),
                         [Rewritten(s, p, Some(text), None, env)])
              else After(Local(l.disk[side := ours] - {p}, l.base - {p}, l.manifest[side := HashOf(ours)] - {p}),
                         [Rewritten(s, side, Some(ours), None, env)])
  {
    OverIs(l, op, s, env);
    hide SidecarPath, FormatFor, IsText;
  }

  /** Over a staged delete or rename it does nothing to the stores, and the rename becomes a write without data. */
  lemma DeleteOverOthers(l: Local, op: Op, s: StagedOp, env: Env)
    requires Meet(op, s, env) && op.ty.OpDelete? && !s.op.ty.OpWrite?
    ensures Over(l, op, s, env) == After(l, if s.op.ty.OpRename? then [Rewritten(s, s.op.to, None, None, env)] else [])
  {
    OverIs(l, op, s, env);
    hide SidecarPath, FormatFor, IsText;
  }

  /** Two renames of one file: bases and entries follow the server, but the file has already left its old name, so
      it keeps the client's new one, unless both chose the same or the content was at both names anyway. */
  lemma RenameOverRenameIff(l: Local, op: Op, s: StagedOp, env: Env, t: Tree)
    requires Meet(op, s, env) && op.ty.OpRename? && s.op.ty.OpRename? && op.from in t
    requires Tracks(l, t) && l.disk == ApplyOp(s.op, t)
    ensures var a := Over(l, op, s, env);
            && a.log == [] && Tracks(a.local, ApplyOp(op, t))
            && (InSync(a.local, ApplyOp(op, t)) <==>
                || s.op.to == op.to || s.op.to == op.from
                || (op.to != op.from && Lookup(t, op.to) == Lookup(t, op.from) == Lookup(t, s.op.to)))
  {
    var from, to, ours := op.from, op.to, s.op.to;
    RenameOver(l, op, s, env);
    RenameTracks(from, to, t);
    assert s.op.from == from;
    hide Over;
    var disk, u := Moved(l.disk, from, to), ApplyOp(op, t);
    if ours != from {
      assert disk == (t - {from})[ours := t[from]] && u == (t - {from})[to := t[from]];
      if ours != to { assert disk == u ==> Lookup(disk, to) == Lookup(u, to) && Lookup(disk, ours) == Lookup(u, ours); }
    } else {
      assert l.disk == t;
    }
  }

  // ----- no edit is lost -----

  /** What the text tools keep of one side: `keeps(text, base, side)`, whatever that means for a text. */
  ghost predicate Preserving(tools: Tools, keeps: (Content, Content, Content) -> bool) {
    && (forall b, s, c :: tools.merge3(b, s, c).Some? ==>
          keeps(tools.merge3(b, s, c).value, b, s) && keeps(tools.merge3(b, s, c).value, b, c))
    && (forall f, b, s, c :: keeps(tools.conflict(f, b, s, c), b, s) && keeps(tools.conflict(f, b, s, c), b, c))
    && (forall f, b, c :: keeps(tools.notice(f, c), b, c))
    && (forall b, c :: keeps(c, b, c))
  }

  /** Whatever merges, conflict blocks and notices keep of both sides, a catchup keeps: a staged edit survives in
      exactly one staged write, and incoming text is in the file. */
  lemma BothSidesKept(l: Local, op: Op, s: StagedOp, env: Env, keeps: (Content, Content, Content) -> bool)
    requires Meet(op, s, env) && WriteOrDelete(op) && s.op.ty.OpWrite? && Preserving(env.tools, keeps)
    ensures var a, base := Over(l, op, s, env), BaseText(l, op.path);
            && |a.log| == 1 && a.log[0].op.ty.OpWrite? && keeps(Payload(a.log[0].op), base, Payload(s.op))
            && (op.ty.OpWrite? ==> op.path in a.local.disk && keeps(a.local.disk[op.path], base, Payload(op)))
  {
    if op.ty.OpWrite? { WriteOverEdit(l, op, s, env); } else { DeleteOverEdit(l, op, s, env); }
    hide SidecarPath, FormatFor, IsText, PassAll, Rebased;
  }

  // ----- ignored ops and the frozen flag -----

  /** The ops that no ignore rule keeps out. */
  function Included(ops: seq<Op>, env: Env): seq<Op> {
    if ops == [] then []
    else
      var front, op := Included(ops[..|ops| - 1], env), ops[|ops| - 1];
      if env.excluded(TargetPath(op)) then front else front + [op]
  }

  lemma IncludedHas(ops: seq<Op>, env: Env, p: Path)
    ensures TouchedKey(Included(ops, env), env, p) <==> TouchedKey(ops, env, p)
  {
    if ops != [] {
      var front, op := ops[..|ops| - 1], ops[|ops| - 1];
      IncludedHas(front, env, p);
      KeySnoc(front, op, env, p);
      KeySnoc(Included(front, env), op, env, p);
      assert ops == front + [op];
    }
  }

  lemma KeySnoc(ops: seq<Op>, op: Op, env: Env, p: Path)
    ensures TouchedKey(ops + [op], env, p)
            <==> TouchedKey(ops, env, p) || (!env.excluded(TargetPath(op)) && PrimaryPath(op) == p)
  {
    var all := ops + [op];
    if TouchedKey(ops, env, p) {
      var i :| 0 <= i < |ops| && !env.excluded(TargetPath(ops[i])) && PrimaryPath(ops[i]) == p;
      assert all[i] == ops[i];
    }
    if !env.excluded(TargetPath(op)) && PrimaryPath(op) == p { assert all[|ops|] == op; }
  }

  lemma {:induction false} PassIncluded(l: Local, ops: seq<Op>, staged: seq<StagedOp>, env: Env)
    ensures PassAll(l, Included(ops, env), staged, env) == PassAll(l, ops, staged, env)
  {
    if ops != [] {
      var front, op := ops[..|ops| - 1], ops[|ops| - 1];
      PassIncluded(l, front, staged, env);
      var i := Included(front, env);
      assert (i + [op])[..|i|] == i;
      hide Decide, Applied;
    }
  }

  lemma {:induction false} UntouchedIncluded(staged: seq<StagedOp>, ops: seq<Op>, env: Env)
    ensures Untouched(staged, Included(ops, env), env) == Untouched(staged, ops, env)
  {
    if staged != [] {
      UntouchedIncluded(staged[..|staged| - 1], ops, env);
      IncludedHas(ops, env, PrimaryPath(staged[|staged| - 1].op));
      hide TouchedKey, Included;
    }
  }

  /** Ignored ops change nothing: neither the stores nor the staged log. */
  lemma IgnoredChangeNothing(l: Local, ops: seq<Op>, staged: seq<StagedOp>, env: Env)
    ensures PassAll(l, ops, staged, env) == PassAll(l, Included(ops, env), staged, env)
    ensures Rebased(l, ops, staged, env) == Rebased(l, Included(ops, env), staged, env)
    ensures forall i :: 0 <= i < |Included(ops, env)| ==> !env.excluded(TargetPath(Included(ops, env)[i]))
  {
    PassIncluded(l, ops, staged, env);
    UntouchedIncluded(staged, ops, env);
    NoneIgnored(ops, env);
  }

  lemma {:induction false} NoneIgnored(ops: seq<Op>, env: Env)
    ensures forall i :: 0 <= i < |Included(ops, env)| ==> !env.excluded(TargetPath(Included(ops, env)[i]))
  {
    if ops != [] { NoneIgnored(ops[..|ops| - 1], env); }
  }

  lemma {:induction false} KeptFrozen(l: Local, ops: seq<Op>, staged: seq<StagedOp>, env: Env)
    ensures forall x :: x in PassAll(l, ops, staged, env).kept ==> x.frozen == env.freeze
  {
    if ops != [] {
      KeptFrozen(l, ops[..|ops| - 1], staged, env);
      hide Decide, Applied;
    }
  }

  /** Every op of the new log is an old one that nothing came in for, as it was, or carries the mode's flag. */
  lemma FrozenIs(l: Local, ops: seq<Op>, staged: seq<StagedOp>, env: Env, x: StagedOp)
    requires x in Rebased(l, ops, staged, env)
    ensures x.frozen == env.freeze || (x in staged && !TouchedKey(ops, env, PrimaryPath(x.op)))
  {
    var kept, rest := PassAll(l, ops, staged, env).kept, Untouched(staged, ops, env);
    KeptFrozen(l, ops, staged, env);
    UntouchedIs(staged, ops, env, x);
    SortedHas(kept + rest, x);
    hide PassAll, Untouched, StableSort, TouchedKey, PrimaryPath;
  }

  /** Sidecars of one file made at different times are different files. */
  lemma SidecarsApart(a: Op, b: Op)
    requires TargetPath(a) == TargetPath(b) && a.ts > 0 && b.ts > 0 && a.ts != b.ts
    ensures SidecarOf(a) != SidecarOf(b)
  {
    hide SidecarPath, Decimal;
    if SidecarOf(a) == SidecarOf(b) {
      SidecarsDiffer(TargetPath(a), Stamp(a), Stamp(b));
      DecimalInjective(a.ts, b.ts);
      assert false;
    }
  }

  // ----- formats -----

  lemma ExtIs(dir: string, stem: string, ext: string)
    requires IsDir(dir) && !Has(stem, '/') && ext != "" && ext[0] == '.'
    requires forall i :: 0 < i < |ext| ==> ext[i] != '.' && ext[i] != '/'
    ensures Ext(Base(dir + (stem + ext))) == ext
  {
    assert !Has(ext, '/');
    hide Ext, Base, Dir, Stem, IsDir;
    NoSlash(stem, ext);
    hide Has;
    SplitJoin(dir, stem + ext);
    ExtJoin(stem, ext);
  }

  /** The last element's extension alone decides how a conflict is shown; outside git mode a note gets a callout. */
  lemma FormatByExtension(dir: string, stem: string, dir': string, stem': string, ext: string, gitMode: bool)
    requires IsDir(dir) && !Has(stem, '/') && IsDir(dir') && !Has(stem', '/') && ext != "" && ext[0] == '.'
    requires forall i :: 0 < i < |ext| ==> ext[i] != '.' && ext[i] != '/'
    ensures FormatFor(dir + (stem + ext), gitMode) == FormatFor(dir' + (stem' + ext), gitMode)
    ensures ext == ".md" ==> FormatFor(dir + (stem + ext), false) == FormatCallout
  {
    hide Ext, Base, Lower, Dir, Stem, Has, IsDir, FormatFor;
    ExtIs(dir, stem, ext);
    ExtIs(dir', stem', ext);
    FormatOfExt(dir + (stem + ext), dir' + (stem' + ext), gitMode);
  }

  lemma FormatOfExt(p: Path, q: Path, gitMode: bool)
    requires Ext(Base(p)) == Ext(Base(q))
    ensures FormatFor(p, gitMode) == FormatFor(q, gitMode)
    ensures Ext(Base(p)) == ".md" ==> FormatFor(p, false) == FormatCallout
  {
    hide Ext, Base, Lower;
  }
}
