/** What becomes of an incoming op and of the staged op on the same path. */
module Classification {
  import opened Wrappers
  import opened Protocol
  import opened Paths

  datatype DiskAction = ActionApply | ActionAutoMerge | ActionWriteConflict | ActionWriteSidecar
                      | ActionApplyRename | ActionApplyDelete | ActionNoop

  datatype LogKind = KindOverlap | KindDeleteVsEdit | KindEditVsDelete | KindRenameCollision | KindBinary | KindNone

  datatype LogFormat = FormatCallout | FormatComment | FormatMarker | FormatSidecar | FormatNone

  /** The text tools: merge (nothing on a conflict), conflict rendering and the deletion notice. */
  datatype Tools = Tools(merge3: (Content, Content, Content) -> Option<Content>,
                         conflict: (LogFormat, Content, Content, Content) -> Content,
                         notice: (LogFormat, Content) -> Content)

  datatype Context = Context(base: Content, gitMode: bool, stamp: string, tools: Tools)

  datatype Decision = Decision(action: DiskAction, content: Option<Content>, sidecarPath: Path,
                               sidecarContent: Option<Content>,
                               kind: LogKind, format: LogFormat, replacement: Option<Op>)

  // ----- formats -----

  function Lower(s: string): string {
    seq(|s|, i requires 0 <= i < |s| => if 'A' <= s[i] <= 'Z' then ((s[i] as int) + 32) as char else s[i])
  }

  const COMMENT_EXTS: set<string> := {
    ".py", ".sh", ".bash", ".zsh", ".fish", ".rb", ".pl", ".yaml", ".yml", ".toml", ".ini", ".conf", ".cfg", ".r",
    ".jl", ".ex", ".exs", ".js", ".ts", ".tsx", ".jsx", ".go", ".rs", ".c", ".cpp", ".h", ".hpp", ".java", ".cs",
    ".swift", ".kt", ".scala", ".dart", ".php", ".m", ".mm", ".sql", ".lua", ".hs", ".elm", ".lisp", ".cljs", ".clj",
    ".scm", ".el", ".tex", ".erl", ".html", ".xml", ".svg", ".vue", ".css", ".scss", ".less"
  }

  const BINARY_EXTS: set<string> := {
    ".png", ".jpg", ".jpeg", ".gif", ".pdf", ".zip", ".tar", ".gz", ".mp4", ".mp3", ".webp", ".ico", ".woff", ".woff2" }

  function FormatFor(path: Path, gitMode: bool): LogFormat {
    var ext := Ext(Base(path));
    if gitMode then (if ext in BINARY_EXTS then FormatSidecar else FormatMarker)
    else if ext == ".md" then FormatCallout
    else if Lower(ext) in COMMENT_EXTS then FormatComment
    else FormatSidecar
  }

  predicate IsText(data: Content) { forall i :: 0 <= i < |data| ==> data[i] != '\0' }

  // ----- the table -----

  function KeptWrite(staged: Op, path: Path, data: Option<Content>, preHash: Option<Hash>): Op {
    Op(staged.seqno, OpWrite, path, "", "", data, false, preHash, staged.ts, "")
  }

  function KeptDelete(staged: Op, path: Path, preHash: Option<Hash>): Op {
    Op(staged.seqno, OpDelete, path, "", "", None, false, preHash, staged.ts, "")
  }

  function Sidecar(catchup: Op, staged: Op, ctx: Context, action: DiskAction, content: Option<Content>,
                   kind: LogKind): Decision {
    var side := SidecarPath(catchup.path, ctx.stamp);
    Decision(action, content, side, staged.data, kind, FormatSidecar, Some(KeptWrite(staged, side, staged.data, None)))
  }

  function Plain(action: DiskAction, content: Option<Content>): Decision {
    Decision(action, content, "", None, KindNone, FormatNone, None)
  }

  /** `classifyWriteWrite`. */
  function ClassifyWriteWrite(catchup: Op, staged: Op, ctx: Context): Decision {
    if catchup.binary || staged.binary || !IsText(Payload(catchup)) || !IsText(Payload(staged)) then
      Sidecar(catchup, staged, ctx, ActionApply, catchup.data, KindBinary)
    else
      var head := Some(HashOf(Payload(catchup)));
      var merged := ctx.tools.merge3(ctx.base, Payload(catchup), Payload(staged));
      if merged.Some? then
        Decision(ActionAutoMerge, merged, "", None, KindNone, FormatNone,
                 Some(KeptWrite(staged, staged.path, merged, head)))
      else
        var format := FormatFor(catchup.path, ctx.gitMode);
        if format == FormatSidecar then
          Sidecar(catchup, staged, ctx, ActionApply, catchup.data, KindOverlap)
        else
          var text := Some(ctx.tools.conflict(format, ctx.base, Payload(catchup), Payload(staged)));
          Decision(ActionWriteConflict, text, "", None, KindOverlap, format,
                   Some(KeptWrite(staged, staged.path, text, head)))
  }

  /** Two edits of a text that end up in one file: they merge, or the file's format can show a conflict. */
  predicate StaysInPlace(catchup: Op, staged: Op, ctx: Context) {
    && !catchup.binary && !staged.binary && IsText(Payload(catchup)) && IsText(Payload(staged))
    && (ctx.tools.merge3(ctx.base, Payload(catchup), Payload(staged)).Some? ||
        FormatFor(catchup.path, ctx.gitMode) != FormatSidecar)
  }

  /** What that file then holds. */
  function InPlaceText(catchup: Op, staged: Op, ctx: Context): Content {
    var merged := ctx.tools.merge3(ctx.base, Payload(catchup), Payload(staged));
    if merged.Some? then merged.value
    else ctx.tools.conflict(FormatFor(catchup.path, ctx.gitMode), ctx.base, Payload(catchup), Payload(staged))
  }

  function ClassifyDelete(catchup: Op, staged: Op, ctx: Context): Decision {
    match staged.ty
    case OpWrite =>
      var format := FormatFor(catchup.path, ctx.gitMode);
      if staged.binary || !IsText(Payload(staged)) || format == FormatSidecar then
        Sidecar(catchup, staged, ctx, ActionWriteSidecar, None, KindDeleteVsEdit)
      else
        var text := Some(ctx.tools.notice(format, Payload(staged)));
        Decision(ActionWriteConflict, text, "", None, KindDeleteVsEdit, format,
                 Some(KeptWrite(staged, catchup.path, text, None)))
    case OpDelete => Plain(ActionNoop, None)
    case OpRename => Decision(ActionNoop, None, "", None, KindRenameCollision, FormatNone,
                              Some(KeptWrite(staged, staged.to, staged.data, None)))
    case OpUnknown => Plain(ActionNoop, None)
  }

  function ClassifyWrite(catchup: Op, staged: Op, ctx: Context): Decision {
    match staged.ty
    case OpWrite => ClassifyWriteWrite(catchup, staged, ctx)
    case OpDelete =>
      Decision(ActionWriteSidecar, None, SidecarPath(catchup.path, ctx.stamp), catchup.data, KindEditVsDelete,
               FormatSidecar, Some(KeptDelete(staged, staged.path, Some(HashOf(Payload(catchup))))))
    case OpRename => Sidecar(catchup, staged, ctx, ActionApply, catchup.data, KindRenameCollision)
    case OpUnknown => Plain(ActionNoop, None)
  }

  function ClassifyRename(catchup: Op, staged: Op, ctx: Context): Decision {
    var stagedPath := PrimaryPath(staged);
    var atSource := stagedPath == catchup.from;
    var atDest := stagedPath == catchup.to || (staged.ty.OpRename? && staged.to == catchup.to);
    match staged.ty
    case OpWrite =>
      if atDest && !atSource then
        var side := SidecarPath(catchup.to, ctx.stamp);
        Decision(ActionApplyRename, None, side, staged.data, KindRenameCollision, FormatSidecar,
                 Some(KeptWrite(staged, side, staged.data, None)))
      else
        Decision(ActionApplyRename, None, "", None, KindNone, FormatNone,
                 Some(KeptWrite(staged, catchup.to, staged.data, None)))
    case OpRename =>
      if catchup.from == staged.from then
        Decision(ActionApplyRename, None, "", None,
                 if catchup.to != staged.to then KindRenameCollision else KindNone, FormatNone, None)
      else Plain(ActionNoop, None)
    case OpDelete =>
      Decision(ActionApplyRename, None, "", None, KindNone, FormatNone,
               Some(KeptDelete(staged, catchup.to, staged.preHash)))
    case OpUnknown => Plain(ActionNoop, None)
  }

  /** `Classify`. */
  function Classify(catchup: Op, staged: Option<Op>, ctx: Context): Decision {
    match staged
    case None =>
      (match catchup.ty
       case OpWrite => Plain(ActionApply, catchup.data)
       case OpDelete => Plain(ActionApplyDelete, None)
       case OpRename => Plain(ActionApplyRename, None)
       case OpUnknown => Plain(ActionNoop, None))
    case Some(s) =>
      match catchup.ty
      case OpWrite => ClassifyWrite(catchup, s, ctx)
      case OpDelete => ClassifyDelete(catchup, s, ctx)
      case OpRename => ClassifyRename(catchup, s, ctx)
      case OpUnknown => Plain(ActionNoop, None)
  }

  // ----- laws -----

  predicate WriteOrDelete(op: Op) { op.ty.OpWrite? || op.ty.OpDelete? }

  /** The surviving op is still the same op to the server: same number and time. */
  lemma KeepsNumber(catchup: Op, staged: Op, ctx: Context)
    ensures var r := Classify(catchup, Some(staged), ctx).replacement;
            r.Some? ==> r.value.seqno == staged.seqno && r.value.ts == staged.ts
  {
  }

  /** Rebasing one op: whatever the staged op expected before, what survives of it expects exactly
      the state the incoming op leaves, either on the same path or at the sidecar as a creation.
      Only a deletion met by a deletion does not survive. */
  lemma RebasesOne(catchup: Op, staged: Op, ctx: Context, t: Tree)
    requires ValidateOp(catchup) && ValidateOp(staged) && WriteOrDelete(catchup) && WriteOrDelete(staged)
    requires catchup.path == staged.path
    ensures var r := Classify(catchup, Some(staged), ctx).replacement;
            && (r.None? <==> catchup.ty.OpDelete? && staged.ty.OpDelete?)
            && (r.Some? ==> ValidateOp(r.value) && WriteOrDelete(r.value))
            && (r.Some? ==>
                if r.value.path == catchup.path then r.value.preHash == Lookup(ApplyOp(catchup, t), catchup.path)
                            else r.value.path == SidecarPath(catchup.path, ctx.stamp) && r.value.preHash == None)
  {
    var d := Classify(catchup, Some(staged), ctx);
    SidecarLonger(catchup.path, ctx.stamp);
  }

  lemma SidecarLonger(path: Path, stamp: string)
    ensures |SidecarPath(path, stamp)| > |path|
  {
    DirIsDir(path);
    ExtShape(Base(path));
    assert |Dir(path)| + |Stem(Base(path))| + |Ext(Base(path))| == |path|;
  }

  /** A staged edit is never dropped: it survives as a write of its own bytes at the sidecar, or of
      exactly the text that is put on disk at its path. */
  lemma EditsSurvive(catchup: Op, staged: Op, ctx: Context)
    requires ValidateOp(catchup) && ValidateOp(staged) && WriteOrDelete(catchup) && staged.ty.OpWrite?
    requires catchup.path == staged.path
    ensures var d := Classify(catchup, Some(staged), ctx);
            && d.replacement.Some? && d.replacement.value.ty.OpWrite?
            && (if d.replacement.value.path == staged.path
                then
                  && d.content.Some? && d.replacement.value.data == d.content
                  && (d.action.ActionAutoMerge? || d.action.ActionWriteConflict?)
                else
                  && d.replacement.value.path == d.sidecarPath
                  && d.replacement.value.data == staged.data == d.sidecarContent)
  {
    SidecarLonger(catchup.path, ctx.stamp);
  }

  /** The surviving op is well-formed except when a staged rename meets a write or a delete: the
      write it is turned into carries the rename's data, and a rename has none. */
  lemma ReplacementValidIff(catchup: Op, staged: Op, ctx: Context)
    requires ValidateOp(catchup) && ValidateOp(staged)
    requires Classify(catchup, Some(staged), ctx).replacement.Some?
    ensures ValidateOp(Classify(catchup, Some(staged), ctx).replacement.value)
       <==> !(staged.ty.OpRename? && WriteOrDelete(catchup))
  {
    SidecarLonger(catchup.path, ctx.stamp);
    SidecarLonger(catchup.to, ctx.stamp);
    hide FormatFor, IsText, SidecarPath;
  }

  /** When a rename comes in over a staged op on its source that matched before, the op that survives
      matches after only if it is a delete: a write is sent to the new name as if nothing were there. */
  lemma RenameRebaseIff(catchup: Op, staged: Op, ctx: Context, t: Tree)
    requires ValidateOp(catchup) && catchup.ty.OpRename? && catchup.from in t
    requires ValidateOp(staged) && WriteOrDelete(staged) && staged.path == catchup.from
             && staged.preHash == Lookup(t, staged.path)
    ensures var r := Classify(catchup, Some(staged), ctx).replacement;
            && r.Some? && r.value.path == catchup.to
            && (r.value.preHash == Lookup(ApplyOp(catchup, t), catchup.to) <==> staged.ty.OpDelete?)
  {
  }
}
