/** The client engine: what it does with incoming ops and with acks. */
module Engines {
  import opened Wrappers
  import opened Sorting
  import opened Protocol
  import opened Classification
  import opened Rebasing
  import opened ClientLogs

  // ----- self-echo -----

  datatype Echo = Echo(rest: seq<Op>, acked: seq<StagedOp>)

  predicate EchoHit(op: Op, acked: seq<StagedOp>, keyname: string) {
    keyname != "" && op.author == keyname && op.seqno != 0 && FirstMatch(acked, keyname, op.seqno) < |acked|
  }

  /** Ops that match a row of T2 by author and number are taken for echoes of our own. */
  function EchoFiltered(ops: seq<Op>, acked: seq<StagedOp>, keyname: string): Echo {
    if ops == [] then Echo([], acked)
    else
      var front, op := EchoFiltered(ops[..|ops| - 1], acked, keyname), ops[|ops| - 1];
      if EchoHit(op, front.acked, keyname) then Echo(front.rest, DropFirstMatch(front.acked, keyname, op.seqno))
      else Echo(front.rest + [op], front.acked)
  }

  /** Nothing of another author is ever taken for an echo. */
  lemma {:induction false} OthersPassEcho(ops: seq<Op>, acked: seq<StagedOp>, keyname: string)
    requires forall i :: 0 <= i < |ops| ==> ops[i].author != keyname
    ensures EchoFiltered(ops, acked, keyname) == Echo(ops, acked)
  {
    if ops != [] {
      OthersPassEcho(ops[..|ops| - 1], acked, keyname);
      assert ops == ops[..|ops| - 1] + [ops[|ops| - 1]];
    }
  }

  /** How many rows, and how many ops, carry this author and number. */
  function RowsUnder(rows: seq<StagedOp>, author: string, n: nat): nat {
    if rows == [] then 0
    else
      var last := rows[|rows| - 1].op;
      RowsUnder(rows[..|rows| - 1], author, n) + (if last.author == author && last.seqno == n then 1 else 0)
  }

  function OpsUnder(ops: seq<Op>, author: string, n: nat): nat {
    if ops == [] then 0
    else
      var last := ops[|ops| - 1];
      OpsUnder(ops[..|ops| - 1], author, n) + (if last.author == author && last.seqno == n then 1 else 0)
  }

  /** T2 has more rows under the op's author and number than earlier ops of the list have used up. */
  predicate Swallowed(ops: seq<Op>, i: nat, acked: seq<StagedOp>, keyname: string)
    requires i < |ops|
  {
    && keyname != "" && ops[i].author == keyname && ops[i].seqno != 0
    && OpsUnder(ops[..i], keyname, ops[i].seqno) < RowsUnder(acked, keyname, ops[i].seqno)
  }

  /** The ops that are not swallowed, in order. */
  function Passed(ops: seq<Op>, n: nat, acked: seq<StagedOp>, keyname: string): seq<Op>
    requires n <= |ops|
  {
    if n == 0 then []
    else Passed(ops, n - 1, acked, keyname) + (if Swallowed(ops, n - 1, acked, keyname) then [] else [ops[n - 1]])
  }

  lemma {:induction false} RowsConcat(a: seq<StagedOp>, b: seq<StagedOp>, author: string, n: nat)
    ensures RowsUnder(a + b, author, n) == RowsUnder(a, author, n) + RowsUnder(b, author, n)
  {
    if b == [] {
      assert a + b == a;
    } else {
      assert (a + b)[..|a + b| - 1] == a + b[..|b| - 1];
      RowsConcat(a, b[..|b| - 1], author, n);
    }
  }

  lemma {:induction false} NoRowsUnder(rows: seq<StagedOp>, author: string, n: nat)
    requires forall i :: 0 <= i < |rows| ==> !(rows[i].op.author == author && rows[i].op.seqno == n)
    ensures RowsUnder(rows, author, n) == 0
  {
    if rows != [] { NoRowsUnder(rows[..|rows| - 1], author, n); }
  }

  lemma OneRowUnder(row: StagedOp, author: string, n: nat)
    ensures RowsUnder([row], author, n) == if row.op.author == author && row.op.seqno == n then 1 else 0
  {
    assert [row][..0] == [];
  }

  /** Dropping the first match of a number uses up one of its rows, if there is one, and no other's. */
  lemma DropUsesOne(rows: seq<StagedOp>, author: string, n: nat, m: nat)
    ensures FirstMatch(rows, author, n) < |rows| <==> RowsUnder(rows, author, n) > 0
    ensures RowsUnder(DropFirstMatch(rows, author, n), author, m) ==
            RowsUnder(rows, author, m) - (if m == n && RowsUnder(rows, author, n) > 0 then 1 else 0)
  {
    var k := FirstMatch(rows, author, n);
    hide RowsUnder;
    if k < |rows| {
      var front, rest := rows[..k], rows[k + 1..];
      assert rows == front + ([rows[k]] + rest);
      NoRowsUnder(front, author, n);
      RowsConcat(front, [rows[k]] + rest, author, n);
      RowsConcat([rows[k]], rest, author, n);
      RowsConcat(front, [rows[k]] + rest, author, m);
      RowsConcat([rows[k]], rest, author, m);
      OneRowUnder(rows[k], author, n);
      OneRowUnder(rows[k], author, m);
      RowsConcat(front, rest, author, n);
      RowsConcat(front, rest, author, m);
    } else {
      NoRowsUnder(rows, author, n);
    }
  }

  function Minus(a: nat, b: nat): nat { if b < a then a - b else 0 }

  /** What the filter did with the first k ops. */
  ghost predicate EchoIs(ops: seq<Op>, k: nat, acked: seq<StagedOp>, keyname: string)
    requires k <= |ops|
  {
    var echo := EchoFiltered(ops[..k], acked, keyname);
    && echo.rest == Passed(ops, k, acked, keyname)
    && forall n :: n != 0 && keyname != "" ==>
         RowsUnder(echo.acked, keyname, n) == Minus(RowsUnder(acked, keyname, n), OpsUnder(ops[..k], keyname, n))
  }

  lemma EchoStep(ops: seq<Op>, k: nat, acked: seq<StagedOp>, keyname: string)
    requires k < |ops| && EchoIs(ops, k, acked, keyname)
    ensures EchoIs(ops, k + 1, acked, keyname)
    ensures EchoHit(ops[k], EchoFiltered(ops[..k], acked, keyname).acked, keyname)
       <==> Swallowed(ops, k, acked, keyname)
  {
    var op, before := ops[k], EchoFiltered(ops[..k], acked, keyname);
    assert ops[..k + 1][..k] == ops[..k];
    var after := EchoFiltered(ops[..k + 1], acked, keyname);
    hide RowsUnder;
    DropUsesOne(before.acked, keyname, op.seqno, op.seqno);
    forall n | n != 0 && keyname != ""
      ensures RowsUnder(after.acked, keyname, n)
              == Minus(RowsUnder(acked, keyname, n), OpsUnder(ops[..k + 1], keyname, n))
    {
      DropUsesOne(before.acked, keyname, op.seqno, n);
      assert RowsUnder(before.acked, keyname, n) == Minus(RowsUnder(acked, keyname, n), OpsUnder(ops[..k], keyname, n));
    }
  }

  lemma {:induction false} EchoHolds(ops: seq<Op>, k: nat, acked: seq<StagedOp>, keyname: string)
    requires k <= |ops|
    ensures EchoIs(ops, k, acked, keyname)
  {
    if k == 0 {
      assert ops[..0] == [];
    } else {
      EchoHolds(ops, k - 1, acked, keyname);
      EchoStep(ops, k - 1, acked, keyname);
    }
  }

  /** An incoming op is swallowed exactly when T2 has more rows under its author and number than earlier
      ops of the list have used up, whatever those rows are about: with one keyname on two devices
      they may be about somebody else's op. All other ops pass, in order. */
  lemma SwallowedIff(ops: seq<Op>, acked: seq<StagedOp>, keyname: string)
    ensures EchoFiltered(ops, acked, keyname).rest == Passed(ops, |ops|, acked, keyname)
    ensures forall i :: 0 <= i < |ops| ==>
      (EchoHit(ops[i], EchoFiltered(ops[..i], acked, keyname).acked, keyname) <==> Swallowed(ops, i, acked, keyname))
  {
    hide Swallowed, EchoHit;
    assert ops[..|ops|] == ops;
    EchoHolds(ops, |ops|, acked, keyname);
    forall i | 0 <= i < |ops|
      ensures EchoHit(ops[i], EchoFiltered(ops[..i], acked, keyname).acked, keyname)
         <==> Swallowed(ops, i, acked, keyname)
    {
      EchoHolds(ops, i, acked, keyname);
      EchoStep(ops, i, acked, keyname);
    }
  }

  // ----- acks -----

  /** What an acked op does to the merge bases and the manifest; the disk already has it. */
  function AckOp(l: Local, op: Op): Local {
    match op.ty
    case OpWrite => PutServer(l, op)
    case OpDelete => PutServer(l, op)
    case OpRename => l.(base := Moved(l.base, op.from, op.to), manifest := Moved(l.manifest, op.from, op.to))
    case OpUnknown => l
  }

  function AckAll(l: Local, ops: seq<Op>): Local {
    if ops == [] then l else AckOp(AckAll(l, ops[..|ops| - 1]), ops[|ops| - 1])
  }

  lemma AckOpTracks(l: Local, op: Op, t: Tree)
    requires Tracks(l, t) && (op.ty.OpRename? ==> op.from in t || op.to !in t)
    ensures Tracks(AckOp(l, op), ApplyOp(op, t))
  {
    match op.ty {
      case OpWrite => assert ManifestOf(ApplyOp(op, t)) == ManifestOf(t)[op.path := HashOf(Payload(op))];
      case OpDelete => assert ManifestOf(ApplyOp(op, t)) == ManifestOf(t) - {op.path};
      case OpRename => RenameTracks(op.from, op.to, t);
      case OpUnknown =>
    }
  }

  /** Acking ops moves the client's view exactly as applying them moves the tree. */
  lemma {:induction false} AckTracks(l: Local, ops: seq<Op>, t: Tree)
    requires Tracks(l, t) && RenamesFind(ops, t)
    ensures Tracks(AckAll(l, ops), Apply(ops, t))
  {
    if ops != [] {
      var front, op := ops[..|ops| - 1], ops[|ops| - 1];
      RenamesFindFront(ops, t);
      AckTracks(l, front, t);
      AckOpTracks(AckAll(l, front), op, Apply(front, t));
    }
  }

  /** The files are left as they are: the client made the change before it was acked. */
  lemma {:induction false} AckKeepsFiles(l: Local, ops: seq<Op>)
    ensures AckAll(l, ops).disk == l.disk
  {
    if ops != [] { AckKeepsFiles(l, ops[..|ops| - 1]); }
  }

  // ----- the engine -----

  class Engine {
    const staged: StagedLog
    const acked: AckedLog
    const state: BaseState
    const keyname: string
    var base: string
    var disk: Tree
    var baseStore: Tree
    var manifest: map<Path, Hash>

    constructor (staged: StagedLog, acked: AckedLog, state: BaseState, keyname: string, l: Local, base: string)
      ensures this.staged == staged && this.acked == acked && this.state == state && this.keyname == keyname
      ensures Stores() == l && this.base == base
    {
      this.staged, this.acked, this.state, this.keyname, this.base := staged, acked, state, keyname, base;
      disk, baseStore, manifest := l.disk, l.base, l.manifest;
    }

    ghost function Stores(): Local reads this { Local(disk, baseStore, manifest) }

    method RecordManifestRename(from: Path, to: Path)
      modifies this`manifest
      ensures manifest == Moved(old(manifest), from, to)
    {
      var entry := if from in manifest then Some(manifest[from]) else None;
      if entry.None? { assert manifest - {from} == manifest; }
      manifest := manifest - {from};
      if entry.None? {
        return;
      }
      manifest := manifest[to := entry.value];
    }

    /** Record what the server has at the op's path. */
    method RecordServer(op: Op)
      modifies this`manifest, this`baseStore
      ensures Stores() == PutServer(old(Stores()), op)
    {
      var p := PrimaryPath(op);
      if op.ty.OpDelete? {
        manifest := manifest - {p};
        baseStore := baseStore - {p};
      } else {
        manifest := manifest[p := HashOf(Payload(op))];
        baseStore := baseStore[p := Payload(op)];
      }
    }

    method WriteSidecar(d: Decision)
      modifies this`manifest, this`disk
      ensures Stores() == PutSidecar(old(Stores()), d)
    {
      manifest := manifest[d.sidecarPath := HashOf(Bytes(d.sidecarContent))];
      disk := disk[d.sidecarPath := Bytes(d.sidecarContent)];
    }

    /** `applyDecision`. */
    method ApplyDecision(op: Op, d: Decision)
      modifies this`disk, this`baseStore, this`manifest
      ensures Stores() == Applied(old(Stores()), op, d)
    {
      var p := PrimaryPath(op);
      match d.action {
        case ActionApply =>
          var c := Bytes(d.content);
          manifest := manifest[p := HashOf(c)];
          disk := disk[p := c];
          baseStore := baseStore[p := c];
        case ActionAutoMerge =>
          disk := disk[p := Bytes(d.content)];
          RecordServer(op);
        case ActionWriteConflict =>
          disk := disk[p := Bytes(d.content)];
          RecordServer(op);
        case ActionApplyDelete =>
          manifest := manifest - {p};
          disk := disk - {p};
          baseStore := baseStore - {p};
        case ActionApplyRename =>
          RecordManifestRename(op.from, op.to);
          if op.from in disk {
            disk := (disk - {op.from})[op.to := disk[op.from]];
          }
          if op.from in baseStore {
            baseStore := (baseStore - {op.from})[op.to := baseStore[op.from]];
          }
          if |d.sidecarPath| > 0 && |Bytes(d.sidecarContent)| > 0 {
            WriteSidecar(d);
          }
        case ActionWriteSidecar =>
          WriteSidecar(d);
          if op.ty.OpDelete? {
            manifest := manifest - {p};
            disk := disk - {p};
            baseStore := baseStore - {p};
          } else {
            RecordServer(op);
          }
        case ActionNoop =>
      }
    }

    /** `filterSelfEcho`. */
    method FilterSelfEcho(ops: seq<Op>) returns (out: seq<Op>)
      modifies acked
      ensures Echo(out, acked.ops) == EchoFiltered(ops, old(acked.ops), keyname)
    {
      out := [];
      for i := 0 to |ops|
        invariant Echo(out, acked.ops) == EchoFiltered(ops[..i], old(acked.ops), keyname)
      {
        var op := ops[i];
        assert ops[..i + 1][..i] == ops[..i];
        if keyname == "" || op.author != keyname || op.seqno == 0 {
          out := out + [op];
          continue;
        }
        var dropped := acked.DropByAuthorSeq(keyname, op.seqno);
        if dropped {
          continue;
        }
        out := out + [op];
      }
      assert ops[..|ops|] == ops;
    }

    /** The walk over the incoming ops: decide each, apply it, and keep what survives. */
    method ApplyOps(ops: seq<Op>, snapshot: seq<StagedOp>, env: Env) returns (kept: seq<StagedOp>)
      modifies this`disk, this`baseStore, this`manifest
      ensures Pass(Stores(), kept) == PassAll(old(Stores()), ops, snapshot, env)
    {
      hide Classify, Applied, StagedAt;
      kept := [];
      for i := 0 to |ops|
        invariant Pass(Stores(), kept) == PassAll(old(Stores()), ops[..i], snapshot, env)
      {
        var op := ops[i];
        assert ops[..i + 1][..i] == ops[..i];
        if env.excluded(TargetPath(op)) {
          continue;
        }
        var d := Classify(op, StagedAt(snapshot, PrimaryPath(op)),
                          ContextFor(env, Local(disk, baseStore, manifest), op));
        ApplyDecision(op, d);
        if d.replacement.Some? {
          kept := kept + [StagedOp(d.replacement.value, env.freeze)];
        }
      }
      assert ops[..|ops|] == ops;
    }

    /** `classifyAndApply`. */
    method ClassifyAndApply(ops: seq<Op>, newBase: string, env: Env)
      modifies this`disk, this`baseStore, this`manifest, this`base, staged, acked
      ensures var echo := EchoFiltered(ops, old(acked.ops), keyname);
              && acked.ops == echo.acked
              && Stores() == PassAll(old(Stores()), echo.rest, old(staged.ops), env).local
              && staged.ops == Rebased(old(Stores()), echo.rest, old(staged.ops), env)
      ensures base == newBase
    {
      hide PassAll, Untouched, StableSort, EchoFiltered;
      var rest := FilterSelfEcho(ops);
      var snapshot := staged.ops;
      var kept := ApplyOps(rest, snapshot, env);
      var carried := CarryThrough(rest, snapshot, env);
      staged.Replace(StableSort(kept + carried, SeqKey));
      base := newBase;
    }

    /** The staged ops on paths the catchup did not touch. */
    static method CarryThrough(ops: seq<Op>, snapshot: seq<StagedOp>, env: Env) returns (carried: seq<StagedOp>)
      ensures carried == Untouched(snapshot, ops, env)
    {
      carried := [];
      for i := 0 to |snapshot|
        invariant carried == Untouched(snapshot[..i], ops, env)
      {
        assert snapshot[..i + 1][..i] == snapshot[..i];
        if !TouchedKey(ops, env, PrimaryPath(snapshot[i].op)) {
          carried := carried + [snapshot[i]];
        }
      }
      assert snapshot[..|snapshot|] == snapshot;
    }

    method AdvanceBases(ops: seq<Op>)
      modifies this`baseStore, this`manifest
      ensures Stores() == AckAll(old(Stores()), ops)
    {
      for i := 0 to |ops|
        invariant Stores() == AckAll(old(Stores()), ops[..i])
      {
        assert ops[..i + 1][..i] == ops[..i];
        match ops[i].ty {
          case OpWrite => RecordServer(ops[i]);
          case OpDelete => RecordServer(ops[i]);
          case OpRename =>
            if ops[i].from in baseStore {
              baseStore := (baseStore - {ops[i].from})[ops[i].to := baseStore[ops[i].from]];
            }
            RecordManifestRename(ops[i].from, ops[i].to);
          case OpUnknown =>
        }
      }
      assert ops[..|ops|] == ops;
    }

    /** `commitPushAck`: advance the bases, then the counters, then move the ops from T1 to T2. */
    method CommitPushAck(ops: seq<Op>, newBase: string, batchID: nat)
      requires ops != []
      modifies this`baseStore, this`manifest, this`base, staged, acked, state
      ensures Stores() == AckAll(old(Stores()), ops) && base == newBase && state.nextBatchID == batchID + 1
      ensures Logs(staged.ops, acked.ops) == AfterAck(old(Logs(staged.ops, acked.ops)), ops)
    {
      AdvanceBases(ops);
      base := newBase;
      state.nextBatchID := batchID + 1;
      state.WriteBase();
      T1ToT2(staged, acked, ops[|ops| - 1].seqno + 1);
    }
  }
}
