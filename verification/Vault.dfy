/** One vault on the server: each handler runs under one lock and is one atomic step. */
module Vaults {
  import opened Wrappers
  import opened Seqs
  import opened Protocol
  import opened Stages
  import opened Wal
  import opened IdemCaches

  // ----- sequence numbers -----

  /** How many ops at the front carry a number that has been seen. */
  function SeenPrefix(ops: seq<Op>, highest: nat): (k: nat)
    ensures k <= |ops|
    ensures forall i :: 0 <= i < k ==> ops[i].seqno <= highest
    ensures k < |ops| ==> ops[k].seqno > highest
  {
    if ops == [] || ops[0].seqno > highest then 0 else 1 + SeenPrefix(ops[1..], highest)
  }

  ghost predicate Increasing(ops: seq<Op>) {
    forall i, j :: 0 <= i < j < |ops| ==> ops[i].seqno < ops[j].seqno
  }

  lemma IncreasingSnoc(ops: seq<Op>, op: Op)
    requires Increasing(ops) && (ops != [] ==> ops[|ops| - 1].seqno < op.seqno)
    ensures Increasing(ops + [op])
  {
  }

  /** `filterAcked`: drop the seen front; what is left has to keep increasing. */
  method FilterAcked(ops: seq<Op>, highest: nat) returns (r: Option<seq<Op>>)
    ensures var tail := ops[SeenPrefix(ops, highest)..];
            r == if Increasing(tail) then Some(tail) else None
  {
    var cutoff := |ops|;
    for i := 0 to |ops|
      invariant cutoff == |ops| && forall k :: 0 <= k < i ==> ops[k].seqno <= highest
    {
      if ops[i].seqno > highest {
        cutoff := i;
        break;
      }
    }
    assert cutoff == SeenPrefix(ops, highest);
    if cutoff == |ops| {
      return Some([]);
    }
    var tail := ops[cutoff..];
    var prev := highest;
    for i := 0 to |tail|
      invariant Increasing(tail[..i])
      invariant prev == if i == 0 then highest else tail[i - 1].seqno
    {
      assert tail[..i + 1] == tail[..i] + [tail[i]];
      if tail[i].seqno <= prev {
        assert i > 0;
        return None;
      }
      IncreasingSnoc(tail[..i], tail[i]);
      prev := tail[i].seqno;
    }
    assert tail[..|tail|] == tail;
    return Some(tail);
  }

  // ----- state -----

  datatype ErrorCode = InvalidData | Denied | VaultFull | StuckFile

  datatype Answer = AckOk | AckStale | AckFiltered(paths: seq<Path>) | Failed(code: ErrorCode)

  datatype Msg = MsgAck(answer: Answer) | MsgBroadcast(ops: seq<Op>) | MsgFlushAck

  /** HEAD, the stages, the log and the marks with their snapshot, and one queue a connected client. */
  datatype Vault = Vault(head: Tree, stages: map<ClientID, seq<Op>>, log: seq<Entry>,
                         idem: map<ClientID, nat>, idemDisk: map<ClientID, nat>, queues: map<ClientID, seq<Msg>>)

  function StageOf(v: Vault, c: ClientID): seq<Op> { if c in v.stages then v.stages[c] else [] }

  /** What the checks outside this model make of an op or a batch. */
  datatype Verdict = Admit | Filter(path: Path) | Refuse

  datatype Gate = Gate(verdict: Op -> Verdict, full: seq<Op> -> bool, stuck: Op -> bool)

  // ----- handlePushBatch -----

  /** The first malformed or refused op fails the batch; filtered ones are collected. */
  function Screen(ops: seq<Op>, gate: Gate): Result<seq<Path>, ErrorCode> {
    if ops == [] then Ok([])
    else
      var front, op := Screen(ops[..|ops| - 1], gate), ops[|ops| - 1];
      if front.Err? then front
      else if !ValidateOp(op) then Err(InvalidData)
      else match gate.verdict(op)
        case Admit => front
        case Filter(p) => Ok(front.value + [p])
        case Refuse => Err(Denied)
  }

  ghost predicate OverlapsStage(stage: seq<Op>, ops: seq<Op>) {
    exists i :: 0 <= i < |ops|
      && (TouchedBy(stage, PrimaryPath(ops[i])) || (ops[i].ty.OpRename? && TouchedBy(stage, ops[i].to)))
  }

  /** Another client's stage already touches a path of the batch. */
  ghost predicate OverlapsOther(v: Vault, c: ClientID, ops: seq<Op>) {
    exists d :: d in v.stages && d != c && OverlapsStage(v.stages[d], ops)
  }

  ghost predicate PreHashesHold(v: Vault, c: ClientID, ops: seq<Op>) {
    forall i :: 0 <= i < |ops| ==> PreHashMatches(ops[i].preHash, Overlay(StageOf(v, c), v.head, PrimaryPath(ops[i])))
  }

  ghost predicate AnyStuck(ops: seq<Op>, gate: Gate) {
    exists i :: 0 <= i < |ops| && gate.stuck(ops[i])
  }

  function Stamp(op: Op, keyname: string): Op { op.(author := keyname) }

  function StampAll(ops: seq<Op>, keyname: string): (r: seq<Op>)
    ensures |r| == |ops|
  {
    seq(|ops|, i requires 0 <= i < |ops| => Stamp(ops[i], keyname))
  }

  function Logged(c: ClientID, ops: seq<Op>): (r: seq<Entry>)
    ensures |r| == |ops|
  {
    seq(|ops|, i requires 0 <= i < |ops| => Entry(c, ops[i]))
  }

  function Send(queues: map<ClientID, seq<Msg>>, c: ClientID, m: Msg): map<ClientID, seq<Msg>> {
    if c in queues then queues[c := queues[c] + [m]] else queues
  }

  /** Ops that passed every check, with their author stamped on. */
  function StageOps(v: Vault, c: ClientID, ops: seq<Op>): Vault
    requires ops != []
  {
    v.(stages := v.stages[c := StageOf(v, c) + ops], log := v.log + Logged(c, ops),
       idem := v.idem[c := ops[|ops| - 1].seqno])
  }

  /** What is left of a batch once seen numbers are dropped; None if it is out of order. */
  ghost function Fresh(v: Vault, c: ClientID, batch: seq<Op>): Option<seq<Op>> {
    var tail := batch[SeenPrefix(batch, HighestOf(v.idem, c))..];
    if Increasing(tail) then Some(tail) else None
  }

  ghost function Verdicts(v: Vault, c: ClientID, batch: seq<Op>, gate: Gate): Answer {
    match Fresh(v, c, batch)
    case None => Failed(InvalidData)
    case Some(tail) =>
      if tail == [] then AckOk
      else match Screen(tail, gate)
        case Err(code) => Failed(code)
        case Ok(filtered) =>
          if filtered != [] then AckFiltered(filtered)
          else if gate.full(tail) then Failed(VaultFull)
          else if OverlapsOther(v, c, tail) then AckStale
          else if !PreHashesHold(v, c, tail) then AckStale
          else if AnyStuck(tail, gate) then Failed(StuckFile)
          else AckOk
  }

  /** The ops a push adds to the client's stage. */
  ghost function Admitted(v: Vault, c: ClientID, keyname: string, batch: seq<Op>, gate: Gate): seq<Op> {
    if Verdicts(v, c, batch, gate) == AckOk && Fresh(v, c, batch).Some?
    then StampAll(Fresh(v, c, batch).value, keyname) else []
  }

  /** Looking up the client's stage creates it, even when the push then fails. */
  ghost function OpensStage(v: Vault, c: ClientID, batch: seq<Op>, gate: Gate): bool {
    Fresh(v, c, batch).Some? &&
    var tail := Fresh(v, c, batch).value;
    tail != [] && Screen(tail, gate) == Ok([]) && !gate.full(tail) && !OverlapsOther(v, c, tail)
  }

  ghost function PushStep(v: Vault, c: ClientID, keyname: string, batch: seq<Op>, gate: Gate): Vault {
    var w := if OpensStage(v, c, batch, gate) then v.(stages := v.stages[c := StageOf(v, c)]) else v;
    var ops := Admitted(v, c, keyname, batch, gate);
    var x := if ops == [] then w else StageOps(w, c, ops);
    x.(queues := Send(x.queues, c, MsgAck(Verdicts(v, c, batch, gate))))
  }

  // ----- commitStage and recovery -----

  function Broadcast(queues: map<ClientID, seq<Msg>>, except: ClientID, m: Msg): map<ClientID, seq<Msg>> {
    map c | c in queues :: if c == except then queues[c] else queues[c] + [m]
  }

  function CommitStep(v: Vault, c: ClientID): Vault {
    var ops := StageOf(v, c);
    if ops == [] then v
    else v.(head := Apply(ops, v.head), log := Without(v.log, c), idemDisk := v.idem,
            stages := v.stages[c := []], queues := Broadcast(v.queues, c, MsgBroadcast(ops)))
  }

  function FlushStep(v: Vault, c: ClientID): Vault {
    var w := CommitStep(v, c);
    w.(queues := Send(w.queues, c, MsgFlushAck))
  }

  function CommitAll(v: Vault, order: seq<ClientID>): Vault {
    if order == [] then v else CommitStep(CommitAll(v, order[..|order| - 1]), order[|order| - 1])
  }

  /** What survives a crash. */
  datatype Disk = Disk(head: Tree, log: seq<Entry>, idem: map<ClientID, nat>)

  function DiskOf(v: Vault): Disk { Disk(v.head, v.log, v.idemDisk) }

  /** `commitStage` in its durable steps: how far it got when the server died. */
  datatype CrashPoint = BeforeCommit | AfterCommit | AfterTruncate | AfterPersist

  function DiskAt(v: Vault, c: ClientID, point: CrashPoint): Disk {
    match point
    case BeforeCommit => DiskOf(v)
    case AfterCommit => DiskOf(v).(head := Apply(StageOf(v, c), v.head))
    case AfterTruncate => DiskOf(v).(head := Apply(StageOf(v, c), v.head), log := Without(v.log, c))
    case AfterPersist => Disk(Apply(StageOf(v, c), v.head), Without(v.log, c), v.idem)
  }

  /** One replayed entry: malformed ones are dropped, the others staged and their number marked. */
  function ReplayEntry(v: Vault, e: Entry): Vault {
    if !ValidateOp(e.op) then v
    else v.(stages := v.stages[e.client := StageOf(v, e.client) + [e.op]],
            idem := if e.op.seqno > HighestOf(v.idem, e.client) then v.idem[e.client := e.op.seqno] else v.idem)
  }

  function ReplayLog(v: Vault, log: seq<Entry>): Vault {
    if log == [] then v else ReplayEntry(ReplayLog(v, log[..|log| - 1]), log[|log| - 1])
  }

  /** `hydrate`, up to the replayed stages. */
  function Hydrated(d: Disk): Vault {
    ReplayLog(Vault(d.head, map[], d.log, d.idem, d.idem, map[]), d.log)
  }

  // ----- the handlers -----

  class VaultState {
    var head: Tree
    var stages: map<ClientID, seq<Op>>
    var log: seq<Entry>
    var idem: map<ClientID, nat>
    var idemDisk: map<ClientID, nat>
    var queues: map<ClientID, seq<Msg>>

    ghost function State(): Vault reads this { Vault(head, stages, log, idem, idemDisk, queues) }

    function MyStage(c: ClientID): seq<Op> reads this { if c in stages then stages[c] else [] }

    /** `hydrate`: open on what the disk holds and replay the log. */
    constructor (disk: Disk)
      ensures State() == Hydrated(disk)
    {
      head, stages, log, idem, idemDisk, queues := disk.head, map[], disk.log, disk.idem, disk.idem, map[];
      new;
      ghost var start := State();
      for i := 0 to |disk.log|
        invariant State() == ReplayLog(start, disk.log[..i])
      {
        var e := disk.log[i];
        assert disk.log[..i + 1][..i] == disk.log[..i];
        if !ValidateOp(e.op) {
          continue;
        }
        stages := stages[e.client := MyStage(e.client) + [e.op]];
        if e.op.seqno > HighestOf(idem, e.client) {
          idem := idem[e.client := e.op.seqno];
        }
      }
      assert disk.log[..|disk.log|] == disk.log;
    }

    /** `findOverlappingStage`. */
    method FindOverlappingStage(except: ClientID, ops: seq<Op>) returns (found: bool)
      ensures found <==> OverlapsOther(State(), except, ops)
    {
      var todo := stages.Keys;
      while todo != {}
        invariant todo <= stages.Keys
        invariant forall d :: d in stages.Keys - todo && d != except ==> !OverlapsStage(stages[d], ops)
        decreases todo
      {
        var d :| d in todo;
        todo := todo - {d};
        if d == except {
          continue;
        }
        var hit := StageOverlaps(stages[d], ops);
        if hit {
          return true;
        }
      }
      return false;
    }

    static method StageOverlaps(stage: seq<Op>, ops: seq<Op>) returns (hit: bool)
      ensures hit <==> OverlapsStage(stage, ops)
    {
      for i := 0 to |ops|
        invariant forall k :: 0 <= k < i ==>
          !TouchedBy(stage, PrimaryPath(ops[k])) && !(ops[k].ty.OpRename? && TouchedBy(stage, ops[k].to))
      {
        if TouchedBy(stage, PrimaryPath(ops[i])) || (ops[i].ty.OpRename? && TouchedBy(stage, ops[i].to)) {
          return true;
        }
      }
      return false;
    }

    /** The pre-hash loop: every op of the batch against the same stage and HEAD. */
    method CheckPreHashes(c: ClientID, ops: seq<Op>) returns (ok: bool)
      ensures ok <==> PreHashesHold(State(), c, ops)
    {
      for i := 0 to |ops|
        invariant forall k :: 0 <= k < i ==>
          PreHashMatches(ops[k].preHash, Overlay(MyStage(c), head, PrimaryPath(ops[k])))
      {
        var actual := Overlay(MyStage(c), head, PrimaryPath(ops[i]));
        if !PreHashMatches(ops[i].preHash, actual) {
          return false;
        }
      }
      return true;
    }

    static method CheckStuck(ops: seq<Op>, gate: Gate) returns (stuck: bool)
      ensures stuck <==> AnyStuck(ops, gate)
    {
      for i := 0 to |ops|
        invariant forall k :: 0 <= k < i ==> !gate.stuck(ops[k])
      {
        if gate.stuck(ops[i]) {
          return true;
        }
      }
      return false;
    }

    /** The append loop: each op goes to the stage, the log and the mark in turn. */
    method AppendAll(c: ClientID, keyname: string, ops: seq<Op>)
      requires ops != [] && Increasing(ops) && ops[0].seqno > HighestOf(idem, c)
      modifies this`stages, this`log, this`idem
      ensures State() == StageOps(old(State()), c, StampAll(ops, keyname))
    {
      hide StageOps;
      ghost var was := State();
      for i := 0 to |ops|
        invariant i == 0 ==> State() == was
        invariant i > 0 ==> State() == StageOps(was, c, StampAll(ops, keyname)[..i])
        invariant i < |ops| ==> HighestOf(idem, c) < ops[i].seqno
      {
        var op := Stamp(ops[i], keyname);
        StageOneMore(was, c, StampAll(ops, keyname), i);
        stages := stages[c := MyStage(c) + [op]];
        log := log + [Entry(c, op)];
        if op.seqno > HighestOf(idem, c) {
          idem := idem[c := op.seqno];
        }
      }
      assert StampAll(ops, keyname)[..|ops|] == StampAll(ops, keyname);
    }

    method HandlePushBatch(c: ClientID, keyname: string, batch: seq<Op>, gate: Gate) returns (answer: Answer)
      modifies this
      ensures answer == Verdicts(old(State()), c, batch, gate)
      ensures State() == PushStep(old(State()), c, keyname, batch, gate)
    {
      answer := Process(c, keyname, batch, gate);
      queues := Send(queues, c, MsgAck(answer));
    }

    method Process(c: ClientID, keyname: string, batch: seq<Op>, gate: Gate) returns (answer: Answer)
      modifies this`stages, this`log, this`idem
      ensures answer == Verdicts(old(State()), c, batch, gate)
      ensures State().(queues := Send(queues, c, MsgAck(answer))) == PushStep(old(State()), c, keyname, batch, gate)
    {
      hide Screen, OverlapsOther, PreHashesHold, AnyStuck;
      var fresh' := FilterAcked(batch, HighestOf(idem, c));
      if fresh'.None? {
        return Failed(InvalidData);
      }
      var ops := fresh'.value;
      if |ops| == 0 {
        return AckOk;
      }
      var screened := Screen(ops, gate);
      if screened.Err? {
        return Failed(screened.error);
      }
      if |screened.value| > 0 {
        return AckFiltered(screened.value);
      }
      if gate.full(ops) {
        return Failed(VaultFull);
      }
      var overlap := FindOverlappingStage(c, ops);
      if overlap {
        return AckStale;
      }
      stages := stages[c := MyStage(c)];
      var ok := CheckPreHashes(c, ops);
      SameStage(old(State()), State(), c, ops);
      if !ok {
        return AckStale;
      }
      var stuck := CheckStuck(ops, gate);
      if stuck {
        return Failed(StuckFile);
      }
      AppendAll(c, keyname, ops);
      return AckOk;
    }

    method BroadcastOps(except: ClientID, ops: seq<Op>)
      modifies this`queues
      ensures queues == Broadcast(old(queues), except, MsgBroadcast(ops))
    {
      var todo := queues.Keys;
      while todo != {}
        invariant todo <= queues.Keys && queues.Keys == old(queues.Keys)
        invariant forall c :: c in todo ==> queues[c] == old(queues)[c]
        invariant forall c :: c in queues.Keys - todo ==>
          queues[c] == Broadcast(old(queues), except, MsgBroadcast(ops))[c]
        decreases todo
      {
        var c :| c in todo;
        todo := todo - {c};
        if c == except {
          continue;
        }
        queues := queues[c := queues[c] + [MsgBroadcast(ops)]];
      }
    }

    /** `commitStage`: commit, truncate, persist, reset, broadcast. */
    method CommitStage(c: ClientID)
      modifies this
      ensures State() == CommitStep(old(State()), c)
    {
      var ops := MyStage(c);
      if |ops| == 0 {
        return;
      }
      head := Apply(ops, head);
      log := Without(log, c);
      idemDisk := idem;
      stages := stages[c := []];
      BroadcastOps(c, ops);
    }

    method HandleFlush(c: ClientID)
      modifies this
      ensures State() == FlushStep(old(State()), c)
    {
      CommitStage(c);
      queues := Send(queues, c, MsgFlushAck);
    }

    /** `flushReplayedStages`, and any other sweep over stages in some order. */
    method CommitStages(order: seq<ClientID>)
      modifies this
      ensures State() == CommitAll(old(State()), order)
    {
      for i := 0 to |order|
        invariant State() == CommitAll(old(State()), order[..i])
      {
        assert order[..i + 1][..i] == order[..i];
        CommitStage(order[i]);
      }
      assert order[..|order|] == order;
    }
  }

  lemma StageOneMore(v: Vault, c: ClientID, ops: seq<Op>, i: int)
    requires 0 <= i < |ops|
    ensures var w := if i == 0 then v else StageOps(v, c, ops[..i]);
            && ops[..i + 1] != []
            && StageOps(v, c, ops[..i + 1])
              == w.(stages := w.stages[c := StageOf(w, c) + [ops[i]]], log := w.log + [Entry(c, ops[i])],
                                               idem := w.idem[c := ops[i].seqno])
  {
    assert ops[..i + 1] == ops[..i] + [ops[i]];
    assert Logged(c, ops[..i + 1]) == Logged(c, ops[..i]) + [Entry(c, ops[i])];
    Assoc(StageOf(v, c), ops[..i], [ops[i]]);
    Assoc(v.log, Logged(c, ops[..i]), [Entry(c, ops[i])]);
    if i == 0 {
      assert ops[..0] + [ops[0]] == [ops[0]] && Logged(c, ops[..1]) == [Entry(c, ops[0])];
    }
  }

  lemma SameStage(v: Vault, w: Vault, c: ClientID, ops: seq<Op>)
    requires v.head == w.head && StageOf(v, c) == StageOf(w, c)
    ensures PreHashesHold(v, c, ops) == PreHashesHold(w, c, ops)
  {
  }
}
