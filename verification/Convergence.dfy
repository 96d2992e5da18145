/** The server and its clients together: every client converges on HEAD. */
module Convergence {
  import opened Wrappers
  import opened Protocol
  import Rebasing
  import opened Faithfulness
  import opened ClientLogs
  import opened Engines
  import opened Vaults
  import opened VaultLaws
  import opened Runs

  /** A connected client: its stores and logs, and the batch it waits to hear about. */
  datatype Client = Client(local: Rebasing.Local, staged: seq<StagedOp>, acked: seq<StagedOp>, inFlight: seq<Op>)

  datatype System = System(v: Vault, clients: map<ClientID, Client>)

  /** Every client id has its own keyname. */
  type Keys = ClientID -> string

  ghost predicate DistinctKeys(keys: Keys) { forall c, d :: c != d ==> keys(c) != keys(d) }

  datatype Move =
    | Joins(c: ClientID, client: Client)
    | Leaves(c: ClientID)
    | Edits(c: ClientID, staged: seq<StagedOp>)
    | Pushes(c: ClientID, batch: seq<Op>, gate: Gate)
    | Commits(c: ClientID)
    | Flushes(c: ClientID)
    | Receives(c: ClientID, env: Rebasing.Env)

  // ----- what a frame does to a client -----

  ghost function OnBroadcast(x: Client, ops: seq<Op>, keyname: string, env: Rebasing.Env): Client {
    var echo := EchoFiltered(ops, x.acked, keyname);
    x.(local := Rebasing.PassAll(x.local, echo.rest, x.staged, env).local,
       staged := Rebasing.Rebased(x.local, echo.rest, x.staged, env), acked := echo.acked)
  }

  ghost function OnAck(x: Client, answer: Answer): Client {
    if answer != AckOk || x.inFlight == [] then x.(inFlight := [])
    else
      var l := AfterAck(Logs(x.staged, x.acked), x.inFlight);
      Client(AckAll(x.local, x.inFlight), l.staged, l.acked, [])
  }

  ghost function OnFrame(x: Client, m: Msg, keyname: string, env: Rebasing.Env): Client {
    match m
    case MsgBroadcast(ops) => OnBroadcast(x, ops, keyname, env)
    case MsgAck(answer) => OnAck(x, answer)
    case MsgFlushAck => x
  }

  ghost function Next(s: System, m: Move, keys: Keys): System {
    match m
    case Joins(c, client) => System(s.v.(queues := s.v.queues[c := []]), s.clients[c := client])
    case Leaves(c) => System(s.v.(queues := s.v.queues - {c}), s.clients - {c})
    case Edits(c, staged) =>
      if c in s.clients then s.(clients := s.clients[c := s.clients[c].(staged := staged)]) else s
    case Pushes(c, batch, gate) =>
      if c in s.clients
      then System(PushStep(s.v, c, keys(c), batch, gate), s.clients[c := s.clients[c].(inFlight := batch)])
      else s
    case Commits(c) => s.(v := CommitStep(s.v, c))
    case Flushes(c) => s.(v := FlushStep(s.v, c))
    case Receives(c, env) =>
      if c in s.clients && c in s.v.queues && s.v.queues[c] != []
      then System(s.v.(queues := s.v.queues[c := s.v.queues[c][1..]]),
                  s.clients[c := OnFrame(s.clients[c], s.v.queues[c][0], keys(c), env)])
      else s
  }

  // ----- what replaying a queue gives -----

  /** One frame's effect on the tree a client believes in. */
  function FrameOn(t: Tree, m: Msg, batch: seq<Op>): Tree {
    match m
    case MsgBroadcast(ops) => Apply(ops, t)
    case MsgAck(answer) => if answer == AckOk then Apply(batch, t) else t
    case MsgFlushAck => t
  }

  function Replayed(t: Tree, queue: seq<Msg>, batch: seq<Op>): Tree {
    if queue == [] then t else FrameOn(Replayed(t, queue[..|queue| - 1], batch), queue[|queue| - 1], batch)
  }

  lemma ReplayedSnoc(t: Tree, queue: seq<Msg>, m: Msg, batch: seq<Op>)
    ensures Replayed(t, queue + [m], batch) == FrameOn(Replayed(t, queue, batch), m, batch)
  {
    assert (queue + [m])[..|queue|] == queue;
  }

  lemma {:induction false} ReplayedFirst(t: Tree, queue: seq<Msg>, batch: seq<Op>)
    requires queue != []
    ensures Replayed(t, queue, batch) == Replayed(FrameOn(t, queue[0], batch), queue[1..], batch)
  {
    if |queue| == 1 {
      assert queue[..0] == [] && queue[1..] == [];
    } else {
      var front := queue[..|queue| - 1];
      ReplayedFirst(t, front, batch);
      assert front[1..] == queue[1..][..|queue| - 2];
    }
  }

  ghost predicate NoAcks(queue: seq<Msg>) { forall i :: 0 <= i < |queue| ==> !queue[i].MsgAck? }

  /** Without an ack in it a queue does not depend on the batch in flight. */
  lemma {:induction false} ReplayedAnyBatch(t: Tree, queue: seq<Msg>, a: seq<Op>, b: seq<Op>)
    requires NoAcks(queue)
    ensures Replayed(t, queue, a) == Replayed(t, queue, b)
  {
    if queue != [] { ReplayedAnyBatch(t, queue[..|queue| - 1], a, b); }
  }

  // ----- the invariant -----

  /** At most one ack is under way, and only while a batch is in flight. */
  ghost predicate AckedOnce(queue: seq<Msg>, inFlight: seq<Op>) {
    && (inFlight == [] ==> NoAcks(queue))
    && (forall i, j :: 0 <= i < j < |queue| ==> !(queue[i].MsgAck? && queue[j].MsgAck?))
  }

  ghost predicate PlainOps(ops: seq<Op>) {
    AllValid(ops) && WritesAndDeletes(ops)
  }

  ghost predicate BroadcastOk(m: Msg, keyname: string) {
    m.MsgBroadcast? ==> PlainOps(m.ops) && forall i :: 0 <= i < |m.ops| ==> m.ops[i].author != keyname
  }

  /** Replaying what is queued for the client on what it believes gives HEAD overlaid by its stage. */
  ghost predicate InStep(v: Vault, c: ClientID, x: Client) {
    && c in v.queues
    && Rebasing.Tracks(x.local, x.local.base)
    && PlainOps(x.inFlight)
    && AckedOnce(v.queues[c], x.inFlight)
    && Replayed(x.local.base, v.queues[c], x.inFlight) == Apply(StageOf(v, c), v.head)
  }

  ghost predicate QueueOk(v: Vault, c: ClientID, keyname: string) {
    c in v.queues ==> forall i :: 0 <= i < |v.queues[c]| ==> BroadcastOk(v.queues[c][i], keyname)
  }

  ghost predicate StageOk(v: Vault, c: ClientID, keyname: string) {
    PlainOps(StageOf(v, c)) && forall i :: 0 <= i < |StageOf(v, c)| ==> StageOf(v, c)[i].author == keyname
  }

  /** Stages and queues hold what they should, for every client. */
  ghost predicate AllOk(v: Vault, keys: Keys) {
    forall c :: StageOk(v, c, keys(c)) && QueueOk(v, c, keys(c))
  }

  ghost predicate AllInStep(v: Vault, clients: map<ClientID, Client>) {
    forall c :: c in clients ==> InStep(v, c, clients[c])
  }

  ghost predicate Converging(s: System, keys: Keys) {
    Inv(s.v) && s.v.queues.Keys == s.clients.Keys && AllOk(s.v, keys) && AllInStep(s.v, s.clients)
  }

  /** Nothing in the batch has been seen. */
  ghost predicate AllNew(v: Vault, c: ClientID, batch: seq<Op>) { Fresh(v, c, batch) == Some(batch) }

  // ----- the moves that are covered -----

  /** Incoming ops that keep the client's view with the server: none is ignored, and none meets a
      staged op that makes the decision stray. */
  ghost predicate KeepsView(x: Client, m: Msg, env: Rebasing.Env) {
    m.MsgBroadcast? ==>
      && Rebasing.ValidLog(x.staged) && Rebasing.PlainCatchup(m.ops, env)
      && Rebasing.NoneStrays(x.local, m.ops, x.staged, x.local.base, env)
  }

  ghost predicate Covered(s: System, m: Move) {
    match m
    case Joins(c, client) =>
      && c !in s.clients && StageOf(s.v, c) == [] && client.inFlight == []
      && Rebasing.Tracks(client.local, s.v.head)
    case Pushes(c, batch, gate) =>
      c in s.clients ==> s.clients[c].inFlight == [] && batch != [] && PlainOps(batch) && AllNew(s.v, c, batch)
    case Receives(c, env) =>
      c in s.clients && c in s.v.queues && s.v.queues[c] != [] ==> KeepsView(s.clients[c], s.v.queues[c][0], env)
    case _ => true
  }

  // ----- each move keeps the invariant -----

  lemma AnswersAck(v: Vault, c: ClientID, keyname: string, batch: seq<Op>, gate: Gate)
    requires AllNew(v, c, batch)
    ensures Admitted(v, c, keyname, batch, gate) ==
            if Verdicts(v, c, batch, gate) == AckOk then StampAll(batch, keyname) else []
  {
    hide Fresh, Verdicts;
  }

  lemma PushQueues(v: Vault, c: ClientID, keyname: string, batch: seq<Op>, gate: Gate)
    ensures PushStep(v, c, keyname, batch, gate).queues == Send(v.queues, c, MsgAck(Verdicts(v, c, batch, gate)))
  {
    hide Verdicts, OpensStage, Admitted;
  }

  lemma PushedInStep(v: Vault, c: ClientID, x: Client, keyname: string, batch: seq<Op>, gate: Gate)
    requires InStep(v, c, x) && x.inFlight == [] && PlainOps(batch) && AllNew(v, c, batch)
    ensures batch != [] ==> InStep(PushStep(v, c, keyname, batch, gate), c, x.(inFlight := batch))
  {
    var answer := Verdicts(v, c, batch, gate);
    var w := PushStep(v, c, keyname, batch, gate);
    var q := v.queues[c];
    PushStages(v, c, keyname, batch, gate);
    PushQueues(v, c, keyname, batch, gate);
    AnswersAck(v, c, keyname, batch, gate);
    hide PushStep, Verdicts, Admitted, Fresh;
    assert w.queues[c] == q + [MsgAck(answer)];
    ReplayedSnoc(x.local.base, q, MsgAck(answer), batch);
    ReplayedAnyBatch(x.local.base, q, [], batch);
    if answer == AckOk {
      ApplyConcat(StageOf(v, c), StampAll(batch, keyname), v.head);
      StampKeepsEffect(batch, keyname, Apply(StageOf(v, c), v.head));
    } else {
      assert StageOf(v, c) + [] == StageOf(v, c);
    }
  }

  lemma PushedOthers(v: Vault, c: ClientID, keyname: string, batch: seq<Op>, gate: Gate, d: ClientID, x: Client)
    requires InStep(v, d, x) && d != c
    ensures InStep(PushStep(v, c, keyname, batch, gate), d, x)
  {
    PushStages(v, c, keyname, batch, gate);
    PushQueues(v, c, keyname, batch, gate);
  }

  lemma PushedStageOk(v: Vault, c: ClientID, batch: seq<Op>, gate: Gate, keys: Keys, d: ClientID)
    requires StageOk(v, d, keys(d)) && PlainOps(batch) && AllNew(v, c, batch)
    ensures StageOk(PushStep(v, c, keys(c), batch, gate), d, keys(d))
  {
    PushStages(v, c, keys(c), batch, gate);
    AnswersAck(v, c, keys(c), batch, gate);
    StampedIsPlain(batch, keys(c));
    hide PushStep, Admitted, Verdicts, Fresh, PlainOps;
    if d == c {
      PlainConcat(StageOf(v, c),
                  if Verdicts(v, c, batch, gate) == AckOk then StampAll(batch, keys(c)) else [], keys(c));
    }
  }

  lemma StampedIsPlain(ops: seq<Op>, keyname: string)
    requires PlainOps(ops)
    ensures PlainOps(StampAll(ops, keyname))
    ensures forall i :: 0 <= i < |ops| ==> StampAll(ops, keyname)[i].author == keyname
    ensures PlainOps([])
  {
    StampKeepsValid(ops, keyname);
  }

  lemma PlainConcat(a: seq<Op>, b: seq<Op>, keyname: string)
    requires PlainOps(a) && PlainOps(b)
    requires forall i :: 0 <= i < |a| ==> a[i].author == keyname
    requires forall i :: 0 <= i < |b| ==> b[i].author == keyname
    ensures PlainOps(a + b) && forall i :: 0 <= i < |a + b| ==> (a + b)[i].author == keyname
  {
  }

  lemma PushedQueueOk(v: Vault, c: ClientID, keyname: string, batch: seq<Op>, gate: Gate, d: ClientID, key: string)
    requires QueueOk(v, d, key)
    ensures QueueOk(PushStep(v, c, keyname, batch, gate), d, key)
  {
    PushQueues(v, c, keyname, batch, gate);
  }

  /** The committing client: its stage becomes part of HEAD. */
  lemma CommittedSelf(v: Vault, c: ClientID, x: Client)
    requires InStep(v, c, x)
    ensures InStep(CommitStep(v, c), c, x)
  {
  }

  /** Everybody else is sent the stage, which commutes with their own. */
  lemma CommittedOthers(v: Vault, c: ClientID, d: ClientID, x: Client)
    requires InStep(v, d, x) && Apart(v) && d != c
    ensures InStep(CommitStep(v, c), d, x)
  {
    var ops := StageOf(v, c);
    if ops != [] {
      var q := v.queues[d];
      assert CommitStep(v, c).queues[d] == q + [MsgBroadcast(ops)];
      ReplayedSnoc(x.local.base, q, MsgBroadcast(ops), x.inFlight);
      assert DisjointOps(ops, StageOf(v, d));
      StagesCommute(ops, StageOf(v, d), v.head);
    }
  }

  lemma CommittedQueueOk(v: Vault, c: ClientID, d: ClientID, keys: Keys)
    requires QueueOk(v, d, keys(d)) && StageOk(v, c, keys(c)) && DistinctKeys(keys)
    ensures QueueOk(CommitStep(v, c), d, keys(d))
  {
    if d in v.queues && d != c {
      assert BroadcastOk(MsgBroadcast(StageOf(v, c)), keys(d));
    }
  }

  /** A flush ack changes nothing for anybody. */
  lemma FlushAckInStep(v: Vault, c: ClientID, d: ClientID, x: Client)
    requires InStep(v, d, x)
    ensures InStep(v.(queues := Send(v.queues, c, MsgFlushAck)), d, x)
  {
    if d == c { ReplayedSnoc(x.local.base, v.queues[c], MsgFlushAck, x.inFlight); }
  }

  /** The first frame in the queue, handled: the rest of the queue then starts from its effect. */
  lemma ReceivedInStep(v: Vault, c: ClientID, x: Client, keyname: string, env: Rebasing.Env)
    requires InStep(v, c, x) && QueueOk(v, c, keyname) && v.queues[c] != [] && KeepsView(x, v.queues[c][0], env)
    ensures InStep(v.(queues := v.queues[c := v.queues[c][1..]]), c, OnFrame(x, v.queues[c][0], keyname, env))
  {
    var q, m := v.queues[c], v.queues[c][0];
    var rest := q[1..];
    var y := OnFrame(x, m, keyname, env);
    ReplayedFirst(x.local.base, q, x.inFlight);
    assert BroadcastOk(m, keyname);
    match m {
      case MsgBroadcast(ops) =>
        OthersPassEcho(ops, x.acked, keyname);
        Rebasing.CatchupTracks(x.local, ops, x.staged, x.local.base, env);
      case MsgAck(answer) =>
        AckEmptiesQueue(q, x.inFlight);
        ReplayedAnyBatch(FrameOn(x.local.base, m, x.inFlight), rest, x.inFlight, []);
        AckTracks(x.local, x.inFlight, x.local.base);
      case MsgFlushAck =>
    }
    RestAckedOnce(q, x.inFlight);
  }

  lemma AckEmptiesQueue(queue: seq<Msg>, inFlight: seq<Op>)
    requires queue != [] && AckedOnce(queue, inFlight) && queue[0].MsgAck?
    ensures NoAcks(queue[1..]) && inFlight != []
  {
    forall i | 0 <= i < |queue[1..]| ensures !queue[1..][i].MsgAck? {
      assert !(queue[0].MsgAck? && queue[i + 1].MsgAck?);
    }
  }

  lemma RestAckedOnce(queue: seq<Msg>, inFlight: seq<Op>)
    requires queue != [] && AckedOnce(queue, inFlight)
    ensures AckedOnce(queue[1..], inFlight)
  {
  }

  lemma PushesKeeps(s: System, c: ClientID, batch: seq<Op>, gate: Gate, keys: Keys)
    requires Converging(s, keys) && c in s.clients
    requires s.clients[c].inFlight == [] && batch != [] && PlainOps(batch) && AllNew(s.v, c, batch)
    ensures Converging(System(PushStep(s.v, c, keys(c), batch, gate),
                              s.clients[c := s.clients[c].(inFlight := batch)]), keys)
  {
    hide InStep, StageOk, QueueOk, Inv, PushStep, Fresh, PlainOps;
    PushKeepsInv(s.v, c, keys(c), batch, gate);
    PushQueues(s.v, c, keys(c), batch, gate);
    PushedAllOk(s, c, batch, gate, keys);
    PushedAllInStep(s, c, batch, gate, keys);
  }

  lemma PushedAllOk(s: System, c: ClientID, batch: seq<Op>, gate: Gate, keys: Keys)
    requires AllOk(s.v, keys) && PlainOps(batch) && AllNew(s.v, c, batch)
    ensures AllOk(PushStep(s.v, c, keys(c), batch, gate), keys)
  {
    var w := PushStep(s.v, c, keys(c), batch, gate);
    hide StageOk, QueueOk, PushStep, Fresh, PlainOps, InStep, Inv;
    forall d ensures StageOk(w, d, keys(d)) && QueueOk(w, d, keys(d)) {
      PushedStageOk(s.v, c, batch, gate, keys, d);
      PushedQueueOk(s.v, c, keys(c), batch, gate, d, keys(d));
    }
  }

  lemma PushedAllInStep(s: System, c: ClientID, batch: seq<Op>, gate: Gate, keys: Keys)
    requires AllInStep(s.v, s.clients) && c in s.clients
    requires s.clients[c].inFlight == [] && batch != [] && PlainOps(batch) && AllNew(s.v, c, batch)
    ensures AllInStep(PushStep(s.v, c, keys(c), batch, gate), s.clients[c := s.clients[c].(inFlight := batch)])
  {
    var w, clients := PushStep(s.v, c, keys(c), batch, gate), s.clients[c := s.clients[c].(inFlight := batch)];
    hide InStep, StageOk, QueueOk, Inv, PushStep, Fresh, PlainOps;
    forall d | d in clients ensures InStep(w, d, clients[d]) {
      if d == c { PushedInStep(s.v, c, s.clients[c], keys(c), batch, gate); }
      else { PushedOthers(s.v, c, keys(c), batch, gate, d, s.clients[d]); }
    }
  }

  lemma CommittedStageOk(v: Vault, c: ClientID, d: ClientID, key: string)
    requires StageOk(v, d, key)
    ensures StageOk(CommitStep(v, c), d, key)
  {
    CommitStages(v, c);
  }

  lemma CommitsKeeps(s: System, c: ClientID, keys: Keys)
    requires Converging(s, keys) && DistinctKeys(keys)
    ensures Converging(s.(v := CommitStep(s.v, c)), keys)
  {
    var w := CommitStep(s.v, c);
    FlushKeepsInv(s.v, c);
    assert w.queues.Keys == s.v.queues.Keys;
    forall d ensures StageOk(w, d, keys(d)) && QueueOk(w, d, keys(d)) {
      assert StageOk(s.v, c, keys(c)) && StageOk(s.v, d, keys(d)) && QueueOk(s.v, d, keys(d));
      CommittedStageOk(s.v, c, d, keys(d));
      CommittedQueueOk(s.v, c, d, keys);
    }
    forall d | d in s.clients ensures InStep(w, d, s.clients[d]) {
      if d == c { CommittedSelf(s.v, c, s.clients[d]); } else { CommittedOthers(s.v, c, d, s.clients[d]); }
    }
  }

  lemma SentQueueOk(v: Vault, c: ClientID, d: ClientID, key: string)
    requires QueueOk(v, d, key)
    ensures QueueOk(v.(queues := Send(v.queues, c, MsgFlushAck)), d, key)
  {
  }

  lemma SameStages(v: Vault, w: Vault, c: ClientID, key: string)
    requires w == v.(queues := w.queues) && StageOk(v, c, key)
    ensures StageOk(w, c, key)
  {
  }

  lemma FlushAckAllOk(v: Vault, c: ClientID, keys: Keys)
    requires AllOk(v, keys)
    ensures AllOk(v.(queues := Send(v.queues, c, MsgFlushAck)), keys)
  {
    var w := v.(queues := Send(v.queues, c, MsgFlushAck));
    hide StageOk, QueueOk;
    forall d ensures StageOk(w, d, keys(d)) && QueueOk(w, d, keys(d)) {
      SameStages(v, w, d, keys(d));
      SentQueueOk(v, c, d, keys(d));
    }
  }

  lemma FlushAckAllInStep(v: Vault, c: ClientID, clients: map<ClientID, Client>)
    requires AllInStep(v, clients)
    ensures AllInStep(v.(queues := Send(v.queues, c, MsgFlushAck)), clients)
  {
    hide InStep;
    forall d | d in clients ensures InStep(v.(queues := Send(v.queues, c, MsgFlushAck)), d, clients[d]) {
      FlushAckInStep(v, c, d, clients[d]);
    }
  }

  lemma FlushesKeeps(s: System, c: ClientID, keys: Keys)
    requires Converging(s, keys) && DistinctKeys(keys)
    ensures Converging(s.(v := FlushStep(s.v, c)), keys)
  {
    CommitsKeeps(s, c, keys);
    var v := CommitStep(s.v, c);
    hide AllOk, AllInStep, CommitStep, Inv;
    FlushAckAllOk(v, c, keys);
    FlushAckAllInStep(v, c, s.clients);
    QueuesDoNotMatter(v, v.(queues := Send(v.queues, c, MsgFlushAck)));
  }

  lemma QueueTail(v: Vault, c: ClientID, d: ClientID, key: string)
    requires QueueOk(v, d, key) && c in v.queues && v.queues[c] != []
    ensures QueueOk(v.(queues := v.queues[c := v.queues[c][1..]]), d, key)
  {
  }

  lemma OtherQueue(v: Vault, w: Vault, d: ClientID, x: Client)
    requires InStep(v, d, x) && w == v.(queues := w.queues) && d in w.queues && w.queues[d] == v.queues[d]
    ensures InStep(w, d, x)
  {
  }

  lemma ReceivesKeeps(s: System, c: ClientID, env: Rebasing.Env, keys: Keys)
    requires Converging(s, keys) && Covered(s, Receives(c, env))
    requires c in s.clients && c in s.v.queues && s.v.queues[c] != []
    ensures Converging(Next(s, Receives(c, env), keys), keys)
  {
    var s' := Next(s, Receives(c, env), keys);
    hide InStep, StageOk, QueueOk, Inv, OnFrame, KeepsView;
    QueuesDoNotMatter(s.v, s'.v);
    forall d ensures StageOk(s'.v, d, keys(d)) && QueueOk(s'.v, d, keys(d)) {
      SameStages(s.v, s'.v, d, keys(d));
      QueueTail(s.v, c, d, keys(d));
    }
    forall d | d in s'.clients ensures InStep(s'.v, d, s'.clients[d]) {
      if d == c { ReceivedInStep(s.v, c, s.clients[c], keys(c), env); }
      else { OtherQueue(s.v, s'.v, d, s.clients[d]); }
    }
  }

  lemma JoinedInStep(v: Vault, c: ClientID, x: Client, w: Vault)
    requires StageOf(v, c) == [] && x.inFlight == [] && Rebasing.Tracks(x.local, v.head)
    requires w == v.(queues := w.queues) && c in w.queues && w.queues[c] == []
    ensures InStep(w, c, x)
  {
  }

  lemma NewQueueOk(v: Vault, w: Vault, d: ClientID, key: string)
    requires QueueOk(v, d, key)
             && (d in w.queues ==> w.queues[d] == [] || (d in v.queues && w.queues[d] == v.queues[d]))
    ensures QueueOk(w, d, key)
  {
  }

  lemma JoinsKeeps(s: System, c: ClientID, client: Client, keys: Keys)
    requires Converging(s, keys)
    requires c !in s.clients && StageOf(s.v, c) == [] && client.inFlight == []
             && Rebasing.Tracks(client.local, s.v.head)
    ensures Converging(System(s.v.(queues := s.v.queues[c := []]), s.clients[c := client]), keys)
  {
    var s' := System(s.v.(queues := s.v.queues[c := []]), s.clients[c := client]);
    hide InStep, StageOk, QueueOk, Inv;
    QueuesDoNotMatter(s.v, s'.v);
    forall d ensures StageOk(s'.v, d, keys(d)) && QueueOk(s'.v, d, keys(d)) {
      SameStages(s.v, s'.v, d, keys(d));
      NewQueueOk(s.v, s'.v, d, keys(d));
    }
    forall d | d in s'.clients ensures InStep(s'.v, d, s'.clients[d]) {
      if d == c { JoinedInStep(s.v, c, client, s'.v); } else { OtherQueue(s.v, s'.v, d, s.clients[d]); }
    }
  }

  lemma LeavesKeeps(s: System, c: ClientID, keys: Keys)
    requires Converging(s, keys)
    ensures Converging(System(s.v.(queues := s.v.queues - {c}), s.clients - {c}), keys)
  {
    var s' := System(s.v.(queues := s.v.queues - {c}), s.clients - {c});
    hide InStep, StageOk, QueueOk, Inv;
    QueuesDoNotMatter(s.v, s'.v);
    forall d ensures StageOk(s'.v, d, keys(d)) && QueueOk(s'.v, d, keys(d)) {
      SameStages(s.v, s'.v, d, keys(d));
      NewQueueOk(s.v, s'.v, d, keys(d));
    }
    forall d | d in s'.clients ensures InStep(s'.v, d, s'.clients[d]) { OtherQueue(s.v, s'.v, d, s.clients[d]); }
  }

  lemma EditsKeeps(s: System, c: ClientID, staged: seq<StagedOp>, keys: Keys)
    requires Converging(s, keys) && c in s.clients
    ensures Converging(s.(clients := s.clients[c := s.clients[c].(staged := staged)]), keys)
  {
    assert InStep(s.v, c, s.clients[c]);
    hide StageOk, QueueOk, Inv;
    EditedInStep(s.v, c, s.clients[c], staged);
    hide InStep;
  }

  lemma EditedInStep(v: Vault, c: ClientID, x: Client, staged: seq<StagedOp>)
    requires InStep(v, c, x)
    ensures InStep(v, c, x.(staged := staged))
  {
  }

  lemma MoveKeeps(s: System, m: Move, keys: Keys)
    requires Converging(s, keys) && DistinctKeys(keys) && Covered(s, m)
    ensures Converging(Next(s, m, keys), keys)
  {
    hide Converging, DistinctKeys, InStep, PushStep, CommitStep, FlushStep;
    match m {
      case Joins(c, client) => JoinsKeeps(s, c, client, keys);
      case Leaves(c) => LeavesKeeps(s, c, keys);
      case Edits(c, staged) => if c in s.clients { EditsKeeps(s, c, staged, keys); }
      case Pushes(c, batch, gate) => if c in s.clients { PushesKeeps(s, c, batch, gate, keys); }
      case Commits(c) => CommitsKeeps(s, c, keys);
      case Flushes(c) => FlushesKeeps(s, c, keys);
      case Receives(c, env) =>
        if c in s.clients && c in s.v.queues && s.v.queues[c] != [] { ReceivesKeeps(s, c, env, keys); }
    }
  }

  // ----- runs -----

  ghost function Reached(head: Tree, run: seq<Move>, keys: Keys): System {
    if run == [] then System(Opened(head), map[]) else Next(Reached(head, run[..|run| - 1], keys), run[|run| - 1], keys)
  }

  ghost predicate CoveredRun(head: Tree, run: seq<Move>, keys: Keys) {
    forall i :: 0 <= i < |run| ==> Covered(Reached(head, run[..i], keys), run[i])
  }

  lemma CoveredFront(head: Tree, run: seq<Move>, keys: Keys)
    requires CoveredRun(head, run, keys) && run != []
    ensures CoveredRun(head, run[..|run| - 1], keys)
    ensures Covered(Reached(head, run[..|run| - 1], keys), run[|run| - 1])
  {
    var front := run[..|run| - 1];
    forall i | 0 <= i < |front| ensures Covered(Reached(head, front[..i], keys), front[i]) {
      assert front[..i] == run[..i];
    }
  }

  lemma NobodyYet(head: Tree, keys: Keys)
    ensures Converging(System(Opened(head), map[]), keys)
  {
  }

  lemma {:induction false} RunConverges(head: Tree, run: seq<Move>, keys: Keys)
    requires DistinctKeys(keys) && CoveredRun(head, run, keys)
    ensures Converging(Reached(head, run, keys), keys)
  {
    hide Converging, Covered, DistinctKeys, Next;
    if run == [] {
      NobodyYet(head, keys);
    } else {
      CoveredFront(head, run, keys);
      RunConverges(head, run[..|run| - 1], keys);
      MoveKeeps(Reached(head, run[..|run| - 1], keys), run[|run| - 1], keys);
    }
  }

  /** Convergence: over every covered run, replaying a client's queued broadcasts and acks onto what it
      believes gives HEAD overlaid by its own stage; so with its queue drained and its stage
      committed, its manifest is HEAD's. */
  lemma Convergence(head: Tree, run: seq<Move>, keys: Keys, c: ClientID)
    requires DistinctKeys(keys) && CoveredRun(head, run, keys) && c in Reached(head, run, keys).clients
    ensures var s := Reached(head, run, keys);
            var x := s.clients[c];
            && c in s.v.queues && Rebasing.Tracks(x.local, x.local.base)
            && Replayed(x.local.base, s.v.queues[c], x.inFlight) == Apply(StageOf(s.v, c), s.v.head)
            && (s.v.queues[c] == [] && StageOf(s.v, c) == [] ==> x.local.manifest == Rebasing.ManifestOf(s.v.head))
  {
    RunConverges(head, run, keys);
    assert InStep(Reached(head, run, keys).v, c, Reached(head, run, keys).clients[c]);
  }
}
