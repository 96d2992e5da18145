/** What holds over every run of the vault, crashes and restarts included. */
module Runs {
  import opened Wrappers
  import opened Protocol
  import opened Wal
  import opened IdemCaches
  import opened Vaults
  import opened Faithfulness
  import opened VaultLaws
  import opened Recovery

  // ----- runs -----

  /** One step of the server: a handler, a sweep of the commit runner, a connection coming or going,
      or a crash followed by a restart that flushes what it replayed. */
  datatype Event =
    | Pushed(c: ClientID, keyname: string, batch: seq<Op>, gate: Gate)
    | Flushed(c: ClientID)
    | Swept(order: seq<ClientID>)
    | Connected(c: ClientID)
    | Left(c: ClientID)
    | Restarted(order: seq<ClientID>)
    | CrashedInCommit(c: ClientID, point: CrashPoint, order: seq<ClientID>)
    | CrashedInPush(c: ClientID, keyname: string, batch: seq<Op>, gate: Gate, k: nat, order: seq<ClientID>)

  function AtMost(k: nat, n: nat): nat { if k <= n then k else n }

  /** The ops a push got to append before the crash. */
  ghost function Appended(v: Vault, c: ClientID, keyname: string, batch: seq<Op>, gate: Gate, k: nat): seq<Op> {
    var ops := Admitted(v, c, keyname, batch, gate);
    ops[..AtMost(k, |ops|)]
  }

  /** The disk such a crash leaves. */
  ghost function DiskInPush(v: Vault, c: ClientID, keyname: string, batch: seq<Op>, gate: Gate, k: nat): Disk {
    var ops := Admitted(v, c, keyname, batch, gate);
    DiskMidPush(v, c, ops, AtMost(k, |ops|))
  }

  /** The vault whose restart that crash amounts to. */
  ghost function CutPush(v: Vault, c: ClientID, keyname: string, batch: seq<Op>, gate: Gate, k: nat): Vault {
    ShortPush(v, c, keyname, batch, gate, AtMost(k, |Admitted(v, c, keyname, batch, gate)|))
  }

  ghost function Step(v: Vault, e: Event): Vault {
    match e
    case Pushed(c, keyname, batch, gate) => PushStep(v, c, keyname, batch, gate)
    case Flushed(c) => FlushStep(v, c)
    case Swept(order) => CommitAll(v, order)
    case Connected(c) => v.(queues := v.queues[c := []])
    case Left(c) => v.(queues := v.queues - {c})
    case Restarted(order) => CommitAll(Hydrated(DiskOf(v)), order)
    case CrashedInCommit(c, point, order) => CommitAll(Hydrated(DiskAt(v, c, point)), order)
    case CrashedInPush(c, keyname, batch, gate, k, order) =>
      CommitAll(Hydrated(DiskInPush(v, c, keyname, batch, gate, k)), order)
  }

  function Opened(head: Tree): Vault { Vault(head, map[], [], map[], map[], map[]) }

  ghost function After(head: Tree, run: seq<Event>): Vault {
    if run == [] then Opened(head) else Step(After(head, run[..|run| - 1]), run[|run| - 1])
  }

  lemma {:induction false} CommitAllKeepsInv(v: Vault, order: seq<ClientID>)
    requires Inv(v)
    ensures Inv(CommitAll(v, order))
  {
    if order != [] {
      var w := CommitAll(v, order[..|order| - 1]);
      CommitAllKeepsInv(v, order[..|order| - 1]);
      CommitKeepsApart(w, order[|order| - 1]);
      CommitKeepsLog(w, order[|order| - 1]);
    }
  }

  lemma QueuesDoNotMatter(v: Vault, w: Vault)
    requires Inv(v) && w == v.(queues := w.queues)
    ensures Inv(w) && (MarksHold(v) ==> MarksHold(w)) && (AllFaithful(v) ==> AllFaithful(w))
    ensures forall c :: StageOf(w, c) == StageOf(v, c)
  {
    assert forall c :: StageOf(w, c) == StageOf(v, c);
    if MarksHold(v) { forall c ensures MarkHolds(w, c) { assert MarkHolds(v, c); } }
  }

  /** Any disk whose log holds part of what the stages held comes up with the invariant. */
  lemma HydratedInv(v: Vault, d: Disk)
    requires Inv(v) && LogIsClean(d.log)
    requires forall c :: OpsOf(d.log, c) == StageOf(v, c) || OpsOf(d.log, c) == []
    ensures Inv(Hydrated(d))
  {
    var h := Hydrated(d);
    forall c ensures StageOf(h, c) == OpsOf(d.log, c) && h.log == d.log { HydratedStages(d, c); }
    HydratedStages(d, "");
    assert Apart(h) by {
      forall c, x | c != x ensures DisjointOps(StageOf(h, c), StageOf(h, x)) {
        assert DisjointOps(StageOf(v, c), StageOf(v, x));
      }
    }
  }

  lemma PushKeepsInv(v: Vault, c: ClientID, keyname: string, batch: seq<Op>, gate: Gate)
    requires Inv(v)
    ensures Inv(PushStep(v, c, keyname, batch, gate))
  {
    PushKeepsApart(v, c, keyname, batch, gate);
    PushKeepsLog(v, c, keyname, batch, gate);
  }

  lemma FlushKeepsInv(v: Vault, c: ClientID)
    requires Inv(v)
    ensures Inv(CommitStep(v, c)) && Inv(FlushStep(v, c))
  {
    CommitKeepsApart(v, c);
    CommitKeepsLog(v, c);
    QueuesDoNotMatter(CommitStep(v, c), FlushStep(v, c));
  }

  lemma RestartKeepsInv(v: Vault, order: seq<ClientID>)
    requires Inv(v)
    ensures Inv(CommitAll(Hydrated(DiskOf(v)), order))
  {
    HydratedInv(v, DiskOf(v));
    CommitAllKeepsInv(Hydrated(DiskOf(v)), order);
  }

  lemma CrashKeepsInv(v: Vault, c: ClientID, point: CrashPoint, order: seq<ClientID>)
    requires Inv(v)
    ensures Inv(CommitAll(Hydrated(DiskAt(v, c, point)), order))
  {
    TruncatedLog(v, c);
    HydratedInv(v, DiskAt(v, c, point));
    CommitAllKeepsInv(Hydrated(DiskAt(v, c, point)), order);
  }

  lemma CrashInPushIsRestart(v: Vault, e: Event)
    requires e.CrashedInPush?
    ensures Step(v, e) == Step(CutPush(v, e.c, e.keyname, e.batch, e.gate, e.k), Restarted(e.order))
  {
    hide Admitted, DiskMidPush, ShortPush, Hydrated, CommitAll, DiskOf;
    MidPushIsShortPush(v, e.c, e.keyname, e.batch, e.gate, AtMost(e.k, |Admitted(v, e.c, e.keyname, e.batch, e.gate)|));
  }

  lemma CutKeeps(v: Vault, c: ClientID, keyname: string, batch: seq<Op>, gate: Gate, k: nat)
    requires Inv(v)
    ensures var w := CutPush(v, c, keyname, batch, gate, k);
            && Inv(w) && (MarksHold(v) ==> MarksHold(w))
            && (AllFaithful(v) && AllForeseen(Appended(v, c, keyname, batch, gate, k)) ==> AllFaithful(w))
  {
    var n := AtMost(k, |Admitted(v, c, keyname, batch, gate)|);
    hide Admitted, ShortPush, Inv, MarksHold, AllFaithful, AllForeseen;
    ShortKeepsInv(v, c, keyname, batch, gate, n);
    if AllFaithful(v) && AllForeseen(Appended(v, c, keyname, batch, gate, k)) {
      ShortKeepsFaithful(v, c, keyname, batch, gate, n);
    }
  }

  lemma StepKeepsInv(v: Vault, e: Event)
    requires Inv(v)
    ensures Inv(Step(v, e))
  {
    hide PushStep, FlushStep, CommitAll, Hydrated, DiskAt, DiskOf, DiskInPush, CutPush, Inv, Appended;
    match e {
      case Pushed(c, keyname, batch, gate) =>
        PushKeepsInv(v, c, keyname, batch, gate);
      case Flushed(c) => FlushKeepsInv(v, c);
      case Swept(order) => CommitAllKeepsInv(v, order);
      case Connected(c) => QueuesDoNotMatter(v, Step(v, e));
      case Left(c) => QueuesDoNotMatter(v, Step(v, e));
      case Restarted(order) => RestartKeepsInv(v, order);
      case CrashedInCommit(c, point, order) => CrashKeepsInv(v, c, point, order);
      case CrashedInPush(c, keyname, batch, gate, k, order) =>
        CrashInPushIsRestart(v, e);
        CutKeeps(v, c, keyname, batch, gate, k);
        RestartKeepsInv(CutPush(v, c, keyname, batch, gate, k), order);
    }
  }

  /** In every reachable state no path is touched by two clients' stages, and the log holds exactly
      the stages: in every run of pushes, flushes, sweeps, restarts and crashes, whatever the ops. */
  lemma {:induction false} StagesStayApart(head: Tree, run: seq<Event>)
    ensures Inv(After(head, run))
  {
    if run != [] {
      StagesStayApart(head, run[..|run| - 1]);
      StepKeepsInv(After(head, run[..|run| - 1]), run[|run| - 1]);
    }
  }

  /** In every reachable state the pending stages commit to one tree, whatever the order. */
  lemma Confluence(head: Tree, run: seq<Event>, a: seq<ClientID>, b: seq<ClientID>)
    requires forall c :: c in a <==> c in b
    ensures CommitAll(After(head, run), a).head == CommitAll(After(head, run), b).head
  {
    StagesStayApart(head, run);
    CommitOrderIrrelevant(After(head, run), a, b);
  }

  // ----- no lost update -----

  /** The ops staged foresee what their batch leaves at each of them, and a restart with a stage in both HEAD
      and the log flushes everything. */
  ghost predicate Careful(v: Vault, e: Event) {
    match e
    case Pushed(c, keyname, batch, gate) => AllForeseen(Admitted(v, c, keyname, batch, gate))
    case CrashedInCommit(c, point, order) => point.AfterCommit? ==> Covers(order, v)
    case CrashedInPush(c, keyname, batch, gate, k, _) => AllForeseen(Appended(v, c, keyname, batch, gate, k))
    case _ => true
  }

  lemma {:induction false} CommitAllKeepsFaithful(v: Vault, order: seq<ClientID>)
    requires Inv(v) && AllFaithful(v)
    ensures AllFaithful(CommitAll(v, order))
  {
    if order != [] {
      var front, last := order[..|order| - 1], order[|order| - 1];
      CommitAllKeepsInv(v, front);
      CommitAllKeepsFaithful(v, front);
      CommitKeepsFaithful(CommitAll(v, front), last);
    }
  }

  lemma SameWorkFaithful(v: Vault, w: Vault)
    requires SameWork(v, w) && AllFaithful(v)
    ensures AllFaithful(w)
  {
    forall c ensures AllValid(StageOf(w, c)) && Faithful(StageOf(w, c), w.head) {
      assert AllValid(StageOf(v, c)) && Faithful(StageOf(v, c), v.head);
    }
  }

  lemma FlushedIsFaithful(v: Vault, order: seq<ClientID>)
    requires Covers(order, v)
    ensures AllFaithful(CommitAll(v, order))
  {
    forall c ensures StageOf(CommitAll(v, order), c) == [] { CommitAllStages(v, order, c); }
  }

  lemma FlushKeepsFaithful(v: Vault, c: ClientID)
    requires Inv(v) && AllFaithful(v)
    ensures AllFaithful(FlushStep(v, c))
  {
    CommitKeepsFaithful(v, c);
    CommitKeepsApart(v, c);
    CommitKeepsLog(v, c);
    QueuesDoNotMatter(CommitStep(v, c), FlushStep(v, c));
  }

  lemma RestartKeepsFaithful(v: Vault, order: seq<ClientID>)
    requires Inv(v) && AllFaithful(v)
    ensures AllFaithful(CommitAll(Hydrated(DiskOf(v)), order))
  {
    HydratedSame(v);
    SameWorkFaithful(v, Hydrated(DiskOf(v)));
    HydratedInv(v, DiskOf(v));
    CommitAllKeepsFaithful(Hydrated(DiskOf(v)), order);
  }

  lemma CrashKeepsFaithful(v: Vault, c: ClientID, point: CrashPoint, order: seq<ClientID>)
    requires Inv(v) && AllFaithful(v) && (point.AfterCommit? ==> Covers(order, v))
    ensures AllFaithful(CommitAll(Hydrated(DiskAt(v, c, point)), order))
  {
    hide AllFaithful, Hydrated, CommitAll, CommitStep;
    match point {
      case BeforeCommit => RestartKeepsFaithful(v, order);
      case AfterCommit =>
        HydratedAfterCommit(v, c);
        FlushedIsFaithful(Hydrated(DiskAt(v, c, AfterCommit)), order);
      case _ =>
        CommitKeepsFaithful(v, c);
        HydratedAfterTruncate(v, c, point);
        SameWorkFaithful(CommitStep(v, c), Hydrated(DiskAt(v, c, point)));
        TruncatedLog(v, c);
        HydratedInv(v, DiskAt(v, c, point));
        CommitAllKeepsFaithful(Hydrated(DiskAt(v, c, point)), order);
    }
  }

  lemma StepKeepsFaithful(v: Vault, e: Event)
    requires Inv(v) && AllFaithful(v) && Careful(v, e)
    ensures AllFaithful(Step(v, e))
  {
    hide AllFaithful, Inv, CommitAll, PushStep, FlushStep, Hydrated, DiskAt, DiskInPush, CutPush, Appended, Admitted;
    match e {
      case Pushed(c, keyname, batch, gate) => PushCheckIff(v, c, keyname, batch, gate);
      case Flushed(c) => FlushKeepsFaithful(v, c);
      case Swept(order) => CommitAllKeepsFaithful(v, order);
      case Connected(c) => QueuesDoNotMatter(v, Step(v, e));
      case Left(c) => QueuesDoNotMatter(v, Step(v, e));
      case Restarted(order) => RestartKeepsFaithful(v, order);
      case CrashedInCommit(c, point, order) => CrashKeepsFaithful(v, c, point, order);
      case CrashedInPush(c, keyname, batch, gate, k, order) =>
        CrashInPushIsRestart(v, e);
        CutKeeps(v, c, keyname, batch, gate, k);
        RestartKeepsFaithful(CutPush(v, c, keyname, batch, gate, k), order);
    }
  }

  lemma {:induction false} StaysFaithful(head: Tree, run: seq<Event>)
    requires forall i :: 0 <= i < |run| ==> Careful(After(head, run[..i]), run[i])
    ensures AllFaithful(After(head, run))
  {
    hide Careful, AllFaithful, Inv, Step, Opened;
    if run != [] {
      var front := run[..|run| - 1];
      forall i | 0 <= i < |front| ensures Careful(After(head, front[..i]), front[i]) { assert front[..i] == run[..i]; }
      StaysFaithful(head, front);
      StagesStayApart(head, front);
      StepKeepsFaithful(After(head, front), run[|run| - 1]);
    } else {
      NothingStaged(head);
    }
  }

  /** A push is the one step at which that can be lost, and it is exactly if the push is not careful: so with
      careful crashes every state of a run is faithful exactly when every push in it is careful. */
  lemma FaithfulRunIff(head: Tree, run: seq<Event>)
    requires forall i :: 0 <= i < |run| && !run[i].Pushed? ==> Careful(After(head, run[..i]), run[i])
    ensures (forall i :: 0 <= i <= |run| ==> AllFaithful(After(head, run[..i])))
       <==> (forall i :: 0 <= i < |run| ==> Careful(After(head, run[..i]), run[i]))
  {
    hide Careful, AllFaithful, After;
    if forall i :: 0 <= i < |run| ==> Careful(After(head, run[..i]), run[i]) {
      forall i | 0 <= i <= |run| ensures AllFaithful(After(head, run[..i])) {
        forall j | 0 <= j < i ensures Careful(After(head, run[..i][..j]), run[..i][j]) {
          assert run[..i][..j] == run[..j];
        }
        StaysFaithful(head, run[..i]);
      }
    }
    if forall i :: 0 <= i <= |run| ==> AllFaithful(After(head, run[..i])) {
      forall i | 0 <= i < |run| ensures Careful(After(head, run[..i]), run[i]) {
        assert AllFaithful(After(head, run[..i])) && AllFaithful(After(head, run[..i + 1]));
        AfterStep(head, run, i);
        if run[i].Pushed? { PushWasCareful(After(head, run[..i]), run[i]); }
      }
    }
  }

  lemma AfterStep(head: Tree, run: seq<Event>, i: int)
    requires 0 <= i < |run|
    ensures After(head, run[..i + 1]) == Step(After(head, run[..i]), run[i])
  {
    assert run[..i + 1][..i] == run[..i];
  }

  lemma PushWasCareful(v: Vault, e: Event)
    requires e.Pushed? && AllFaithful(v) && AllFaithful(Step(v, e))
    ensures Careful(v, e)
  {
    hide AllFaithful, PushStep, AllForeseen, Admitted;
    PushCheckIff(v, e.c, e.keyname, e.batch, e.gate);
  }

  lemma NothingStaged(head: Tree)
    ensures AllFaithful(Opened(head))
  {
  }

  /** No lost update: over every careful run each staged op, were its stage committed now, would be
      applied over content whose state is exactly the pre-hash it declared, however many other
      stages were committed since it was accepted. So the commit never fails. */
  lemma NoLostUpdate(head: Tree, run: seq<Event>, c: ClientID, strict: bool)
    requires forall i :: 0 <= i < |run| ==> Careful(After(head, run[..i]), run[i])
    ensures var v := After(head, run);
            && Faithful(StageOf(v, c), v.head)
            && CommitOps(StageOf(v, c), v.head, strict) == Some(CommitStep(v, c).head)
  {
    var v := After(head, run);
    StaysFaithful(head, run);
    hide After;
    CommitStages(v, c);
    FaithfulCommits(StageOf(v, c), v.head, strict);
  }

  /** Over every run: a crash inside a commit, and the restart after it, lose no acked op and apply
      none to any other effect, exactly unless the stage had reached HEAD, was still in the log, and
      had changed what it takes from HEAD. */
  lemma CrashLosesNothing(head: Tree, run: seq<Event>, c: ClientID, point: CrashPoint, order: seq<ClientID>)
    requires c in order
    ensures var v := After(head, run);
            (Step(v, CrashedInCommit(c, point, order)).head == CommitAll(v, order).head
             <==> (point.AfterCommit? ==> SourcesStay(StageOf(v, c), v.head)))
  {
    StagesStayApart(head, run);
    hide After, Inv, SourcesStay, Hydrated, DiskAt, CommitAll;
    if point.AfterCommit? {
      CrashAfterCommitIff(After(head, run), c, order);
    } else {
      CrashRecovery(After(head, run), c, point, order);
    }
  }

  // ----- exactly once by sequence number -----

  /** The ops a step staged for a client. */
  ghost function StagedBy(v: Vault, e: Event, c: ClientID): seq<Op> {
    if e.Pushed? && e.c == c then Admitted(v, c, e.keyname, e.batch, e.gate)
    else if e.CrashedInPush? && e.c == c then Appended(v, c, e.keyname, e.batch, e.gate, e.k)
    else []
  }

  /** The ops ever staged for a client over a run. */
  ghost function EverStaged(head: Tree, run: seq<Event>, c: ClientID): seq<Op> {
    if run == [] then []
    else
      var front, e := run[..|run| - 1], run[|run| - 1];
      EverStaged(head, front, c) + StagedBy(After(head, front), e, c)
  }

  /** The step does not lose c's mark: only a crash in c's own commit can, between the truncation of
      the log and the snapshot, when the snapshot was behind. */
  ghost predicate KeepsMark(v: Vault, e: Event, c: ClientID) {
    e.CrashedInCommit? && e.c == c ==> !LosesMark(v, c, e.point)
  }

  /** What the run's history says about a client's mark. */
  ghost predicate MarkIs(v: Vault, c: ClientID, history: seq<Op>) {
    && Increasing(history)
    && HighestOf(v.idem, c) == LastNumber(history, 0)
  }

  lemma {:induction false} CommitAllKeepsMarks(v: Vault, order: seq<ClientID>)
    requires MarksHold(v)
    ensures MarksHold(CommitAll(v, order)) && CommitAll(v, order).idem == v.idem
  {
    if order != [] {
      CommitAllKeepsMarks(v, order[..|order| - 1]);
      CommitKeepsMarks(CommitAll(v, order[..|order| - 1]), order[|order| - 1]);
    }
  }

  lemma RestartKeepsMarks(v: Vault, order: seq<ClientID>)
    requires Inv(v) && MarksHold(v)
    ensures var w := CommitAll(Hydrated(DiskOf(v)), order);
            MarksHold(w) && forall c :: HighestOf(w.idem, c) == HighestOf(v.idem, c)
  {
    RestartFindsMarks(v);
    assert forall c :: Recovered(v, c) == HighestOf(Hydrated(DiskOf(v)).idem, c);
    hide Hydrated, MarksHold, CommitAll;
    CommitAllKeepsMarks(Hydrated(DiskOf(v)), order);
  }

  lemma CrashKeepsMarks(v: Vault, c: ClientID, point: CrashPoint, order: seq<ClientID>)
    requires Inv(v) && MarksHold(v)
    ensures var w := CommitAll(Hydrated(DiskAt(v, c, point)), order);
            MarksHold(w) &&
            forall d :: !(d == c && LosesMark(v, c, point)) ==> HighestOf(w.idem, d) == HighestOf(v.idem, d)
  {
    var h := Hydrated(DiskAt(v, c, point));
    hide MarkHolds, LosesMark, Hydrated, CommitAll;
    forall d
      ensures MarkHolds(h, d)
      ensures !(d == c && LosesMark(v, c, point)) ==> HighestOf(h.idem, d) == HighestOf(v.idem, d)
    {
      assert MarkHolds(v, d);
      CrashMarkIff(v, c, point, d);
    }
    CommitAllKeepsMarks(h, order);
  }

  lemma FlushKeepsMarks(v: Vault, c: ClientID)
    requires Inv(v) && MarksHold(v)
    ensures MarksHold(FlushStep(v, c)) && FlushStep(v, c).idem == v.idem
  {
    CommitKeepsMarks(v, c);
    CommitKeepsApart(v, c);
    CommitKeepsLog(v, c);
    QueuesDoNotMatter(CommitStep(v, c), FlushStep(v, c));
  }

  /** A step that keeps the mark moves it to the last op it staged, if it staged any. */
  ghost predicate MarkFollows(v: Vault, w: Vault, ops: seq<Op>, c: ClientID) {
    HighestOf(w.idem, c) == LastNumber(ops, HighestOf(v.idem, c)) && IncreasesFrom(ops, HighestOf(v.idem, c))
  }

  function LastNumber(ops: seq<Op>, mark: nat): nat { if ops == [] then mark else ops[|ops| - 1].seqno }

  ghost predicate IncreasesFrom(ops: seq<Op>, mark: nat) {
    Increasing(ops) && (ops != [] ==> ops[0].seqno > mark)
  }

  lemma IncreasesPrefix(ops: seq<Op>, mark: nat, k: nat)
    requires IncreasesFrom(ops, mark) && k <= |ops|
    ensures IncreasesFrom(ops[..k], mark)
  {
  }

  lemma PushMarkFollows(v: Vault, c: ClientID, keyname: string, batch: seq<Op>, gate: Gate, d: ClientID)
    ensures MarkFollows(v, PushStep(v, c, keyname, batch, gate),
                        if c == d then Admitted(v, c, keyname, batch, gate) else [], d)
  {
    PushStages(v, c, keyname, batch, gate);
    AdmittedIncreases(v, c, keyname, batch, gate);
    hide PushStep, Admitted;
  }

  lemma AdmittedFrom(v: Vault, c: ClientID, keyname: string, batch: seq<Op>, gate: Gate)
    ensures IncreasesFrom(Admitted(v, c, keyname, batch, gate), HighestOf(v.idem, c))
  {
    AdmittedIncreases(v, c, keyname, batch, gate);
  }

  lemma AppendedFrom(v: Vault, c: ClientID, keyname: string, batch: seq<Op>, gate: Gate, k: nat)
    ensures IncreasesFrom(Appended(v, c, keyname, batch, gate, k), HighestOf(v.idem, c))
  {
    hide Admitted, IncreasesFrom, HighestOf;
    AdmittedFrom(v, c, keyname, batch, gate);
    IncreasesPrefix(Admitted(v, c, keyname, batch, gate), HighestOf(v.idem, c),
                    AtMost(k, |Admitted(v, c, keyname, batch, gate)|));
  }

  lemma CutNumbers(v: Vault, c: ClientID, keyname: string, batch: seq<Op>, gate: Gate, k: nat)
    ensures var w, ops := CutPush(v, c, keyname, batch, gate, k), Appended(v, c, keyname, batch, gate, k);
            && HighestOf(w.idem, c) == LastNumber(ops, HighestOf(v.idem, c))
            && forall d :: d != c ==> HighestOf(w.idem, d) == HighestOf(v.idem, d)
  {
    hide Admitted, ShortPush, HighestOf, StageOf;
    ShortStages(v, c, keyname, batch, gate, AtMost(k, |Admitted(v, c, keyname, batch, gate)|));
  }

  lemma CutMark(v: Vault, c: ClientID, keyname: string, batch: seq<Op>, gate: Gate, k: nat, d: ClientID)
    ensures MarkFollows(v, CutPush(v, c, keyname, batch, gate, k),
                        if c == d then Appended(v, c, keyname, batch, gate, k) else [], d)
  {
    assert IncreasesFrom([], HighestOf(v.idem, d));
    hide CutPush, Appended, HighestOf, IncreasesFrom;
    AppendedFrom(v, c, keyname, batch, gate, k);
    CutNumbers(v, c, keyname, batch, gate, k);
  }

  lemma SameMark(v: Vault, w: Vault, x: Vault, ops: seq<Op>, c: ClientID)
    requires MarkFollows(v, w, ops, c) && HighestOf(x.idem, c) == HighestOf(w.idem, c)
    ensures MarkFollows(v, x, ops, c)
  {
  }

  lemma CutStaged(v: Vault, e: Event, d: ClientID)
    requires e.CrashedInPush?
    ensures StagedBy(v, e, d) == if e.c == d then Appended(v, e.c, e.keyname, e.batch, e.gate, e.k) else []
    ensures Step(v, Restarted(e.order)) == CommitAll(Hydrated(DiskOf(v)), e.order)
  {
    hide Appended, Hydrated, CommitAll, DiskOf;
  }

  lemma CutMarkFollows(v: Vault, e: Event, d: ClientID)
    requires Inv(v) && MarksHold(v) && e.CrashedInPush?
    ensures MarksHold(Step(v, e)) && MarkFollows(v, Step(v, e), StagedBy(v, e, d), d)
  {
    hide *;
    var w := CutPush(v, e.c, e.keyname, e.batch, e.gate, e.k);
    CrashInPushIsRestart(v, e);
    CutStaged(v, e, d);
    CutStaged(w, e, d);
    CutKeeps(v, e.c, e.keyname, e.batch, e.gate, e.k);
    CutMark(v, e.c, e.keyname, e.batch, e.gate, e.k, d);
    RestartKeepsMarks(w, e.order);
    SameMark(v, w, Step(v, e), StagedBy(v, e, d), d);
  }

  lemma StepKeepsMarks(v: Vault, e: Event, c: ClientID)
    requires Inv(v) && MarksHold(v)
    ensures MarksHold(Step(v, e))
    ensures KeepsMark(v, e, c) ==> MarkFollows(v, Step(v, e), StagedBy(v, e, c), c)
  {
    hide Inv, MarksHold, LosesMark, PushStep, Admitted, Appended, CommitAll, FlushStep, Hydrated, DiskInPush, DiskAt;
    match e {
      case Pushed(d, keyname, batch, gate) =>
        PushKeepsMarks(v, d, keyname, batch, gate);
        PushMarkFollows(v, d, keyname, batch, gate, c);
      case Flushed(d) => FlushKeepsMarks(v, d);
      case Swept(order) => CommitAllKeepsMarks(v, order);
      case Connected(d) => QueuesDoNotMatter(v, Step(v, e));
      case Left(d) => QueuesDoNotMatter(v, Step(v, e));
      case Restarted(order) => RestartKeepsMarks(v, order);
      case CrashedInCommit(d, point, order) => CrashKeepsMarks(v, d, point, order);
      case CrashedInPush(_, _, _, _, _, _) => CutMarkFollows(v, e, c);
    }
  }

  lemma HistoryGrows(v: Vault, w: Vault, c: ClientID, history: seq<Op>, ops: seq<Op>)
    requires MarkIs(v, c, history) && MarkFollows(v, w, ops, c)
    ensures MarkIs(w, c, history + ops)
  {
    hide HighestOf;
    AppendIncreasing(history, ops);
    if ops == [] { assert history + [] == history; }
  }

  lemma NothingMarked(head: Tree, c: ClientID)
    ensures MarksHold(Opened(head)) && MarkIs(Opened(head), c, [])
  {
    forall d ensures MarkHolds(Opened(head), d) {}
  }

  /** Marks and stages agree in every reachable state, whatever was lost on the way. */
  lemma {:induction false} MarksAlwaysHold(head: Tree, run: seq<Event>)
    ensures Inv(After(head, run)) && MarksHold(After(head, run))
  {
    hide Step, MarksHold, Inv;
    StagesStayApart(head, run);
    if run != [] {
      MarksAlwaysHold(head, run[..|run| - 1]);
      StepKeepsMarks(After(head, run[..|run| - 1]), run[|run| - 1], "");
    } else {
      NothingMarked(head, "");
    }
  }

  /** Exactly once: over any run that does not lose its mark, crashes included, the numbers ever staged
      for a client strictly increase, the mark is the largest of them, and a restart would recover it. */
  lemma {:induction false} ExactlyOnce(head: Tree, run: seq<Event>, c: ClientID)
    requires forall i :: 0 <= i < |run| ==> KeepsMark(After(head, run[..i]), run[i], c)
    ensures var v := After(head, run);
            MarkIs(v, c, EverStaged(head, run, c)) && Recovered(v, c) == HighestOf(v.idem, c)
  {
    hide Step, MarksHold, MarkIs, Recovered, Admitted, StagedBy, Inv, KeepsMark, MarkFollows;
    if run != [] {
      var front, e := run[..|run| - 1], run[|run| - 1];
      forall i | 0 <= i < |front| ensures KeepsMark(After(head, front[..i]), front[i], c) {
        assert front[..i] == run[..i];
      }
      ExactlyOnce(head, front, c);
      MarksAlwaysHold(head, front);
      StepKeepsMarks(After(head, front), e, c);
      HistoryGrows(After(head, front), After(head, run), c, EverStaged(head, front, c),
                   StagedBy(After(head, front), e, c));
    } else {
      NothingMarked(head, c);
    }
    MarksAlwaysHold(head, run);
    MarksAreRecovered(After(head, run), c);
  }

  lemma MarksAreRecovered(v: Vault, c: ClientID)
    requires Inv(v) && MarksHold(v)
    ensures Recovered(v, c) == HighestOf(v.idem, c)
  {
    RestartFindsMarks(v);
  }

  // ----- resubmission -----

  /** The step was a push that was acked. */
  ghost predicate WasAcked(v: Vault, e: Event) {
    e.Pushed? && Verdicts(v, e.c, e.batch, e.gate) == AckOk
  }

  lemma {:induction false} StaysSeen(head: Tree, run: seq<Event>, i: nat)
    requires i < |run| && WasAcked(After(head, run[..i]), run[i])
    requires forall j :: i < j < |run| ==> KeepsMark(After(head, run[..j]), run[j], run[i].c)
    ensures AllSeen(run[i].batch, HighestOf(After(head, run).idem, run[i].c))
    decreases |run|
  {
    var front, e := run[..|run| - 1], run[|run| - 1];
    var v, c := After(head, front), run[i].c;
    hide Step, MarksHold, Inv, KeepsMark, AllSeen, After, Increasing, HighestOf;
    if i == |front| {
      assert After(head, run) == Step(v, e) && Step(v, e) == PushStep(v, c, e.keyname, e.batch, e.gate);
      AckedIsSeen(v, c, e.keyname, e.batch, e.gate);
    } else {
      assert front[..i] == run[..i];
      forall j | i < j < |front| ensures KeepsMark(After(head, front[..j]), front[j], c) {
        assert front[..j] == run[..j];
      }
      StaysSeen(head, front, i);
      MarksAlwaysHold(head, front);
      MarkNeverFalls(v, e, c);
      SeenIsMonotone(run[i].batch, HighestOf(v.idem, c), HighestOf(Step(v, e).idem, c));
    }
  }

  lemma MarkNeverFalls(v: Vault, e: Event, c: ClientID)
    requires Inv(v) && MarksHold(v) && KeepsMark(v, e, c)
    ensures HighestOf(v.idem, c) <= HighestOf(Step(v, e).idem, c)
  {
    var ops := StagedBy(v, e, c);
    hide Inv, MarksHold, KeepsMark, Step, StagedBy, HighestOf;
    StepKeepsMarks(v, e, c);
    if ops != [] { assert ops[0].seqno <= ops[|ops| - 1].seqno; }
  }

  /** Resubmission: however long ago a batch was acked, sent again it is acked again and changes nothing
      else; with more behind it, exactly what is unseen of the rest is offered to the server. */
  lemma ResubmitAnyAcked(head: Tree, run: seq<Event>, i: nat, keyname: string, gate: Gate, more: seq<Op>)
    requires i < |run| && WasAcked(After(head, run[..i]), run[i])
    requires forall j :: i < j < |run| ==> KeepsMark(After(head, run[..j]), run[j], run[i].c)
    ensures var v, c, batch := After(head, run), run[i].c, run[i].batch;
            && PushStep(v, c, keyname, batch, gate) == v.(queues := Send(v.queues, c, MsgAck(AckOk)))
            && Fresh(v, c, batch + more) == Fresh(v, c, more)
  {
    StaysSeen(head, run, i);
    hide *;
    SeenIsIdle(After(head, run), run[i].c, keyname, run[i].batch, gate);
    SeenFront(After(head, run), run[i].c, run[i].batch, more);
  }
}
