/** What a restart makes of the disk, wherever the server died. */
module Recovery {
  import opened Wrappers
  import opened Seqs
  import opened Protocol
  import opened Wal
  import opened IdemCaches
  import opened Vaults
  import opened Faithfulness
  import opened VaultLaws

  function Greater(a: nat, b: nat): nat { if a < b then b else a }

  /** The largest number among the ops and `floor`. */
  function MaxSeq(ops: seq<Op>, floor: nat): nat {
    if ops == [] then floor else Greater(MaxSeq(ops[..|ops| - 1], floor), ops[|ops| - 1].seqno)
  }

  lemma MaxOfIncreasing(ops: seq<Op>, floor: nat)
    requires Increasing(ops)
    ensures MaxSeq(ops, floor) == if ops == [] then floor else Greater(floor, ops[|ops| - 1].seqno)
  {
    if ops != [] { MaxOfIncreasing(ops[..|ops| - 1], floor); }
  }

  // ----- hydration -----

  ghost predicate LogIsClean(log: seq<Entry>) { forall i :: 0 <= i < |log| ==> ValidateOp(log[i].op) }

  lemma ReplayOne(v: Vault, e: Entry, c: ClientID)
    requires ValidateOp(e.op)
    ensures var w := ReplayEntry(v, e);
            && w.head == v.head && w.log == v.log && w.idemDisk == v.idemDisk
            && StageOf(w, c) == (if e.client == c then StageOf(v, c) + [e.op] else StageOf(v, c))
            && HighestOf(w.idem, c) ==
                 (if e.client == c then Greater(HighestOf(v.idem, c), e.op.seqno) else HighestOf(v.idem, c))
  {
  }

  /** Replay rebuilds each client's stage and mark from the log. */
  lemma {:induction false} ReplayRebuilds(v: Vault, log: seq<Entry>, c: ClientID)
    requires LogIsClean(log)
    ensures var w := ReplayLog(v, log);
            && w.head == v.head && w.log == v.log && w.idemDisk == v.idemDisk
            && StageOf(w, c) == StageOf(v, c) + OpsOf(log, c)
            && HighestOf(w.idem, c) == MaxSeq(OpsOf(log, c), HighestOf(v.idem, c))
  {
    if log != [] {
      var front, e := log[..|log| - 1], log[|log| - 1];
      ReplayRebuilds(v, front, c);
      assert ValidateOp(e.op);
      ReplayOne(ReplayLog(v, front), e, c);
      var ops := OpsOf(front, c);
      assert (ops + [e.op])[..|ops|] == ops;
      Assoc(StageOf(v, c), ops, [e.op]);
      hide ReplayEntry, StageOf, HighestOf;
    }
  }

  lemma HydratedStages(d: Disk, c: ClientID)
    requires LogIsClean(d.log)
    ensures var w := Hydrated(d);
            && w.head == d.head && w.log == d.log && w.idemDisk == d.idem
            && StageOf(w, c) == OpsOf(d.log, c)
            && HighestOf(w.idem, c) == MaxSeq(OpsOf(d.log, c), HighestOf(d.idem, c))
  {
    ReplayRebuilds(Vault(d.head, map[], d.log, d.idem, d.idem, map[]), d.log, c);
    assert [] + OpsOf(d.log, c) == OpsOf(d.log, c);
  }

  /** Same HEAD, same stages: the same trees from here on. */
  ghost predicate SameWork(v: Vault, w: Vault) {
    v.head == w.head && forall c :: StageOf(v, c) == StageOf(w, c)
  }

  lemma {:induction false} SameWorkCommits(v: Vault, w: Vault, order: seq<ClientID>)
    requires SameWork(v, w)
    ensures SameWork(CommitAll(v, order), CommitAll(w, order))
  {
    if order != [] {
      var front, last := order[..|order| - 1], order[|order| - 1];
      SameWorkCommits(v, w, front);
      CommitStages(CommitAll(v, front), last);
      CommitStages(CommitAll(w, front), last);
    }
  }

  lemma HydratedSame(v: Vault)
    requires LogHolds(v)
    ensures SameWork(v, Hydrated(DiskOf(v)))
  {
    forall c ensures StageOf(Hydrated(DiskOf(v)), c) == StageOf(v, c) { HydratedStages(DiskOf(v), c); }
    HydratedStages(DiskOf(v), "");
  }

  lemma {:induction false} CommitAllFrom(v: Vault, c: ClientID, order: seq<ClientID>)
    ensures CommitAll(v, [c] + order) == CommitAll(CommitStep(v, c), order)
  {
    var all := [c] + order;
    if order == [] {
      assert all[..0] == [] && all == [c];
    } else {
      assert all[..|all| - 1] == [c] + order[..|order| - 1];
      CommitAllFrom(v, c, order[..|order| - 1]);
    }
  }

  // ----- a crash inside commitStage -----

  lemma TruncatedLog(v: Vault, c: ClientID)
    requires LogHolds(v)
    ensures LogIsClean(Without(v.log, c))
    ensures forall d :: OpsOf(Without(v.log, c), d) == if d == c then [] else StageOf(v, d)
  {
    forall i | 0 <= i < |Without(v.log, c)| ensures ValidateOp(Without(v.log, c)[i].op) { WithoutFrom(v.log, c, i); }
    forall d ensures OpsOf(Without(v.log, c), d) == if d == c then [] else StageOf(v, d) { WithoutOps(v.log, c, d); }
  }

  /** Once the log is truncated, recovery starts from where the commit would have ended. */
  lemma HydratedAfterTruncate(v: Vault, c: ClientID, point: CrashPoint)
    requires LogHolds(v) && (point.AfterTruncate? || point.AfterPersist?)
    ensures SameWork(CommitStep(v, c), Hydrated(DiskAt(v, c, point)))
  {
    TruncatedLog(v, c);
    CommitStages(v, c);
    var d := DiskAt(v, c, point);
    forall x ensures StageOf(Hydrated(d), x) == StageOf(CommitStep(v, c), x) { HydratedStages(d, x); }
    HydratedStages(d, c);
  }

  /** Between the commit and the truncation, the stage is in HEAD and in the log. */
  lemma HydratedAfterCommit(v: Vault, c: ClientID)
    requires Inv(v)
    ensures var h := Hydrated(DiskAt(v, c, AfterCommit));
            h.head == Apply(StageOf(v, c), v.head) && Apart(h) && forall x :: StageOf(h, x) == StageOf(v, x)
  {
    var d := DiskAt(v, c, AfterCommit);
    forall x ensures StageOf(Hydrated(d), x) == StageOf(v, x) { HydratedStages(d, x); }
    HydratedStages(d, c);
    assert Apart(Hydrated(d));
  }

  /** Off c's paths, it does not matter whether its stage is in HEAD once or twice. */
  lemma CommitAllOff(v: Vault, h: Vault, c: ClientID, order: seq<ClientID>, p: Path)
    requires Apart(v) && Apart(h) && (forall x :: StageOf(h, x) == StageOf(v, x))
    requires h.head == Apply(StageOf(v, c), v.head) && c in order && !TouchedBy(StageOf(v, c), p)
    ensures Lookup(CommitAll(h, order).head, p) == Lookup(CommitAll(v, order).head, p)
  {
    ApplyFrame(StageOf(v, c), v.head, p);
    if x :| x in order && TouchedBy(StageOf(v, x), p) {
      CommitAllAt(v, order, p, x);
      CommitAllAt(h, order, p, x);
      assert DisjointOps(StageOf(v, x), StageOf(v, c));
      forall q | TouchedBy(StageOf(v, x), q) ensures Lookup(h.head, q) == Lookup(v.head, q) {
        ApplyFrame(StageOf(v, c), v.head, q);
      }
      ApplyLocal(StageOf(v, x), h.head, v.head, p);
    } else {
      CommitAllAt(v, order, p, c);
      CommitAllAt(h, order, p, c);
    }
  }

  /** Committing it again is harmless exactly when it left what it takes from HEAD as it was. */
  lemma CrashAfterCommitIff(v: Vault, c: ClientID, order: seq<ClientID>)
    requires Inv(v) && c in order
    ensures CommitAll(Hydrated(DiskAt(v, c, AfterCommit)), order).head == CommitAll(v, order).head
       <==> SourcesStay(StageOf(v, c), v.head)
  {
    var s, h := StageOf(v, c), Hydrated(DiskAt(v, c, AfterCommit));
    var again, once := CommitAll(h, order).head, CommitAll(v, order).head;
    HydratedAfterCommit(v, c);
    hide Hydrated, DiskAt, CommitAll, StageOf, Apply, Inv;
    ReapplyIff(s, v.head);
    forall p
      ensures if TouchedBy(s, p)
              then Lookup(again, p) == Lookup(Apply(s, h.head), p) && Lookup(once, p) == Lookup(Apply(s, v.head), p)
              else Lookup(again, p) == Lookup(once, p) && Lookup(Apply(s, h.head), p) == Lookup(h.head, p)
    {
      if TouchedBy(s, p) {
        CommitAllAt(v, order, p, c);
        CommitAllAt(h, order, p, c);
      } else {
        CommitAllOff(v, h, c, order, p);
        ApplyFrame(s, h.head, p);
      }
    }
    if again == once { SameTree(Apply(s, h.head), h.head); }
    if SourcesStay(s, v.head) { SameTree(again, once); }
  }

  ghost predicate Covers(order: seq<ClientID>, v: Vault) {
    forall c :: StageOf(v, c) != [] ==> c in order
  }

  /** Committing in order what is left after c is committing everything. */
  lemma CommitFirst(v: Vault, c: ClientID, order: seq<ClientID>)
    requires Apart(v) && c in order
    ensures CommitAll(CommitStep(v, c), order).head == CommitAll(v, order).head
  {
    CommitAllFrom(v, c, order);
    CommitOrderIrrelevant(v, [c] + order, order);
  }

  /** Crash recovery: wherever inside the commit of c's stage the server dies, replay and the flush
      of the replayed stages, in any order, leave the tree that committing every acked op leaves. */
  lemma CrashRecovery(v: Vault, c: ClientID, point: CrashPoint, order: seq<ClientID>)
    requires Inv(v) && c in order && (point.AfterCommit? ==> SourcesStay(StageOf(v, c), v.head))
    ensures CommitAll(Hydrated(DiskAt(v, c, point)), order).head == CommitAll(v, order).head
  {
    var h := Hydrated(DiskAt(v, c, point));
    match point {
      case BeforeCommit =>
        HydratedSame(v);
        SameWorkCommits(v, h, order);
      case AfterCommit => CrashAfterCommitIff(v, c, order);
      case _ =>
        HydratedAfterTruncate(v, c, point);
        SameWorkCommits(CommitStep(v, c), h, order);
        CommitFirst(v, c, order);
    }
  }

  // ----- marks -----

  /** What a restart would read for a client's mark. */
  function Recovered(v: Vault, c: ClientID): nat { HighestOf(Hydrated(DiskOf(v)).idem, c) }

  ghost predicate MarkHolds(v: Vault, c: ClientID) {
    && Increasing(StageOf(v, c))
    && HighestOf(v.idemDisk, c) <= HighestOf(v.idem, c)
    && (if StageOf(v, c) == [] then HighestOf(v.idemDisk, c) == HighestOf(v.idem, c)
        else StageOf(v, c)[|StageOf(v, c)| - 1].seqno == HighestOf(v.idem, c))
  }

  ghost predicate MarksHold(v: Vault) { forall c :: MarkHolds(v, c) }

  /** A disk that still holds c's stage, or else its mark, gives the mark back. */
  lemma HydratedMark(v: Vault, d: Disk, c: ClientID)
    requires LogIsClean(d.log) && MarkHolds(v, c)
    requires OpsOf(d.log, c) == [] || (OpsOf(d.log, c) == StageOf(v, c) && HighestOf(d.idem, c) <= HighestOf(v.idem, c))
    requires StageOf(v, c) == [] ==> HighestOf(d.idem, c) == HighestOf(v.idem, c)
    ensures MarkHolds(Hydrated(d), c)
    ensures HighestOf(Hydrated(d).idem, c) == HighestOf(v.idem, c)
       <==> OpsOf(d.log, c) == StageOf(v, c) || HighestOf(d.idem, c) == HighestOf(v.idem, c)
  {
    HydratedStages(d, c);
    MaxOfIncreasing(OpsOf(d.log, c), HighestOf(d.idem, c));
  }

  /** Between handlers, a restart finds every mark again. */
  lemma RestartFindsMarks(v: Vault)
    requires LogHolds(v) && MarksHold(v)
    ensures MarksHold(Hydrated(DiskOf(v)))
    ensures forall c :: Recovered(v, c) == HighestOf(v.idem, c)
  {
    forall c ensures MarkHolds(Hydrated(DiskOf(v)), c) && Recovered(v, c) == HighestOf(v.idem, c) {
      assert MarkHolds(v, c);
      HydratedMark(v, DiskOf(v), c);
    }
  }

  /** The crash came after the truncation of the log and before the snapshot, which was behind. */
  ghost predicate LosesMark(v: Vault, c: ClientID, point: CrashPoint) {
    point.AfterTruncate? && HighestOf(v.idemDisk, c) != HighestOf(v.idem, c)
  }

  /** Dying inside a commit loses a mark in one case only, and then only the committing client's. */
  lemma CrashMarkIff(v: Vault, c: ClientID, point: CrashPoint, d: ClientID)
    requires LogHolds(v) && MarkHolds(v, d)
    ensures MarkHolds(Hydrated(DiskAt(v, c, point)), d)
    ensures HighestOf(Hydrated(DiskAt(v, c, point)).idem, d) == HighestOf(v.idem, d)
            <==> !(d == c && LosesMark(v, c, point))
  {
    TruncatedLog(v, c);
    hide Without, OpsOf, Hydrated;
    HydratedMark(v, DiskAt(v, c, point), d);
  }

  /** Dying between the truncation of the log and the snapshot loses a mark, unless the snapshot
      already had it. */
  lemma TruncateCrashIff(v: Vault, c: ClientID)
    requires LogHolds(v) && MarksHold(v)
    ensures (forall d :: HighestOf(Hydrated(DiskAt(v, c, AfterTruncate)).idem, d) == HighestOf(v.idem, d))
       <==> HighestOf(v.idemDisk, c) == HighestOf(v.idem, c)
  {
    forall d
      ensures HighestOf(Hydrated(DiskAt(v, c, AfterTruncate)).idem, d) == HighestOf(v.idem, d)
         <==> !(d == c && LosesMark(v, c, AfterTruncate))
    {
      assert MarkHolds(v, d);
      CrashMarkIff(v, c, AfterTruncate, d);
    }
  }

  lemma AppendIncreasing(a: seq<Op>, b: seq<Op>)
    requires Increasing(a) && Increasing(b) && (a != [] && b != [] ==> a[|a| - 1].seqno < b[0].seqno)
    ensures Increasing(a + b)
  {
  }

  lemma PushKeepsMarks(v: Vault, c: ClientID, keyname: string, batch: seq<Op>, gate: Gate)
    requires MarksHold(v)
    ensures MarksHold(PushStep(v, c, keyname, batch, gate))
  {
    var w, ops := PushStep(v, c, keyname, batch, gate), Admitted(v, c, keyname, batch, gate);
    PushStages(v, c, keyname, batch, gate);
    AdmittedIncreases(v, c, keyname, batch, gate);
    hide StageOf, PushStep, Admitted;
    forall d ensures MarkHolds(w, d) {
      assert MarkHolds(v, d);
      if d == c {
        AppendIncreasing(StageOf(v, c), ops);
        if ops == [] { assert StageOf(v, c) + ops == StageOf(v, c); }
      }
    }
  }

  lemma AdmittedIncreases(v: Vault, c: ClientID, keyname: string, batch: seq<Op>, gate: Gate)
    ensures var ops := Admitted(v, c, keyname, batch, gate);
            Increasing(ops) && (ops != [] ==> ops[0].seqno > HighestOf(v.idem, c))
  {
    if Admitted(v, c, keyname, batch, gate) != [] {
      AdmittedFacts(v, c, keyname, batch, gate);
      StampKeepsValid(batch[SeenPrefix(batch, HighestOf(v.idem, c))..], keyname);
    }
  }

  lemma CommitKeepsMarks(v: Vault, c: ClientID)
    requires MarksHold(v)
    ensures MarksHold(CommitStep(v, c))
    ensures CommitStep(v, c).idem == v.idem
  {
    var w := CommitStep(v, c);
    CommitStages(v, c);
    forall d ensures MarkHolds(w, d) {
      assert MarkHolds(v, d);
    }
  }

  // ----- resubmission -----

  ghost predicate AllSeen(ops: seq<Op>, mark: nat) { forall i :: 0 <= i < |ops| ==> ops[i].seqno <= mark }

  lemma {:induction false} SeenPrefixIs(ops: seq<Op>, mark: nat, k: nat)
    requires k <= |ops| && AllSeen(ops[..k], mark) && (k < |ops| ==> mark < ops[k].seqno)
    ensures SeenPrefix(ops, mark) == k
  {
    if k > 0 {
      assert ops[..k][0] == ops[0] && ops[..k][1..] == ops[1..][..k - 1];
      SeenPrefixIs(ops[1..], mark, k - 1);
    }
  }

  lemma SeenConcat(a: seq<Op>, b: seq<Op>, mark: nat)
    requires AllSeen(a, mark) && AllSeen(b, mark)
    ensures AllSeen(a + b, mark)
  {
  }

  /** The k-th number parts an increasing list. */
  lemma IncreasingParts(ops: seq<Op>, k: nat)
    requires Increasing(ops) && 0 < k <= |ops|
    ensures AllSeen(ops[..k], ops[k - 1].seqno) && Increasing(ops[k..])
    ensures ops[0].seqno <= ops[k - 1].seqno && (k < |ops| ==> ops[k - 1].seqno < ops[k].seqno)
  {
  }

  /** The ops before `at` are seen, the next is not, and from there on the numbers increase. */
  ghost predicate SplitsAt(batch: seq<Op>, at: nat, mark: nat) {
    && at <= |batch| && AllSeen(batch[..at], mark) && Increasing(batch[at..])
    && (at < |batch| ==> mark < batch[at].seqno)
  }

  /** The mark moves with the ops that become seen. */
  lemma SplitMoves(front: seq<Op>, tail: seq<Op>, mark: nat, k: nat, now: nat)
    requires AllSeen(front, mark) && Increasing(tail) && (tail != [] ==> mark < tail[0].seqno)
    requires k <= |tail| && now == if k == 0 then mark else tail[k - 1].seqno
    ensures SplitsAt(front + tail, |front| + k, now) && mark <= now
  {
    var batch := front + tail;
    assert batch[..|front| + k] == front + tail[..k] && batch[|front| + k..] == tail[k..];
    assert k < |tail| ==> batch[|front| + k] == tail[k];
    hide Increasing, AllSeen;
    if k > 0 {
      IncreasingParts(tail, k);
      SeenIsMonotone(front, mark, now);
      SeenConcat(front, tail[..k], now);
    } else {
      assert tail[..0] == [] && tail[0..] == tail && front + [] == front;
    }
  }

  lemma UnseenParts(batch: seq<Op>, mark: nat)
    ensures var k, tail := SeenPrefix(batch, mark), Unseen(batch, mark);
            && k + |tail| == |batch| && batch == batch[..k] + tail && AllSeen(batch[..k], mark)
            && (tail != [] ==> mark < tail[0].seqno)
  {
  }

  /** The mark after k unseen ops. */
  lemma SplitAtMark(batch: seq<Op>, mark: nat, k: nat, now: nat)
    requires var tail := Unseen(batch, mark);
             Increasing(tail) && k <= |tail| && now == if k == 0 then mark else tail[k - 1].seqno
    ensures SplitsAt(batch, SeenPrefix(batch, mark) + k, now) && mark <= now
  {
    hide *;
    UnseenParts(batch, mark);
    SplitMoves(batch[..SeenPrefix(batch, mark)], Unseen(batch, mark), mark, k, now);
  }

  lemma SeenIsMonotone(ops: seq<Op>, mark: nat, now: nat)
    requires AllSeen(ops, mark) && mark <= now
    ensures AllSeen(ops, now)
  {
  }

  /** The part of a batch behind its seen front. */
  function Unseen(batch: seq<Op>, mark: nat): seq<Op> { batch[SeenPrefix(batch, mark)..] }

  lemma FreshIs(v: Vault, c: ClientID, batch: seq<Op>, k: nat)
    requires SplitsAt(batch, k, HighestOf(v.idem, c))
    ensures Fresh(v, c, batch) == Some(batch[k..])
  {
    SeenPrefixIs(batch, HighestOf(v.idem, c), k);
  }

  /** What an acked push did to its client's mark. */
  lemma AckedMark(v: Vault, c: ClientID, keyname: string, batch: seq<Op>, gate: Gate)
    requires Verdicts(v, c, batch, gate) == AckOk
    ensures var tail := Unseen(batch, HighestOf(v.idem, c));
            Increasing(tail) && HighestOf(PushStep(v, c, keyname, batch, gate).idem, c) ==
              (if tail == [] then HighestOf(v.idem, c) else tail[|tail| - 1].seqno)
  {
    PushStages(v, c, keyname, batch, gate);
    var tail := Unseen(batch, HighestOf(v.idem, c));
    StampKeepsNumbers(tail, keyname);
    assert Admitted(v, c, keyname, batch, gate) == StampAll(tail, keyname);
    hide PushStep, Verdicts, Unseen, Admitted;
  }

  /** Once a batch has been acked, its client's mark is at or above all its numbers. */
  lemma AckedIsSeen(v: Vault, c: ClientID, keyname: string, batch: seq<Op>, gate: Gate)
    requires Verdicts(v, c, batch, gate) == AckOk
    ensures AllSeen(batch, HighestOf(PushStep(v, c, keyname, batch, gate).idem, c))
    ensures HighestOf(v.idem, c) <= HighestOf(PushStep(v, c, keyname, batch, gate).idem, c)
  {
    AckedMark(v, c, keyname, batch, gate);
    hide *;
    AllSeenAt(batch, HighestOf(v.idem, c), HighestOf(PushStep(v, c, keyname, batch, gate).idem, c));
  }

  lemma AllSeenAt(batch: seq<Op>, mark: nat, now: nat)
    requires var tail := Unseen(batch, mark);
             Increasing(tail) && now == if tail == [] then mark else tail[|tail| - 1].seqno
    ensures AllSeen(batch, now) && mark <= now
  {
    hide Unseen, SeenPrefix, Increasing, AllSeen;
    UnseenParts(batch, mark);
    SplitAtMark(batch, mark, |Unseen(batch, mark)|, now);
    assert AllSeen(batch[..|batch|], now) && batch[..|batch|] == batch;
  }

  /** A batch whose numbers are all seen, or any part of it, is acked again and changes nothing else. */
  lemma SeenIsIdle(v: Vault, c: ClientID, keyname: string, batch: seq<Op>, gate: Gate)
    requires AllSeen(batch, HighestOf(v.idem, c))
    ensures PushStep(v, c, keyname, batch, gate) == v.(queues := Send(v.queues, c, MsgAck(AckOk)))
  {
    assert batch[..|batch|] == batch;
    FreshIs(v, c, batch, |batch|);
    assert StampAll([], keyname) == [];
  }

  /** With more behind it, such a batch offers the server what is unseen of the rest. */
  lemma SeenFront(v: Vault, c: ClientID, batch: seq<Op>, more: seq<Op>)
    requires AllSeen(batch, HighestOf(v.idem, c))
    ensures Fresh(v, c, batch + more) == Fresh(v, c, more)
  {
    var mark := HighestOf(v.idem, c);
    var k := SeenPrefix(more, mark);
    hide Increasing;
    UnseenParts(more, mark);
    hide AllSeen, SeenPrefix;
    SeenConcat(batch, more[..k], mark);
    assert (batch + more)[..|batch| + k] == batch + more[..k] && (batch + more)[|batch| + k..] == more[k..];
    SeenPrefixIs(batch + more, mark, |batch| + k);
  }

  // ----- a crash inside the append loop of a push -----

  /** The log after k of the admitted ops. */
  function DiskMidPush(v: Vault, c: ClientID, ops: seq<Op>, k: nat): Disk
    requires k <= |ops|
  {
    DiskOf(v).(log := v.log + Logged(c, ops[..k]))
  }

  function Uncapped(gate: Gate): Gate { gate.(full := ops => false) }

  /** The batch up to its k-th new op. */
  function UpTo(batch: seq<Op>, mark: nat, k: nat): seq<Op> {
    var n := SeenPrefix(batch, mark) + k;
    if n <= |batch| then batch[..n] else batch
  }

  /** That much of the batch, pushed without a cap. */
  ghost function ShortPush(v: Vault, c: ClientID, keyname: string, batch: seq<Op>, gate: Gate, k: nat): Vault {
    if Admitted(v, c, keyname, batch, gate) == [] then v
    else PushStep(v, c, keyname, UpTo(batch, HighestOf(v.idem, c), k), Uncapped(gate))
  }

  lemma ScreenedPrefix(ops: seq<Op>, gate: Gate, k: nat)
    requires k <= |ops| && Screen(ops, gate) == Ok([])
    ensures Screen(ops[..k], Uncapped(gate)) == Ok([])
  {
    ScreenIff(ops, gate);
    ScreenIff(ops[..k], Uncapped(gate));
  }

  lemma PrefixPasses(v: Vault, c: ClientID, ops: seq<Op>, gate: Gate, k: nat)
    requires k <= |ops|
    ensures !OverlapsOther(v, c, ops) ==> !OverlapsOther(v, c, ops[..k])
    ensures PreHashesHold(v, c, ops) ==> PreHashesHold(v, c, ops[..k])
    ensures !AnyStuck(ops, gate) ==> !AnyStuck(ops[..k], Uncapped(gate))
  {
  }

  lemma UnseenPrefix(batch: seq<Op>, mark: nat, k: nat)
    requires k <= |Unseen(batch, mark)|
    ensures Unseen(UpTo(batch, mark, k), mark) == Unseen(batch, mark)[..k]
  {
    var at, short := SeenPrefix(batch, mark), UpTo(batch, mark, k);
    assert short[..at] == batch[..at] && short[at..] == batch[at..][..k];
    SeenPrefixIs(short, mark, at);
  }

  lemma StampPrefix(ops: seq<Op>, keyname: string, k: nat)
    requires k <= |ops|
    ensures StampAll(ops[..k], keyname) == StampAll(ops, keyname)[..k]
  {
  }

  /** All that a push with new ops in it has to pass. */
  ghost predicate Taken(v: Vault, c: ClientID, ops: seq<Op>, gate: Gate) {
    && Increasing(ops) && Screen(ops, gate) == Ok([]) && !gate.full(ops)
    && !OverlapsOther(v, c, ops) && PreHashesHold(v, c, ops) && !AnyStuck(ops, gate)
  }

  lemma AdmittedIff(v: Vault, c: ClientID, keyname: string, batch: seq<Op>, gate: Gate)
    ensures var ops := Unseen(batch, HighestOf(v.idem, c));
            Admitted(v, c, keyname, batch, gate) ==
              if ops != [] && Taken(v, c, ops, gate) then StampAll(ops, keyname) else []
  {
    hide Screen, OverlapsOther, PreHashesHold, AnyStuck, Increasing, SeenPrefix;
    assert StampAll([], keyname) == [];
  }

  lemma TakenPrefix(v: Vault, c: ClientID, ops: seq<Op>, gate: Gate, k: nat)
    requires Taken(v, c, ops, gate) && k <= |ops|
    ensures Taken(v, c, ops[..k], Uncapped(gate))
  {
    ScreenedPrefix(ops, gate, k);
    PrefixPasses(v, c, ops, gate, k);
    hide Screen, OverlapsOther, PreHashesHold, AnyStuck;
  }

  /** What was appended before the crash is what a push of that much of the batch would have added. */
  lemma ShortAdmits(v: Vault, c: ClientID, keyname: string, batch: seq<Op>, gate: Gate, k: nat)
    requires Admitted(v, c, keyname, batch, gate) != [] && k <= |Admitted(v, c, keyname, batch, gate)|
    ensures Admitted(v, c, keyname, UpTo(batch, HighestOf(v.idem, c), k), Uncapped(gate)) ==
            Admitted(v, c, keyname, batch, gate)[..k]
  {
    var mark := HighestOf(v.idem, c);
    hide Admitted, UpTo, Unseen, Taken, HighestOf;
    AdmittedIff(v, c, keyname, batch, gate);
    AdmittedIff(v, c, keyname, UpTo(batch, mark, k), Uncapped(gate));
    UnseenPrefix(batch, mark, k);
    TakenPrefix(v, c, Unseen(batch, mark), gate, k);
    StampPrefix(Unseen(batch, mark), keyname, k);
  }

  /** What k appended ops leave of the vault. */
  lemma ShortStages(v: Vault, c: ClientID, keyname: string, batch: seq<Op>, gate: Gate, k: nat)
    requires k <= |Admitted(v, c, keyname, batch, gate)|
    ensures var ops, w := Admitted(v, c, keyname, batch, gate), ShortPush(v, c, keyname, batch, gate, k);
            && w.head == v.head && w.idemDisk == v.idemDisk && w.log == v.log + Logged(c, ops[..k])
            && StageOf(w, c) == StageOf(v, c) + ops[..k]
            && (forall d :: d != c ==> StageOf(w, d) == StageOf(v, d))
            && HighestOf(w.idem, c) == (if k == 0 then HighestOf(v.idem, c) else ops[k - 1].seqno)
            && (forall d :: d != c ==> HighestOf(w.idem, d) == HighestOf(v.idem, d))
  {
    hide Admitted, PushStep, UpTo, StageOf, HighestOf;
    if Admitted(v, c, keyname, batch, gate) != [] {
      ShortAdmits(v, c, keyname, batch, gate, k);
      PushStages(v, c, keyname, UpTo(batch, HighestOf(v.idem, c), k), Uncapped(gate));
    }
  }

  /** So a crash in the loop leaves the disk that such a push leaves. */
  lemma MidPushIsShortPush(v: Vault, c: ClientID, keyname: string, batch: seq<Op>, gate: Gate, k: nat)
    requires k <= |Admitted(v, c, keyname, batch, gate)|
    ensures DiskMidPush(v, c, Admitted(v, c, keyname, batch, gate), k)
            == DiskOf(ShortPush(v, c, keyname, batch, gate, k))
  {
    hide Admitted, ShortPush;
    ShortStages(v, c, keyname, batch, gate, k);
  }

  lemma ShortKeepsInv(v: Vault, c: ClientID, keyname: string, batch: seq<Op>, gate: Gate, k: nat)
    requires Inv(v)
    ensures Inv(ShortPush(v, c, keyname, batch, gate, k))
    ensures MarksHold(v) ==> MarksHold(ShortPush(v, c, keyname, batch, gate, k))
  {
    var short := UpTo(batch, HighestOf(v.idem, c), k);
    hide PushStep, Admitted, MarksHold, Apart, LogHolds, UpTo;
    PushKeepsApart(v, c, keyname, short, Uncapped(gate));
    PushKeepsLog(v, c, keyname, short, Uncapped(gate));
    if MarksHold(v) { PushKeepsMarks(v, c, keyname, short, Uncapped(gate)); }
  }

  lemma ShortKeepsFaithful(v: Vault, c: ClientID, keyname: string, batch: seq<Op>, gate: Gate, k: nat)
    requires AllFaithful(v) && k <= |Admitted(v, c, keyname, batch, gate)|
    requires AllForeseen(Admitted(v, c, keyname, batch, gate)[..k])
    ensures AllFaithful(ShortPush(v, c, keyname, batch, gate, k))
  {
    hide PushStep, Admitted, AllFaithful, UpTo, AllForeseen;
    if Admitted(v, c, keyname, batch, gate) != [] {
      ShortAdmits(v, c, keyname, batch, gate, k);
      PushCheckIff(v, c, keyname, UpTo(batch, HighestOf(v.idem, c), k), Uncapped(gate));
    }
  }

  /** Dying there keeps the first k ops of the batch and every other stage. */
  lemma MidPushCrash(v: Vault, c: ClientID, keyname: string, batch: seq<Op>, gate: Gate, k: nat)
    requires Inv(v) && k <= |Admitted(v, c, keyname, batch, gate)|
    ensures var ops := Admitted(v, c, keyname, batch, gate);
            var h := Hydrated(DiskMidPush(v, c, ops, k));
            && h.head == v.head && StageOf(h, c) == StageOf(v, c) + ops[..k]
            && (forall d :: d != c ==> StageOf(h, d) == StageOf(v, d))
  {
    hide Admitted, StageOf, ShortPush, Hydrated, DiskMidPush, DiskOf, Apart;
    MidPushIsShortPush(v, c, keyname, batch, gate, k);
    ShortStages(v, c, keyname, batch, gate, k);
    ShortKeepsInv(v, c, keyname, batch, gate, k);
    HydratedSame(ShortPush(v, c, keyname, batch, gate, k));
  }

  // ----- an append that fails -----

  /** What a failed append to the log leaves in memory: the k-th op is in the stage, not in the log and not marked. */
  function FailedAppend(v: Vault, c: ClientID, ops: seq<Op>, k: nat): Vault
    requires k < |ops|
  {
    v.(stages := v.stages[c := StageOf(v, c) + ops[..k + 1]], log := v.log + Logged(c, ops[..k]),
       idem := if k == 0 then v.idem else v.idem[c := ops[k - 1].seqno])
  }

  /** From then on the log does not hold the stage: a restart loses that one op, and a commit puts log and
      stages in agreement again. */
  lemma FailedAppendBreaksLog(v: Vault, c: ClientID, ops: seq<Op>, k: nat)
    requires LogHolds(v) && k < |ops| && AllValid(ops)
    ensures var w := FailedAppend(v, c, ops, k);
            && !LogHolds(w) && LogHolds(CommitStep(w, c))
            && StageOf(w, c) == StageOf(Hydrated(DiskOf(w)), c) + [ops[k]]
            && forall d :: d != c ==> StageOf(Hydrated(DiskOf(w)), d) == StageOf(w, d) == StageOf(v, d)
  {
    var w, front := FailedAppend(v, c, ops, k), ops[..k];
    FailedAppendStages(v, c, ops, k);
    hide FailedAppend, StageOf, Hydrated, CommitStep, Logged;
    forall d ensures OpsOf(w.log, d) == StageOf(v, d) + (if d == c then front else []) {
      OpsOfConcat(v.log, Logged(c, front), d);
      OpsOfLogged(c, front, d);
    }
    forall d ensures StageOf(Hydrated(DiskOf(w)), d) == OpsOf(w.log, d) { HydratedStages(DiskOf(w), d); }
    Assoc(StageOf(v, c), front, [ops[k]]);
    assert |StageOf(w, c)| == |OpsOf(w.log, c)| + 1;
    CommittedLogHolds(w, c);
  }

  lemma FailedAppendStages(v: Vault, c: ClientID, ops: seq<Op>, k: nat)
    requires LogHolds(v) && k < |ops| && AllValid(ops)
    ensures var w := FailedAppend(v, c, ops, k);
            && w.log == v.log + Logged(c, ops[..k]) && LogIsClean(w.log)
            && StageOf(w, c) == StageOf(v, c) + (ops[..k] + [ops[k]])
            && forall d :: d != c ==> StageOf(w, d) == StageOf(v, d)
  {
    assert ops[..k + 1] == ops[..k] + [ops[k]];
    forall i | 0 <= i < k ensures ValidateOp(Logged(c, ops[..k])[i].op) {}
  }

  lemma CommittedLogHolds(w: Vault, c: ClientID)
    requires StageOf(w, c) != [] && LogIsClean(w.log) && forall d :: d != c ==> OpsOf(w.log, d) == StageOf(w, d)
    ensures LogHolds(CommitStep(w, c))
  {
    var x := CommitStep(w, c);
    CommitStages(w, c);
    hide StageOf, CommitStep;
    forall d ensures OpsOf(x.log, d) == StageOf(x, d) { WithoutOps(w.log, c, d); }
    forall i | 0 <= i < |x.log| ensures ValidateOp(x.log[i].op) { WithoutFrom(w.log, c, i); }
  }

  function LastOps(ops: seq<Op>, n: nat): seq<Op> { if n <= |ops| then ops[|ops| - n..] else ops }

  lemma MidPushMark(v: Vault, c: ClientID, keyname: string, batch: seq<Op>, gate: Gate, k: nat)
    requires Inv(v) && MarksHold(v) && k <= |Admitted(v, c, keyname, batch, gate)|
    ensures var ops := Admitted(v, c, keyname, batch, gate);
            HighestOf(Hydrated(DiskMidPush(v, c, ops, k)).idem, c) ==
              if k == 0 then HighestOf(v.idem, c) else ops[k - 1].seqno
  {
    hide Admitted, ShortPush, DiskMidPush, Hydrated, MarksHold, HighestOf, LogHolds, Apart;
    MidPushIsShortPush(v, c, keyname, batch, gate, k);
    ShortStages(v, c, keyname, batch, gate, k);
    ShortKeepsInv(v, c, keyname, batch, gate, k);
    RestartFindsMarks(ShortPush(v, c, keyname, batch, gate, k));
    assert Recovered(ShortPush(v, c, keyname, batch, gate, k), c)
      == HighestOf(ShortPush(v, c, keyname, batch, gate, k).idem, c);
  }

  /** Their marks come back too: sending the batch again offers the rest, and nothing twice. */
  lemma MidPushResume(v: Vault, c: ClientID, keyname: string, batch: seq<Op>, gate: Gate, k: nat)
    requires Inv(v) && MarksHold(v)
    requires Admitted(v, c, keyname, batch, gate) != [] && k <= |Admitted(v, c, keyname, batch, gate)|
    ensures var ops := Admitted(v, c, keyname, batch, gate);
            Fresh(Hydrated(DiskMidPush(v, c, ops, k)), c, batch) == Some(LastOps(batch, |ops| - k))
  {
    hide *;
    AdmittedNumbers(v, c, keyname, batch, gate);
    MidPushMark(v, c, keyname, batch, gate, k);
    ResumesAt(Hydrated(DiskMidPush(v, c, Admitted(v, c, keyname, batch, gate), k)), c, batch, HighestOf(v.idem, c), k);
  }

  lemma AdmittedNumbers(v: Vault, c: ClientID, keyname: string, batch: seq<Op>, gate: Gate)
    requires Admitted(v, c, keyname, batch, gate) != []
    ensures var ops, tail := Admitted(v, c, keyname, batch, gate), Unseen(batch, HighestOf(v.idem, c));
            |ops| == |tail| && Increasing(tail) && forall i :: 0 <= i < |ops| ==> ops[i].seqno == tail[i].seqno
  {
    AdmittedIff(v, c, keyname, batch, gate);
    StampKeepsNumbers(Unseen(batch, HighestOf(v.idem, c)), keyname);
    hide Admitted, Unseen, Screen, OverlapsOther, PreHashesHold, AnyStuck;
  }

  /** Where the mark stands at the k-th op new under an older mark, the rest is what is new. */
  lemma ResumesAt(h: Vault, c: ClientID, batch: seq<Op>, mark: nat, k: nat)
    requires var tail := Unseen(batch, mark);
             Increasing(tail) && k <= |tail| && HighestOf(h.idem, c) == if k == 0 then mark else tail[k - 1].seqno
    ensures Fresh(h, c, batch) == Some(LastOps(batch, |Unseen(batch, mark)| - k))
  {
    UnseenParts(batch, mark);
    hide Fresh, Unseen, SeenPrefix, Increasing, SplitsAt, HighestOf;
    SplitAtMark(batch, mark, k, HighestOf(h.idem, c));
    FreshIs(h, c, batch, SeenPrefix(batch, mark) + k);
  }

  lemma StampKeepsNumbers(ops: seq<Op>, keyname: string)
    ensures forall i :: 0 <= i < |ops| ==> StampAll(ops, keyname)[i].seqno == ops[i].seqno
  {
  }
}
