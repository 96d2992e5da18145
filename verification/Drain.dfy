/** Pushing the staged log in bounded slices until it is empty. */
module Draining {
  import opened Wrappers
  import opened Seqs
  import opened Protocol
  import opened ClientLogs

  const MAX_BATCH: nat := 12 * 1024 * 1024

  /** The cheap size proxy. */
  function Cost(op: Op): nat { |Payload(op)| + |op.path| + 32 }

  function TotalCost(ops: seq<Op>): nat {
    if ops == [] then 0 else TotalCost(ops[..|ops| - 1]) + Cost(ops[|ops| - 1])
  }

  /** The ops that may be pushed, in order. */
  function Ready(staged: seq<StagedOp>): (r: seq<Op>)
    ensures |r| <= |staged|
  {
    if staged == [] then []
    else
      var front, last := Ready(staged[..|staged| - 1]), staged[|staged| - 1];
      if last.frozen then front else front + [last.op]
  }

  /** How many ops at the front fit into what `used` leaves of the budget. */
  function FitCount(ops: seq<Op>, used: nat): (n: nat)
    ensures n <= |ops|
  {
    if ops == [] || used + Cost(ops[0]) > MAX_BATCH then 0 else 1 + FitCount(ops[1..], used + Cost(ops[0]))
  }

  function NextBatch(staged: seq<StagedOp>): seq<Op> { Ready(staged)[..FitCount(Ready(staged), 0)] }

  lemma {:induction false} FitIsMaximal(ops: seq<Op>, used: nat)
    requires used <= MAX_BATCH
    ensures var n := FitCount(ops, used);
            && used + TotalCost(ops[..n]) <= MAX_BATCH
            && (n < |ops| ==> used + TotalCost(ops[..n]) + Cost(ops[n]) > MAX_BATCH)
  {
    var n := FitCount(ops, used);
    assert TotalCost(ops[..0]) == 0;
    hide TotalCost;
    if n > 0 {
      FitIsMaximal(ops[1..], used + Cost(ops[0]));
      assert ops[..n] == [ops[0]] + ops[1..][..n - 1];
      TotalCons(ops[0], ops[1..][..n - 1]);
    }
  }

  lemma {:induction false} TotalCons(op: Op, ops: seq<Op>)
    ensures TotalCost([op] + ops) == Cost(op) + TotalCost(ops)
  {
    if ops == [] {
      assert [op] + ops == [op] && [op][..0] == [];
    } else {
      assert ([op] + ops)[..|ops|] == [op] + ops[..|ops| - 1];
      TotalCons(op, ops[..|ops| - 1]);
    }
  }

  /** The next batch is a prefix of what is ready, within the budget and as long as the budget
      allows; it is empty only if nothing is ready or the first op alone is over the budget. */
  lemma BatchIsMaximal(staged: seq<StagedOp>)
    ensures var ready, batch := Ready(staged), NextBatch(staged);
            && batch == ready[..|batch|] && TotalCost(batch) <= MAX_BATCH
            && (|batch| < |ready| ==> TotalCost(ready[..|batch| + 1]) > MAX_BATCH)
            && (batch == [] <==> ready == [] || Cost(ready[0]) > MAX_BATCH)
  {
    var ready, n := Ready(staged), FitCount(Ready(staged), 0);
    FitIsMaximal(ready, 0);
    if n < |ready| { assert ready[..n + 1][..n] == ready[..n]; }
  }

  /** The bytes a push carries. */
  function PayloadBytes(ops: seq<Op>): nat {
    if ops == [] then 0 else |Payload(ops[0])| + PayloadBytes(ops[1..])
  }

  lemma {:induction false} BytesAtMostCost(ops: seq<Op>)
    ensures PayloadBytes(ops) <= TotalCost(ops)
  {
    if ops != [] {
      assert ops == [ops[0]] + ops[1..];
      BytesAtMostCost(ops[1..]);
      TotalCons(ops[0], ops[1..]);
    }
  }

  /** The payloads of a batch total at most 12 MiB, and a first op that leaves 32 bytes of that with its path
      and payload is always sent. */
  lemma BatchBytes(staged: seq<StagedOp>)
    ensures PayloadBytes(NextBatch(staged)) <= 12 * 1024 * 1024
    ensures Ready(staged) != [] && |Payload(Ready(staged)[0])| + |Ready(staged)[0].path| + 32 <= 12 * 1024 * 1024 ==>
      NextBatch(staged) != [] && NextBatch(staged)[0] == Ready(staged)[0]
  {
    BatchIsMaximal(staged);
    hide NextBatch, Ready;
    BytesAtMostCost(NextBatch(staged));
  }

  /** The loop's state: what is collected, and how much more of the rest would fit. */
  ghost predicate Collecting(staged: seq<StagedOp>, i: int, ops: seq<Op>, size: nat) {
    && 0 <= i <= |staged| && size <= MAX_BATCH && (ops == [] ==> size == 0)
    && Ready(staged) == ops + RestReady(staged, i)
    && FitCount(Ready(staged), 0) == |ops| + FitCount(RestReady(staged, i), size)
  }

  lemma CollectStart(staged: seq<StagedOp>)
    ensures Collecting(staged, 0, [], 0)
  {
    RestIsReady(staged, 0);
    assert [] + RestReady(staged, 0) == RestReady(staged, 0);
  }

  lemma CollectSkip(staged: seq<StagedOp>, i: int, ops: seq<Op>, size: nat)
    requires Collecting(staged, i, ops, size) && i < |staged| && staged[i].frozen
    ensures Collecting(staged, i + 1, ops, size)
  {
  }

  lemma CollectTake(staged: seq<StagedOp>, i: int, ops: seq<Op>, size: nat)
    requires Collecting(staged, i, ops, size) && i < |staged| && !staged[i].frozen
             && size + Cost(staged[i].op) <= MAX_BATCH
    ensures Collecting(staged, i + 1, ops + [staged[i].op], size + Cost(staged[i].op))
  {
    var rest := RestReady(staged, i);
    assert rest[0] == staged[i].op && rest[1..] == RestReady(staged, i + 1);
    hide Ready;
    Assoc(ops, [staged[i].op], RestReady(staged, i + 1));
  }

  /** The next op does not fit any more: what is collected is the batch. */
  lemma CollectFull(staged: seq<StagedOp>, i: int, ops: seq<Op>, size: nat)
    requires Collecting(staged, i, ops, size) && i < |staged| && !staged[i].frozen
             && size + Cost(staged[i].op) > MAX_BATCH
    ensures NextBatch(staged) == ops && |Ready(staged)| > |ops| && Ready(staged)[|ops|] == staged[i].op
  {
    var rest := RestReady(staged, i);
    assert rest[0] == staged[i].op;
    hide Ready, RestReady;
    assert (ops + rest)[..|ops|] == ops;
  }

  lemma CollectEnd(staged: seq<StagedOp>, ops: seq<Op>, size: nat)
    requires Collecting(staged, |staged|, ops, size)
    ensures NextBatch(staged) == ops && Ready(staged) == ops
  {
    assert ops + [] == ops;
  }

  /** `collectPushOps`: None when the first op alone is over the budget. */
  method CollectPushOps(staged: seq<StagedOp>) returns (r: Option<seq<Op>>)
    ensures r == if Ready(staged) != [] && Cost(Ready(staged)[0]) > MAX_BATCH then None else Some(NextBatch(staged))
  {
    hide Collecting, NextBatch;
    var ops: seq<Op> := [];
    var size: nat := 0;
    CollectStart(staged);
    for i := 0 to |staged|
      invariant Collecting(staged, i, ops, size)
      invariant ops != [] ==> Ready(staged) != [] && Ready(staged)[0] == ops[0] && Cost(ops[0]) <= MAX_BATCH
      invariant ops == [] ==> size == 0
    {
      if staged[i].frozen {
        CollectSkip(staged, i, ops, size);
        continue;
      }
      var opSize: nat := Cost(staged[i].op);
      if size + opSize > MAX_BATCH {
        CollectFull(staged, i, ops, size);
      } else {
        CollectTake(staged, i, ops, size);
      }
      if |ops| == 0 && opSize > MAX_BATCH {
        return None;
      }
      if |ops| > 0 && size + opSize > MAX_BATCH {
        return Some(ops);
      }
      ops := ops + [staged[i].op];
      size := size + opSize;
      FirstStays(staged, i + 1, ops, size);
    }
    CollectEnd(staged, ops, size);
    return Some(ops);
  }

  lemma FirstStays(staged: seq<StagedOp>, i: int, ops: seq<Op>, size: nat)
    requires Collecting(staged, i, ops, size) && ops != []
    ensures Ready(staged) != [] && Ready(staged)[0] == ops[0]
  {
  }

  ghost function RestReady(staged: seq<StagedOp>, i: int): seq<Op>
    requires 0 <= i <= |staged|
    decreases |staged| - i
  {
    if i == |staged| then []
    else if staged[i].frozen then RestReady(staged, i + 1)
    else [staged[i].op] + RestReady(staged, i + 1)
  }

  lemma {:induction false} RestIsReady(staged: seq<StagedOp>, i: int)
    requires 0 <= i <= |staged|
    ensures Ready(staged[..i]) + RestReady(staged, i) == Ready(staged)
    decreases |staged| - i
  {
    if i == |staged| {
      assert staged[..i] == staged;
    } else {
      RestIsReady(staged, i + 1);
      assert staged[..i + 1][..i] == staged[..i];
      if !staged[i].frozen { Assoc(Ready(staged[..i]), [staged[i].op], RestReady(staged, i + 1)); }
    }
  }

  // ----- what an answer does to the logs -----

  /** A server that takes the batch, or names what it refuses. */
  datatype Reply = Accepted | Refused(paths: set<Path>)

  function RefusedSeqs(sent: seq<Op>, paths: set<Path>): set<nat> {
    set i | 0 <= i < |sent| && TargetPath(sent[i]) in paths :: sent[i].seqno
  }

  /** `handleFiltered`: drop the sent ops that were refused, by number. */
  method HandleFiltered(sent: seq<Op>, paths: set<Path>, staged: StagedLog) returns (dropped: nat)
    modifies staged
    ensures staged.ops == WithoutSeqs(old(staged.ops), RefusedSeqs(sent, paths))
    ensures dropped == |set i | 0 <= i < |sent| && TargetPath(sent[i]) in paths :: i|
  {
    var seqs: set<nat> := {};
    ghost var hits: set<int> := {};
    dropped := 0;
    for i := 0 to |sent|
      invariant seqs == set k | 0 <= k < i && TargetPath(sent[k]) in paths :: sent[k].seqno
      invariant hits == set k | 0 <= k < i && TargetPath(sent[k]) in paths :: k
      invariant dropped == |hits|
    {
      if TargetPath(sent[i]) in paths {
        seqs, hits, dropped := seqs + {sent[i].seqno}, hits + {i}, dropped + 1;
      }
    }
    if seqs == {} {
      NothingDropped(staged.ops);
      return;
    }
    var keep: seq<StagedOp> := [];
    for i := 0 to |staged.ops|
      invariant keep == WithoutSeqs(staged.ops[..i], seqs)
    {
      assert staged.ops[..i + 1][..i] == staged.ops[..i];
      if staged.ops[i].op.seqno !in seqs {
        keep := keep + [staged.ops[i]];
      }
    }
    assert staged.ops[..|staged.ops|] == staged.ops;
    staged.Replace(keep);
  }

  lemma NothingDropped(ops: seq<StagedOp>)
    ensures WithoutSeqs(ops, {}) == ops
  {
    if ops != [] {
      NothingDropped(ops[..|ops| - 1]);
    }
  }

  ghost function AfterReply(l: Logs, sent: seq<Op>, reply: Reply): Logs
    requires sent != []
  {
    match reply
    case Accepted => AfterAck(l, sent)
    case Refused(paths) => l.(staged := WithoutSeqs(l.staged, RefusedSeqs(sent, paths)))
  }

  ghost predicate NoneFrozen(staged: seq<StagedOp>) { forall i :: 0 <= i < |staged| ==> !staged[i].frozen }

  ghost predicate Names(sent: seq<Op>, reply: Reply) {
    reply.Refused? ==> exists i :: 0 <= i < |sent| && TargetPath(sent[i]) in reply.paths
  }

  function OpsOf(staged: seq<StagedOp>): (r: seq<Op>)
    ensures |r| == |staged|
  {
    seq(|staged|, i requires 0 <= i < |staged| => staged[i].op)
  }

  lemma {:induction false} ReadyIsAll(staged: seq<StagedOp>)
    requires NoneFrozen(staged)
    ensures Ready(staged) == OpsOf(staged)
  {
    if staged != [] {
      ReadyIsAll(staged[..|staged| - 1]);
    }
  }

  /** The first n ops are the ones numbered below the bound. */
  ghost predicate CutAt(staged: seq<StagedOp>, n: nat, bound: nat) {
    n <= |staged| && forall i :: 0 <= i < |staged| ==> (staged[i].op.seqno < bound <==> i < n)
  }

  lemma CutFront(staged: seq<StagedOp>, n: nat, bound: nat)
    requires CutAt(staged, n, bound) && staged != []
    ensures CutAt(staged[..|staged| - 1], if n == |staged| then n - 1 else n, bound)
    ensures staged[|staged| - 1].op.seqno < bound <==> n == |staged|
  {
  }

  lemma {:induction false} CutBelow(staged: seq<StagedOp>, n: nat, bound: nat)
    requires CutAt(staged, n, bound)
    ensures Below(staged, bound) == staged[..n]
  {
    if staged != [] {
      CutFront(staged, n, bound);
      var front := staged[..|staged| - 1];
      hide CutAt;
      CutBelow(front, if n == |staged| then n - 1 else n, bound);
      if n == |staged| { assert front[..n - 1] == front && staged[..n] == front + [staged[n - 1]]; }
      else { assert staged[..n] == front[..n]; }
    }
  }

  lemma {:induction false} CutRetained(staged: seq<StagedOp>, n: nat, bound: nat)
    requires CutAt(staged, n, bound)
    ensures Retained(staged, bound) == staged[n..]
  {
    if staged != [] {
      CutFront(staged, n, bound);
      var front := staged[..|staged| - 1];
      hide CutAt;
      CutRetained(front, if n == |staged| then n - 1 else n, bound);
      if n == |staged| { assert front[n - 1..] == []; }
      else { assert staged[n..] == front[n..] + [staged[|staged| - 1]]; }
    }
  }

  /** Without frozen ops an accepted batch moves exactly itself from T1 to T2. */
  lemma AcceptedCuts(staged: seq<StagedOp>, n: nat)
    requires NoneFrozen(staged) && NumbersIncrease(staged) && 0 < n <= |staged|
    ensures var bound := staged[n - 1].op.seqno + 1;
            Below(staged, bound) == staged[..n] && Retained(staged, bound) == staged[n..]
  {
    var bound := staged[n - 1].op.seqno + 1;
    forall i | 0 <= i < |staged| ensures staged[i].op.seqno < bound <==> i < n {
      if n - 1 < i { assert staged[n - 1].op.seqno < staged[i].op.seqno; }
      if i < n - 1 { assert staged[i].op.seqno < staged[n - 1].op.seqno; }
    }
    CutBelow(staged, n, bound);
    CutRetained(staged, n, bound);
  }

  /** What goes to T2 with an accepted batch is what was sent exactly when no frozen op has a number
      below the last one sent: a frozen op in between is promoted though it was never pushed. */
  lemma FrozenMovesIff(staged: seq<StagedOp>, n: nat)
    requires NumbersIncrease(staged) && 0 < n <= |Ready(staged)|
    ensures var bound := Ready(staged)[n - 1].seqno + 1;
            (OpsOf(Below(staged, bound)) == Ready(staged)[..n]) <==>
            (forall i :: 0 <= i < |staged| && staged[i].frozen ==> staged[i].op.seqno >= bound)
  {
    var m := PlaceOf(staged, n - 1);
    FrozenCut(staged, n, m + 1, Ready(staged)[n - 1].seqno + 1);
  }

  lemma FrozenCut(staged: seq<StagedOp>, n: nat, m: nat, bound: nat)
    requires CutAt(staged, m, bound) && n <= |Ready(staged)| && Ready(staged[..m]) == Ready(staged)[..n]
    ensures (OpsOf(Below(staged, bound)) == Ready(staged)[..n]) <==>
            (forall i :: 0 <= i < |staged| && staged[i].frozen ==> staged[i].op.seqno >= bound)
  {
    CutBelow(staged, m, bound);
    AllReadyIff(staged[..m]);
    FrozenBelow(staged, m, bound);
    hide Ready, OpsOf, NoneFrozen, Below, CutAt;
  }

  lemma FrozenBelow(staged: seq<StagedOp>, n: nat, bound: nat)
    requires CutAt(staged, n, bound)
    ensures NoneFrozen(staged[..n])
            <==> forall i :: 0 <= i < |staged| && staged[i].frozen ==> staged[i].op.seqno >= bound
  {
    forall i | 0 <= i < n ensures staged[..n][i].frozen <==> staged[i].frozen {}
  }

  lemma AllReadyIff(staged: seq<StagedOp>)
    ensures OpsOf(staged) == Ready(staged) <==> NoneFrozen(staged)
  {
    if NoneFrozen(staged) {
      ReadyIsAll(staged);
    } else {
      var i :| 0 <= i < |staged| && staged[i].frozen;
      FewerReady(staged, i);
    }
  }

  /** Where the k-th ready op stands. */
  lemma {:induction false} PlaceOf(staged: seq<StagedOp>, k: nat) returns (m: nat)
    requires NumbersIncrease(staged) && k < |Ready(staged)|
    ensures m < |staged| && !staged[m].frozen && staged[m].op == Ready(staged)[k]
    ensures Ready(staged[..m + 1]) == Ready(staged)[..k + 1]
    ensures CutAt(staged, m + 1, staged[m].op.seqno + 1)
  {
    var front, last := staged[..|staged| - 1], staged[|staged| - 1];
    if k < |Ready(front)| {
      m := PlaceOf(front, k);
      assert front[..m + 1] == staged[..m + 1];
    } else {
      m := |staged| - 1;
      assert staged[..m + 1] == staged;
    }
  }

  lemma {:induction false} FewerReady(staged: seq<StagedOp>, i: int)
    requires 0 <= i < |staged| && staged[i].frozen
    ensures |Ready(staged)| < |staged|
  {
    if i < |staged| - 1 { FewerReady(staged[..|staged| - 1], i); }
  }

  // ----- the drain -----

  datatype Round = Round(sent: seq<Op>, reply: Reply)

  ghost function LogsAfter(l: Logs, rounds: seq<Round>): Logs
    requires forall i :: 0 <= i < |rounds| ==> rounds[i].sent != []
  {
    if rounds == [] then l
    else AfterReply(LogsAfter(l, rounds[..|rounds| - 1]), rounds[|rounds| - 1].sent, rounds[|rounds| - 1].reply)
  }

  ghost predicate RoundOk(l: Logs, rounds: seq<Round>, i: int)
    requires 0 <= i < |rounds|
    requires forall k :: 0 <= k < |rounds| ==> rounds[k].sent != []
  {
    rounds[i].sent == NextBatch(LogsAfter(l, rounds[..i]).staged) && Names(rounds[i].sent, rounds[i].reply)
  }

  /** Each round pushes the next batch of what the rounds before it left. */
  ghost predicate IsDrain(l: Logs, rounds: seq<Round>) {
    && (forall i :: 0 <= i < |rounds| ==> rounds[i].sent != [])
    && (forall i :: 0 <= i < |rounds| ==> RoundOk(l, rounds, i))
  }

  lemma DrainSnoc(l: Logs, rounds: seq<Round>, r: Round)
    requires IsDrain(l, rounds) && r.sent != [] && r.sent == NextBatch(LogsAfter(l, rounds).staged)
             && Names(r.sent, r.reply)
    ensures IsDrain(l, rounds + [r]) && LogsAfter(l, rounds + [r]) == AfterReply(LogsAfter(l, rounds), r.sent, r.reply)
  {
    var all := rounds + [r];
    assert all[..|rounds|] == rounds;
    forall i | 0 <= i < |rounds| ensures RoundOk(l, all, i) {
      assert RoundOk(l, rounds, i);
      assert all[..i] == rounds[..i];
    }
  }

  lemma DrainFront(l: Logs, rounds: seq<Round>)
    requires IsDrain(l, rounds) && rounds != []
    ensures IsDrain(l, rounds[..|rounds| - 1])
    ensures RoundOk(l, rounds, |rounds| - 1)
  {
    var front := rounds[..|rounds| - 1];
    forall i | 0 <= i < |front| ensures RoundOk(l, front, i) {
      assert RoundOk(l, rounds, i);
      assert front[..i] == rounds[..i];
    }
  }

  ghost function AckedOps(rounds: seq<Round>): seq<Op> {
    if rounds == [] then []
    else
      AckedOps(rounds[..|rounds| - 1]) +
      (if rounds[|rounds| - 1].reply.Accepted? then rounds[|rounds| - 1].sent else [])
  }

  /** The numbers of the ops that a round sent and the server refused. */
  ghost function DroppedSeqs(rounds: seq<Round>): set<nat> {
    if rounds == [] then {}
    else DroppedSeqs(rounds[..|rounds| - 1]) +
         (match rounds[|rounds| - 1].reply
          case Accepted => {}
          case Refused(paths) => RefusedSeqs(rounds[|rounds| - 1].sent, paths))
  }

  ghost predicate OpNumber(ops: seq<Op>, n: nat) { exists i :: 0 <= i < |ops| && ops[i].seqno == n }

  function Count(b: bool): nat { if b then 1 else 0 }

  /** In how many places number n is: still staged, acked, refused. */
  ghost function Places(staged: seq<StagedOp>, acked: seq<Op>, dropped: set<nat>, n: nat): nat {
    Count(HasNumber(staged, n)) + Count(OpNumber(acked, n)) + Count(n in dropped)
  }

  ghost predicate Tidy(staged: seq<StagedOp>) { NoneFrozen(staged) && NumbersIncrease(staged) }

  ghost predicate InSeqOrder(ops: seq<Op>) { forall i, j :: 0 <= i < j < |ops| ==> ops[i].seqno < ops[j].seqno }

  /** The remaining ops are tidy, and every op of the log is in exactly one place; acked ops are in
      sequence order, below everything that remains, and numbered in T2. */
  ghost predicate Progress(l: Logs, cur: Logs, acked: seq<Op>, dropped: set<nat>) {
    && Tidy(cur.staged) && (forall s :: s in cur.staged ==> s in l.staged)
    && InSeqOrder(acked) && (forall i :: 0 <= i < |acked| ==> FromLog(acked[i], l.staged))
    && (forall i, j :: 0 <= i < |acked| && 0 <= j < |cur.staged| ==> acked[i].seqno < cur.staged[j].op.seqno)
    && (forall n :: Places(cur.staged, acked, dropped, n) == Count(HasNumber(l.staged, n)))
    && (forall n :: HasNumber(cur.acked, n) <==> HasNumber(l.acked, n) || OpNumber(acked, n))
  }

  ghost predicate FromLog(op: Op, staged: seq<StagedOp>) { exists i :: 0 <= i < |staged| && staged[i].op == op }

  lemma ProgressStart(l: Logs)
    requires Tidy(l.staged)
    ensures Progress(l, l, [], {})
  {
  }

  lemma NumberConcat(a: seq<Op>, b: seq<Op>, n: nat)
    ensures OpNumber(a + b, n) <==> OpNumber(a, n) || OpNumber(b, n)
  {
    if OpNumber(a, n) {
      var i :| 0 <= i < |a| && a[i].seqno == n;
      assert (a + b)[i].seqno == n;
    }
    if OpNumber(b, n) {
      var i :| 0 <= i < |b| && b[i].seqno == n;
      assert (a + b)[|a| + i].seqno == n;
    }
  }

  lemma NumbersSplit(staged: seq<StagedOp>, k: nat, n: nat)
    requires NumbersIncrease(staged) && k <= |staged|
    ensures Count(HasNumber(staged, n)) == Count(HasNumber(staged[..k], n)) + Count(HasNumber(staged[k..], n))
    ensures HasNumber(staged[..k], n) <==> OpNumber(OpsOf(staged)[..k], n)
  {
    var a, b := staged[..k], staged[k..];
    if HasNumber(a, n) {
      var i :| 0 <= i < |a| && a[i].op.seqno == n;
      assert staged[i].op.seqno == n && OpsOf(staged)[..k][i].seqno == n;
      forall j | 0 <= j < |b| ensures b[j].op.seqno != n { assert staged[i].op.seqno < staged[k + j].op.seqno; }
    }
    if HasNumber(b, n) {
      var j :| 0 <= j < |b| && b[j].op.seqno == n;
      assert staged[k + j].op.seqno == n;
    }
    if HasNumber(staged, n) {
      var i :| 0 <= i < |staged| && staged[i].op.seqno == n;
      if i < k { assert a[i].op.seqno == n; } else { assert b[i - k].op.seqno == n; }
    }
    if OpNumber(OpsOf(staged)[..k], n) {
      var i :| 0 <= i < k && OpsOf(staged)[..k][i].seqno == n;
      assert a[i].op.seqno == n;
    }
  }

  /** An accepted batch: the first k remaining ops move to the acked ones. */
  lemma AcceptedProgress(l: Logs, cur: Logs, acked: seq<Op>, dropped: set<nat>, k: nat)
    requires Progress(l, cur, acked, dropped) && 0 < k <= |cur.staged|
    ensures var sent := OpsOf(cur.staged)[..k];
            Progress(l, AfterReply(cur, sent, Accepted), acked + sent, dropped)
  {
    var sent := OpsOf(cur.staged)[..k];
    var rest := cur.staged[k..];
    AcceptedCuts(cur.staged, k);
    var next := AfterReply(cur, sent, Accepted);
    assert next.staged == rest;
    AppendNewNumbers(cur.acked, cur.staged[..k]);
    forall n
      ensures Places(rest, acked + sent, dropped, n) == Count(HasNumber(l.staged, n))
      ensures HasNumber(next.acked, n) <==> HasNumber(l.acked, n) || OpNumber(acked + sent, n)
    {
      NumbersSplit(cur.staged, k, n);
      NumberConcat(acked, sent, n);
      assert Places(cur.staged, acked, dropped, n) == Count(HasNumber(l.staged, n));
      AckedIsNotStaged(cur.staged, acked, n);
    }
    AcceptedOrder(l, cur, acked, k);
  }

  lemma AckedIsNotStaged(staged: seq<StagedOp>, acked: seq<Op>, n: nat)
    requires forall i, j :: 0 <= i < |acked| && 0 <= j < |staged| ==> acked[i].seqno < staged[j].op.seqno
    ensures !(HasNumber(staged, n) && OpNumber(acked, n))
  {
  }

  lemma AcceptedOrder(l: Logs, cur: Logs, acked: seq<Op>, k: nat)
    requires Tidy(cur.staged) && (forall s :: s in cur.staged ==> s in l.staged) && InSeqOrder(acked)
             && k <= |cur.staged|
    requires forall i :: 0 <= i < |acked| ==> FromLog(acked[i], l.staged)
    requires forall i, j :: 0 <= i < |acked| && 0 <= j < |cur.staged| ==> acked[i].seqno < cur.staged[j].op.seqno
    ensures var sent, rest := OpsOf(cur.staged)[..k], cur.staged[k..];
            && Tidy(rest) && (forall s :: s in rest ==> s in l.staged) && InSeqOrder(acked + sent)
            && (forall i :: 0 <= i < |acked + sent| ==> FromLog((acked + sent)[i], l.staged))
            && (forall i, j :: 0 <= i < |acked + sent| && 0 <= j < |rest| ==>
                                 (acked + sent)[i].seqno < rest[j].op.seqno)
  {
    var sent := OpsOf(cur.staged)[..k];
    forall i | 0 <= i < k ensures FromLog(sent[i], l.staged) {
      assert cur.staged[i] in l.staged;
      var j :| 0 <= j < |l.staged| && l.staged[j] == cur.staged[i];
      assert l.staged[j].op == sent[i];
    }
  }

  lemma {:induction false} WithoutSeqsKeeps(staged: seq<StagedOp>, gone: set<nat>)
    requires Tidy(staged)
    ensures var r := WithoutSeqs(staged, gone);
            && Tidy(r) && (forall s :: s in r <==> s in staged && s.op.seqno !in gone)
            && (forall s :: s in staged && s.op.seqno in gone ==> |r| < |staged|)
  {
    if staged != [] {
      var front, last := staged[..|staged| - 1], staged[|staged| - 1];
      WithoutSeqsKeeps(front, gone);
      assert staged == front + [last];
      var r := WithoutSeqs(front, gone);
      forall i | 0 <= i < |r| ensures r[i].op.seqno < last.op.seqno && !r[i].frozen {
        assert r[i] in front;
      }
    }
  }

  lemma HasNumberIn(staged: seq<StagedOp>, n: nat)
    ensures HasNumber(staged, n) <==> exists s :: s in staged && s.op.seqno == n
  {
    if HasNumber(staged, n) {
      var i :| 0 <= i < |staged| && staged[i].op.seqno == n;
      assert staged[i] in staged;
    }
  }

  /** A refused batch: the named ops, all of them still staged, are dropped. */
  lemma RefusedProgress(l: Logs, cur: Logs, acked: seq<Op>, dropped: set<nat>, k: nat, paths: set<Path>)
    requires Progress(l, cur, acked, dropped) && 0 < k <= |cur.staged|
    ensures var sent := OpsOf(cur.staged)[..k];
            Progress(l, AfterReply(cur, sent, Refused(paths)), acked, dropped + RefusedSeqs(sent, paths))
  {
    var sent := OpsOf(cur.staged)[..k];
    var gone := RefusedSeqs(sent, paths);
    var rest := WithoutSeqs(cur.staged, gone);
    WithoutSeqsKeeps(cur.staged, gone);
    forall n ensures Places(rest, acked, dropped + gone, n) == Count(HasNumber(l.staged, n)) {
      assert Places(cur.staged, acked, dropped, n) == Count(HasNumber(l.staged, n));
      HasNumberIn(cur.staged, n);
      HasNumberIn(rest, n);
      if n in gone {
        var i :| 0 <= i < k && TargetPath(sent[i]) in paths && sent[i].seqno == n;
        assert cur.staged[i] in cur.staged && cur.staged[i].op.seqno == n;
      }
    }
    forall i, j | 0 <= i < |acked| && 0 <= j < |rest| ensures acked[i].seqno < rest[j].op.seqno {
      assert rest[j] in cur.staged;
    }
  }

  lemma RoundProgress(l: Logs, cur: Logs, acked: seq<Op>, dropped: set<nat>, r: Round)
    requires Progress(l, cur, acked, dropped) && r.sent != [] && r.sent == NextBatch(cur.staged)
    ensures Progress(l, AfterReply(cur, r.sent, r.reply), acked + (if r.reply.Accepted? then r.sent else []),
                     dropped + (match r.reply case Accepted => {} case Refused(paths) => RefusedSeqs(r.sent, paths)))
  {
    ReadyIsAll(cur.staged);
    var k := |r.sent|;
    assert r.sent == OpsOf(cur.staged)[..k];
    match r.reply {
      case Accepted =>
        AcceptedProgress(l, cur, acked, dropped, k);
        assert dropped + {} == dropped;
      case Refused(paths) =>
        RefusedProgress(l, cur, acked, dropped, k, paths);
        assert acked + [] == acked;
    }
  }

  /** Over any sequence of rounds every op of the log is in exactly one place. */
  lemma {:induction false} DrainProgress(l: Logs, rounds: seq<Round>)
    requires Tidy(l.staged) && IsDrain(l, rounds)
    ensures Progress(l, LogsAfter(l, rounds), AckedOps(rounds), DroppedSeqs(rounds))
  {
    if rounds == [] {
      ProgressStart(l);
    } else {
      var front, last := rounds[..|rounds| - 1], rounds[|rounds| - 1];
      DrainFront(l, rounds);
      hide Progress, NextBatch, AfterReply;
      DrainProgress(l, front);
      RoundProgress(l, LogsAfter(l, front), AckedOps(front), DroppedSeqs(front), last);
    }
  }

  /** A drained log: every op was acked once, in sequence order, and is numbered in T2, or it was
      dropped because its target was refused; never both. */
  lemma DrainOutcome(l: Logs, rounds: seq<Round>, s: StagedOp)
    requires Tidy(l.staged) && IsDrain(l, rounds) && LogsAfter(l, rounds).staged == [] && s in l.staged
    ensures InSeqOrder(AckedOps(rounds))
    ensures OpNumber(AckedOps(rounds), s.op.seqno) <==> s.op.seqno !in DroppedSeqs(rounds)
    ensures OpNumber(AckedOps(rounds), s.op.seqno) ==> HasNumber(LogsAfter(l, rounds).acked, s.op.seqno)
  {
    DrainProgress(l, rounds);
    HasNumberIn(l.staged, s.op.seqno);
    assert Places([], AckedOps(rounds), DroppedSeqs(rounds), s.op.seqno) == 1;
    assert !HasNumber([], s.op.seqno);
  }

  ghost predicate AllAffordable(staged: seq<StagedOp>) { forall s :: s in staged ==> Cost(s.op) <= MAX_BATCH }

  lemma RefusalShrinks(staged: seq<StagedOp>, k: nat, paths: set<Path>)
    requires Tidy(staged) && 0 < k <= |staged| && Names(OpsOf(staged)[..k], Refused(paths))
    ensures var rest := WithoutSeqs(staged, RefusedSeqs(OpsOf(staged)[..k], paths));
            Tidy(rest) && |rest| < |staged| && forall s :: s in rest ==> s in staged
  {
    var sent := OpsOf(staged)[..k];
    var gone := RefusedSeqs(sent, paths);
    WithoutSeqsKeeps(staged, gone);
    var i :| 0 <= i < |sent| && TargetPath(sent[i]) in paths;
    assert staged[i] in staged && staged[i].op.seqno in gone;
  }

  lemma AcceptanceShrinks(staged: seq<StagedOp>, k: nat)
    requires Tidy(staged) && 0 < k <= |staged|
    ensures var rest := Retained(staged, staged[k - 1].op.seqno + 1);
            Tidy(rest) && |rest| < |staged| && forall s :: s in rest ==> s in staged
  {
    AcceptedCuts(staged, k);
  }

  lemma SubsetAffordable(rest: seq<StagedOp>, staged: seq<StagedOp>)
    requires AllAffordable(staged) && forall s :: s in rest ==> s in staged
    ensures AllAffordable(rest)
  {
  }

  /** Each answer leaves fewer ops to push. */
  lemma RoundShrinks(cur: Logs, sent: seq<Op>, reply: Reply)
    requires Tidy(cur.staged) && AllAffordable(cur.staged)
    requires sent != [] && sent == NextBatch(cur.staged) && Names(sent, reply)
    ensures var next := AfterReply(cur, sent, reply).staged;
            Tidy(next) && AllAffordable(next) && |next| < |cur.staged|
  {
    ReadyIsAll(cur.staged);
    var k := |sent|;
    assert sent == OpsOf(cur.staged)[..k];
    assert sent[k - 1] == cur.staged[k - 1].op;
    hide NextBatch, Ready, Tidy, AllAffordable, Names, Retained, WithoutSeqs, RefusedSeqs, OpsOf;
    match reply {
      case Accepted => AcceptanceShrinks(cur.staged, k);
      case Refused(paths) => RefusalShrinks(cur.staged, k, paths);
    }
    SubsetAffordable(AfterReply(cur, sent, reply).staged, cur.staged);
  }

  lemma ReadyAffordable(staged: seq<StagedOp>)
    requires NoneFrozen(staged) && AllAffordable(staged)
    ensures Ready(staged) == [] <==> staged == []
    ensures staged != [] ==> Cost(Ready(staged)[0]) <= MAX_BATCH && NextBatch(staged) != []
  {
    ReadyIsAll(staged);
    BatchIsMaximal(staged);
    if staged != [] { assert staged[0] in staged; }
  }

  /** `pushIfNeeded` against a server that answers ok or names something it was sent. The loop ends,
      and then nothing is left to push. `reply` is the server's answer to the n-th batch. */
  method PushIfNeeded(staged: StagedLog, acked: AckedLog, reply: (nat, seq<Op>) -> Reply) returns (rounds: seq<Round>)
    requires Tidy(staged.ops) && AllAffordable(staged.ops)
    requires forall n, sent :: sent != [] ==> Names(sent, reply(n, sent))
    modifies staged, acked
    ensures IsDrain(old(Logs(staged.ops, acked.ops)), rounds)
    ensures Logs(staged.ops, acked.ops) == LogsAfter(old(Logs(staged.ops, acked.ops)), rounds)
    ensures staged.ops == []
  {
    rounds := [];
    ghost var start := Logs(staged.ops, acked.ops);
    while true
      invariant IsDrain(start, rounds) && Logs(staged.ops, acked.ops) == LogsAfter(start, rounds)
      invariant Tidy(staged.ops) && AllAffordable(staged.ops)
      decreases |staged.ops|
    {
      hide NextBatch, Tidy, IsDrain, LogsAfter, Names, AllAffordable, AfterReply;
      var ops := CollectPushOps(staged.ops);
      CollectedIs(staged.ops, ops);
      if ops.value == [] {
        break;
      }
      var answer := reply(|rounds|, ops.value);
      DrainSnoc(start, rounds, Round(ops.value, answer));
      RoundShrinks(Logs(staged.ops, acked.ops), ops.value, answer);
      rounds := rounds + [Round(ops.value, answer)];
      Resolve(staged, acked, ops.value, answer);
    }
  }

  /** What the answer does: promote the batch, or drop what was refused. */
  method Resolve(staged: StagedLog, acked: AckedLog, sent: seq<Op>, answer: Reply)
    requires sent != []
    modifies staged, acked
    ensures Logs(staged.ops, acked.ops) == AfterReply(old(Logs(staged.ops, acked.ops)), sent, answer)
  {
    match answer {
      case Accepted =>
        T1ToT2(staged, acked, sent[|sent| - 1].seqno + 1);
      case Refused(paths) =>
        var _ := HandleFiltered(sent, paths, staged);
    }
  }

  lemma CollectedIs(staged: seq<StagedOp>, r: Option<seq<Op>>)
    requires Tidy(staged) && AllAffordable(staged)
    requires r == if Ready(staged) != [] && Cost(Ready(staged)[0]) > MAX_BATCH then None else Some(NextBatch(staged))
    ensures r == Some(NextBatch(staged)) && (NextBatch(staged) == [] <==> staged == [])
  {
    ReadyAffordable(staged);
  }
}
