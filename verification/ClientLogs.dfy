/** The client's logs: ops in flight, ops acked but not yet committed, and the moves between them. */
module ClientLogs {
  import opened Seqs
  import opened Protocol

  // ----- filters -----

  function Below(ops: seq<StagedOp>, bound: nat): (r: seq<StagedOp>)
    ensures |r| <= |ops|
  {
    if ops == [] then []
    else
      var front, last := Below(ops[..|ops| - 1], bound), ops[|ops| - 1];
      if last.op.seqno < bound then front + [last] else front
  }

  function Retained(ops: seq<StagedOp>, bound: nat): (r: seq<StagedOp>)
    ensures |r| <= |ops|
  {
    if ops == [] then []
    else
      var front, last := Retained(ops[..|ops| - 1], bound), ops[|ops| - 1];
      if last.op.seqno >= bound then front + [last] else front
  }

  function WithoutSeqs(ops: seq<StagedOp>, gone: set<nat>): (r: seq<StagedOp>)
    ensures |r| <= |ops|
  {
    if ops == [] then []
    else
      var front, last := WithoutSeqs(ops[..|ops| - 1], gone), ops[|ops| - 1];
      if last.op.seqno in gone then front else front + [last]
  }

  ghost predicate HasNumber(ops: seq<StagedOp>, n: nat) { exists i :: 0 <= i < |ops| && ops[i].op.seqno == n }

  /** `AppendAll`: rows whose number the log already has are skipped. */
  ghost function AppendNew(log: seq<StagedOp>, batch: seq<StagedOp>): seq<StagedOp> {
    if batch == [] then log
    else
      var front, last := AppendNew(log, batch[..|batch| - 1]), batch[|batch| - 1];
      if HasNumber(front, last.op.seqno) then front else front + [last]
  }

  ghost predicate NumbersDistinct(ops: seq<StagedOp>) {
    forall i, j :: 0 <= i < j < |ops| ==> ops[i].op.seqno != ops[j].op.seqno
  }

  // ----- the two logs -----

  /** staged.jsonl (T1) and acked.jsonl (T2). */
  datatype Logs = Logs(staged: seq<StagedOp>, acked: seq<StagedOp>)

  /** `T1ToT2` run to its end. */
  ghost function Promote(l: Logs, bound: nat): Logs {
    Logs(Retained(l.staged, bound), AppendNew(l.acked, Below(l.staged, bound)))
  }

  /** The logs once a sent batch is acked: everything up to its last number moves. */
  ghost function AfterAck(l: Logs, sent: seq<Op>): Logs
    requires sent != []
  {
    Promote(l, sent[|sent| - 1].seqno + 1)
  }

  /** The logs after k of the rows to move have been dealt with and nothing is trimmed yet. */
  ghost function PromotedRows(l: Logs, bound: nat, k: nat): Logs
    requires k <= |Below(l.staged, bound)|
  {
    l.(acked := AppendNew(l.acked, Below(l.staged, bound)[..k]))
  }

  /** Every state a crash inside T1ToT2 can leave. */
  ghost predicate MidPromotion(l: Logs, bound: nat, now: Logs) {
    now == Promote(l, bound) || exists k :: 0 <= k <= |Below(l.staged, bound)| && now == PromotedRows(l, bound, k)
  }

  class StagedLog {
    var ops: seq<StagedOp>

    constructor (rows: seq<StagedOp>)
      ensures ops == rows
    {
      ops := rows;
    }

    method Append(op: StagedOp)
      modifies this
      ensures ops == old(ops) + [op]
    {
      ops := ops + [op];
    }

    method Replace(rows: seq<StagedOp>)
      modifies this
      ensures ops == rows
    {
      ops := rows;
    }

    method RewriteRetaining(bound: nat)
      modifies this
      ensures ops == Retained(old(ops), bound)
    {
      var keep: seq<StagedOp> := [];
      for i := 0 to |ops|
        invariant keep == Retained(ops[..i], bound)
      {
        assert ops[..i + 1][..i] == ops[..i];
        if ops[i].op.seqno >= bound {
          keep := keep + [ops[i]];
        }
      }
      assert ops[..|ops|] == ops;
      ops := keep;
    }
  }

  class AckedLog {
    var ops: seq<StagedOp>

    constructor (rows: seq<StagedOp>)
      ensures ops == rows
    {
      ops := rows;
    }

    method AppendAll(batch: seq<StagedOp>) returns (wrote: nat)
      modifies this
      ensures ops == AppendNew(old(ops), batch)
      ensures wrote == |ops| - |old(ops)|
    {
      var have := set i | 0 <= i < |ops| :: ops[i].op.seqno;
      wrote := 0;
      for i := 0 to |batch|
        invariant ops == AppendNew(old(ops), batch[..i]) && wrote == |ops| - |old(ops)|
        invariant forall n :: n in have <==> HasNumber(ops, n)
      {
        assert batch[..i + 1][..i] == batch[..i];
        var row := batch[i];
        if row.op.seqno in have {
          continue;
        }
        HasNumberSnoc(ops, row);
        ops := ops + [row];
        have := have + {row.op.seqno};
        wrote := wrote + 1;
      }
      assert batch[..|batch|] == batch;
    }

    /** Drop the first row with this author and number, if any. */
    method DropByAuthorSeq(keyname: string, n: nat) returns (dropped: bool)
      modifies this
      ensures dropped <==> FirstMatch(old(ops), keyname, n) < |old(ops)|
      ensures ops == DropFirstMatch(old(ops), keyname, n)
    {
      var idx := |ops|;
      for i := 0 to |ops|
        invariant idx == |ops| && i <= FirstMatch(ops, keyname, n)
      {
        if ops[i].op.author == keyname && ops[i].op.seqno == n {
          idx := i;
          break;
        }
      }
      assert idx == FirstMatch(ops, keyname, n);
      if idx == |ops| {
        return false;
      }
      ops := ops[..idx] + ops[idx + 1..];
      return true;
    }

    method DropBySeqs(gone: set<nat>) returns (dropped: nat)
      modifies this
      ensures ops == WithoutSeqs(old(ops), gone)
      ensures dropped == |old(ops)| - |ops|
    {
      var keep: seq<StagedOp> := [];
      dropped := 0;
      for i := 0 to |ops|
        invariant keep == WithoutSeqs(ops[..i], gone) && dropped == i - |keep|
      {
        assert ops[..i + 1][..i] == ops[..i];
        if ops[i].op.seqno in gone {
          dropped := dropped + 1;
        } else {
          keep := keep + [ops[i]];
        }
      }
      assert ops[..|ops|] == ops;
      ops := keep;
    }
  }

  /** `T1ToT2`: collect, append to T2, and only then trim T1. */
  method T1ToT2(staged: StagedLog, acked: AckedLog, bound: nat)
    modifies staged, acked
    ensures Logs(staged.ops, acked.ops) == Promote(old(Logs(staged.ops, acked.ops)), bound)
  {
    var toMove: seq<StagedOp> := [];
    for i := 0 to |staged.ops|
      invariant toMove == Below(staged.ops[..i], bound)
    {
      assert staged.ops[..i + 1][..i] == staged.ops[..i];
      if staged.ops[i].op.seqno < bound {
        toMove := toMove + [staged.ops[i]];
      }
    }
    assert staged.ops[..|staged.ops|] == staged.ops;
    if |toMove| > 0 {
      var _ := acked.AppendAll(toMove);
    }
    staged.RewriteRetaining(bound);
  }

  // ----- self-echo -----

  function FirstMatch(ops: seq<StagedOp>, keyname: string, n: nat): (k: nat)
    ensures k <= |ops|
    ensures k < |ops| ==> ops[k].op.author == keyname && ops[k].op.seqno == n
    ensures forall i :: 0 <= i < k ==> !(ops[i].op.author == keyname && ops[i].op.seqno == n)
  {
    if ops == [] || (ops[0].op.author == keyname && ops[0].op.seqno == n) then 0
    else 1 + FirstMatch(ops[1..], keyname, n)
  }

  function DropFirstMatch(ops: seq<StagedOp>, keyname: string, n: nat): seq<StagedOp> {
    var k := FirstMatch(ops, keyname, n);
    if k < |ops| then ops[..k] + ops[k + 1..] else ops
  }

  // ----- laws of the promotion -----

  lemma HasNumberSnoc(ops: seq<StagedOp>, s: StagedOp)
    ensures forall n :: HasNumber(ops + [s], n) <==> HasNumber(ops, n) || s.op.seqno == n
  {
    forall n ensures HasNumber(ops + [s], n) <==> HasNumber(ops, n) || s.op.seqno == n {
      if HasNumber(ops, n) {
        var i :| 0 <= i < |ops| && ops[i].op.seqno == n;
        assert (ops + [s])[i].op.seqno == n;
      }
      if s.op.seqno == n { assert (ops + [s])[|ops|].op.seqno == n; }
    }
  }

  /** The numbers after AppendAll, and where its rows come from. */
  lemma {:induction false} AppendNewNumbers(log: seq<StagedOp>, batch: seq<StagedOp>)
    ensures var r := AppendNew(log, batch);
            && |log| <= |r| && r[..|log|] == log
            && (forall n :: HasNumber(r, n) <==> HasNumber(log, n) || HasNumber(batch, n))
    ensures NumbersDistinct(log) ==> NumbersDistinct(AppendNew(log, batch))
  {
    if batch != [] {
      var front, last := batch[..|batch| - 1], batch[|batch| - 1];
      AppendNewNumbers(log, front);
      var r := AppendNew(log, front);
      assert batch == front + [last];
      HasNumberSnoc(front, last);
      HasNumberSnoc(r, last);
      assert (r + [last])[..|log|] == r[..|log|];
    }
  }

  /** T2 never repeats a number, wherever the move is interrupted. */
  lemma NoRepeatsInT2(l: Logs, bound: nat, now: Logs)
    requires NumbersDistinct(l.acked) && MidPromotion(l, bound, now)
    ensures NumbersDistinct(now.acked)
  {
    if now == Promote(l, bound) {
      AppendNewNumbers(l.acked, Below(l.staged, bound));
    } else {
      var k :| 0 <= k <= |Below(l.staged, bound)| && now == PromotedRows(l, bound, k);
      AppendNewNumbers(l.acked, Below(l.staged, bound)[..k]);
    }
  }

  lemma {:induction false} SplitAtBound(ops: seq<StagedOp>, bound: nat, s: StagedOp)
    ensures s in ops <==> s in Below(ops, bound) || s in Retained(ops, bound)
    ensures s in Below(ops, bound) ==> s.op.seqno < bound
    ensures s in Retained(ops, bound) ==> s.op.seqno >= bound
  {
    if ops != [] {
      SplitAtBound(ops[..|ops| - 1], bound, s);
      assert ops == ops[..|ops| - 1] + [ops[|ops| - 1]];
    }
  }

  /** After an ack T1 holds exactly the ops above the batch's last number, and T2 has a row for each other. */
  lemma AckMoves(l: Logs, sent: seq<Op>, s: StagedOp)
    requires sent != [] && s in l.staged
    ensures s in AfterAck(l, sent).staged <==> s.op.seqno > sent[|sent| - 1].seqno
    ensures s.op.seqno <= sent[|sent| - 1].seqno ==> HasNumber(AfterAck(l, sent).acked, s.op.seqno)
  {
    var bound := sent[|sent| - 1].seqno + 1;
    SplitAtBound(l.staged, bound, s);
    AppendNewNumbers(l.acked, Below(l.staged, bound));
    hide Below, Retained, AppendNew;
    if s.op.seqno < bound {
      var i :| 0 <= i < |Below(l.staged, bound)| && Below(l.staged, bound)[i] == s;
      assert HasNumber(Below(l.staged, bound), s.op.seqno);
    }
  }

  /** The number of every op is in T1 or T2 at every crash point. */
  lemma NoNumberLost(l: Logs, bound: nat, now: Logs, s: StagedOp)
    requires MidPromotion(l, bound, now) && s in l.staged
    ensures HasNumber(now.staged, s.op.seqno) || HasNumber(now.acked, s.op.seqno)
  {
    if now == Promote(l, bound) {
      SplitAtBound(l.staged, bound, s);
      AppendNewNumbers(l.acked, Below(l.staged, bound));
      var part := if s in Below(l.staged, bound) then Below(l.staged, bound) else Retained(l.staged, bound);
      var i :| 0 <= i < |part| && part[i] == s;
      assert HasNumber(part, s.op.seqno);
    } else {
      var i :| 0 <= i < |l.staged| && l.staged[i] == s;
      assert HasNumber(now.staged, s.op.seqno);
    }
  }

  lemma {:induction false} AppendNewMembers(log: seq<StagedOp>, batch: seq<StagedOp>, s: StagedOp)
    requires NumbersDistinct(batch) && s in batch
    ensures s in AppendNew(log, batch) <==> s in log || !HasNumber(log, s.op.seqno)
  {
    var front, last := batch[..|batch| - 1], batch[|batch| - 1];
    AppendNewNumbers(log, front);
    AppendNewFrom(log, front);
    assert batch == front + [last];
    assert !HasNumber(front, last.op.seqno);
    assert NumbersDistinct(front) by {
      forall i, j | 0 <= i < j < |front| ensures front[i].op.seqno != front[j].op.seqno {
        assert front[i] == batch[i] && front[j] == batch[j];
      }
    }
    if s in front {
      AppendNewMembers(log, front, s);
    } else {
      assert s == last;
    }
  }

  lemma {:induction false} AppendNewFrom(log: seq<StagedOp>, batch: seq<StagedOp>)
    ensures forall x :: x in AppendNew(log, batch) ==> x in log || x in batch
    ensures forall x :: x in log ==> x in AppendNew(log, batch)
  {
    if batch != [] {
      AppendNewFrom(log, batch[..|batch| - 1]);
      assert batch == batch[..|batch| - 1] + [batch[|batch| - 1]];
    }
  }

  lemma {:induction false} BelowKeepsDistinct(ops: seq<StagedOp>, bound: nat)
    requires NumbersDistinct(ops)
    ensures NumbersDistinct(Below(ops, bound))
  {
    if ops != [] {
      var front, last := ops[..|ops| - 1], ops[|ops| - 1];
      BelowKeepsDistinct(front, bound);
      forall i | 0 <= i < |Below(front, bound)| ensures Below(front, bound)[i].op.seqno != last.op.seqno {
        SplitAtBound(front, bound, Below(front, bound)[i]);
      }
    }
  }

  /** Until T1 is trimmed every op itself is still in T1; at the end every op survives exactly when
      T2 did not already hold a different row under the number of one that moved. */
  lemma NoOpLostIff(l: Logs, bound: nat)
    requires NumbersDistinct(l.staged)
    ensures forall k: nat :: k <= |Below(l.staged, bound)| ==> PromotedRows(l, bound, k).staged == l.staged
    ensures (forall s :: s in l.staged ==> s in Promote(l, bound).staged || s in Promote(l, bound).acked)
       <==> (forall s :: s in Below(l.staged, bound) ==> s in l.acked || !HasNumber(l.acked, s.op.seqno))
  {
    BelowKeepsDistinct(l.staged, bound);
    forall s | s in l.staged
      ensures s in Promote(l, bound).staged || s in Promote(l, bound).acked
        <==> (s in Below(l.staged, bound) ==> s in l.acked || !HasNumber(l.acked, s.op.seqno))
    {
      SplitAtBound(l.staged, bound, s);
      if s in Below(l.staged, bound) { AppendNewMembers(l.acked, Below(l.staged, bound), s); }
    }
    forall s | s in Below(l.staged, bound) ensures s in l.staged { SplitAtBound(l.staged, bound, s); }
  }

  lemma {:induction false} AppendNewAgain(log: seq<StagedOp>, batch: seq<StagedOp>, k: nat, m: nat)
    requires k <= |batch| && m <= |batch|
    ensures AppendNew(AppendNew(log, batch[..k]), batch[..m]) == AppendNew(log, batch[..if k < m then m else k])
    decreases m
  {
    if m > 0 {
      AppendNewAgain(log, batch, k, m - 1);
      assert batch[..m][..m - 1] == batch[..m - 1];
      if m <= k {
        AppendNewNumbers(log, batch[..k]);
        assert batch[..k][m - 1].op.seqno == batch[m - 1].op.seqno;
        assert HasNumber(batch[..k], batch[m - 1].op.seqno);
      }
    }
  }

  lemma {:induction false} RetainedAgain(ops: seq<StagedOp>, bound: nat)
    ensures Retained(Retained(ops, bound), bound) == Retained(ops, bound) && Below(Retained(ops, bound), bound) == []
  {
    if ops != [] {
      var front, last := ops[..|ops| - 1], ops[|ops| - 1];
      RetainedAgain(front, bound);
      var r := Retained(front, bound);
      assert (r + [last])[..|r|] == r;
    }
  }

  /** Running T1ToT2 again, with the same bound, from any state a crash left reaches the same logs as
      an uninterrupted run. */
  lemma RerunConverges(l: Logs, bound: nat, now: Logs)
    requires MidPromotion(l, bound, now)
    ensures Promote(now, bound) == Promote(l, bound)
  {
    var b := Below(l.staged, bound);
    if now == Promote(l, bound) {
      RetainedAgain(l.staged, bound);
    } else {
      var k :| 0 <= k <= |b| && now == PromotedRows(l, bound, k);
      AppendNewAgain(l.acked, b, k, |b|);
      assert b[..|b|] == b;
    }
  }

  // ----- enqueueing -----

  /** base.json: the next number, in memory and as last written. */
  class BaseState {
    var nextSeq: nat
    var nextBatchID: nat
    var written: nat

    constructor (next: nat, batch: nat)
      ensures nextSeq == written == next && nextBatchID == batch
    {
      nextSeq, written, nextBatchID := next, next, batch;
    }

    method WriteBase()
      modifies this`written
      ensures written == nextSeq
    {
      written := nextSeq;
    }
  }

  /** The paths of staged writes and deletes; renames carry none. */
  function PathsOf(ops: seq<StagedOp>): set<Path> { set i | 0 <= i < |ops| && ops[i].op.path != "" :: ops[i].op.path }

  /** The rows EnqueueOps adds: every op whose path was not staged before, numbered from `next`. */
  function Rows(ops: seq<Op>, existing: set<Path>, next: nat, freeze: bool): (r: seq<StagedOp>)
    ensures |r| <= |ops|
  {
    if ops == [] then []
    else
      var front, last := Rows(ops[..|ops| - 1], existing, next, freeze), ops[|ops| - 1];
      if last.path in existing then front else front + [StagedOp(last.(seqno := next + |front|), freeze)]
  }

  lemma RowsStep(ops: seq<Op>, i: nat, existing: set<Path>, next: nat, freeze: bool)
    requires i < |ops|
    ensures var r := Rows(ops[..i], existing, next, freeze);
            Rows(ops[..i + 1], existing, next, freeze) ==
              if ops[i].path in existing then r else r + [StagedOp(ops[i].(seqno := next + |r|), freeze)]
  {
    assert ops[..i + 1][..i] == ops[..i];
  }

  lemma NoRows(ops: seq<Op>, existing: set<Path>, next: nat, freeze: bool)
    ensures Rows(ops[..0], existing, next, freeze) == []
  {
  }

  /** `EnqueueOps`: every row is on disk before the next number is. */
  method EnqueueOps(staged: StagedLog, base: BaseState, ops: seq<Op>, freeze: bool)
    modifies staged, base`nextSeq, base`written
    ensures var rows := Rows(ops, PathsOf(old(staged.ops)), old(base.nextSeq), freeze);
            && staged.ops == old(staged.ops) + rows && base.nextSeq == old(base.nextSeq) + |rows|
            && base.written == if rows == [] then old(base.written) else base.nextSeq
  {
    if |ops| == 0 {
      assert staged.ops + [] == staged.ops;
      return;
    }
    var existing := PathsOf(staged.ops);
    hide PathsOf, Rows;
    ghost var was, next, rows: seq<StagedOp> := staged.ops, base.nextSeq, [];
    NoRows(ops, existing, next, freeze);
    assert was + rows == was;
    var wrote := false;
    for i := 0 to |ops|
      invariant rows == Rows(ops[..i], existing, next, freeze)
      invariant staged.ops == was + rows && base.nextSeq == next + |rows|
      invariant wrote <==> rows != []
      invariant base.written == old(base.written)
    {
      RowsStep(ops, i, existing, next, freeze);
      if ops[i].path in existing {
        continue;
      }
      var row := StagedOp(ops[i].(seqno := base.nextSeq), freeze);
      Assoc(was, rows, [row]);
      rows := rows + [row];
      base.nextSeq := base.nextSeq + 1;
      staged.Append(row);
      wrote := true;
    }
    assert ops[..|ops|] == ops;
    if !wrote {
      return;
    }
    base.WriteBase();
  }

  /** The rows are those of the ops on paths not staged before, in order, numbered from `next`. */
  ghost predicate AreRows(ops: seq<Op>, existing: set<Path>, next: nat, freeze: bool, rows: seq<StagedOp>,
                          from: seq<nat>) {
    && |from| == |rows| && (forall k, l :: 0 <= k < l < |from| ==> from[k] < from[l])
    && (forall k :: 0 <= k < |from| ==>
          from[k] < |ops| && rows[k] == StagedOp(ops[from[k]].(seqno := next + k), freeze))
    && (forall i :: 0 <= i < |ops| ==> (i in from <==> ops[i].path !in existing))
  }

  lemma RowsSnoc(ops: seq<Op>, existing: set<Path>, next: nat, freeze: bool, rows: seq<StagedOp>, from: seq<nat>,
                 op: Op)
    requires AreRows(ops, existing, next, freeze, rows, from)
    ensures op.path in existing ==> AreRows(ops + [op], existing, next, freeze, rows, from)
    ensures op.path !in existing ==>
      AreRows(ops + [op], existing, next, freeze, rows + [StagedOp(op.(seqno := next + |rows|), freeze)], from
              + [|ops|])
  {
    assert |ops| !in from;
  }

  /** Every op on a path not staged before gets a row, and no other op does. */
  lemma {:induction false} RowsAre(ops: seq<Op>, existing: set<Path>, next: nat, freeze: bool) returns (from: seq<nat>)
    ensures AreRows(ops, existing, next, freeze, Rows(ops, existing, next, freeze), from)
  {
    hide AreRows;
    if ops == [] {
      from := [];
      assert AreRows([], existing, next, freeze, [], []) by { NoRowsAre(existing, next, freeze); }
    } else {
      var front, op := ops[..|ops| - 1], ops[|ops| - 1];
      from := RowsAre(front, existing, next, freeze);
      RowsSnoc(front, existing, next, freeze, Rows(front, existing, next, freeze), from, op);
      assert ops == front + [op];
      if op.path !in existing { from := from + [|front|]; }
    }
  }

  lemma NoRowsAre(existing: set<Path>, next: nat, freeze: bool)
    ensures AreRows([], existing, next, freeze, [], [])
  {
  }

  lemma {:induction false} RowsAreConsecutive(ops: seq<Op>, existing: set<Path>, next: nat, freeze: bool)
    ensures forall k :: 0 <= k < |Rows(ops, existing, next, freeze)| ==>
      var r := Rows(ops, existing, next, freeze)[k];
      r.op.seqno == next + k && r.op.path !in existing && r.frozen == freeze &&
      exists i :: 0 <= i < |ops| && r.op == ops[i].(seqno := next + k)
  {
    if ops != [] {
      var front := ops[..|ops| - 1];
      RowsAreConsecutive(front, existing, next, freeze);
      forall i | 0 <= i < |front| ensures front[i] == ops[i] {}
      var r := Rows(front, existing, next, freeze);
      forall k | 0 <= k < |r| ensures exists i :: 0 <= i < |ops| && r[k].op == ops[i].(seqno := next + k) {
        var i :| 0 <= i < |front| && r[k].op == front[i].(seqno := next + k);
        assert ops[i] == front[i];
      }
    }
  }

  ghost predicate NumbersIncrease(ops: seq<StagedOp>) {
    forall i, j :: 0 <= i < j < |ops| ==> ops[i].op.seqno < ops[j].op.seqno
  }

  ghost predicate NumbersUnder(ops: seq<StagedOp>, next: nat) {
    forall i :: 0 <= i < |ops| ==> ops[i].op.seqno < next
  }

  /** Enqueueing keeps the staged log in sequence order, all below the next number. */
  lemma EnqueueKeepsOrder(staged: seq<StagedOp>, ops: seq<Op>, next: nat, freeze: bool)
    requires NumbersIncrease(staged) && NumbersUnder(staged, next)
    ensures var rows := Rows(ops, PathsOf(staged), next, freeze);
            NumbersIncrease(staged + rows) && NumbersUnder(staged + rows, next + |rows|)
  {
    RowsAreConsecutive(ops, PathsOf(staged), next, freeze);
  }

  /** A crash after k rows and before base.json is written leaves the next number below a row that
      carries it, unless no row was written: the number will be given out again. */
  lemma CrashReusesNumberIff(staged: seq<StagedOp>, ops: seq<Op>, next: nat, freeze: bool, k: nat)
    requires NumbersUnder(staged, next) && k <= |Rows(ops, PathsOf(staged), next, freeze)|
    ensures NumbersUnder(staged + Rows(ops, PathsOf(staged), next, freeze)[..k], next) <==> k == 0
  {
    var rows := Rows(ops, PathsOf(staged), next, freeze);
    RowsAreConsecutive(ops, PathsOf(staged), next, freeze);
    if k > 0 { assert (staged + rows[..k])[|staged|] == rows[0]; }
  }

  /** Then two different ops share the number: what EnqueueOps does next collides with the first row. */
  lemma ReusedNumberCollides(staged: seq<StagedOp>, ops: seq<Op>, next: nat, freeze: bool, k: nat, more: seq<Op>)
    requires NumbersUnder(staged, next) && 0 < k <= |Rows(ops, PathsOf(staged), next, freeze)|
    requires var crashed := staged + Rows(ops, PathsOf(staged), next, freeze)[..k];
             Rows(more, PathsOf(crashed), next, freeze) != []
    ensures var crashed := staged + Rows(ops, PathsOf(staged), next, freeze)[..k];
            !NumbersDistinct(crashed + Rows(more, PathsOf(crashed), next, freeze))
  {
    var rows := Rows(ops, PathsOf(staged), next, freeze);
    var crashed := staged + rows[..k];
    var again := Rows(more, PathsOf(crashed), next, freeze);
    RowsAreConsecutive(ops, PathsOf(staged), next, freeze);
    RowsAreConsecutive(more, PathsOf(crashed), next, freeze);
    var all := crashed + again;
    assert all[|staged|].op.seqno == next && all[|crashed|].op.seqno == next;
  }
}
