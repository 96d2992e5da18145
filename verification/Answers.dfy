/** What the server answers: every outcome of a push, on its input, and what is queued for whom. */
module Answers {
  import opened Wrappers
  import opened Protocol
  import opened IdemCaches
  import opened Vaults
  import opened Faithfulness
  import opened VaultLaws
  import opened Recovery

  // ----- the screen -----

  /** The i-th op is the first that is malformed or refused. */
  ghost predicate FirstBad(ops: seq<Op>, gate: Gate, i: int) {
    && 0 <= i < |ops| && (!ValidateOp(ops[i]) || gate.verdict(ops[i]) == Refuse)
    && forall j :: 0 <= j < i ==> ValidateOp(ops[j]) && gate.verdict(ops[j]) != Refuse
  }

  ghost predicate FirstBadIsMalformed(ops: seq<Op>, gate: Gate) {
    exists i :: FirstBad(ops, gate, i) && !ValidateOp(ops[i])
  }

  ghost predicate FirstBadIsRefused(ops: seq<Op>, gate: Gate) {
    exists i :: FirstBad(ops, gate, i) && ValidateOp(ops[i])
  }

  ghost predicate NoneBad(ops: seq<Op>, gate: Gate) {
    forall i :: 0 <= i < |ops| ==> ValidateOp(ops[i]) && gate.verdict(ops[i]) != Refuse
  }

  /** The filtered paths in batch order. */
  function FilteredPaths(ops: seq<Op>, gate: Gate): seq<Path> {
    if ops == [] then []
    else (match gate.verdict(ops[0]) case Filter(p) => [p] case _ => []) + FilteredPaths(ops[1..], gate)
  }

  lemma {:induction false} FilteredConcat(a: seq<Op>, b: seq<Op>, gate: Gate)
    ensures FilteredPaths(a + b, gate) == FilteredPaths(a, gate) + FilteredPaths(b, gate)
  {
    if a == [] {
      assert a + b == b;
    } else {
      assert (a + b)[1..] == a[1..] + b;
      FilteredConcat(a[1..], b, gate);
    }
  }

  lemma {:induction false} NothingFilteredIff(ops: seq<Op>, gate: Gate)
    ensures FilteredPaths(ops, gate) == [] <==> forall i :: 0 <= i < |ops| ==> !gate.verdict(ops[i]).Filter?
  {
    if ops != [] {
      NothingFilteredIff(ops[1..], gate);
      assert forall i :: 0 <= i < |ops| - 1 ==> ops[1..][i] == ops[i + 1];
      if forall i :: 0 <= i < |ops[1..]| ==> !gate.verdict(ops[1..][i]).Filter? {
        forall i | 0 < i < |ops| ensures !gate.verdict(ops[i]).Filter? { assert ops[1..][i - 1] == ops[i]; }
      }
    }
  }

  /** What becomes of a batch in the screen. */
  ghost predicate ScreenIs(ops: seq<Op>, gate: Gate, r: Result<seq<Path>, ErrorCode>) {
    match r
    case Ok(paths) => NoneBad(ops, gate) && paths == FilteredPaths(ops, gate)
    case Err(code) =>
      || (code == InvalidData && FirstBadIsMalformed(ops, gate))
      || (code == Denied && FirstBadIsRefused(ops, gate))
  }

  lemma {:induction false} Screens(ops: seq<Op>, gate: Gate)
    ensures ScreenIs(ops, gate, Screen(ops, gate))
  {
    if ops != [] {
      var front, last := ops[..|ops| - 1], ops[|ops| - 1];
      assert ops == front + [last] && [last][1..] == [];
      Screens(front, gate);
      FilteredConcat(front, [last], gate);
      if Screen(front, gate).Err? {
        var i :| FirstBad(front, gate, i) && (ValidateOp(front[i]) <==> Screen(front, gate).error == Denied);
        assert FirstBad(ops, gate, i) && ops[i] == front[i];
      } else {
        assert forall j :: 0 <= j < |front| ==> ops[j] == front[j];
        if !ValidateOp(last) || gate.verdict(last) == Refuse { assert FirstBad(ops, gate, |front|); }
      }
    }
  }

  /** No two of the three outcomes hold at once. */
  lemma OneOutcome(ops: seq<Op>, gate: Gate)
    ensures !(FirstBadIsMalformed(ops, gate) && FirstBadIsRefused(ops, gate))
    ensures NoneBad(ops, gate) ==> !FirstBadIsMalformed(ops, gate) && !FirstBadIsRefused(ops, gate)
  {
    forall i, j | FirstBad(ops, gate, i) && FirstBad(ops, gate, j) ensures i == j {}
  }

  // ----- overlap and pre-hashes -----

  /** No path of the ops is touched by another client's stage. */
  ghost predicate Clear(v: Vault, c: ClientID, ops: seq<Op>) {
    forall d :: d != c ==> DisjointOps(StageOf(v, d), ops)
  }

  lemma OverlapIff(v: Vault, c: ClientID, ops: seq<Op>)
    requires AllValid(ops)
    ensures OverlapsOther(v, c, ops) <==> !Clear(v, c, ops)
  {
    if OverlapsOther(v, c, ops) {
      var d :| d in v.stages && d != c && OverlapsStage(v.stages[d], ops);
      OverlapIsShared(v.stages[d], ops);
      assert !DisjointOps(StageOf(v, d), ops);
    } else {
      forall d | d != c ensures DisjointOps(StageOf(v, d), ops) {
        if d in v.stages { NoOverlapIsDisjoint(v.stages[d], ops); }
      }
    }
  }

  lemma OverlapIsShared(stage: seq<Op>, ops: seq<Op>)
    requires AllValid(ops) && OverlapsStage(stage, ops)
    ensures !DisjointOps(stage, ops)
  {
    var i :| 0 <= i < |ops|
          && (TouchedBy(stage, PrimaryPath(ops[i])) || (ops[i].ty.OpRename? && TouchedBy(stage, ops[i].to)));
    PrimaryIsTouched(ops[i]);
    var p := if TouchedBy(stage, PrimaryPath(ops[i])) then PrimaryPath(ops[i]) else ops[i].to;
    assert Touches(ops[i], p) && TouchedBy(ops, p);
  }

  // ----- the answer -----

  /** New ops in order, all well-formed and admitted, within the cap. */
  ghost predicate Admissible(ops: seq<Op>, gate: Gate) {
    && ops != [] && Increasing(ops) && NoneBad(ops, gate) && FilteredPaths(ops, gate) == [] && !gate.full(ops)
  }

  ghost predicate Fits(v: Vault, c: ClientID, ops: seq<Op>) {
    Clear(v, c, ops) && CheckedAgainst(ops, Apply(StageOf(v, c), v.head))
  }

  /** Each answer, exactly when it is given: malformed, refused or out of order, filtered, over the cap, stale
      because another client's stage is in the way or a pre-hash does not match, stuck, or taken. */
  lemma AnswersIff(v: Vault, c: ClientID, batch: seq<Op>, gate: Gate)
    ensures var ops, answer := Unseen(batch, HighestOf(v.idem, c)), Verdicts(v, c, batch, gate);
            && (answer == Failed(InvalidData) <==> !Increasing(ops) || FirstBadIsMalformed(ops, gate))
            && (answer == Failed(Denied) <==> Increasing(ops) && FirstBadIsRefused(ops, gate))
            && (forall ps :: answer == AckFiltered(ps) <==>
                  && Increasing(ops) && NoneBad(ops, gate) && ps == FilteredPaths(ops, gate) && ps != [])
            && (answer == Failed(VaultFull) <==>
                && ops != [] && Increasing(ops) && NoneBad(ops, gate) && FilteredPaths(ops, gate) == []
                  && gate.full(ops))
            && (answer == AckStale <==> Admissible(ops, gate) && !Fits(v, c, ops))
            && (answer == Failed(StuckFile) <==> Admissible(ops, gate) && Fits(v, c, ops) && AnyStuck(ops, gate))
            && (answer == AckOk <==> ops == [] || (Admissible(ops, gate) && Fits(v, c, ops) && !AnyStuck(ops, gate)))
  {
    var ops := Unseen(batch, HighestOf(v.idem, c));
    Screens(ops, gate);
    OneOutcome(ops, gate);
    assert NoneBad(ops, gate) ==> AllValid(ops);
    if AllValid(ops) { OverlapIff(v, c, ops); }
    PreHashesAreChecks(v, c, ops);
    NothingBad([], gate);
    hide Screen, OverlapsOther, PreHashesHold, AnyStuck, FirstBadIsMalformed, FirstBadIsRefused, NoneBad, Increasing;
    hide FilteredPaths, Clear, CheckedAgainst, SeenPrefix, AllValid, Apply, HighestOf;
    if ops == [] { EmptyIncreases(); }
  }

  lemma NothingBad(ops: seq<Op>, gate: Gate)
    requires ops == []
    ensures FilteredPaths(ops, gate) == [] && !FirstBadIsMalformed(ops, gate) && !FirstBadIsRefused(ops, gate)
  {
  }

  lemma EmptyIncreases()
    ensures Increasing([])
  {
  }

  // ----- what is queued -----

  /** A push answers its sender, behind whatever is queued already, and sends nobody else anything. */
  lemma PushAnswers(v: Vault, c: ClientID, keyname: string, batch: seq<Op>, gate: Gate)
    ensures var q := PushStep(v, c, keyname, batch, gate).queues;
            && q.Keys == v.queues.Keys
            && forall d :: d in q ==>
                 q[d] == if d == c then v.queues[d] + [MsgAck(Verdicts(v, c, batch, gate))] else v.queues[d]
  {
    hide Verdicts, OpensStage, Admitted;
  }

  /** A connected client's flush is acked, behind whatever is queued already; everybody else is sent what was
      committed, if anything was. */
  lemma FlushAnswers(v: Vault, c: ClientID)
    ensures var q := FlushStep(v, c).queues;
            && q.Keys == v.queues.Keys && (c in q ==> q[c] == v.queues[c] + [MsgFlushAck])
            && forall d :: d in q && d != c ==>
                 q[d] == v.queues[d] + (if StageOf(v, c) == [] then [] else [MsgBroadcast(StageOf(v, c))])
  {
  }

  /** What is staged is what was sent: only the author is not the sender's to choose. */
  lemma AdmittedAreSent(v: Vault, c: ClientID, keyname: string, batch: seq<Op>, gate: Gate, i: nat)
    requires i < |Admitted(v, c, keyname, batch, gate)|
    ensures var ops, sent := Admitted(v, c, keyname, batch, gate), Unseen(batch, HighestOf(v.idem, c));
            && |ops| == |sent| && ops[i].author == keyname
            && ops[i].(author := sent[i].author) == sent[i]
  {
    AdmittedIff(v, c, keyname, batch, gate);
  }
}
