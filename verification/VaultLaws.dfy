/** What every step of the vault keeps, over any run. */
module VaultLaws {
  import opened Wrappers
  import opened Protocol
  import opened Wal
  import opened IdemCaches
  import opened Vaults
  import opened Faithfulness

  // ----- the invariant -----

  /** No path is touched by two clients' stages. */
  ghost predicate Apart(v: Vault) {
    forall c, d :: c != d ==> DisjointOps(StageOf(v, c), StageOf(v, d))
  }

  /** The log holds every client's stage, and only well-formed ops. */
  ghost predicate LogHolds(v: Vault) {
    && (forall c :: OpsOf(v.log, c) == StageOf(v, c))
    && (forall i :: 0 <= i < |v.log| ==> ValidateOp(v.log[i].op))
  }

  /** Every stage, committed now, would meet every pre-hash it declares. */
  ghost predicate AllFaithful(v: Vault) {
    forall c :: AllValid(StageOf(v, c)) && Faithful(StageOf(v, c), v.head)
  }

  ghost predicate Inv(v: Vault) { Apart(v) && LogHolds(v) }

  // ----- batches -----

  lemma StampKeepsValid(ops: seq<Op>, keyname: string)
    ensures AllValid(ops) ==> AllValid(StampAll(ops, keyname))
    ensures Increasing(ops) ==> Increasing(StampAll(ops, keyname))
  {
    forall i | 0 <= i < |ops| ensures ValidateOp(ops[i]) ==> ValidateOp(StampAll(ops, keyname)[i]) {}
  }

  lemma StampKeepsTouched(ops: seq<Op>, keyname: string, p: Path)
    ensures TouchedBy(StampAll(ops, keyname), p) <==> TouchedBy(ops, p)
  {
    forall i | 0 <= i < |ops| ensures Touches(StampAll(ops, keyname)[i], p) <==> Touches(ops[i], p) {}
    if TouchedBy(ops, p) {
      var i :| 0 <= i < |ops| && Touches(ops[i], p);
      assert Touches(StampAll(ops, keyname)[i], p);
    }
  }

  lemma {:induction false} ScreenedIsValid(ops: seq<Op>, gate: Gate)
    requires Screen(ops, gate).Ok?
    ensures AllValid(ops)
  {
    if ops != [] { ScreenedIsValid(ops[..|ops| - 1], gate); }
  }

  lemma StampKeepsEffect(ops: seq<Op>, keyname: string, t: Tree)
    ensures Apply(StampAll(ops, keyname), t) == Apply(ops, t)
  {
    if ops != [] {
      assert StampAll(ops, keyname)[..|ops| - 1] == StampAll(ops[..|ops| - 1], keyname);
      StampKeepsEffect(ops[..|ops| - 1], keyname, t);
    }
  }

  lemma StampKeepsChecks(ops: seq<Op>, keyname: string, t: Tree)
    ensures CheckedAgainst(ops, t) ==> CheckedAgainst(StampAll(ops, keyname), t)
    ensures Independent(ops) ==> Independent(StampAll(ops, keyname))
  {
    if Independent(ops) {
      forall i, j | 0 <= i < j < |ops|
        ensures !Touches(StampAll(ops, keyname)[i], PrimaryPath(StampAll(ops, keyname)[j]))
      {
        assert !Touches(ops[i], PrimaryPath(ops[j]));
      }
    }
  }

  /** What an accepted push is known to have passed. */
  lemma AdmittedFacts(v: Vault, c: ClientID, keyname: string, batch: seq<Op>, gate: Gate)
    requires Admitted(v, c, keyname, batch, gate) != []
    ensures var tail := batch[SeenPrefix(batch, HighestOf(v.idem, c))..];
            && Admitted(v, c, keyname, batch, gate) == StampAll(tail, keyname)
            && Increasing(tail) && AllValid(tail) && tail != [] && tail[0].seqno > HighestOf(v.idem, c)
            && !OverlapsOther(v, c, tail) && PreHashesHold(v, c, tail) && !AnyStuck(tail, gate)
  {
    var tail := batch[SeenPrefix(batch, HighestOf(v.idem, c))..];
    ScreenedIsValid(tail, gate);
  }

  lemma StageOpsFacts(v: Vault, c: ClientID, ops: seq<Op>)
    requires ops != []
    ensures var w := StageOps(v, c, ops);
            && w.head == v.head && w.idemDisk == v.idemDisk && w.log == v.log + Logged(c, ops)
            && StageOf(w, c) == StageOf(v, c) + ops
            && (forall d :: d != c ==> StageOf(w, d) == StageOf(v, d))
            && HighestOf(w.idem, c) == ops[|ops| - 1].seqno
            && (forall d :: d != c ==> HighestOf(w.idem, d) == HighestOf(v.idem, d))
  {
  }

  lemma SameUpToQueues(v: Vault, queues: map<ClientID, seq<Msg>>, c: ClientID)
    ensures StageOf(v.(queues := queues), c) == StageOf(v, c)
    ensures StageOf(v.(stages := v.stages[c := StageOf(v, c)]), c) == StageOf(v, c)
    ensures forall d :: StageOf(v.(stages := v.stages[c := StageOf(v, c)]), d) == StageOf(v, d)
  {
  }

  /** The stages after a push. */
  lemma PushStages(v: Vault, c: ClientID, keyname: string, batch: seq<Op>, gate: Gate)
    ensures var w, ops := PushStep(v, c, keyname, batch, gate), Admitted(v, c, keyname, batch, gate);
            && w.head == v.head && w.idemDisk == v.idemDisk
            && w.log == v.log + Logged(c, ops)
            && StageOf(w, c) == StageOf(v, c) + ops
            && (forall d :: d != c ==> StageOf(w, d) == StageOf(v, d))
            && HighestOf(w.idem, c) == (if ops == [] then HighestOf(v.idem, c) else ops[|ops| - 1].seqno)
            && (forall d :: d != c ==> HighestOf(w.idem, d) == HighestOf(v.idem, d))
  {
    hide Verdicts, OpensStage, Admitted, StageOps;
    var ops := Admitted(v, c, keyname, batch, gate);
    var w := if OpensStage(v, c, batch, gate) then v.(stages := v.stages[c := StageOf(v, c)]) else v;
    SameUpToQueues(v, v.queues, c);
    if ops != [] { StageOpsFacts(w, c, ops); }
    assert Logged(c, []) == [];
  }

  lemma CommitStages(v: Vault, c: ClientID)
    ensures var w := CommitStep(v, c);
            && w.head == Apply(StageOf(v, c), v.head)
            && StageOf(w, c) == [] && (forall d :: d != c ==> StageOf(w, d) == StageOf(v, d))
            && w.log == (if StageOf(v, c) == [] then v.log else Without(v.log, c))
  {
  }

  // ----- which pushes are taken -----

  /** What the screen lets through, and what it reports: every filtered path, and nothing else. */
  lemma {:induction false} ScreenIff(ops: seq<Op>, gate: Gate)
    ensures Screen(ops, gate).Ok? <==> AllValid(ops) && forall i :: 0 <= i < |ops| ==> gate.verdict(ops[i]) != Refuse
    ensures Screen(ops, gate) == Ok([])
            <==> AllValid(ops) && forall i :: 0 <= i < |ops| ==> gate.verdict(ops[i]) == Admit
    ensures Screen(ops, gate).Ok? ==> forall p ::
      p in Screen(ops, gate).value <==> exists i :: 0 <= i < |ops| && gate.verdict(ops[i]) == Filter(p)
  {
    if ops != [] {
      var front, last := ops[..|ops| - 1], ops[|ops| - 1];
      ScreenIff(front, gate);
      forall i | 0 <= i < |front| ensures front[i] == ops[i] {}
      if Screen(ops, gate).Ok? {
        forall p ensures (exists i :: 0 <= i < |ops| && gate.verdict(ops[i]) == Filter(p))
                    <==> (exists i :: 0 <= i < |front| && gate.verdict(front[i]) == Filter(p)) ||
                         gate.verdict(last) == Filter(p)
        {
          if i :| 0 <= i < |front| && gate.verdict(front[i]) == Filter(p) { assert gate.verdict(ops[i]) == Filter(p); }
          if gate.verdict(last) == Filter(p) { assert gate.verdict(ops[|ops| - 1]) == Filter(p); }
        }
      }
    }
  }

  /** Every op is well-formed, admitted by the policy gates and not stuck, within the vault cap. */
  ghost predicate Passes(ops: seq<Op>, gate: Gate) {
    && AllValid(ops) && !gate.full(ops)
    && forall i :: 0 <= i < |ops| ==> gate.verdict(ops[i]) == Admit && !gate.stuck(ops[i])
  }

  /** A batch with something new in it is acked exactly when its new ops are in sequence order, pass the
      gates, stay clear of all other stages and match the client's stage over HEAD. */
  lemma AcceptedIff(v: Vault, c: ClientID, batch: seq<Op>, gate: Gate)
    requires Fresh(v, c, batch) != Some([])
    ensures Verdicts(v, c, batch, gate) == AckOk <==>
      Fresh(v, c, batch).Some? &&
      var ops := Fresh(v, c, batch).value;
      Passes(ops, gate) && !OverlapsOther(v, c, ops) && PreHashesHold(v, c, ops)
  {
    if Fresh(v, c, batch).Some? {
      var ops := Fresh(v, c, batch).value;
      ScreenIff(ops, gate);
      hide OverlapsOther, PreHashesHold, Fresh, Screen;
    }
  }

  /** A push that is not taken changes no tree, no stage, no log and no mark; only its answer is sent. */
  lemma RejectedChangesNothing(v: Vault, c: ClientID, keyname: string, batch: seq<Op>, gate: Gate)
    requires Verdicts(v, c, batch, gate) != AckOk
    ensures var w := PushStep(v, c, keyname, batch, gate);
            && w.head == v.head && w.log == v.log && w.idem == v.idem && w.idemDisk == v.idemDisk
            && (forall d :: StageOf(w, d) == StageOf(v, d))
            && w.queues == Send(v.queues, c, MsgAck(Verdicts(v, c, batch, gate)))
  {
    hide Verdicts, OpensStage;
    assert Admitted(v, c, keyname, batch, gate) == [];
  }

  // ----- disjointness -----

  lemma NoOverlapIsDisjoint(stage: seq<Op>, ops: seq<Op>)
    requires AllValid(ops) && !OverlapsStage(stage, ops)
    ensures DisjointOps(stage, ops)
  {
    forall p ensures !(TouchedBy(stage, p) && TouchedBy(ops, p)) {
      if TouchedBy(ops, p) {
        var i :| 0 <= i < |ops| && Touches(ops[i], p);
        assert !TouchedBy(stage, PrimaryPath(ops[i])) && !(ops[i].ty.OpRename? && TouchedBy(stage, ops[i].to));
      }
    }
  }

  /** An admitted batch stays clear of every other client's stage. */
  lemma AdmittedIsClear(v: Vault, c: ClientID, keyname: string, batch: seq<Op>, gate: Gate, d: ClientID)
    requires d != c
    ensures DisjointOps(StageOf(v, d), Admitted(v, c, keyname, batch, gate))
  {
    var ops := Admitted(v, c, keyname, batch, gate);
    if ops != [] {
      AdmittedFacts(v, c, keyname, batch, gate);
      var tail := batch[SeenPrefix(batch, HighestOf(v.idem, c))..];
      if d in v.stages { NoOverlapIsDisjoint(v.stages[d], tail); }
      forall p ensures TouchedBy(ops, p) <==> TouchedBy(tail, p) { StampKeepsTouched(tail, keyname, p); }
    }
  }

  lemma DisjointConcat(a: seq<Op>, b: seq<Op>, s: seq<Op>)
    requires DisjointOps(s, a) && DisjointOps(s, b)
    ensures DisjointOps(s, a + b) && DisjointOps(a + b, s)
  {
    forall p ensures !(TouchedBy(s, p) && TouchedBy(a + b, p)) { TouchedConcat(a, b, p); }
  }

  lemma PushKeepsApart(v: Vault, c: ClientID, keyname: string, batch: seq<Op>, gate: Gate)
    requires Apart(v)
    ensures Apart(PushStep(v, c, keyname, batch, gate))
  {
    var w, ops := PushStep(v, c, keyname, batch, gate), Admitted(v, c, keyname, batch, gate);
    PushStages(v, c, keyname, batch, gate);
    hide StageOf, PushStep, Admitted;
    forall d | d != c ensures DisjointOps(StageOf(w, d), StageOf(w, c)) && DisjointOps(StageOf(w, c), StageOf(w, d)) {
      AdmittedIsClear(v, c, keyname, batch, gate, d);
      DisjointConcat(StageOf(v, c), ops, StageOf(v, d));
    }
  }

  lemma CommitKeepsApart(v: Vault, c: ClientID)
    requires Apart(v)
    ensures Apart(CommitStep(v, c))
  {
    CommitStages(v, c);
    hide StageOf, CommitStep;
  }

  // ----- the log -----

  lemma {:induction false} OpsOfConcat(a: seq<Entry>, b: seq<Entry>, c: ClientID)
    ensures OpsOf(a + b, c) == OpsOf(a, c) + OpsOf(b, c)
  {
    if b == [] {
      assert a + b == a;
    } else {
      assert (a + b)[..|a + b| - 1] == a + b[..|b| - 1];
      OpsOfConcat(a, b[..|b| - 1], c);
    }
  }

  lemma {:induction false} OpsOfLogged(c: ClientID, ops: seq<Op>, d: ClientID)
    ensures OpsOf(Logged(c, ops), d) == if c == d then ops else []
  {
    if ops != [] {
      var front := ops[..|ops| - 1];
      assert Logged(c, ops)[..|ops| - 1] == Logged(c, front);
      OpsOfLogged(c, front, d);
      assert ops == front + [ops[|ops| - 1]];
    }
  }

  lemma {:induction false} WithoutFrom(es: seq<Entry>, c: ClientID, i: int)
    requires 0 <= i < |Without(es, c)|
    ensures Without(es, c)[i] in es
  {
    var front := es[..|es| - 1];
    if i < |Without(front, c)| { WithoutFrom(front, c, i); }
  }

  lemma PushKeepsLog(v: Vault, c: ClientID, keyname: string, batch: seq<Op>, gate: Gate)
    requires LogHolds(v)
    ensures LogHolds(PushStep(v, c, keyname, batch, gate))
  {
    var w, ops := PushStep(v, c, keyname, batch, gate), Admitted(v, c, keyname, batch, gate);
    PushStages(v, c, keyname, batch, gate);
    AdmittedIsValid(v, c, keyname, batch, gate);
    hide StageOf, PushStep, Admitted;
    forall d ensures OpsOf(w.log, d) == StageOf(w, d) {
      OpsOfConcat(v.log, Logged(c, ops), d);
      OpsOfLogged(c, ops, d);
    }
  }

  lemma AdmittedIsValid(v: Vault, c: ClientID, keyname: string, batch: seq<Op>, gate: Gate)
    ensures AllValid(Admitted(v, c, keyname, batch, gate))
  {
    if Admitted(v, c, keyname, batch, gate) != [] {
      AdmittedFacts(v, c, keyname, batch, gate);
      StampKeepsValid(batch[SeenPrefix(batch, HighestOf(v.idem, c))..], keyname);
    }
  }

  lemma CommitKeepsLog(v: Vault, c: ClientID)
    requires LogHolds(v)
    ensures LogHolds(CommitStep(v, c))
  {
    var w := CommitStep(v, c);
    CommitStages(v, c);
    hide StageOf, CommitStep;
    forall d ensures OpsOf(w.log, d) == StageOf(w, d) { WithoutOps(v.log, c, d); }
    forall i | 0 <= i < |w.log| ensures ValidateOp(w.log[i].op) {
      if StageOf(v, c) != [] { WithoutFrom(v.log, c, i); }
    }
  }

  // ----- faithfulness -----

  /** Committing one stage leaves every other one faithful: this is what the overlap rule is for. */
  lemma CommitKeepsFaithful(v: Vault, c: ClientID)
    requires Apart(v) && AllFaithful(v)
    ensures AllFaithful(CommitStep(v, c))
  {
    var w := CommitStep(v, c);
    CommitStages(v, c);
    hide StageOf, CommitStep;
    forall d ensures AllValid(StageOf(w, d)) && Faithful(StageOf(w, d), w.head) {
      if d != c {
        assert DisjointOps(StageOf(v, d), StageOf(v, c));
        forall q | TouchedBy(StageOf(v, d), q) ensures Lookup(w.head, q) == Lookup(v.head, q) {
          ApplyFrame(StageOf(v, c), v.head, q);
        }
        FaithfulElsewhere(StageOf(v, d), v.head, w.head);
      }
    }
  }

  lemma PreHashesAreChecks(v: Vault, c: ClientID, ops: seq<Op>)
    ensures PreHashesHold(v, c, ops) <==> CheckedAgainst(ops, Apply(StageOf(v, c), v.head))
  {
  }

  /** After a push the client's stage is faithful exactly when the admitted ops are, on the state
      they were checked against. */
  lemma PushFaithfulIff(v: Vault, c: ClientID, keyname: string, batch: seq<Op>, gate: Gate)
    requires AllFaithful(v)
    ensures AllFaithful(PushStep(v, c, keyname, batch, gate))
       <==> Faithful(Admitted(v, c, keyname, batch, gate), Apply(StageOf(v, c), v.head))
  {
    var w, ops := PushStep(v, c, keyname, batch, gate), Admitted(v, c, keyname, batch, gate);
    PushStages(v, c, keyname, batch, gate);
    AdmittedIsValid(v, c, keyname, batch, gate);
    hide StageOf, PushStep, Admitted, Faithful;
    FaithfulConcat(StageOf(v, c), ops, v.head);
    assert AllValid(StageOf(v, c));
    if Faithful(ops, Apply(StageOf(v, c), v.head)) {
      forall d ensures AllValid(StageOf(w, d)) && Faithful(StageOf(w, d), w.head) {
        assert AllValid(StageOf(v, d)) && Faithful(StageOf(v, d), v.head);
      }
    } else {
      assert !Faithful(StageOf(w, c), w.head);
    }
  }

  lemma AdmittedIsChecked(v: Vault, c: ClientID, keyname: string, batch: seq<Op>, gate: Gate)
    ensures CheckedAgainst(Admitted(v, c, keyname, batch, gate), Apply(StageOf(v, c), v.head))
  {
    var ops := Admitted(v, c, keyname, batch, gate);
    if ops != [] {
      AdmittedFacts(v, c, keyname, batch, gate);
      var tail := batch[SeenPrefix(batch, HighestOf(v.idem, c))..];
      PreHashesAreChecks(v, c, tail);
      StampKeepsChecks(tail, keyname, Apply(StageOf(v, c), v.head));
    }
  }

  /** After a push every stage meets its pre-hashes exactly when the admitted ops foresee what their own
      earlier ones leave: renames, writes and deletes alike. */
  lemma PushCheckIff(v: Vault, c: ClientID, keyname: string, batch: seq<Op>, gate: Gate)
    requires AllFaithful(v)
    ensures AllFaithful(PushStep(v, c, keyname, batch, gate)) <==> AllForeseen(Admitted(v, c, keyname, batch, gate))
  {
    hide AllFaithful, PushStep, Admitted, CheckedAgainst, Faithful, AllForeseen;
    AdmittedIsChecked(v, c, keyname, batch, gate);
    BatchCheckIff(Admitted(v, c, keyname, batch, gate), Apply(StageOf(v, c), v.head));
    PushFaithfulIff(v, c, keyname, batch, gate);
  }

  /** A batch no op of which touches what a later one is keyed by always keeps the vault faithful. */
  lemma PushKeepsFaithful(v: Vault, c: ClientID, keyname: string, batch: seq<Op>, gate: Gate)
    requires AllFaithful(v) && Independent(batch)
    ensures AllFaithful(PushStep(v, c, keyname, batch, gate))
  {
    var ops, t := Admitted(v, c, keyname, batch, gate), Apply(StageOf(v, c), v.head);
    if ops != [] {
      AdmittedFacts(v, c, keyname, batch, gate);
      var tail := batch[SeenPrefix(batch, HighestOf(v.idem, c))..];
      assert Independent(tail);
      StampKeepsChecks(tail, keyname, t);
    }
    IndependentIsForeseen(ops);
    PushCheckIff(v, c, keyname, batch, gate);
  }

  /** For writes and deletes: exactly when only null writes are followed by another op on their path. */
  lemma PushFaithfulOnWrites(v: Vault, c: ClientID, keyname: string, batch: seq<Op>, gate: Gate)
    requires AllFaithful(v) && WritesAndDeletes(batch)
    ensures AllFaithful(PushStep(v, c, keyname, batch, gate)) <==> RepeatsAreNull(Admitted(v, c, keyname, batch, gate))
  {
    var ops, t := Admitted(v, c, keyname, batch, gate), Apply(StageOf(v, c), v.head);
    AdmittedIsChecked(v, c, keyname, batch, gate);
    AdmittedIsValid(v, c, keyname, batch, gate);
    if ops != [] { AdmittedFacts(v, c, keyname, batch, gate); }
    assert WritesAndDeletes(ops);
    WritesCheckIff(ops, t);
    PushFaithfulIff(v, c, keyname, batch, gate);
  }

  // ----- commit order -----

  lemma {:induction false} CommitAllStages(v: Vault, order: seq<ClientID>, c: ClientID)
    ensures StageOf(CommitAll(v, order), c) == if c in order then [] else StageOf(v, c)
  {
    if order != [] {
      var front, last := order[..|order| - 1], order[|order| - 1];
      CommitAllStages(v, front, c);
      CommitStages(CommitAll(v, front), last);
      assert order == front + [last];
    }
  }

  /** Where one client's stage touches a path, committing everybody gives what committing that
      client alone gives; elsewhere nothing happens. */
  lemma {:induction false} CommitAllAt(v: Vault, order: seq<ClientID>, p: Path, c: ClientID)
    requires Apart(v)
    ensures c in order && TouchedBy(StageOf(v, c), p)
            ==> Lookup(CommitAll(v, order).head, p) == Lookup(Apply(StageOf(v, c), v.head), p)
    ensures (forall d :: d in order ==> !TouchedBy(StageOf(v, d), p))
            ==> Lookup(CommitAll(v, order).head, p) == Lookup(v.head, p)
  {
    if order != [] {
      var front, last := order[..|order| - 1], order[|order| - 1];
      var w := CommitAll(v, front);
      assert order == front + [last];
      CommitAllAt(v, front, p, c);
      CommitStages(w, last);
      CommitAllStages(v, front, last);
      var s := StageOf(v, last);
      if last in front || !TouchedBy(s, p) {
        ApplyFrame(StageOf(w, last), w.head, p);
      } else if last == c {
        forall q | TouchedBy(s, q) ensures Lookup(w.head, q) == Lookup(v.head, q) {
          CommitAllElsewhere(v, front, last, q);
        }
        ApplyLocal(s, w.head, v.head, p);
      } else {
        assert DisjointOps(s, StageOf(v, c));
      }
    }
  }

  /** Committing others leaves a client's paths alone. */
  lemma {:induction false} CommitAllElsewhere(v: Vault, order: seq<ClientID>, c: ClientID, q: Path)
    requires Apart(v) && c !in order && TouchedBy(StageOf(v, c), q)
    ensures Lookup(CommitAll(v, order).head, q) == Lookup(v.head, q)
  {
    if order != [] {
      var front, last := order[..|order| - 1], order[|order| - 1];
      assert order == front + [last];
      CommitAllElsewhere(v, front, c, q);
      CommitAllStages(v, front, last);
      var w := CommitAll(v, front);
      CommitStages(w, last);
      assert DisjointOps(StageOf(v, last), StageOf(v, c));
      ApplyFrame(StageOf(w, last), w.head, q);
    }
  }

  /** Confluence: two orders over the same clients commit the same tree, renames included. */
  lemma CommitOrderIrrelevant(v: Vault, a: seq<ClientID>, b: seq<ClientID>)
    requires Apart(v) && forall c :: c in a <==> c in b
    ensures CommitAll(v, a).head == CommitAll(v, b).head
  {
    forall p ensures Lookup(CommitAll(v, a).head, p) == Lookup(CommitAll(v, b).head, p) {
      if c :| c in a && TouchedBy(StageOf(v, c), p) {
        CommitAllAt(v, a, p, c);
        CommitAllAt(v, b, p, c);
      } else {
        CommitAllAt(v, a, p, "");
        CommitAllAt(v, b, p, "");
      }
    }
    SameTree(CommitAll(v, a).head, CommitAll(v, b).head);
  }
}
