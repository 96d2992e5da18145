/** What the target of a rename holds: nobody checks it, so a rename can destroy what its client never saw. */
module Targets {
  import opened Wrappers
  import opened Protocol
  import opened Faithfulness
  import opened Vaults
  import opened VaultLaws
  import opened Runs
  import Rebasing

  /** Applied to t, the i-th op is a rename that puts its file over content that is neither what it brings nor
      what its client had there, when it staged the ops on the tree `seen`. */
  ghost predicate Destroys(ops: seq<Op>, i: int, t: Tree, seen: Tree)
    requires 0 <= i < |ops|
  {
    var op, u := ops[i], Apply(ops[..i], t);
    && op.ty.OpRename? && op.from in u && op.to in u
    && Lookup(u, op.to) != Lookup(u, op.from)
    && Lookup(u, op.to) != Lookup(Apply(ops[..i], seen), op.to)
  }

  /** What lies at the target comes from a path of t that holds something else than the client's tree, and
      something else than the rename declares to move. */
  ghost predicate LandsOnUnseen(ops: seq<Op>, i: int, t: Tree, seen: Tree)
    requires 0 <= i < |ops|
  {
    match SourceOf(ops[..i], ops[i].to)
    case Given(_) => false
    case Head(q) => q in t && Lookup(t, q) != Lookup(seen, q) && Lookup(t, q) != ops[i].preHash
  }

  /** A rename that finds what it declares destroys unseen content exactly under that condition. */
  lemma DestroysIff(ops: seq<Op>, i: int, t: Tree, seen: Tree)
    requires 0 <= i < |ops| && ValidateOp(ops[i]) && ops[i].ty.OpRename? && Meets(ops, t, i)
    ensures Destroys(ops, i, t, seen) <==> LandsOnUnseen(ops, i, t, seen)
  {
    SourceIs(ops[..i], t, ops[i].to);
    SourceIs(ops[..i], seen, ops[i].to);
    var u := Apply(ops[..i], t);
    assert ops[i].to in u <==> Lookup(u, ops[i].to).Some?;
    assert ops[i].from in u <==> Lookup(u, ops[i].from).Some?;
    hide Apply, SourceOf;
  }

  // ----- from the push to the commit -----

  ghost predicate SameUnder(ops: seq<Op>, t: Tree, u: Tree) {
    forall q :: TouchedBy(ops, q) ==> Lookup(t, q) == Lookup(u, q)
  }

  lemma PrefixSame(ops: seq<Op>, i: int, t: Tree, u: Tree, p: Path)
    requires 0 <= i <= |ops| && SameUnder(ops, t, u) && TouchedBy(ops, p)
    ensures Lookup(Apply(ops[..i], t), p) == Lookup(Apply(ops[..i], u), p)
  {
    forall q | TouchedBy(ops[..i], q) ensures Lookup(t, q) == Lookup(u, q) { PrefixTouches(ops, i, q); }
    if TouchedBy(ops[..i], p) {
      ApplyLocal(ops[..i], t, u, p);
    } else {
      ApplyFrame(ops[..i], t, p);
      ApplyFrame(ops[..i], u, p);
    }
  }

  /** It depends on the paths the ops touch alone. */
  lemma DestroysLocal(ops: seq<Op>, i: int, t: Tree, u: Tree, seen: Tree)
    requires 0 <= i < |ops| && SameUnder(ops, t, u)
    ensures Destroys(ops, i, t, seen) <==> Destroys(ops, i, u, seen)
  {
    var op := ops[i];
    if op.ty.OpRename? {
      assert Touches(op, op.from) && Touches(op, op.to);
      PrefixSame(ops, i, t, u, op.from);
      PrefixSame(ops, i, t, u, op.to);
      hide Apply, SameUnder;
      assert op.from in Apply(ops[..i], t) <==> Lookup(Apply(ops[..i], t), op.from).Some?;
      assert op.from in Apply(ops[..i], u) <==> Lookup(Apply(ops[..i], u), op.from).Some?;
      assert op.to in Apply(ops[..i], t) <==> Lookup(Apply(ops[..i], t), op.to).Some?;
      assert op.to in Apply(ops[..i], u) <==> Lookup(Apply(ops[..i], u), op.to).Some?;
    }
  }

  /** The stage c has been sent grows at its end, and HEAD stays as it was on the stage's paths. */
  ghost predicate Waiting(v: Vault, w: Vault, c: ClientID) {
    var s, more := StageOf(v, c), StageOf(w, c);
    |s| <= |more| && more[..|s|] == s && SameUnder(s, v.head, w.head)
  }

  /** The step is a push, a commit of others, or a connection that comes or goes. */
  predicate Spares(e: Event, c: ClientID) {
    match e
    case Pushed(_, _, _, _) => true
    case Flushed(d) => d != c
    case Swept(order) => c !in order
    case Connected(_) => true
    case Left(_) => true
    case _ => false
  }

  lemma SweptWaiting(v: Vault, c: ClientID, order: seq<ClientID>)
    requires Apart(v) && c !in order
    ensures Waiting(v, CommitAll(v, order), c)
  {
    CommitAllStages(v, order, c);
    hide CommitAll, Apart;
    forall q | TouchedBy(StageOf(v, c), q) ensures Lookup(v.head, q) == Lookup(CommitAll(v, order).head, q) {
      CommitAllElsewhere(v, order, c, q);
    }
  }

  lemma FlushedWaiting(v: Vault, c: ClientID, d: ClientID)
    requires Apart(v) && c != d
    ensures Waiting(v, FlushStep(v, d), c)
  {
    SweptWaiting(v, c, [d]);
    assert [d][..0] == [];
    assert CommitAll(v, [d]) == CommitStep(v, d);
    SameUpToQueues(CommitStep(v, d), FlushStep(v, d).queues, c);
  }

  lemma PushedWaiting(v: Vault, c: ClientID, d: ClientID, keyname: string, batch: seq<Op>, gate: Gate)
    ensures Waiting(v, PushStep(v, d, keyname, batch, gate), c)
  {
    PushStages(v, d, keyname, batch, gate);
    hide PushStep, Admitted;
  }

  lemma StepWaits(v: Vault, e: Event, c: ClientID)
    requires Inv(v) && Spares(e, c)
    ensures Waiting(v, Step(v, e), c)
  {
    hide PushStep, FlushStep, CommitAll, Waiting;
    match e {
      case Pushed(d, keyname, batch, gate) => PushedWaiting(v, c, d, keyname, batch, gate);
      case Flushed(d) => FlushedWaiting(v, c, d);
      case Swept(order) => SweptWaiting(v, c, order);
      case Connected(d) => QueuesDoNotMatter(v, Step(v, e)); SameWaiting(v, Step(v, e), c);
      case Left(d) => QueuesDoNotMatter(v, Step(v, e)); SameWaiting(v, Step(v, e), c);
    }
  }

  lemma SameWaiting(v: Vault, w: Vault, c: ClientID)
    requires v.head == w.head && StageOf(v, c) == StageOf(w, c)
    ensures Waiting(v, w, c)
  {
  }

  lemma WaitingOn(u: Vault, v: Vault, w: Vault, c: ClientID)
    requires Waiting(u, v, c) && Waiting(v, w, c)
    ensures Waiting(u, w, c)
  {
    var s, m, l := StageOf(u, c), StageOf(v, c), StageOf(w, c);
    assert l[..|s|] == l[..|m|][..|s|];
    forall q | TouchedBy(s, q) ensures Lookup(u.head, q) == Lookup(w.head, q) { PrefixTouches(m, |s|, q); }
  }

  lemma {:induction false} RunWaits(head: Tree, run: seq<Event>, j: nat, c: ClientID)
    requires j <= |run| && forall k :: j <= k < |run| ==> Spares(run[k], c)
    ensures Waiting(After(head, run[..j]), After(head, run), c)
    decreases |run|
  {
    hide Waiting, Spares, Step, Inv;
    if j == |run| {
      assert run[..j] == run;
      SameWaiting(After(head, run), After(head, run), c);
    } else {
      var front := run[..|run| - 1];
      assert front[..j] == run[..j];
      RunWaits(head, front, j, c);
      StagesStayApart(head, front);
      StepWaits(After(head, front), run[|run| - 1], c);
      WaitingOn(After(head, run[..j]), After(head, front), After(head, run), c);
    }
  }

  /** Nothing between the push of a rename and the commit of its stage decides any more: over every run in
      which c's stage waits, its commit would destroy unseen content exactly if, when the rename
      was staged, HEAD already held something the client had not seen where the rename lands. */
  lemma RenameFateIff(head: Tree, run: seq<Event>, j: nat, c: ClientID, i: nat, seen: Tree)
    requires j <= |run| && forall k :: j <= k < |run| ==> Spares(run[k], c)
    requires var v := After(head, run[..j]);
             && i < |StageOf(v, c)| && StageOf(v, c)[i].ty.OpRename? && ValidateOp(StageOf(v, c)[i])
             && Faithful(StageOf(v, c), v.head)
    ensures var v, w := After(head, run[..j]), After(head, run);
            && i < |StageOf(w, c)| && StageOf(w, c)[i] == StageOf(v, c)[i]
            && (Destroys(StageOf(w, c), i, w.head, seen) <==> LandsOnUnseen(StageOf(v, c), i, v.head, seen))
  {
    var v, w := After(head, run[..j]), After(head, run);
    RunWaits(head, run, j, c);
    hide After, Spares, Destroys, LandsOnUnseen, StageOf;
    var s, more := StageOf(v, c), StageOf(w, c);
    assert s[i] == more[..|s|][i];
    assert Meets(s, v.head, i);
    DestroysIff(s, i, v.head, seen);
    DestroysLocal(s, i, v.head, w.head, seen);
    DestroysPrefix(s, more, i, w.head, seen);
  }

  lemma DestroysPrefix(s: seq<Op>, more: seq<Op>, i: int, t: Tree, seen: Tree)
    requires 0 <= i < |s| <= |more| && more[..|s|] == s
    ensures Destroys(more, i, t, seen) <==> Destroys(s, i, t, seen)
  {
    assert more[..i] == more[..|s|][..i] && more[i] == more[..|s|][i];
  }

  // ----- the client's side -----

  /** A staged rename is looked up by its source, so an incoming write of its target does not meet it. After
      the catchup the rename is still staged, unchanged, and still matches the server; pushed and
      committed there it destroys the incoming text, unless that is what was there or what it brings. */
  lemma IncomingTargetIff(l: Rebasing.Local, ops: seq<Op>, staged: seq<StagedOp>, t: Tree, env: Rebasing.Env,
                          j: int, k: int)
    requires Rebasing.CleanCatchup(ops, t, env) && 0 <= j < |ops| && ops[j].ty.OpWrite?
    requires 0 <= k < |staged| && ValidateOp(staged[k].op) && staged[k].op.ty.OpRename?
    requires staged[k].op.to == ops[j].path && staged[k].op.preHash == Lookup(t, staged[k].op.from)
    requires forall i :: 0 <= i < |ops| ==> ops[i].path != staged[k].op.from
    ensures var s, u := staged[k].op, Apply(ops, t);
            && staged[k] in Rebasing.Rebased(l, ops, staged, env)
            && s.preHash == Lookup(u, s.from)
            && var incoming := Some(HashOf(Payload(ops[j])));
               (Destroys([s], 0, u, t) <==> incoming != Lookup(t, s.to) && incoming != s.preHash)
  {
    var s, u := staged[k].op, Apply(ops, t);
    Rebasing.StaysStaged(l, ops, staged, t, env, k);
    Rebasing.SkipsOp(ops, t, s.from);
    LastDecides(ops, t, j);
    assert [s][..0] == [];
    assert s.from in u <==> Lookup(u, s.from).Some?;
    hide Rebasing.CleanCatchup, Rebasing.Rebased;
  }
}
