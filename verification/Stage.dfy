/** One client's ops between receipt and commit. */
module Stages {
  import opened Wrappers
  import opened Protocol

  /** Bytes held by the writes of a stage. */
  function WriteBytes(ops: seq<Op>): nat {
    if ops == [] then 0
    else WriteBytes(ops[..|ops| - 1]) + OpBytes(ops[|ops| - 1])
  }

  function OpBytes(op: Op): nat { if op.ty.OpWrite? then |Payload(op)| else 0 }

  /** The effective state of a path: HEAD overlaid by the staged ops. */
  function Overlay(ops: seq<Op>, head: Tree, p: Path): Option<Hash> { Lookup(Apply(ops, head), p) }

  /** The sources of renames that no earlier op touched: what the overlay has to ask HEAD for. */
  ghost predicate NeedsHead(ops: seq<Op>, p: Path) {
    exists i :: 0 <= i < |ops| && ops[i].ty.OpRename? && ops[i].from == p && !TouchedBy(ops[..i], p)
  }

  ghost predicate NoRepeats(s: seq<Path>) {
    forall i, j :: 0 <= i < j < |s| ==> s[i] != s[j]
  }

  /** `state`: exactly the touched paths, each at its value after the ops so far. */
  ghost predicate Tracks(state: map<Path, Option<Hash>>, ops: seq<Op>, head: Tree) {
    && (forall p :: p in state <==> TouchedBy(ops, p))
    && (forall p :: p in state ==> state[p] == Overlay(ops, head, p))
  }

  ghost predicate AskedFor(asked: seq<Path>, ops: seq<Op>) {
    NoRepeats(asked) && forall p :: p in asked <==> NeedsHead(ops, p)
  }

  lemma NeedsHeadSnoc(ops: seq<Op>, op: Op, p: Path)
    ensures NeedsHead(ops + [op], p) <==> NeedsHead(ops, p) || (op.ty.OpRename? && op.from == p && !TouchedBy(ops, p))
    ensures TouchedBy(ops + [op], p) <==> TouchedBy(ops, p) || Touches(op, p)
  {
    var all := ops + [op];
    TouchedConcat(ops, [op], p);
    TouchedOne(op, p);
    assert all[..|ops|] == ops;
    if NeedsHead(ops, p) {
      var i :| 0 <= i < |ops| && ops[i].ty.OpRename? && ops[i].from == p && !TouchedBy(ops[..i], p);
      assert all[..i] == ops[..i] && all[i] == ops[i];
    }
    if NeedsHead(all, p) {
      var i :| 0 <= i < |all| && all[i].ty.OpRename? && all[i].from == p && !TouchedBy(all[..i], p);
      if i < |ops| { assert all[..i] == ops[..i] && all[i] == ops[i]; }
    }
    if op.ty.OpRename? && op.from == p && !TouchedBy(ops, p) { assert all[|ops|] == op; }
  }

  lemma NeedsHeadIsTouched(ops: seq<Op>, p: Path)
    requires NeedsHead(ops, p)
    ensures TouchedBy(ops, p)
  {
    var i :| 0 <= i < |ops| && ops[i].ty.OpRename? && ops[i].from == p && !TouchedBy(ops[..i], p);
    assert Touches(ops[i], p);
  }

  /** How one op moves the tracked states. */
  function StepState(state: map<Path, Option<Hash>>, op: Op, head: Tree): map<Path, Option<Hash>> {
    match op.ty
    case OpWrite => state[op.path := Some(HashOf(Payload(op)))]
    case OpDelete => state[op.path := None]
    case OpRename =>
      var src := if op.from in state then state[op.from] else Lookup(head, op.from);
      state[op.from := None][op.to := src]
    case OpUnknown => state
  }

  lemma TracksStep(state: map<Path, Option<Hash>>, ops: seq<Op>, op: Op, head: Tree)
    requires Tracks(state, ops, head)
    ensures Tracks(StepState(state, op, head), ops + [op], head)
    ensures op.from in state <==> TouchedBy(ops, op.from)
  {
    ApplySnoc(ops, op, head);
    var t := Apply(ops, head);
    if op.ty.OpRename? && op.from !in state { ApplyFrame(ops, head, op.from); }
    forall p
      ensures p in StepState(state, op, head) <==> TouchedBy(ops + [op], p)
      ensures p in StepState(state, op, head) ==> StepState(state, op, head)[p] == Lookup(ApplyOp(op, t), p)
    {
      NeedsHeadSnoc(ops, op, p);
      if !Touches(op, p) {
        TouchedOne(op, p);
        ApplyOne(op, t);
        ApplyFrame([op], t, p);
      }
    }
  }

  lemma AskedStep(asked: seq<Path>, ops: seq<Op>, op: Op)
    requires AskedFor(asked, ops)
    ensures AskedFor(if op.ty.OpRename? && !TouchedBy(ops, op.from) then asked + [op.from] else asked, ops + [op])
  {
    var a := if op.ty.OpRename? && !TouchedBy(ops, op.from) then asked + [op.from] else asked;
    forall p ensures p in a <==> NeedsHead(ops + [op], p) { NeedsHeadSnoc(ops, op, p); }
    if op.from in asked { NeedsHeadIsTouched(ops, op.from); }
  }

  lemma NothingTracked(head: Tree)
    ensures Tracks(map[], [], head) && AskedFor([], [])
  {
  }

  lemma Resolved(state: map<Path, Option<Hash>>, asked: seq<Path>, ops: seq<Op>, head: Tree, path: Path)
    requires Tracks(state, ops, head) && AskedFor(asked, ops)
    ensures path in state <==> TouchedBy(ops, path)
    ensures path in state ==> state[path] == Overlay(ops, head, path)
    ensures NoRepeats(asked) && forall p :: p in asked <==> NeedsHead(ops, p)
    ensures path in asked ==> path in state
  {
    if path in asked { NeedsHeadIsTouched(ops, path); }
  }

  class Stage {
    const clientID: ClientID
    var keyname: string
    var base: string
    var ops: seq<Op>
    var bytes: nat
    var started: Option<int>
    var lastAppend: Option<int>

    ghost predicate Valid() reads this {
      && bytes == WriteBytes(ops)
      && (started.None? <==> ops == []) && (lastAppend.None? <==> ops == [])
    }

    constructor (clientID: ClientID, keyname: string, base: string)
      ensures Valid() && ops == [] && this.clientID == clientID && this.keyname == keyname && this.base == base
    {
      this.clientID, this.keyname, this.base := clientID, keyname, base;
      ops, bytes, started, lastAppend := [], 0, None, None;
    }

    method Append(op: Op, now: int)
      requires Valid()
      modifies this`ops, this`bytes, this`started, this`lastAppend
      ensures Valid() && ops == old(ops) + [op] && lastAppend == Some(now)
      ensures started == if old(ops) == [] then Some(now) else old(started)
      ensures bytes == old(bytes) + OpBytes(op)
    {
      ops := ops + [op];
      assert ops[..|ops| - 1] == old(ops);
      if op.ty.OpWrite? {
        bytes := bytes + |Payload(op)|;
      }
      if started.None? {
        started := Some(now);
      }
      lastAppend := Some(now);
    }

    method Reset(newBase: string)
      requires Valid()
      modifies this`ops, this`bytes, this`started, this`lastAppend, this`base
      ensures Valid() && ops == [] && bytes == 0 && base == newBase
    {
      ops := [];
      bytes := 0;
      started, lastAppend := None, None;
      base := newBase;
    }

    /** The path's state at HEAD overlaid by the stage, found in one pass that asks HEAD lazily:
        once for each rename source no earlier op touched, and for the path itself if no op did. */
    method PathHash(path: Path, head: Tree) returns (r: Option<Hash>, asked: seq<Path>)
      ensures r == Overlay(ops, head, path)
      ensures NoRepeats(asked)
      ensures forall p :: p in asked <==> NeedsHead(ops, p) || (p == path && !TouchedBy(ops, p))
    {
      hide Tracks, AskedFor, TouchedBy, Apply;
      var state: map<Path, Option<Hash>> := map[];
      asked := [];
      NothingTracked(head);
      for i := 0 to |ops|
        invariant Tracks(state, ops[..i], head)
        invariant AskedFor(asked, ops[..i])
      {
        var op := ops[i];
        ghost var was := state;
        assert ops[..i + 1] == ops[..i] + [op];
        TracksStep(state, ops[..i], op, head);
        AskedStep(asked, ops[..i], op);
        match op.ty {
          case OpWrite => state := state[op.path := Some(HashOf(Payload(op)))];
          case OpDelete => state := state[op.path := None];
          case OpRename =>
            if op.from !in state {
              state := state[op.from := Lookup(head, op.from)];
              asked := asked + [op.from];
            }
            var src := state[op.from];
            state := state[op.from := None];
            state := state[op.to := if src.Some? then src else None];
            assert state == StepState(was, op, head);
          case OpUnknown =>
        }
      }
      assert ops[..|ops|] == ops;
      Resolved(state, asked, ops, head, path);
      if path in state {
        return state[path], asked;
      }
      if !TouchedBy(ops, path) { ApplyFrame(ops, head, path); }
      r, asked := Lookup(head, path), asked + [path];
    }

    method TouchesPath(path: Path) returns (r: bool)
      ensures r <==> TouchedBy(ops, path)
    {
      for i := 0 to |ops|
        invariant forall k :: 0 <= k < i ==> !Touches(ops[k], path)
      {
        if Touches(ops[i], path) {
          return true;
        }
      }
      return false;
    }
  }
}
