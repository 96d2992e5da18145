/** Ops, the tree they act on, and the optimistic-concurrency check. */
module Protocol {
  import opened Wrappers

  type Path = string
  type Content = string
  type Tree = map<Path, Content>
  type ClientID = string

  /** A content hash, taken to be injective. */
  datatype Hash = HashOf(content: Content)

  datatype OpType = OpWrite | OpDelete | OpRename | OpUnknown

  datatype Op = Op(seqno: nat, ty: OpType, path: Path, from: Path, to: Path,
                   data: Option<Content>, binary: bool, preHash: Option<Hash>, ts: int, author: string)

  /** An op in a client log, with its local-only flag: frozen ops are kept but never pushed. */
  datatype StagedOp = StagedOp(op: Op, frozen: bool)

  /** `ValidateOp`. */
  predicate ValidateOp(op: Op) {
    op.seqno > 0 && op.ts > 0 &&
    match op.ty
    case OpWrite => op.path != "" && op.data.Some? && op.from == "" && op.to == ""
    case OpDelete => op.path != "" && op.preHash.Some? && op.data.None? && !op.binary && op.from == "" && op.to == ""
    case OpRename => op.from != "" && op.to != "" && op.preHash.Some? && op.path == "" && op.data.None? && !op.binary
    case OpUnknown => false
  }

  /** What a well-formed op has: a number, a time and a path it is keyed by; a payload exactly if it writes; both
      names exactly if it renames, and a path otherwise; and unless it writes, the state it expects. */
  lemma ValidIff(op: Op)
    ensures ValidateOp(op) <==>
            && !op.ty.OpUnknown? && op.seqno != 0 && op.ts > 0 && PrimaryPath(op) != "" && TargetPath(op) != ""
            && (op.data.Some? <==> op.ty.OpWrite?) && (op.from == "" && op.to == "" <==> !op.ty.OpRename?)
            && (op.path == "" <==> op.ty.OpRename?)
            && (op.preHash.None? ==> op.ty.OpWrite?) && (op.binary ==> op.ty.OpWrite?)
  {
  }

  /** The bytes a write carries; a missing payload reads as empty. */
  function Payload(op: Op): Content { if op.data.Some? then op.data.value else "" }

  /** `primaryPath`: what an op is keyed by. */
  function PrimaryPath(op: Op): Path { if op.ty.OpRename? then op.from else op.path }

  /** `opTargetPath`: where an op leaves content. */
  function TargetPath(op: Op): Path { if op.ty.OpRename? then op.to else op.path }

  /** The paths an op reads or writes. */
  predicate Touches(op: Op, p: Path) {
    match op.ty
    case OpWrite => op.path == p
    case OpDelete => op.path == p
    case OpRename => op.from == p || op.to == p
    case OpUnknown => false
  }

  predicate TouchedBy(ops: seq<Op>, p: Path) {
    exists i :: 0 <= i < |ops| && Touches(ops[i], p)
  }

  /** A path's state: the hash of what is there, or nothing. */
  function Lookup(t: Tree, p: Path): Option<Hash> { if p in t then Some(HashOf(t[p])) else None }

  /** One op, applied blindly. */
  function ApplyOp(op: Op, t: Tree): Tree {
    match op.ty
    case OpWrite => t[op.path := Payload(op)]
    case OpDelete => t - {op.path}
    case OpRename => if op.from in t then (t - {op.from})[op.to := t[op.from]] else t - {op.from, op.to}
    case OpUnknown => t
  }

  function Apply(ops: seq<Op>, t: Tree): Tree {
    if ops == [] then t else ApplyOp(ops[|ops| - 1], Apply(ops[..|ops| - 1], t))
  }

  /** `preHashMatches`: nil means the path is expected to be absent. */
  predicate PreHashMatches(expected: Option<Hash>, actual: Option<Hash>) {
    if expected.None? then actual.None? else actual.Some? && expected.value == actual.value
  }

  // ----- laws -----

  lemma ApplySnoc(ops: seq<Op>, op: Op, t: Tree)
    ensures Apply(ops + [op], t) == ApplyOp(op, Apply(ops, t))
  {
    assert (ops + [op])[..|ops|] == ops;
  }

  lemma {:induction false} ApplyConcat(a: seq<Op>, b: seq<Op>, t: Tree)
    ensures Apply(a + b, t) == Apply(b, Apply(a, t))
  {
    if b == [] {
      assert a + b == a;
    } else {
      assert (a + b)[..|a + b| - 1] == a + b[..|b| - 1];
      ApplyConcat(a, b[..|b| - 1], t);
    }
  }

  lemma ApplyOne(op: Op, t: Tree)
    ensures Apply([op], t) == ApplyOp(op, t)
  {
    assert [op][..0] == [];
  }

  lemma ApplyCons(op: Op, ops: seq<Op>, t: Tree)
    ensures Apply([op] + ops, t) == Apply(ops, ApplyOp(op, t))
  {
    ApplyConcat([op], ops, t);
    ApplyOne(op, t);
  }

  /** Ops leave alone the paths they do not touch. */
  lemma {:induction false} ApplyFrame(ops: seq<Op>, t: Tree, p: Path)
    requires !TouchedBy(ops, p)
    ensures Lookup(Apply(ops, t), p) == Lookup(t, p)
  {
    if ops != [] {
      var front := ops[..|ops| - 1];
      assert !Touches(ops[|ops| - 1], p);
      forall i | 0 <= i < |front| ensures !Touches(front[i], p) { assert !Touches(ops[i], p); }
      ApplyFrame(front, t, p);
    }
  }

  lemma TouchedConcat(a: seq<Op>, b: seq<Op>, p: Path)
    ensures TouchedBy(a + b, p) <==> TouchedBy(a, p) || TouchedBy(b, p)
  {
    if TouchedBy(a, p) {
      var i :| 0 <= i < |a| && Touches(a[i], p);
      assert Touches((a + b)[i], p);
    }
    if TouchedBy(b, p) {
      var i :| 0 <= i < |b| && Touches(b[i], p);
      assert Touches((a + b)[|a| + i], p);
    }
  }

  lemma TouchedOne(op: Op, p: Path)
    ensures TouchedBy([op], p) <==> Touches(op, p)
  {
    assert [op][0] == op;
  }

  lemma SameTree(t: Tree, u: Tree)
    requires forall p :: Lookup(t, p) == Lookup(u, p)
    ensures t == u
  {
    forall p ensures (p in t <==> p in u) && (p in t ==> t[p] == u[p]) {
      assert Lookup(t, p) == Lookup(u, p);
    }
  }

  ghost predicate DisjointOps(a: seq<Op>, b: seq<Op>) {
    forall p :: !(TouchedBy(a, p) && TouchedBy(b, p))
  }

  /** What an op makes of the paths it touches depends on those paths alone. */
  lemma ApplyOpLocal(op: Op, t: Tree, u: Tree, p: Path)
    requires Touches(op, p)
    requires forall q :: Touches(op, q) ==> Lookup(t, q) == Lookup(u, q)
    ensures Lookup(ApplyOp(op, t), p) == Lookup(ApplyOp(op, u), p)
  {
    if op.ty.OpRename? {
      assert Touches(op, op.from) && Touches(op, op.to);
    }
  }

  lemma {:induction false} ApplyLocal(ops: seq<Op>, t: Tree, u: Tree, p: Path)
    requires TouchedBy(ops, p)
    requires forall q :: TouchedBy(ops, q) ==> Lookup(t, q) == Lookup(u, q)
    ensures Lookup(Apply(ops, t), p) == Lookup(Apply(ops, u), p)
  {
    var front, last := ops[..|ops| - 1], ops[|ops| - 1];
    assert ops == front + [last];
    forall q ensures TouchedBy(ops, q) <==> TouchedBy(front, q) || Touches(last, q) {
      TouchedConcat(front, [last], q);
      TouchedOne(last, q);
    }
    var t', u' := Apply(front, t), Apply(front, u);
    forall q | TouchedBy(ops, q) ensures Lookup(t', q) == Lookup(u', q) {
      if TouchedBy(front, q) {
        ApplyLocal(front, t, u, q);
      } else {
        ApplyFrame(front, t, q);
        ApplyFrame(front, u, q);
      }
    }
    if Touches(last, p) { ApplyOpLocal(last, t', u', p); }
  }

  /** Stages that share no path commute, renames included. */
  lemma StagesCommute(a: seq<Op>, b: seq<Op>, t: Tree)
    requires DisjointOps(a, b)
    ensures Apply(a, Apply(b, t)) == Apply(b, Apply(a, t))
  {
    forall p ensures Lookup(Apply(a, Apply(b, t)), p) == Lookup(Apply(b, Apply(a, t)), p) {
      OneSide(a, b, t, p);
      OneSide(b, a, t, p);
      if !TouchedBy(a, p) && !TouchedBy(b, p) {
        ApplyFrame(a, Apply(b, t), p);
        ApplyFrame(b, t, p);
        ApplyFrame(b, Apply(a, t), p);
        ApplyFrame(a, t, p);
      }
    }
    SameTree(Apply(a, Apply(b, t)), Apply(b, Apply(a, t)));
  }

  lemma OneSide(a: seq<Op>, b: seq<Op>, t: Tree, p: Path)
    requires DisjointOps(a, b)
    ensures TouchedBy(a, p) ==> Lookup(Apply(a, Apply(b, t)), p) == Lookup(Apply(b, Apply(a, t)), p)
  {
    if TouchedBy(a, p) {
      forall q | TouchedBy(a, q) ensures Lookup(Apply(b, t), q) == Lookup(t, q) { ApplyFrame(b, t, q); }
      ApplyLocal(a, Apply(b, t), t, p);
      ApplyFrame(b, Apply(a, t), p);
    }
  }
}
