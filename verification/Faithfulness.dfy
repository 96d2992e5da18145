/** When blind application is not blind: every op meets the state its pre-hash declares. */
module Faithfulness {
  import opened Wrappers
  import opened Protocol

  ghost predicate AllValid(ops: seq<Op>) { forall i :: 0 <= i < |ops| ==> ValidateOp(ops[i]) }

  /** The i-th op finds its primary path exactly as its pre-hash says. */
  ghost predicate Meets(ops: seq<Op>, t: Tree, i: int)
    requires 0 <= i < |ops|
  {
    Lookup(Apply(ops[..i], t), PrimaryPath(ops[i])) == ops[i].preHash
  }

  ghost predicate Faithful(ops: seq<Op>, t: Tree) {
    forall i :: 0 <= i < |ops| ==> Meets(ops, t, i)
  }

  lemma PrimaryIsTouched(op: Op)
    requires ValidateOp(op)
    ensures Touches(op, PrimaryPath(op))
  {
  }

  lemma PrefixTouches(ops: seq<Op>, i: int, p: Path)
    requires 0 <= i <= |ops| && TouchedBy(ops[..i], p)
    ensures TouchedBy(ops, p)
  {
    var k :| 0 <= k < i && Touches(ops[..i][k], p);
    assert Touches(ops[k], p);
  }

  /** What happens to paths the ops do not touch is none of their business. */
  lemma FaithfulElsewhere(ops: seq<Op>, t: Tree, u: Tree)
    requires AllValid(ops) && Faithful(ops, t)
    requires forall q :: TouchedBy(ops, q) ==> Lookup(t, q) == Lookup(u, q)
    ensures Faithful(ops, u)
  {
    forall i | 0 <= i < |ops| ensures Meets(ops, u, i) {
      var front, p := ops[..i], PrimaryPath(ops[i]);
      assert Meets(ops, t, i);
      PrimaryIsTouched(ops[i]);
      forall q | TouchedBy(front, q) ensures Lookup(t, q) == Lookup(u, q) { PrefixTouches(ops, i, q); }
      if TouchedBy(front, p) {
        ApplyLocal(front, t, u, p);
      } else {
        ApplyFrame(front, t, p);
        ApplyFrame(front, u, p);
        assert TouchedBy(ops, p);
      }
    }
  }

  /** Every op of the batch finds its pre-hash in one and the same tree. */
  ghost predicate CheckedAgainst(batch: seq<Op>, t: Tree) {
    forall i :: 0 <= i < |batch| ==> Lookup(t, PrimaryPath(batch[i])) == batch[i].preHash
  }

  /** No op of the batch touches what a later one is keyed by. */
  ghost predicate Independent(batch: seq<Op>) {
    forall i, j :: 0 <= i < j < |batch| ==> !Touches(batch[i], PrimaryPath(batch[j]))
  }

  /** Behind a faithful stage, a batch is faithful exactly when it is so on the stage's own tree. */
  lemma FaithfulConcat(stage: seq<Op>, batch: seq<Op>, t: Tree)
    ensures Faithful(stage + batch, t) <==> Faithful(stage, t) && Faithful(batch, Apply(stage, t))
  {
    var all := stage + batch;
    forall i | 0 <= i < |stage| ensures Meets(all, t, i) <==> Meets(stage, t, i) {
      assert all[..i] == stage[..i];
    }
    forall i | 0 <= i < |batch| ensures Meets(all, t, |stage| + i) <==> Meets(batch, Apply(stage, t), i) {
      assert all[..|stage| + i] == stage + batch[..i];
      ApplyConcat(stage, batch[..i], t);
    }
    if Faithful(all, t) {
      forall i | 0 <= i < |batch| ensures Meets(batch, Apply(stage, t), i) { assert Meets(all, t, |stage| + i); }
      forall i | 0 <= i < |stage| ensures Meets(stage, t, i) { assert Meets(all, t, i); }
    }
    if Faithful(stage, t) && Faithful(batch, Apply(stage, t)) {
      forall i | 0 <= i < |all| ensures Meets(all, t, i) {
        if i >= |stage| { assert Meets(batch, Apply(stage, t), i - |stage|); }
      }
    }
  }

  // ----- where states come from -----

  /** Where a path's state comes from once the ops are applied: given by an op, or taken from a path of
      the tree they are applied to. */
  datatype Source = Given(state: Option<Hash>) | Head(path: Path)

  function SourceOf(ops: seq<Op>, p: Path): Source {
    if ops == [] then Head(p)
    else
      var front, op := ops[..|ops| - 1], ops[|ops| - 1];
      match op.ty
      case OpWrite => if p == op.path then Given(Some(HashOf(Payload(op)))) else SourceOf(front, p)
      case OpDelete => if p == op.path then Given(None) else SourceOf(front, p)
      case OpRename =>
        if p == op.to then SourceOf(front, op.from) else if p == op.from then Given(None) else SourceOf(front, p)
      case OpUnknown => SourceOf(front, p)
  }

  function StateFrom(src: Source, t: Tree): Option<Hash> {
    match src
    case Given(state) => state
    case Head(p) => Lookup(t, p)
  }

  lemma ApplyOpAt(op: Op, t: Tree, p: Path)
    ensures Lookup(ApplyOp(op, t), p) == match op.ty
      case OpWrite => if p == op.path then Some(HashOf(Payload(op))) else Lookup(t, p)
      case OpDelete => if p == op.path then None else Lookup(t, p)
      case OpRename => if p == op.to then Lookup(t, op.from) else if p == op.from then None else Lookup(t, p)
      case OpUnknown => Lookup(t, p)
  {
  }

  lemma {:induction false} SourceIs(ops: seq<Op>, t: Tree, p: Path)
    ensures Lookup(Apply(ops, t), p) == StateFrom(SourceOf(ops, p), t)
  {
    if ops != [] {
      var front, op := ops[..|ops| - 1], ops[|ops| - 1];
      ApplyOpAt(op, Apply(front, t), p);
      SourceIs(front, t, p);
      SourceIs(front, t, op.from);
    }
  }

  // ----- when the batch check is enough -----

  /** A state that the ops take from another path was moved by one of their renames. */
  lemma {:induction false} HeadIsRenamed(ops: seq<Op>, p: Path)
    requires SourceOf(ops, p).Head? && SourceOf(ops, p).path != p
    ensures exists i :: 0 <= i < |ops| && ops[i].ty.OpRename? && ops[i].from == SourceOf(ops, p).path
  {
    var front, op, q := ops[..|ops| - 1], ops[|ops| - 1], SourceOf(ops, p).path;
    if op.ty.OpRename? && p == op.to {
      if q != op.from {
        HeadIsRenamed(front, op.from);
        var i :| 0 <= i < |front| && front[i].ty.OpRename? && front[i].from == q;
        assert ops[i] == front[i];
      }
    } else {
      HeadIsRenamed(front, p);
      var i :| 0 <= i < |front| && front[i].ty.OpRename? && front[i].from == q;
      assert ops[i] == front[i];
    }
  }

  /** An earlier rename of the batch moves q away and declares the state. */
  ghost predicate RenamedEarlier(batch: seq<Op>, j: int, q: Path, state: Option<Hash>)
    requires 0 <= j < |batch|
  {
    exists i :: 0 <= i < j && batch[i].ty.OpRename? && batch[i].from == q && batch[i].preHash == state
  }

  /** The ops in front of the j-th leave its primary path as its pre-hash says: they put that state there,
      they leave the path alone, or they move there what another op of the batch declares alike. */
  ghost predicate Foreseen(batch: seq<Op>, j: int)
    requires 0 <= j < |batch|
  {
    var op := batch[j];
    match SourceOf(batch[..j], PrimaryPath(op))
    case Given(state) => state == op.preHash
    case Head(q) => q == PrimaryPath(op) || RenamedEarlier(batch, j, q, op.preHash)
  }

  ghost predicate AllForeseen(batch: seq<Op>) { forall j :: 0 <= j < |batch| ==> Foreseen(batch, j) }

  lemma MeetsIff(batch: seq<Op>, t: Tree, j: int)
    requires CheckedAgainst(batch, t) && 0 <= j < |batch|
    ensures Meets(batch, t, j) <==> Foreseen(batch, j)
  {
    var p := PrimaryPath(batch[j]);
    SourceIs(batch[..j], t, p);
    var src := SourceOf(batch[..j], p);
    if src.Head? && src.path != p {
      HeadIsRenamed(batch[..j], p);
      var i :| 0 <= i < j && batch[..j][i].ty.OpRename? && batch[..j][i].from == src.path;
      assert PrimaryPath(batch[i]) == src.path;
      forall k | 0 <= k < j && batch[k].ty.OpRename? && batch[k].from == src.path
        ensures batch[k].preHash == Lookup(t, src.path)
      {
        assert PrimaryPath(batch[k]) == src.path;
      }
    }
  }

  /** The server checks a whole batch against the stage as it was before it. That is good enough exactly
      when the batch foresees, at each op, what its earlier ops leave there. */
  lemma BatchCheckIff(batch: seq<Op>, t: Tree)
    requires CheckedAgainst(batch, t)
    ensures Faithful(batch, t) <==> AllForeseen(batch)
  {
    hide Meets, Foreseen;
    forall j | 0 <= j < |batch| ensures Meets(batch, t, j) <==> Foreseen(batch, j) { MeetsIff(batch, t, j); }
  }

  /** A batch none of whose ops touches what a later one is keyed by foresees everything. */
  lemma IndependentIsForeseen(batch: seq<Op>)
    requires Independent(batch)
    ensures AllForeseen(batch)
  {
    forall j | 0 <= j < |batch| ensures Foreseen(batch, j) {
      forall i | 0 <= i < j ensures !Touches(batch[..j][i], PrimaryPath(batch[j])) {}
      UntouchedIsHead(batch[..j], PrimaryPath(batch[j]));
    }
  }

  lemma {:induction false} UntouchedIsHead(ops: seq<Op>, p: Path)
    requires !TouchedBy(ops, p)
    ensures SourceOf(ops, p) == Head(p)
  {
    if ops != [] {
      var front := ops[..|ops| - 1];
      assert !Touches(ops[|ops| - 1], p);
      forall i | 0 <= i < |front| ensures !Touches(front[i], p) { assert !Touches(ops[i], p); }
      UntouchedIsHead(front, p);
    }
  }

  lemma IndependentIsFaithful(batch: seq<Op>, t: Tree)
    requires Independent(batch) && CheckedAgainst(batch, t)
    ensures Faithful(batch, t)
  {
    IndependentIsForeseen(batch);
    BatchCheckIff(batch, t);
  }

  // ----- several ops on one path in one batch -----

  ghost predicate WritesAndDeletes(ops: seq<Op>) {
    forall i :: 0 <= i < |ops| ==> ops[i].ty.OpWrite? || ops[i].ty.OpDelete?
  }

  /** A write of what is already there. */
  predicate NullWrite(op: Op) { op.ty.OpWrite? && op.preHash == Some(HashOf(Payload(op))) }

  /** Only null writes are followed by another op on their path. */
  ghost predicate RepeatsAreNull(batch: seq<Op>) {
    forall i, j :: 0 <= i < j < |batch| && batch[i].path == batch[j].path ==> NullWrite(batch[i])
  }

  lemma {:induction false} NullWritesChangeNothing(ops: seq<Op>, t: Tree, p: Path)
    requires WritesAndDeletes(ops) && CheckedAgainst(ops, t)
    requires forall i :: 0 <= i < |ops| && ops[i].path == p ==> NullWrite(ops[i])
    ensures Lookup(Apply(ops, t), p) == Lookup(t, p)
  {
    if ops != [] {
      var front, last := ops[..|ops| - 1], ops[|ops| - 1];
      NullWritesChangeNothing(front, t, p);
      if last.path == p { assert Lookup(t, p) == last.preHash; }
    }
  }

  /** The last op on a path decides what is there. */
  lemma LastDecides(ops: seq<Op>, t: Tree, i: int)
    requires WritesAndDeletes(ops) && 0 <= i < |ops|
    requires forall k :: i < k < |ops| ==> ops[k].path != ops[i].path
    ensures Lookup(Apply(ops, t), ops[i].path) == if ops[i].ty.OpWrite? then Some(HashOf(Payload(ops[i]))) else None
  {
    var front := ops[..|ops| - 1];
    if i < |ops| - 1 {
      LastDecides(front, t, i);
    }
  }

  lemma NextOnPath(batch: seq<Op>, i: int, j: int) returns (k: int)
    requires 0 <= i < j < |batch| && batch[i].path == batch[j].path
    ensures i < k <= j && batch[k].path == batch[i].path
    ensures forall l :: i < l < k ==> batch[l].path != batch[i].path
  {
    if l :| i < l < j && batch[l].path == batch[i].path {
      k := NextOnPath(batch, i, l);
    } else {
      k := j;
    }
  }

  /** For writes and deletes that is the case exactly when only null writes are followed by another op on
      their path. */
  lemma WritesCheckIff(batch: seq<Op>, t: Tree)
    requires AllValid(batch) && WritesAndDeletes(batch) && CheckedAgainst(batch, t)
    ensures Faithful(batch, t) <==> RepeatsAreNull(batch)
  {
    if RepeatsAreNull(batch) {
      forall j | 0 <= j < |batch| ensures Meets(batch, t, j) {
        NullWritesChangeNothing(batch[..j], t, batch[j].path);
      }
    }
    if Faithful(batch, t) {
      forall i, j | 0 <= i < j < |batch| && batch[i].path == batch[j].path ensures NullWrite(batch[i]) {
        var k := NextOnPath(batch, i, j);
        assert Meets(batch, t, k);
        LastDecides(batch[..k], t, i);
      }
    }
  }

  function Write(p: Path, seqno: nat, was: Option<Hash>, data: Content): Op {
    Op(seqno, OpWrite, p, "", "", Some(data), false, was, 1, "")
  }

  function Rename(from: Path, to: Path, seqno: nat, was: Hash): Op {
    Op(seqno, OpRename, "", from, to, None, false, Some(was), 1, "")
  }

  /** Two creations of one path in one batch both pass the check; the second overwrites the first. */
  lemma TwiceInOneBatch()
    ensures var batch := [Write("a", 1, None, "x"), Write("a", 2, None, "y")];
            AllValid(batch) && CheckedAgainst(batch, map[]) && !Faithful(batch, map[])
  {
    var batch: seq<Op>, t: Tree := [Write("a", 1, None, "x"), Write("a", 2, None, "y")], map[];
    assert !NullWrite(batch[0]) && batch[0].path == batch[1].path;
    WritesCheckIff(batch, t);
  }

  /** A rename and a write of what it moved away both pass; the write finds nothing. */
  lemma RenamedInOneBatch()
    ensures var t: Tree := map["a" := "x"];
            var batch := [Rename("a", "b", 1, HashOf("x")), Write("a", 2, Some(HashOf("x")), "y")];
            AllValid(batch) && CheckedAgainst(batch, t) && !Faithful(batch, t)
  {
    var t: Tree := map["a" := "x"];
    var batch := [Rename("a", "b", 1, HashOf("x")), Write("a", 2, Some(HashOf("x")), "y")];
    assert batch[..1] == [batch[0]] && batch[..1][..0] == [];
    BatchCheckIff(batch, t);
    assert !Foreseen(batch, 1);
  }

  /** A rename and a write of what it moved there pass when the write declares the moved content and the
      target already had it, and the batch is faithful although its ops are not independent. */
  lemma ForeseenNotIndependent()
    ensures var t: Tree := map["a" := "x", "b" := "x"];
            var batch := [Rename("a", "b", 1, HashOf("x")), Write("b", 2, Some(HashOf("x")), "y")];
            CheckedAgainst(batch, t) && Faithful(batch, t) && !Independent(batch)
  {
    var t: Tree := map["a" := "x", "b" := "x"];
    var batch := [Rename("a", "b", 1, HashOf("x")), Write("b", 2, Some(HashOf("x")), "y")];
    assert batch[..1] == [batch[0]] && batch[..1][..0] == [] && batch[..0] == [];
    BatchCheckIff(batch, t);
    assert Foreseen(batch, 0);
    assert RenamedEarlier(batch, 1, "a", Some(HashOf("x"))) by { assert batch[0].ty.OpRename?; }
    assert Touches(batch[0], PrimaryPath(batch[1]));
  }

  // ----- CommitOps can fail -----

  /** `CommitOps` as the store runs it: a rename of a missing file fails, and so does a delete of one
      when removing a path the index does not hold is an error (`strict`). */
  function CommitOps(ops: seq<Op>, t: Tree, strict: bool): Option<Tree> {
    if ops == [] then Some(t)
    else
      var front, op := CommitOps(ops[..|ops| - 1], t, strict), ops[|ops| - 1];
      if front.None? then None
      else match op.ty
        case OpWrite => Some(ApplyOp(op, front.value))
        case OpDelete => if strict && op.path !in front.value then None else Some(ApplyOp(op, front.value))
        case OpRename => if op.from !in front.value then None else Some(ApplyOp(op, front.value))
        case OpUnknown => None
  }

  /** A faithful stage never fails to commit, and commits what blind application gives. */
  lemma {:induction false} FaithfulCommits(ops: seq<Op>, t: Tree, strict: bool)
    requires AllValid(ops) && Faithful(ops, t)
    ensures CommitOps(ops, t, strict) == Some(Apply(ops, t))
  {
    if ops != [] {
      var front, op := ops[..|ops| - 1], ops[|ops| - 1];
      assert Meets(ops, t, |ops| - 1);
      forall i | 0 <= i < |front| ensures Meets(front, t, i) {
        assert Meets(ops, t, i);
        assert ops[..i] == front[..i];
      }
      FaithfulCommits(front, t, strict);
    }
  }

  // ----- committing a stage twice -----

  /** Writes and deletes leave the paths they touch independent of what was there before. */
  lemma {:induction false} WritesAreAbsolute(ops: seq<Op>, t: Tree, u: Tree, p: Path)
    requires WritesAndDeletes(ops) && TouchedBy(ops, p)
    ensures Lookup(Apply(ops, t), p) == Lookup(Apply(ops, u), p)
  {
    var front, last := ops[..|ops| - 1], ops[|ops| - 1];
    if last.path != p {
      var i :| 0 <= i < |ops| && Touches(ops[i], p);
      assert Touches(front[i], p);
      WritesAreAbsolute(front, t, u, p);
    }
  }

  /** The ops leave every path of the tree that they take a state from as it is. */
  ghost predicate SourcesStay(ops: seq<Op>, t: Tree) {
    forall p :: SourceOf(ops, p).Head?
      ==> Lookup(Apply(ops, t), SourceOf(ops, p).path) == Lookup(t, SourceOf(ops, p).path)
  }

  /** Re-applying a stage that is already in HEAD changes nothing exactly when the stage left what it
      takes from HEAD as it was. */
  lemma ReapplyIff(ops: seq<Op>, t: Tree)
    ensures Apply(ops, Apply(ops, t)) == Apply(ops, t) <==> SourcesStay(ops, t)
  {
    var u := Apply(ops, t);
    hide Apply, SourceOf, Lookup;
    forall p
      ensures Lookup(Apply(ops, u), p) == Lookup(u, p)
         <==> (SourceOf(ops, p).Head? ==> Lookup(u, SourceOf(ops, p).path) == Lookup(t, SourceOf(ops, p).path))
    {
      SourceIs(ops, t, p);
      SourceIs(ops, u, p);
    }
    if SourcesStay(ops, t) { SameTree(Apply(ops, u), u); }
  }

  lemma {:induction false} GivenIfTouched(ops: seq<Op>, p: Path)
    requires WritesAndDeletes(ops)
    ensures SourceOf(ops, p) == Head(p) || SourceOf(ops, p).Given?
    ensures SourceOf(ops, p).Head? ==> !TouchedBy(ops, p)
  {
    if ops != [] {
      var front, op := ops[..|ops| - 1], ops[|ops| - 1];
      GivenIfTouched(front, p);
      assert ops == front + [op];
      TouchedConcat(front, [op], p);
      TouchedOne(op, p);
    }
  }

  /** Writes and deletes take nothing from HEAD, so a stage of those can always be applied again. */
  lemma WritesTakeNothing(ops: seq<Op>, t: Tree)
    requires WritesAndDeletes(ops)
    ensures SourcesStay(ops, t)
  {
    forall p | SourceOf(ops, p).Head?
      ensures Lookup(Apply(ops, t), SourceOf(ops, p).path) == Lookup(t, SourceOf(ops, p).path)
    {
      GivenIfTouched(ops, p);
      ApplyFrame(ops, t, p);
    }
  }

  lemma ReapplyChangesNothing(ops: seq<Op>, t: Tree)
    requires WritesAndDeletes(ops)
    ensures Apply(ops, Apply(ops, t)) == Apply(ops, t)
  {
    WritesTakeNothing(ops, t);
    ReapplyIff(ops, t);
  }

  /** A rename is another matter: applied again it loses the file, unless it moved nothing. */
  lemma RenameTwice(op: Op, t: Tree)
    requires ValidateOp(op) && op.ty.OpRename? && op.from in t
    ensures ApplyOp(op, ApplyOp(op, t)) == ApplyOp(op, t) <==> op.from == op.to
    ensures op.from != op.to ==> op.to !in ApplyOp(op, ApplyOp(op, t)) && CommitOps([op], ApplyOp(op, t), false).None?
  {
    var u := ApplyOp(op, t);
    assert [op][..0] == [];
    if op.from == op.to { assert u == t; }
    else { assert op.to in u && op.from !in u; }
  }

  ghost predicate IsFirstOn(ops: seq<Op>, i: int) {
    0 <= i < |ops| && forall k :: 0 <= k < i ==> ops[k].path != ops[i].path
  }

  ghost predicate IsLastOn(ops: seq<Op>, i: int) {
    0 <= i < |ops| && forall k :: i < k < |ops| ==> ops[k].path != ops[i].path
  }

  /** A path that the stage first deletes and, at the end, deletes. */
  ghost predicate DeletesForGood(ops: seq<Op>) {
    exists i, j :: IsFirstOn(ops, i) && IsLastOn(ops, j) && ops[i].path == ops[j].path
                && ops[i].ty.OpDelete? && ops[j].ty.OpDelete?
  }

  lemma LastOn(ops: seq<Op>, i: int) returns (k: int)
    requires 0 <= i < |ops|
    ensures i <= k < |ops| && ops[k].path == ops[i].path && IsLastOn(ops, k)
    decreases |ops| - i
  {
    if l :| i < l < |ops| && ops[l].path == ops[i].path { k := LastOn(ops, l); } else { k := i; }
  }

  /** The path an op has to find: the source of a rename, and where index removal is strict, what a delete deletes. */
  function NeededBy(op: Op, strict: bool): Option<Path> {
    if op.ty.OpRename? then Some(op.from) else if op.ty.OpDelete? && strict then Some(op.path) else None
  }

  /** The i-th op finds what it needs when the ops are applied to u. */
  ghost predicate Finds(ops: seq<Op>, u: Tree, i: int, strict: bool)
    requires 0 <= i < |ops|
  {
    !ops[i].ty.OpUnknown? && (NeededBy(ops[i], strict).Some? ==> NeededBy(ops[i], strict).value in Apply(ops[..i], u))
  }

  lemma CommitOneMore(ops: seq<Op>, u: Tree, n: int, strict: bool)
    requires 0 < n <= |ops|
    ensures var front := CommitOps(ops[..n - 1], u, strict);
            front == Some(Apply(ops[..n - 1], u)) ==>
              CommitOps(ops[..n], u, strict) == if Finds(ops, u, n - 1, strict) then Some(Apply(ops[..n], u)) else None
    ensures CommitOps(ops[..n - 1], u, strict).None? ==> CommitOps(ops[..n], u, strict).None?
  {
    assert ops[..n][..n - 1] == ops[..n - 1];
  }

  /** The store commits the ops exactly when each finds what it needs, and then as blind application does. */
  lemma {:induction false} CommitIff(ops: seq<Op>, u: Tree, n: int, strict: bool)
    requires 0 <= n <= |ops|
    ensures CommitOps(ops[..n], u, strict).Some? <==> forall i :: 0 <= i < n ==> Finds(ops, u, i, strict)
    ensures CommitOps(ops[..n], u, strict).Some? ==> CommitOps(ops[..n], u, strict).value == Apply(ops[..n], u)
    decreases n
  {
    if n > 0 {
      CommitIff(ops, u, n - 1, strict);
      CommitOneMore(ops, u, n, strict);
      hide CommitOps, Finds, Apply;
    }
  }

  /** What an op needs, if it was not made by an earlier one, is still there when all ops are applied. */
  ghost predicate NeedsStay(ops: seq<Op>, t: Tree, strict: bool) {
    forall i :: 0 <= i < |ops| ==> NeedStays(ops, t, i, strict)
  }

  ghost predicate NeedStays(ops: seq<Op>, t: Tree, i: int, strict: bool)
    requires 0 <= i < |ops|
  {
    var need := NeededBy(ops[i], strict);
    need.Some? && SourceOf(ops[..i], need.value).Head? ==> SourceOf(ops[..i], need.value).path in Apply(ops, t)
  }

  lemma FindsAgain(ops: seq<Op>, t: Tree, i: int, strict: bool)
    requires 0 <= i < |ops| && Finds(ops, t, i, strict)
    ensures Finds(ops, Apply(ops, t), i, strict) <==> NeedStays(ops, t, i, strict)
  {
    var need, u := NeededBy(ops[i], strict), Apply(ops, t);
    if need.Some? {
      SourceIs(ops[..i], t, need.value);
      SourceIs(ops[..i], u, need.value);
      assert Lookup(Apply(ops[..i], t), need.value).Some?;
      assert need.value in Apply(ops[..i], u) <==> Lookup(Apply(ops[..i], u), need.value).Some?;
    }
  }

  /** Replaying through the store a stage that is already in HEAD: it commits, and changes nothing, exactly
      when what its ops need from HEAD is still there and what it takes from HEAD is as it was. */
  lemma StoreReplayIff(ops: seq<Op>, t: Tree, strict: bool)
    requires CommitOps(ops, t, strict).Some?
    ensures CommitOps(ops, Apply(ops, t), strict) == Some(Apply(ops, t))
       <==> NeedsStay(ops, t, strict) && SourcesStay(ops, t)
  {
    var u := Apply(ops, t);
    assert ops[..|ops|] == ops;
    CommitIff(ops, t, |ops|, strict);
    CommitIff(ops, u, |ops|, strict);
    ReapplyIff(ops, t);
    hide CommitOps, Finds, SourcesStay, Apply, NeedStays;
    forall i | 0 <= i < |ops| ensures Finds(ops, u, i, strict) <==> NeedStays(ops, t, i, strict) {
      FindsAgain(ops, t, i, strict);
    }
  }

  /** Where index removal is strict, a stage that a crash left in both HEAD and the log replays
      cleanly exactly when it does not delete a path for good. */
  lemma StrictReplayIff(ops: seq<Op>, t: Tree)
    requires WritesAndDeletes(ops) && CommitOps(ops, t, true).Some?
    ensures CommitOps(ops, Apply(ops, t), true).Some? <==> !DeletesForGood(ops)
  {
    var u := Apply(ops, t);
    assert ops[..|ops|] == ops;
    CommitIff(ops, t, |ops|, true);
    CommitIff(ops, u, |ops|, true);
    if DeletesForGood(ops) {
      var i, j :| IsFirstOn(ops, i) && IsLastOn(ops, j) && ops[i].path == ops[j].path
               && ops[i].ty.OpDelete? && ops[j].ty.OpDelete?;
      LastDecides(ops, t, j);
      assert !TouchedBy(ops[..i], ops[i].path);
      ApplyFrame(ops[..i], u, ops[i].path);
      assert !Finds(ops, u, i, true);
    } else {
      forall i | 0 <= i < |ops| ensures Finds(ops, u, i, true) {
        if ops[i].ty.OpDelete? { DeleteFinds(ops, t, i); }
      }
    }
  }

  lemma DeleteFinds(ops: seq<Op>, t: Tree, i: int)
    requires WritesAndDeletes(ops) && 0 <= i < |ops| && ops[i].ty.OpDelete? && Finds(ops, t, i, true)
    ensures ops[i].path in Apply(ops[..i], Apply(ops, t)) || DeletesForGood(ops)
  {
    var u, p := Apply(ops, t), ops[i].path;
    assert Lookup(Apply(ops[..i], t), p).Some?;
    if TouchedBy(ops[..i], p) {
      WritesAreAbsolute(ops[..i], t, u, p);
    } else {
      ApplyFrame(ops[..i], u, p);
      forall k | 0 <= k < i ensures ops[k].path != p { assert !Touches(ops[..i][k], p); }
      var j := LastOn(ops, i);
      LastDecides(ops, t, j);
      assert IsFirstOn(ops, i);
    }
  }
}
