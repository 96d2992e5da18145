/** Tracked file sizes, and the simulation that guards the vault caps. */
module Sizes {
  import opened Wrappers
  import opened Protocol

  type SizeMap = map<Path, nat>

  ghost function Total(m: SizeMap): nat
    decreases |m|
  {
    if m == map[] then 0 else var p :| p in m; assert |m - {p}| < |m| by { Smaller(m, p); } m[p] + Total(m - {p})
  }

  lemma Smaller(m: SizeMap, p: Path)
    requires p in m
    ensures |m - {p}| == |m| - 1
  {
    assert (m - {p}).Keys == m.Keys - {p};
    assert |m| == |m.Keys| && |m - {p}| == |(m - {p}).Keys|;
  }

  /** The total does not depend on the order in which it is added up. */
  lemma {:induction false} TotalWithout(m: SizeMap, p: Path)
    requires p in m
    ensures Total(m) == m[p] + Total(m - {p})
    decreases |m|
  {
    var q :| q in m && Total(m) == m[q] + Total(m - {q});
    if q != p {
      Smaller(m, q);
      Smaller(m, p);
      TotalWithout(m - {q}, p);
      TotalWithout(m - {p}, q);
      assert m - {q} - {p} == m - {p} - {q};
    }
  }

  function Remove(m: SizeMap, p: Path): SizeMap { m - {p} }

  /** `Rename`: nothing happens when there is nothing to move. */
  function Move(m: SizeMap, from: Path, to: Path): SizeMap {
    if from !in m then m else Remove(m, from)[to := m[from]]
  }

  function SizeStep(op: Op, m: SizeMap): SizeMap {
    match op.ty
    case OpWrite => m[op.path := |Payload(op)|]
    case OpDelete => Remove(m, op.path)
    case OpRename => Move(m, op.from, op.to)
    case OpUnknown => m
  }

  function ApplySizes(ops: seq<Op>, m: SizeMap): SizeMap {
    if ops == [] then m else SizeStep(ops[|ops| - 1], ApplySizes(ops[..|ops| - 1], m))
  }

  /** How removing or setting one path moves the count and the total. */
  lemma RemoveCounts(m: SizeMap, p: Path)
    ensures |Remove(m, p)| == |m| - (if p in m then 1 else 0)
    ensures Total(Remove(m, p)) == Total(m) - (if p in m then m[p] else 0)
  {
    if p in m {
      Smaller(m, p);
      TotalWithout(m, p);
    } else {
      assert m - {p} == m;
    }
  }

  lemma SetCounts(m: SizeMap, p: Path, size: nat)
    ensures |m[p := size]| == |m| + (if p in m then 0 else 1)
    ensures Total(m[p := size]) == Total(m) - (if p in m then m[p] else 0) + size
  {
    var r := m[p := size];
    RemoveCounts(m, p);
    RemoveCounts(r, p);
    assert Remove(r, p) == Remove(m, p);
  }

  // ----- caps -----

  /** A cap of zero or less is switched off. */
  ghost predicate WithinCaps(m: SizeMap, maxFiles: int, maxBytes: int) {
    && (maxFiles > 0 ==> |m| <= maxFiles)
    && (maxBytes > 0 ==> Total(m) <= maxBytes)
  }

  datatype CapReason = NoReason | FileCount | TotalSize

  type Shadow = map<Path, Option<nat>>

  /** The sizes with the shadow laid over them. */
  ghost function View(m: SizeMap, shadow: Shadow): SizeMap {
    map p | p in m.Keys + shadow.Keys && (if p in shadow then shadow[p].Some? else p in m)
      :: if p in shadow then shadow[p].value else m[p]
  }

  lemma ViewSet(m: SizeMap, shadow: Shadow, p: Path, size: nat)
    ensures View(m, shadow[p := Some(size)]) == View(m, shadow)[p := size]
  {
  }

  lemma ViewRemove(m: SizeMap, shadow: Shadow, p: Path)
    ensures View(m, shadow[p := None]) == Remove(View(m, shadow), p)
  {
  }

  function LookupSize(m: SizeMap, shadow: Shadow, p: Path): (r: Option<nat>) {
    if p in shadow then shadow[p] else if p in m then Some(m[p]) else None
  }

  lemma ViewLookup(m: SizeMap, shadow: Shadow, p: Path)
    ensures LookupSize(m, shadow, p) == if p in View(m, shadow) then Some(View(m, shadow)[p]) else None
  {
  }

  /** What the simulation knows after some ops. */
  ghost predicate Projects(m: SizeMap, shadow: Shadow, count: int, bytes: int, now: SizeMap) {
    View(m, shadow) == now && count == |now| && bytes == Total(now)
  }

  lemma ProjectsSet(m: SizeMap, shadow: Shadow, count: int, bytes: int, now: SizeMap, p: Path, size: nat)
    requires Projects(m, shadow, count, bytes, now)
    ensures var old' := LookupSize(m, shadow, p);
            Projects(m, shadow[p := Some(size)], if old'.Some? then count else count + 1,
                     (if old'.Some? then bytes - old'.value else bytes) + size, now[p := size])
  {
    ViewLookup(m, shadow, p);
    ViewSet(m, shadow, p, size);
    SetCounts(now, p, size);
  }

  lemma ProjectsRemove(m: SizeMap, shadow: Shadow, count: int, bytes: int, now: SizeMap, p: Path)
    requires Projects(m, shadow, count, bytes, now)
    ensures var old' := LookupSize(m, shadow, p);
            && (old'.Some? ==> Projects(m, shadow[p := None], count - 1, bytes - old'.value, Remove(now, p)))
            && (old'.None? ==> Remove(now, p) == now && p !in now)
  {
    ViewLookup(m, shadow, p);
    ViewRemove(m, shadow, p);
    RemoveCounts(now, p);
  }

  class SizeTracker {
    var sizes: SizeMap
    var totalBytes: int

    ghost predicate Valid() reads this { totalBytes == Total(sizes) }

    constructor ()
      ensures Valid() && sizes == map[]
    {
      sizes, totalBytes := map[], 0;
    }

    method Set(path: Path, size: nat)
      requires Valid()
      modifies this
      ensures Valid() && sizes == old(sizes)[path := size]
    {
      SetCounts(sizes, path, size);
      if path in sizes {
        totalBytes := totalBytes - sizes[path];
      }
      sizes := sizes[path := size];
      totalBytes := totalBytes + size;
    }

    method Delete(path: Path)
      requires Valid()
      modifies this
      ensures Valid() && sizes == Remove(old(sizes), path)
    {
      RemoveCounts(sizes, path);
      if path in sizes {
        totalBytes := totalBytes - sizes[path];
        sizes := sizes - {path};
      } else {
        assert sizes - {path} == sizes;
      }
    }

    method Rename(from: Path, to: Path)
      requires Valid()
      modifies this
      ensures Valid() && sizes == Move(old(sizes), from, to)
    {
      if from !in sizes {
        return;
      }
      var size := sizes[from];
      Delete(from);
      Set(to, size);
    }

    /** The total stays the sum of the tracked sizes through any list of ops. */
    method ApplyOps(ops: seq<Op>)
      requires Valid()
      modifies this
      ensures Valid() && sizes == ApplySizes(ops, old(sizes))
    {
      for i := 0 to |ops|
        invariant Valid() && sizes == ApplySizes(ops[..i], old(sizes))
      {
        assert ops[..i + 1][..i] == ops[..i];
        match ops[i].ty {
          case OpWrite => Set(ops[i].path, |Payload(ops[i])|);
          case OpDelete => Delete(ops[i].path);
          case OpRename => Rename(ops[i].from, ops[i].to);
          case OpUnknown =>
        }
      }
      assert ops[..|ops|] == ops;
    }

    /** True exactly when applying the ops would break an enabled cap; changes nothing. */
    method WouldExceed(ops: seq<Op>, maxFiles: int, maxBytes: int) returns (exceeded: bool, reason: CapReason)
      requires Valid()
      ensures exceeded <==> !WithinCaps(ApplySizes(ops, sizes), maxFiles, maxBytes)
      ensures reason == NoReason <==> !exceeded
      ensures reason == FileCount <==> maxFiles > 0 && |ApplySizes(ops, sizes)| > maxFiles
    {
      if maxFiles == 0 && maxBytes == 0 {
        return false, NoReason;
      }
      var shadow: Shadow := map[];
      var projCount, projBytes := |sizes|, totalBytes;
      assert View(sizes, shadow) == sizes;
      for i := 0 to |ops|
        invariant Projects(sizes, shadow, projCount, projBytes, ApplySizes(ops[..i], sizes))
      {
        assert ops[..i + 1][..i] == ops[..i];
        shadow, projCount, projBytes := Simulate(ops[i], shadow, projCount, projBytes, ApplySizes(ops[..i], sizes));
      }
      assert ops[..|ops|] == ops;
      if maxFiles > 0 && projCount > maxFiles {
        return true, FileCount;
      }
      if maxBytes > 0 && projBytes > maxBytes {
        return true, TotalSize;
      }
      return false, NoReason;
    }

    /** One op of the simulation. */
    method Simulate(op: Op, shadow: Shadow, count: int, bytes: int, ghost now: SizeMap)
      returns (s: Shadow, c: int, b: int)
      requires Projects(sizes, shadow, count, bytes, now)
      ensures Projects(sizes, s, c, b, SizeStep(op, now))
    {
      hide Projects;
      s, c, b := shadow, count, bytes;
      match op.ty {
        case OpWrite =>
          s, c, b := SimulateSet(op.path, |Payload(op)|, s, c, b, now);
        case OpDelete =>
          s, c, b := SimulateDelete(op.path, s, c, b, now);
        case OpRename =>
          SizeIs(sizes, s, c, b, now, op.from);
          var was := LookupSize(sizes, s, op.from);
          if was.Some? {
            s, c, b := SimulateDelete(op.from, s, c, b, now);
            s, c, b := SimulateSet(op.to, was.value, s, c, b, Remove(now, op.from));
          }
        case OpUnknown =>
      }
    }

    method SimulateSet(p: Path, size: nat, shadow: Shadow, count: int, bytes: int, ghost now: SizeMap)
      returns (s: Shadow, c: int, b: int)
      requires Projects(sizes, shadow, count, bytes, now)
      ensures Projects(sizes, s, c, b, now[p := size])
    {
      ProjectsSet(sizes, shadow, count, bytes, now, p, size);
      s, c, b := shadow, count, bytes;
      var was := LookupSize(sizes, s, p);
      if was.Some? {
        b := b - was.value;
      } else {
        c := c + 1;
      }
      b := b + size;
      s := s[p := Some(size)];
    }

    method SimulateDelete(p: Path, shadow: Shadow, count: int, bytes: int, ghost now: SizeMap)
      returns (s: Shadow, c: int, b: int)
      requires Projects(sizes, shadow, count, bytes, now)
      ensures Projects(sizes, s, c, b, Remove(now, p))
    {
      ProjectsRemove(sizes, shadow, count, bytes, now, p);
      s, c, b := shadow, count, bytes;
      var was := LookupSize(sizes, s, p);
      if was.Some? {
        c := c - 1;
        b := b - was.value;
        s := s[p := None];
      }
    }
  }

  lemma SizeIs(m: SizeMap, shadow: Shadow, count: int, bytes: int, now: SizeMap, p: Path)
    requires Projects(m, shadow, count, bytes, now)
    ensures LookupSize(m, shadow, p) == if p in now then Some(now[p]) else None
  {
    ViewLookup(m, shadow, p);
  }

  // ----- what the tracker has to do with the tree -----

  function SizesOf(t: Tree): SizeMap { map p | p in t :: |t[p]| }

  /** The tracker follows the tree, except for one kind of op: a rename of something absent onto
      something present, which leaves the target tracked. */
  lemma TrackerFollows(op: Op, t: Tree)
    ensures SizeStep(op, SizesOf(t)) == SizesOf(ApplyOp(op, t))
       <==> !(op.ty.OpRename? && op.from !in t && op.to in t)
  {
    if op.ty.OpRename? && op.from !in t && op.to in t {
      assert op.to in SizeStep(op, SizesOf(t)) && op.to !in SizesOf(ApplyOp(op, t));
    }
  }

  lemma {:induction false} ApplySizesConcat(a: seq<Op>, b: seq<Op>, m: SizeMap)
    ensures ApplySizes(a + b, m) == ApplySizes(b, ApplySizes(a, m))
  {
    if b == [] {
      assert a + b == a;
    } else {
      assert (a + b)[..|a + b| - 1] == a + b[..|b| - 1];
      ApplySizesConcat(a, b[..|b| - 1], m);
    }
  }

  // ----- what the cap check leaves out -----

  function SizeAt(m: SizeMap, p: Path): Option<nat> { if p in m then Some(m[p]) else None }

  /** How many files and bytes the ops add to the sizes; a negative number is what they take away. */
  function FilesGrown(ops: seq<Op>, m: SizeMap): int { |ApplySizes(ops, m)| - |m| }

  ghost function BytesGrown(ops: seq<Op>, m: SizeMap): int { Total(ApplySizes(ops, m)) - Total(m) }

  /** The second list grows what the first one left. */
  lemma GrowthAdds(stage: seq<Op>, batch: seq<Op>, m: SizeMap)
    ensures FilesGrown(stage + batch, m) == FilesGrown(stage, m) + FilesGrown(batch, ApplySizes(stage, m))
    ensures BytesGrown(stage + batch, m) == BytesGrown(stage, m) + BytesGrown(batch, ApplySizes(stage, m))
  {
    ApplySizesConcat(stage, batch, m);
  }

  /** Both sizes agree on the paths the ops touch. */
  ghost predicate SameOn(ops: seq<Op>, m: SizeMap, n: SizeMap) {
    forall p :: TouchedBy(ops, p) ==> SizeAt(m, p) == SizeAt(n, p)
  }

  function FilesOf(size: Option<nat>): int { if size.Some? then 1 else 0 }

  function BytesOf(size: Option<nat>): int { if size.Some? then size.value else 0 }

  lemma StepFrame(op: Op, m: SizeMap, p: Path)
    requires !Touches(op, p)
    ensures SizeAt(SizeStep(op, m), p) == SizeAt(m, p)
  {
  }

  lemma MoveCounts(m: SizeMap, from: Path, to: Path)
    ensures var target := if from in m && from != to then SizeAt(m, to) else None;
            && |Move(m, from, to)| == |m| - FilesOf(target)
            && Total(Move(m, from, to)) == Total(m) - BytesOf(target)
  {
    if from in m {
      RemoveCounts(m, from);
      SetCounts(Remove(m, from), to, m[from]);
    }
  }

  /** One op grows both by as much. */
  lemma StepGrowsAlike(op: Op, m: SizeMap, n: SizeMap)
    requires forall p :: Touches(op, p) ==> SizeAt(m, p) == SizeAt(n, p)
    ensures |SizeStep(op, m)| - |m| == |SizeStep(op, n)| - |n|
    ensures Total(SizeStep(op, m)) - Total(m) == Total(SizeStep(op, n)) - Total(n)
  {
    hide Total, Move;
    match op.ty {
      case OpWrite =>
        assert Touches(op, op.path);
        SetCounts(m, op.path, |Payload(op)|);
        SetCounts(n, op.path, |Payload(op)|);
      case OpDelete =>
        assert Touches(op, op.path);
        RemoveCounts(m, op.path);
        RemoveCounts(n, op.path);
      case OpRename =>
        assert Touches(op, op.from) && Touches(op, op.to);
        MoveCounts(m, op.from, op.to);
        MoveCounts(n, op.from, op.to);
      case OpUnknown =>
    }
  }

  /** And leaves them in agreement on its paths. */
  lemma StepLocal(op: Op, m: SizeMap, n: SizeMap, p: Path)
    requires Touches(op, p) && forall q :: Touches(op, q) ==> SizeAt(m, q) == SizeAt(n, q)
    ensures SizeAt(SizeStep(op, m), p) == SizeAt(SizeStep(op, n), p)
  {
    if op.ty.OpRename? { assert Touches(op, op.from) && Touches(op, op.to); }
  }

  /** Growth depends on the touched paths alone. */
  lemma {:induction false} GrowthLocal(ops: seq<Op>, k: nat, m: SizeMap, n: SizeMap)
    requires k <= |ops| && SameOn(ops, m, n)
    ensures FilesGrown(ops[..k], m) == FilesGrown(ops[..k], n) && BytesGrown(ops[..k], m) == BytesGrown(ops[..k], n)
    ensures SameOn(ops, ApplySizes(ops[..k], m), ApplySizes(ops[..k], n))
  {
    if k > 0 {
      GrowthLocal(ops, k - 1, m, n);
      var op, x, y := ops[k - 1], ApplySizes(ops[..k - 1], m), ApplySizes(ops[..k - 1], n);
      assert ops[..k][..k - 1] == ops[..k - 1];
      forall p | Touches(op, p) ensures SizeAt(x, p) == SizeAt(y, p) { assert TouchedBy(ops, p); }
      StepGrowsAlike(op, x, y);
      forall p | TouchedBy(ops, p) ensures SizeAt(SizeStep(op, x), p) == SizeAt(SizeStep(op, y), p) {
        if Touches(op, p) {
          StepLocal(op, x, y, p);
        } else {
          StepFrame(op, x, p);
          StepFrame(op, y, p);
        }
      }
    }
  }

  lemma {:induction false} SizesFrame(ops: seq<Op>, m: SizeMap, p: Path)
    requires !TouchedBy(ops, p)
    ensures SizeAt(ApplySizes(ops, m), p) == SizeAt(m, p)
  {
    if ops != [] {
      var front, op := ops[..|ops| - 1], ops[|ops| - 1];
      assert ops == front + [op];
      TouchedConcat(front, [op], p);
      TouchedOne(op, p);
      SizesFrame(front, m, p);
      StepFrame(op, ApplySizes(front, m), p);
    }
  }

  /** On paths of its own a batch grows the vault by as much before the stage as behind it. */
  lemma DisjointGrowth(stage: seq<Op>, batch: seq<Op>, m: SizeMap)
    requires DisjointOps(stage, batch)
    ensures FilesGrown(stage + batch, m) == FilesGrown(stage, m) + FilesGrown(batch, m)
    ensures BytesGrown(stage + batch, m) == BytesGrown(stage, m) + BytesGrown(batch, m)
  {
    var n := ApplySizes(stage, m);
    forall p | TouchedBy(batch, p) ensures SizeAt(m, p) == SizeAt(n, p) { SizesFrame(stage, m, p); }
    GrowthLocal(batch, |batch|, m, n);
    assert batch[..|batch|] == batch;
    GrowthAdds(stage, batch, m);
  }

  /** The room a cap leaves, negative once it is broken; None if the cap is off. */
  function Room(now: int, cap: int): Option<int> { if cap > 0 then Some(cap - now) else None }

  /** What grows does not fit into the room there is. */
  predicate Exceeds(grown: int, room: Option<int>) { room.Some? && grown > room.value }

  /** The cap check counts the committed sizes and the batch, not what is already staged. For any stage
      it sees files and bytes with the batch in, while the vault will hold them grown by what
      the stage adds and by how differently the batch grows behind it. */
  lemma CapCheckIff(stage: seq<Op>, batch: seq<Op>, m: SizeMap, maxFiles: int, maxBytes: int)
    ensures var behind := ApplySizes(stage, m);
            var files := Room(|m| + FilesGrown(batch, m), maxFiles);
            var bytes := Room(Total(m) + BytesGrown(batch, m), maxBytes);
            && (WithinCaps(ApplySizes(batch, m), maxFiles, maxBytes) <==> !Exceeds(0, files) && !Exceeds(0, bytes))
            && (WithinCaps(ApplySizes(stage + batch, m), maxFiles, maxBytes) <==>
                && !Exceeds(FilesGrown(stage, m) + FilesGrown(batch, behind) - FilesGrown(batch, m), files)
                && !Exceeds(BytesGrown(stage, m) + BytesGrown(batch, behind) - BytesGrown(batch, m), bytes))
  {
    hide ApplySizes, Total;
    GrowthAdds(stage, batch, m);
  }

  /** Where the stage shares no path with the batch, as the stages of other clients do, the check lets
      a batch break a cap exactly when it leaves too little room for the stage's own growth, and turns
      one away for nothing exactly when the stage frees what the batch is over. */
  lemma CapCheckOnOwnPaths(stage: seq<Op>, batch: seq<Op>, m: SizeMap, maxFiles: int, maxBytes: int)
    requires DisjointOps(stage, batch)
    ensures var files := Room(|m| + FilesGrown(batch, m), maxFiles);
            var bytes := Room(Total(m) + BytesGrown(batch, m), maxBytes);
            && (WithinCaps(ApplySizes(batch, m), maxFiles, maxBytes) <==> !Exceeds(0, files) && !Exceeds(0, bytes))
            && (WithinCaps(ApplySizes(stage + batch, m), maxFiles, maxBytes) <==>
                !Exceeds(FilesGrown(stage, m), files) && !Exceeds(BytesGrown(stage, m), bytes))
  {
    hide ApplySizes, Total;
    DisjointGrowth(stage, batch, m);
    GrowthAdds(stage, batch, m);
    CapCheckIff(stage, batch, m, maxFiles, maxBytes);
  }

  function NewFile(p: Path, seqno: nat): Op { Op(seqno, OpWrite, p, "", "", Some("x"), false, None, 1, "") }

  /** Two pushes that each pass a cap of one file can together break it: what is already staged is
      not in the tracker when the second batch is checked. */
  lemma StagedOpsAreNotCounted()
    ensures var stage, batch, committed := [NewFile("a", 1)], [NewFile("b", 2)], map[];
            && WithinCaps(ApplySizes(stage, committed), 1, 0)
            && WithinCaps(ApplySizes(batch, committed), 1, 0)
            && !WithinCaps(ApplySizes(stage + batch, committed), 1, 0)
  {
    var stage, batch: seq<Op>, none: SizeMap := [NewFile("a", 1)], [NewFile("b", 2)], map[];
    assert stage[..0] == [] && batch[..0] == [] && (stage + batch)[..1] == stage;
    SetCounts(none, "a", 1);
    SetCounts(none, "b", 1);
    SetCounts(none["a" := 1], "b", 1);
  }
}
