/** Where every line of a merged or rendered text comes from. */
module Traces {
  import opened Seqs
  import opened Hunks
  import opened Partition

  // ----- where every line of the output comes from -----

  /** Line `at` of the base, or line j of marker k. */
  datatype Origin = FromBase(at: int) | FromMark(k: int, j: int)

  ghost function BaseRun(from: int, to: int): (r: seq<Origin>)
    requires from <= to
    ensures |r| == to - from
  {
    seq(to - from, i requires 0 <= i < to - from => FromBase(from + i))
  }

  ghost function MarkRun(k: int, len: nat): (r: seq<Origin>)
    ensures |r| == len
  {
    seq(len, j requires 0 <= j < len => FromMark(k, j))
  }

  ghost function Trace<T>(marks: seq<Hunk<T>>, k: int, pos: int, n: int): seq<Origin>
    requires 0 <= k <= |marks| && InOrder(pos, marks[k..], n)
    decreases |marks| - k
  {
    if k == |marks| then BaseRun(pos, n)
    else
      assert marks[k..][0] == marks[k] && marks[k..][1..] == marks[k + 1..];
      BaseRun(pos, marks[k].start) + (MarkRun(k, |marks[k].lines|) + Trace(marks, k + 1, marks[k].end, n))
  }

  /** The line an origin stands for. */
  ghost predicate Shows<T>(o: Origin, line: T, base: seq<T>, marks: seq<Hunk<T>>) {
    match o
    case FromBase(at) => 0 <= at < |base| && base[at] == line
    case FromMark(k, j) => 0 <= k < |marks| && 0 <= j < |marks[k].lines| && marks[k].lines[j] == line
  }

  ghost predicate ShowsAll<T>(trace: seq<Origin>, lines: seq<T>, base: seq<T>, marks: seq<Hunk<T>>) {
    |trace| == |lines| && forall p :: 0 <= p < |trace| ==> Shows(trace[p], lines[p], base, marks)
  }

  lemma ShowsConcat<T>(t1: seq<Origin>, t2: seq<Origin>, l1: seq<T>, l2: seq<T>, base: seq<T>, marks: seq<Hunk<T>>)
    requires ShowsAll(t1, l1, base, marks) && ShowsAll(t2, l2, base, marks)
    ensures ShowsAll(t1 + t2, l1 + l2, base, marks)
  {
  }

  /** The trace names every line that is emitted. */
  lemma {:induction false} TraceShows<T>(base: seq<T>, marks: seq<Hunk<T>>, k: int, pos: int)
    requires 0 <= k <= |marks| && InOrder(pos, marks[k..], |base|)
    ensures ShowsAll(Trace(marks, k, pos, |base|), ApplyFrom(base, pos, marks[k..]), base, marks)
    decreases |marks| - k
  {
    if k < |marks| {
      var m := marks[k];
      assert marks[k..][0] == m && marks[k..][1..] == marks[k + 1..];
      TraceShows(base, marks, k + 1, m.end);
      var tail := ApplyFrom(base, m.end, marks[k + 1..]);
      ShowsConcat(MarkRun(k, |m.lines|), Trace(marks, k + 1, m.end, |base|), m.lines, tail, base, marks);
      ShowsConcat(BaseRun(pos, m.start), MarkRun(k, |m.lines|) + Trace(marks, k + 1, m.end, |base|),
                  base[pos..m.start], m.lines + tail, base, marks);
      Assoc(base[pos..m.start], m.lines, tail);
    }
  }

  ghost predicate Covered<T>(at: int, marks: seq<Hunk<T>>, from: int) {
    exists k :: 0 <= from <= k < |marks| && marks[k].start <= at < marks[k].end
  }

  ghost predicate Due<T>(o: Origin, marks: seq<Hunk<T>>, from: int, pos: int, n: int) {
    match o
    case FromBase(at) => pos <= at < n && !Covered(at, marks, from)
    case FromMark(k, j) => 0 <= k && from <= k < |marks| && 0 <= j < |marks[k].lines|
  }

  lemma DueSplit<T>(o: Origin, marks: seq<Hunk<T>>, k: int, pos: int, n: int)
    requires 0 <= k < |marks| && InOrder(pos, marks[k..], n)
    ensures InOrder(marks[k].end, marks[k + 1..], n) && pos <= marks[k].start <= marks[k].end <= n
    ensures Due(o, marks, k, pos, n) <==> o in BaseRun(pos, marks[k].start) || o in MarkRun(k, |marks[k].lines|)
                                          || Due(o, marks, k + 1, marks[k].end, n)
  {
    assert marks[k..][0] == marks[k] && marks[k..][1..] == marks[k + 1..];
    InRuns(o, pos, marks[k].start, k, |marks[k].lines|);
    if o.FromBase? {
      if o.at < marks[k].start { LaterMarks(marks, k, pos, n, o.at); }
      assert Covered(o.at, marks, k) <==> marks[k].start <= o.at < marks[k].end || Covered(o.at, marks, k + 1);
    }
  }

  lemma InRuns(o: Origin, from: int, to: int, k: int, len: nat)
    requires from <= to
    ensures o in BaseRun(from, to) <==> o.FromBase? && from <= o.at < to
    ensures o in MarkRun(k, len) <==> o.FromMark? && o.k == k && 0 <= o.j < len
  {
    if o.FromBase? && from <= o.at < to { assert BaseRun(from, to)[o.at - from] == o; }
    if o.FromMark? && o.k == k && 0 <= o.j < len { assert MarkRun(k, len)[o.j] == o; }
  }

  lemma LaterMarks<T>(marks: seq<Hunk<T>>, k: int, pos: int, n: int, at: int)
    requires 0 <= k <= |marks| && InOrder(pos, marks[k..], n)
    requires at < if k < |marks| then marks[k].start else pos
    ensures !Covered(at, marks, k)
    decreases |marks| - k
  {
    if k < |marks| {
      assert marks[k..][0] == marks[k] && marks[k..][1..] == marks[k + 1..];
      if k + 1 < |marks| { assert marks[k + 1..][0] == marks[k + 1]; }
      LaterMarks(marks, k + 1, marks[k].end, n, at);
      forall l | k <= l < |marks| ensures !(marks[l].start <= at < marks[l].end) {
        if l > k { assert !Covered(at, marks, k + 1); }
      }
    }
  }

  /** Exactly the base lines outside all markers, and exactly the markers' own lines, are emitted. */
  lemma {:induction false} TraceComplete<T>(marks: seq<Hunk<T>>, k: int, pos: int, n: int, o: Origin)
    requires 0 <= k <= |marks| && InOrder(pos, marks[k..], n)
    ensures o in Trace(marks, k, pos, n) <==> Due(o, marks, k, pos, n)
    decreases |marks| - k
  {
    if k < |marks| {
      DueSplit(o, marks, k, pos, n);
      TraceComplete(marks, k + 1, marks[k].end, n, o);
    } else {
      InRuns(o, pos, n, k, 0);
    }
  }

  /** Base order: a marker comes where it starts, in front of the base line of that number. */
  ghost predicate Precedes<T>(a: Origin, b: Origin, marks: seq<Hunk<T>>) {
    match (a, b)
    case (FromBase(x), FromBase(y)) => x < y
    case (FromBase(x), FromMark(k, _)) => 0 <= k < |marks| && x < marks[k].start
    case (FromMark(k, _), FromBase(y)) => 0 <= k < |marks| && marks[k].end <= y
    case (FromMark(k, i), FromMark(l, j)) => k < l || (k == l && i < j)
  }

  ghost predicate InBaseOrder<T>(trace: seq<Origin>, marks: seq<Hunk<T>>) {
    forall p, q :: 0 <= p < q < |trace| ==> Precedes(trace[p], trace[q], marks)
  }

  lemma OrderConcat<T>(a: seq<Origin>, b: seq<Origin>, marks: seq<Hunk<T>>)
    requires InBaseOrder(a, marks) && InBaseOrder(b, marks)
    requires forall p, q :: 0 <= p < |a| && 0 <= q < |b| ==> Precedes(a[p], b[q], marks)
    ensures InBaseOrder(a + b, marks)
  {
  }

  lemma MarkStarts<T>(marks: seq<Hunk<T>>, k: int, pos: int, n: int, l: int)
    requires 0 <= k <= l < |marks| && InOrder(pos, marks[k..], n)
    ensures pos <= marks[l].start
    decreases l - k
  {
    assert marks[k..][0] == marks[k] && marks[k..][1..] == marks[k + 1..];
    if k < l { MarkStarts(marks, k + 1, marks[k].end, n, l); }
  }

  lemma {:induction false} TraceOrdered<T>(marks: seq<Hunk<T>>, k: int, pos: int, n: int)
    requires 0 <= k <= |marks| && InOrder(pos, marks[k..], n)
    ensures InBaseOrder(Trace(marks, k, pos, n), marks)
    decreases |marks| - k
  {
    if k < |marks| {
      var m := marks[k];
      assert marks[k..][0] == m && marks[k..][1..] == marks[k + 1..];
      TraceOrdered(marks, k + 1, m.end, n);
      var head, mid, tail := BaseRun(pos, m.start), MarkRun(k, |m.lines|), Trace(marks, k + 1, m.end, n);
      forall q | 0 <= q < |tail|
        ensures (forall p :: 0 <= p < |head| ==> Precedes(head[p], tail[q], marks))
             && (forall p :: 0 <= p < |mid| ==> Precedes(mid[p], tail[q], marks))
      {
        TraceComplete(marks, k + 1, m.end, n, tail[q]);
        if tail[q].FromMark? { MarkStarts(marks, k + 1, m.end, n, tail[q].k); }
      }
      OrderConcat(mid, tail, marks);
      OrderConcat(head, mid + tail, marks);
    }
  }

  /** Rendering conserves text: read in base order, the output shows every base line outside all
      hunks and regions once and every line of every marker once, and nothing else. */
  lemma RenderConserves<T>(base: seq<T>, marks: seq<Hunk<T>>)
    requires InOrder(0, marks, |base|)
    ensures var trace := Trace(marks, 0, 0, |base|);
            && ShowsAll(trace, ApplyFrom(base, 0, marks), base, marks)
            && InBaseOrder(trace, marks)
            && (forall p, q :: 0 <= p < q < |trace| ==> trace[p] != trace[q])
            && (forall at :: FromBase(at) in trace <==> 0 <= at < |base| && !Covered(at, marks, 0))
            && (forall k, j :: FromMark(k, j) in trace <==> 0 <= k < |marks| && 0 <= j < |marks[k].lines|)
  {
    assert marks[0..] == marks;
    var trace := Trace(marks, 0, 0, |base|);
    TraceShows(base, marks, 0, 0);
    TraceOrdered(marks, 0, 0, |base|);
    forall o: Origin ensures o in trace <==> Due(o, marks, 0, 0, |base|) {
      TraceComplete(marks, 0, 0, |base|, o);
    }
    forall p, q | 0 <= p < q < |trace| ensures trace[p] != trace[q] {
      assert Precedes(trace[p], trace[q], marks);
      TraceComplete(marks, 0, 0, |base|, trace[p]);
    }
  }

  // ----- in terms of the hunks and conflicts -----

  /** A line of the base, line j of a hunk, or a whole conflict. */
  datatype Piece<T> = BaseLine(at: int) | HunkLine(hunk: Hunk<T>, j: int) | Block(conflict: Conflict<T>)

  function StartOf<T>(p: Piece<T>): int {
    match p
    case BaseLine(at) => at
    case HunkLine(h, _) => h.start
    case Block(c) => c.start
  }

  function EndOf<T>(p: Piece<T>): int {
    match p
    case BaseLine(at) => at + 1
    case HunkLine(h, _) => h.end
    case Block(c) => c.end
  }

  /** A range in front of another, or an earlier line of the same hunk. */
  ghost predicate GoesBefore<T>(p: Piece<T>, q: Piece<T>) {
    if p.HunkLine? && q.HunkLine? && p.hunk == q.hunk then p.j < q.j else EndOf(p) <= StartOf(q)
  }

  /** Some hunk or conflict replaces this line of the base. */
  ghost predicate Claimed<T>(at: int, hunks: seq<Hunk<T>>, conflicts: seq<Conflict<T>>) {
    || (exists k :: 0 <= k < |hunks| && hunks[k].start <= at < hunks[k].end)
    || (exists k :: 0 <= k < |conflicts| && conflicts[k].start <= at < conflicts[k].end)
  }

  ghost predicate Belongs<T>(p: Piece<T>, n: int, hunks: seq<Hunk<T>>, conflicts: seq<Conflict<T>>) {
    match p
    case BaseLine(at) => 0 <= at < n && !Claimed(at, hunks, conflicts)
    case HunkLine(h, j) => h in hunks && 0 <= j < |h.lines|
    case Block(c) => c in conflicts
  }

  /** Every base line that nothing replaces, every line of every hunk and every conflict, each once and in base
      order, and nothing else. */
  ghost predicate ShowsOnce<T(!new)>(trace: seq<Piece<T>>, n: int, hunks: seq<Hunk<T>>, conflicts: seq<Conflict<T>>) {
    && (forall p :: p in trace <==> Belongs(p, n, hunks, conflicts))
    && (forall i, j :: 0 <= i < j < |trace| ==> trace[i] != trace[j] && GoesBefore(trace[i], trace[j]))
  }

  /** What a marker was made of. */
  datatype Mark<T> = OfHunk(hunk: Hunk<T>) | OfConflict(conflict: Conflict<T>)

  function PieceAt<T>(m: Mark<T>, j: int): Piece<T> {
    match m
    case OfHunk(h) => HunkLine(h, j)
    case OfConflict(c) => Block(c)
  }

  function PieceCount<T>(m: Mark<T>): nat {
    match m
    case OfHunk(h) => |h.lines|
    case OfConflict(_) => 1
  }

  /** The marker lies where the piece it was made of lies, and shows its lines through `show`. */
  ghost predicate Made<T, U>(marker: Hunk<U>, m: Mark<T>, show: Piece<T> -> U) {
    && marker.start == StartOf(PieceAt(m, 0)) && marker.end == EndOf(PieceAt(m, 0))
    && |marker.lines| == PieceCount(m) && forall j :: 0 <= j < |marker.lines| ==> marker.lines[j] == show(PieceAt(m, j))
  }

  ghost predicate AllMade<T, U>(markers: seq<Hunk<U>>, made: seq<Mark<T>>, show: Piece<T> -> U) {
    |markers| == |made| && forall k :: 0 <= k < |made| ==> Made(markers[k], made[k], show)
  }

  /** The markers were made of these hunks and conflicts. */
  ghost predicate MadeOf<T(!new)>(made: seq<Mark<T>>, hunks: seq<Hunk<T>>, conflicts: seq<Conflict<T>>) {
    && (forall h :: OfHunk(h) in made <==> h in hunks)
    && (forall c :: OfConflict(c) in made <==> c in conflicts)
  }

  function PieceFor<T>(o: Origin, made: seq<Mark<T>>): Piece<T> {
    match o
    case FromBase(at) => BaseLine(at)
    case FromMark(k, j) => if 0 <= k < |made| then PieceAt(made[k], j) else BaseLine(0)
  }

  function PiecesOf<T>(trace: seq<Origin>, made: seq<Mark<T>>): (r: seq<Piece<T>>)
    ensures |r| == |trace|
  {
    seq(|trace|, p requires 0 <= p < |trace| => PieceFor(trace[p], made))
  }

  /** The trace in terms of markers gives one in terms of what they were made of. */
  lemma TraceOf<T(!new), U>(base: seq<U>, markers: seq<Hunk<U>>, made: seq<Mark<T>>, hunks: seq<Hunk<T>>,
                            conflicts: seq<Conflict<T>>, show: Piece<T> -> U) returns (trace: seq<Piece<T>>)
    requires SideValid(markers, |base|) && InOrder(0, markers, |base|)
    requires AllMade(markers, made, show) && MadeOf(made, hunks, conflicts)
    requires forall at :: 0 <= at < |base| ==> base[at] == show(BaseLine(at))
    ensures ShowsOnce(trace, |base|, hunks, conflicts)
    ensures ApplyFrom(base, 0, markers) == Mapped(trace, show)
  {
    var origins := Trace(markers, 0, 0, |base|);
    RenderConserves(base, markers);
    trace := PiecesOf(origins, made);
    hide Trace, ApplyFrom, InOrder;
    SameText(base, markers, made, origins, ApplyFrom(base, 0, markers), show);
    forall p ensures p in trace <==> Belongs(p, |base|, hunks, conflicts) {
      PieceIs(origins, markers, made, |base|, hunks, conflicts, show, p);
    }
    OrderIs(origins, markers, made, |base|, show);
  }

  lemma SameText<T, U>(base: seq<U>, markers: seq<Hunk<U>>, made: seq<Mark<T>>, origins: seq<Origin>, lines: seq<U>,
                       show: Piece<T> -> U)
    requires AllMade(markers, made, show) && ShowsAll(origins, lines, base, markers)
    requires forall at :: 0 <= at < |base| ==> base[at] == show(BaseLine(at))
    ensures lines == Mapped(PiecesOf(origins, made), show)
  {
    var m := Mapped(PiecesOf(origins, made), show);
    forall p | 0 <= p < |lines| ensures lines[p] == m[p] {
      assert Shows(origins[p], lines[p], base, markers);
      if origins[p].FromMark? { assert Made(markers[origins[p].k], made[origins[p].k], show); }
    }
  }

  /** What the origins name. */
  ghost predicate Complete<U>(origins: seq<Origin>, markers: seq<Hunk<U>>, n: int) {
    && (forall at :: FromBase(at) in origins <==> 0 <= at < n && !Covered(at, markers, 0))
    && (forall k, j :: FromMark(k, j) in origins <==> 0 <= k < |markers| && 0 <= j < |markers[k].lines|)
  }

  lemma CoveredIs<T(!new), U>(markers: seq<Hunk<U>>, made: seq<Mark<T>>, hunks: seq<Hunk<T>>,
                              conflicts: seq<Conflict<T>>, show: Piece<T> -> U, at: int)
    requires AllMade(markers, made, show) && MadeOf(made, hunks, conflicts)
    ensures Covered(at, markers, 0) <==> Claimed(at, hunks, conflicts)
  {
    if Covered(at, markers, 0) {
      var k :| 0 <= k < |markers| && markers[k].start <= at < markers[k].end;
      assert Made(markers[k], made[k], show) && made[k] in made;
      match made[k] {
        case OfHunk(h) => var i :| 0 <= i < |hunks| && hunks[i] == h;
        case OfConflict(c) => var i :| 0 <= i < |conflicts| && conflicts[i] == c;
      }
    }
    if i :| 0 <= i < |hunks| && hunks[i].start <= at < hunks[i].end {
      assert OfHunk(hunks[i]) in made;
      var k :| 0 <= k < |made| && made[k] == OfHunk(hunks[i]);
      assert Made(markers[k], made[k], show);
    }
    if i :| 0 <= i < |conflicts| && conflicts[i].start <= at < conflicts[i].end {
      assert OfConflict(conflicts[i]) in made;
      var k :| 0 <= k < |made| && made[k] == OfConflict(conflicts[i]);
      assert Made(markers[k], made[k], show);
    }
  }

  lemma PieceIs<T(!new), U>(origins: seq<Origin>, markers: seq<Hunk<U>>, made: seq<Mark<T>>, n: int,
                            hunks: seq<Hunk<T>>, conflicts: seq<Conflict<T>>, show: Piece<T> -> U, p: Piece<T>)
    requires Complete(origins, markers, n) && AllMade(markers, made, show) && MadeOf(made, hunks, conflicts)
    ensures p in PiecesOf(origins, made) <==> Belongs(p, n, hunks, conflicts)
  {
    var trace := PiecesOf(origins, made);
    if p in trace {
      var i :| 0 <= i < |trace| && trace[i] == p;
      assert origins[i] in origins;
      if origins[i].FromBase? {
        CoveredIs(markers, made, hunks, conflicts, show, origins[i].at);
      } else {
        assert Made(markers[origins[i].k], made[origins[i].k], show) && made[origins[i].k] in made;
      }
    }
    if Belongs(p, n, hunks, conflicts) {
      match p {
        case BaseLine(at) =>
          CoveredIs(markers, made, hunks, conflicts, show, at);
          HasPiece(origins, made, FromBase(at));
        case HunkLine(h, j) =>
          assert OfHunk(h) in made;
          var k :| 0 <= k < |made| && made[k] == OfHunk(h);
          assert Made(markers[k], made[k], show);
          HasPiece(origins, made, FromMark(k, j));
        case Block(c) =>
          assert OfConflict(c) in made;
          var k :| 0 <= k < |made| && made[k] == OfConflict(c);
          assert Made(markers[k], made[k], show);
          HasPiece(origins, made, FromMark(k, 0));
      }
    }
  }

  lemma HasPiece<T>(origins: seq<Origin>, made: seq<Mark<T>>, o: Origin)
    requires o in origins
    ensures PieceFor(o, made) in PiecesOf(origins, made)
  {
    var i :| 0 <= i < |origins| && origins[i] == o;
    assert PiecesOf(origins, made)[i] == PieceFor(o, made);
  }

  lemma OrderIs<T, U>(origins: seq<Origin>, markers: seq<Hunk<U>>, made: seq<Mark<T>>, n: int, show: Piece<T> -> U)
    requires SideValid(markers, n) && AllMade(markers, made, show)
    requires InBaseOrder(origins, markers) && Complete(origins, markers, n)
    ensures var trace := PiecesOf(origins, made);
            forall i, j :: 0 <= i < j < |trace| ==> trace[i] != trace[j] && GoesBefore(trace[i], trace[j])
  {
    var trace := PiecesOf(origins, made);
    forall i, j | 0 <= i < j < |trace| ensures trace[i] != trace[j] && GoesBefore(trace[i], trace[j]) {
      assert origins[i] in origins && origins[j] in origins && Precedes(origins[i], origins[j], markers);
      PiecesInOrder(origins[i], origins[j], markers, made, n, show);
    }
  }

  ghost predicate Named<U>(o: Origin, markers: seq<Hunk<U>>) {
    o.FromMark? ==> 0 <= o.k < |markers| && 0 <= o.j < |markers[o.k].lines|
  }

  lemma PiecesInOrder<T,
    U>(a: Origin, b: Origin, markers: seq<Hunk<U>>, made: seq<Mark<T>>, n: int, show: Piece<T> -> U)
    requires SideValid(markers, n) && AllMade(markers, made, show)
    requires Named(a, markers) && Named(b, markers) && Precedes(a, b, markers)
    ensures PieceFor(a, made) != PieceFor(b, made) && GoesBefore(PieceFor(a, made), PieceFor(b, made))
  {
    if a.FromMark? { assert Made(markers[a.k], made[a.k], show) && Within(markers[a.k], n); }
    if b.FromMark? { assert Made(markers[b.k], made[b.k], show) && Within(markers[b.k], n); }
    if a.FromMark? && b.FromMark? && a.k < b.k { assert Before(markers[a.k], markers[b.k]); }
  }
}
