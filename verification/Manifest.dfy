/** The client's view of the server: a map kept as a log of rows, compacted now and then. */
module Manifests {
  import opened Protocol

  datatype Entry = Entry(hash: Hash, binary: bool)

  datatype Row = Live(path: Path, entry: Entry) | Tombstone(path: Path)

  type View = map<Path, Entry>

  function ApplyRow(v: View, r: Row): View {
    match r
    case Live(p, e) => v[p := e]
    case Tombstone(p) => v - {p}
  }

  /** What a log of rows says: the latest row of each path wins. */
  function Replay(rows: seq<Row>): View {
    if rows == [] then map[] else ApplyRow(Replay(rows[..|rows| - 1]), rows[|rows| - 1])
  }

  lemma ReplaySnoc(rows: seq<Row>, r: Row)
    ensures Replay(rows + [r]) == ApplyRow(Replay(rows), r)
  {
    assert (rows + [r])[..|rows|] == rows;
  }

  /** The last row on a path, if any. */
  ghost predicate LastRow(rows: seq<Row>, p: Path, i: int) {
    0 <= i < |rows| && rows[i].path == p && forall j :: i < j < |rows| ==> rows[j].path != p
  }

  /** The latest row wins: the path is live exactly when its last row is, with that row's entry. */
  lemma {:induction false} LatestWins(rows: seq<Row>, p: Path)
    ensures p in Replay(rows) <==> exists i :: LastRow(rows, p, i) && rows[i].Live?
    ensures forall i :: LastRow(rows, p, i) && rows[i].Live? ==> p in Replay(rows) && Replay(rows)[p] == rows[i].entry
  {
    if rows != [] {
      var front, last := rows[..|rows| - 1], rows[|rows| - 1];
      LatestWins(front, p);
      if last.path == p {
        assert LastRow(rows, p, |rows| - 1);
      } else {
        forall i ensures LastRow(rows, p, i) <==> LastRow(front, p, i) {
          if LastRow(front, p, i) { assert forall j :: i < j < |front| ==> rows[j] == front[j]; }
          if LastRow(rows, p, i) { assert forall j :: i < j < |front| ==> front[j] == rows[j]; }
        }
      }
    }
  }

  // ----- what is known in memory -----

  /** The live view and how many rows the log has. */
  datatype Known = Known(live: View, rows: nat)

  predicate LooksNew(k: Known) { |k.live| == 0 && k.rows == 0 }

  function Compacted(k: Known): Known { k.(rows := |k.live|) }

  /** A row more, and a compaction when the log has outgrown the live set twice over. */
  function Appended(k: Known, r: Row): Known {
    var live := ApplyRow(k.live, r);
    if k.rows + 1 > 2 * |live| && |live| > 0 then Known(live, |live|) else Known(live, k.rows + 1)
  }

  datatype Change = Recorded(row: Row) | LogCompacted

  function After(k: Known, run: seq<Change>): Known {
    if run == [] then k
    else
      var before := After(k, run[..|run| - 1]);
      match run[|run| - 1]
      case Recorded(r) => Appended(before, r)
      case LogCompacted => Compacted(before)
  }

  /** Compacting makes a manifest look new exactly when nothing is live and something was recorded. */
  lemma CompactMisleadsIff(k: Known)
    ensures LooksNew(Compacted(k)) != LooksNew(k) <==> |k.live| == 0 && k.rows > 0
  {
  }

  /** The i-th change compacts a log with nothing live, and nothing is recorded after it. */
  ghost predicate Wipes(k: Known, run: seq<Change>, i: int) {
    && 0 <= i < |run| && run[i].LogCompacted? && |After(k, run[..i]).live| == 0
    && forall j :: i < j < |run| ==> run[j].LogCompacted?
  }

  lemma WipesFront(k: Known, run: seq<Change>, i: int)
    requires run != [] && run[|run| - 1].LogCompacted? && 0 <= i < |run| - 1
    ensures Wipes(k, run, i) <==> Wipes(k, run[..|run| - 1], i)
  {
    assert run[..|run| - 1][..i] == run[..i];
  }

  /** Over any run a manifest looks new exactly if nothing was ever recorded, or an explicit compaction
      with nothing live was the last thing that happened to it. Records alone never make it look new,
      and reopening changes neither the view nor the number of rows. */
  lemma {:induction false} LooksNewIff(k: Known, run: seq<Change>)
    ensures LooksNew(After(k, run)) <==>
      (LooksNew(k) && forall j :: 0 <= j < |run| ==> run[j].LogCompacted?) || exists i :: Wipes(k, run, i)
  {
    if run != [] {
      var n := |run| - 1;
      var front := run[..n];
      LooksNewIff(k, front);
      if run[n].LogCompacted? {
        forall i | 0 <= i < n ensures Wipes(k, run, i) <==> Wipes(k, front, i) { WipesFront(k, run, i); }
        if |After(k, front).live| == 0 { assert Wipes(k, run, n); }
        assert forall j :: 0 <= j < n ==> run[j] == front[j];
        if Wipes(k, run, n) { assert |After(k, front).live| == 0; }
      }
    }
  }

  class Manifest {
    var live: View
    var rows: nat
    var log: seq<Row>

    /** What is in memory is what the log on disk says. */
    ghost predicate Valid() reads this { live == Replay(log) && rows == |log| }

    /** `OpenManifest`: replay the rows on disk. */
    constructor (file: seq<Row>)
      ensures Valid() && log == file && State() == Known(Replay(file), |file|)
    {
      live, rows, log := map[], 0, file;
      new;
      for i := 0 to |file|
        invariant live == Replay(file[..i]) && rows == i && log == file
      {
        assert file[..i + 1] == file[..i] + [file[i]];
        ReplaySnoc(file[..i], file[i]);
        rows := rows + 1;
        match file[i] {
          case Live(p, e) => live := live[p := e];
          case Tombstone(p) => live := live - {p};
        }
      }
      assert file[..|file|] == file;
    }

    function State(): Known reads this { Known(live, rows) }

    predicate IsEmpty() reads this { |live| == 0 && rows == 0 }

    method Put(p: Path, e: Entry)
      requires Valid()
      modifies this
      ensures Valid() && live == old(live)[p := e] && Bounded()
      ensures State() == Appended(old(State()), Live(p, e)) && !IsEmpty()
    {
      AppendRow(Live(p, e));
    }

    method Delete(p: Path)
      requires Valid()
      modifies this
      ensures Valid() && live == old(live) - {p} && Bounded()
      ensures State() == Appended(old(State()), Tombstone(p)) && !IsEmpty()
    {
      AppendRow(Tombstone(p));
    }

    /** The log never grows past twice the live set, unless nothing is live. */
    ghost predicate Bounded() reads this { |live| == 0 || rows <= 2 * |live| }

    method AppendRow(r: Row)
      requires Valid()
      modifies this
      ensures Valid() && live == ApplyRow(old(live), r) && Bounded()
      ensures State() == Appended(old(State()), r) && !IsEmpty()
      ensures log == old(log) + [r] || |log| == |live|
    {
      ReplaySnoc(log, r);
      hide Replay;
      log := log + [r];
      rows := rows + 1;
      match r {
        case Live(p, e) => live := live[p := e];
        case Tombstone(p) => live := live - {p};
      }
      if rows > 2 * |live| && |live| > 0 {
        Compact();
      }
    }

    /** One row for each live path, in any order. */
    method LiveRows() returns (compact: seq<Row>)
      ensures Replay(compact) == live && |compact| == |live|
      ensures forall i :: 0 <= i < |compact| ==> compact[i].Live?
    {
      compact := [];
      ghost var done: set<Path> := {};
      var todo := live.Keys;
      RestrictEnds(live);
      while todo != {}
        invariant todo == live.Keys - done && done <= live.Keys
        invariant Replay(compact) == Restrict(live, done) && |compact| == |done|
        invariant forall i :: 0 <= i < |compact| ==> compact[i].Live?
        decreases todo
      {
        var p :| p in todo;
        ReplaySnoc(compact, Live(p, live[p]));
        RestrictMore(live, done, p);
        compact := compact + [Live(p, live[p])];
        todo, done := todo - {p}, done + {p};
      }
      assert done == live.Keys;
    }

    /** Rewriting the log does not change the view. */
    method Compact()
      requires Valid()
      modifies this`rows, this`log
      ensures Valid() && |log| == |live| && State() == Compacted(old(State()))
      ensures IsEmpty() != old(IsEmpty()) <==> |live| == 0 && old(rows) > 0
      ensures forall i :: 0 <= i < |log| ==> log[i].Live?
    {
      CompactMisleadsIff(State());
      var compact := LiveRows();
      log := compact;
      rows := |live|;
    }
  }

  lemma RestrictEnds(v: View)
    ensures Restrict(v, {}) == map[] && Restrict(v, v.Keys) == v && |v.Keys| == |v|
  {
  }

  lemma RestrictMore(v: View, ps: set<Path>, p: Path)
    requires p in v
    ensures Restrict(v, ps + {p}) == Restrict(v, ps)[p := v[p]]
  {
  }

  ghost function Restrict(v: View, ps: set<Path>): View { map p | p in v && p in ps :: v[p] }

  /** A vault whose files are all gone is not mistaken for a first run, until its log is compacted. */
  method TombstonesThenCompact(p: Path, e: Entry) returns (m: Manifest, before: bool, after: bool)
    ensures !before && after
  {
    m := new Manifest([Live(p, e), Tombstone(p)]);
    ReplaySnoc([], Live(p, e));
    ReplaySnoc([Live(p, e)], Tombstone(p));
    assert [] + [Live(p, e)] == [Live(p, e)] && [Live(p, e)] + [Tombstone(p)] == m.log;
    assert m.live == map[];
    before := m.IsEmpty();
    m.Compact();
    after := m.IsEmpty();
  }
}
