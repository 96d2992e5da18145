/** From a line diff to one side's edit list. The diff itself is taken as given. */
module ComputeHunks {
  import opened Seqs
  import opened Hunks

  datatype ChunkKind = Equal | Delete | Insert

  /** One run of a line diff. */
  datatype Chunk<T> = Chunk(kind: ChunkKind, lines: seq<T>)

  ghost function OldLines<T>(cs: seq<Chunk<T>>): seq<T> {
    if cs == [] then []
    else (if cs[0].kind == Insert then [] else cs[0].lines) + OldLines(cs[1..])
  }

  ghost function NewLines<T>(cs: seq<Chunk<T>>): seq<T> {
    if cs == [] then []
    else (if cs[0].kind == Delete then [] else cs[0].lines) + NewLines(cs[1..])
  }

  ghost predicate NonEmpty<T>(cs: seq<Chunk<T>>) {
    forall i :: 0 <= i < |cs| ==> cs[i].lines != []
  }

  /** Between two equal runs the diff has at most one deletion and one insertion. */
  ghost predicate Normalised<T>(cs: seq<Chunk<T>>) {
    && (forall i :: 0 <= i && i + 1 < |cs| && cs[i].kind != Equal ==> cs[i + 1].kind != cs[i].kind)
    && (forall i :: 0 <= i && i + 2 < |cs| && cs[i].kind != Equal ==>
                      cs[i + 1].kind == Equal || cs[i + 2].kind == Equal)
  }

  /** One hunk per edit chunk, before folding. */
  ghost function RawHunks<T>(cs: seq<Chunk<T>>, at: int): seq<Hunk<T>> {
    if cs == [] then []
    else match cs[0].kind
      case Equal => RawHunks(cs[1..], at + |cs[0].lines|)
      case Delete => [Hunk(at, at + |cs[0].lines|, [])] + RawHunks(cs[1..], at + |cs[0].lines|)
      case Insert => [Hunk(at, at, cs[0].lines)] + RawHunks(cs[1..], at)
  }

  predicate DeleteThenInsert<T>(cur: Hunk<T>, next: Hunk<T>) {
    cur.end == next.start && |cur.lines| == 0 && next.start == next.end
  }

  predicate InsertThenDelete<T>(cur: Hunk<T>, next: Hunk<T>) {
    cur.start == cur.end && next.start == cur.start && |next.lines| == 0
  }

  /** A deletion and an insertion at the same place become one replacement. */
  ghost function Fold<T>(hs: seq<Hunk<T>>): seq<Hunk<T>> {
    if |hs| < 2 then hs
    else if DeleteThenInsert(hs[0], hs[1]) then
      [Hunk(hs[0].start, hs[0].end, hs[1].lines)] + Fold(hs[2..])
    else if InsertThenDelete(hs[0], hs[1]) then
      [Hunk(hs[1].start, hs[1].end, hs[0].lines)] + Fold(hs[2..])
    else [hs[0]] + Fold(hs[1..])
  }

  lemma {:induction false} SplitBase<T>(base: seq<T>, at: int, l: seq<T>, rest: seq<T>)
    requires 0 <= at <= |base| && base[at..] == l + rest
    ensures at + |l| <= |base| && base[at..at + |l|] == l && base[at + |l|..] == rest
  {
    assert |base[at..]| == |l| + |rest|;
    assert base[at..at + |l|] == base[at..][..|l|];
    assert base[at + |l|..] == base[at..][|l|..];
  }

  ghost predicate Rebuilds<T>(base: seq<T>, at: int, hs: seq<Hunk<T>>, out: seq<T>) {
    InOrder(at, hs, |base|) && ApplyFrom(base, at, hs) == out
  }

  lemma {:induction false} RebuildEdit<T>(base: seq<T>, at: int, h: Hunk<T>, hs: seq<Hunk<T>>, out: seq<T>)
    requires 0 <= at == h.start <= h.end && Rebuilds(base, h.end, hs, out)
    ensures Rebuilds(base, at, [h] + hs, h.lines + out)
  {
    ApplyCons(base, at, h, hs);
    assert base[at..at] == [];
  }

  lemma {:induction false} RebuildEqual<T>(base: seq<T>, at: int, l: seq<T>, hs: seq<Hunk<T>>, out: seq<T>)
    requires 0 <= at && at + |l| <= |base| && base[at..at + |l|] == l && Rebuilds(base, at + |l|, hs, out)
    ensures Rebuilds(base, at, hs, l + out)
  {
    ApplyEarlier(base, at, at + |l|, hs);
    assert ApplyFrom(base, at, hs) == l + out;
  }

  lemma FirstChunk<T>(cs: seq<Chunk<T>>, at: int)
    requires cs != []
    ensures var l, tail := cs[0].lines, cs[1..];
            match cs[0].kind
            case Equal => && OldLines(cs) == l + OldLines(tail) && NewLines(cs) == l + NewLines(tail)
                          && RawHunks(cs, at) == RawHunks(tail, at + |l|)
            case Delete => && OldLines(cs) == l + OldLines(tail) && NewLines(cs) == NewLines(tail)
                           && RawHunks(cs, at) == [Hunk(at, at + |l|, [])] + RawHunks(tail, at + |l|)
            case Insert => && OldLines(cs) == OldLines(tail) && NewLines(cs) == l + NewLines(tail)
                           && RawHunks(cs, at) == [Hunk(at, at, l)] + RawHunks(tail, at)
  {
  }

  /** The raw hunks applied to the base give the modified text, whatever the diff looks like; base
      lines that the diff does not reach stay at the end. */
  lemma {:induction false} RawRebuilds<T>(base: seq<T>, cs: seq<Chunk<T>>, at: int, rest: seq<T>)
    requires 0 <= at <= |base| && base[at..] == OldLines(cs) + rest
    ensures Rebuilds(base, at, RawHunks(cs, at), NewLines(cs) + rest)
    decreases cs
  {
    if cs == [] {
      assert [] + rest == rest;
    } else {
      FirstChunk(cs, at);
      hide Rebuilds, RawHunks, OldLines, NewLines;
      var l, tail := cs[0].lines, cs[1..];
      var out := NewLines(tail) + rest;
      Assoc(l, NewLines(tail), rest);
      if cs[0].kind == Insert {
        RawRebuilds(base, tail, at, rest);
        RebuildEdit(base, at, Hunk(at, at, l), RawHunks(tail, at), out);
      } else {
        Assoc(l, OldLines(tail), rest);
        SplitBase(base, at, l, OldLines(tail) + rest);
        RawRebuilds(base, tail, at + |l|, rest);
        if cs[0].kind == Equal {
          RebuildEqual(base, at, l, RawHunks(tail, at + |l|), out);
        } else {
          RebuildEdit(base, at, Hunk(at, at + |l|, []), RawHunks(tail, at + |l|), out);
          assert [] + out == out;
        }
      }
    }
  }

  lemma {:induction false} FoldPair<T>(base: seq<T>, pos: int, cur: Hunk<T>, next: Hunk<T>, rest: seq<Hunk<T>>,
                                       both: Hunk<T>)
    requires InOrder(pos, [cur, next] + rest, |base|)
    requires DeleteThenInsert(cur, next) || InsertThenDelete(cur, next)
    requires both == if DeleteThenInsert(cur, next) then Hunk(cur.start, cur.end, next.lines)
                     else Hunk(next.start, next.end, cur.lines)
    ensures InOrder(next.end, rest, |base|) && InOrder(pos, [both] + rest, |base|)
    ensures ApplyFrom(base, pos, [cur, next] + rest) == ApplyFrom(base, pos, [both] + rest)
  {
    var hs := [cur, next] + rest;
    assert hs[0] == cur && hs[1..] == [next] + rest;
    assert hs[1..][0] == next && hs[1..][1..] == rest;
    ApplyCons(base, cur.end, next, rest);
    ApplyCons(base, pos, cur, [next] + rest);
    ApplyCons(base, pos, both, rest);
    assert base[cur.end..next.start] == [];
  }

  lemma {:induction false} FoldKeepsMeaning<T>(base: seq<T>, pos: int, hs: seq<Hunk<T>>)
    requires InOrder(pos, hs, |base|)
    ensures InOrder(pos, Fold(hs), |base|)
    ensures ApplyFrom(base, pos, Fold(hs)) == ApplyFrom(base, pos, hs)
    decreases hs
  {
    if |hs| >= 2 {
      var cur, next := hs[0], hs[1];
      if DeleteThenInsert(cur, next) || InsertThenDelete(cur, next) {
        var rest := hs[2..];
        assert hs == [cur, next] + rest;
        var both := Fold(hs)[0];
        FoldPair(base, pos, cur, next, rest, both);
        assert both.end == next.end;
        FoldKeepsMeaning(base, next.end, rest);
        ApplyCons(base, pos, both, rest);
        ApplyCons(base, pos, both, Fold(rest));
      } else {
        FoldKeepsMeaning(base, cur.end, hs[1..]);
        ApplyCons(base, pos, cur, Fold(hs[1..]));
      }
    }
  }

  lemma {:induction false} RawStep<T>(cs: seq<Chunk<T>>, k: int, at: int, done: seq<Hunk<T>>)
    requires 0 <= k < |cs|
    ensures done + RawHunks(cs[k..], at) ==
            match cs[k].kind
            case Equal => done + RawHunks(cs[k + 1..], at + |cs[k].lines|)
            case Delete => done + [Hunk(at, at + |cs[k].lines|, [])] + RawHunks(cs[k + 1..], at + |cs[k].lines|)
            case Insert => done + [Hunk(at, at, cs[k].lines)] + RawHunks(cs[k + 1..], at)
  {
    assert cs[k..][0] == cs[k] && cs[k..][1..] == cs[k + 1..];
  }

  lemma {:induction false} FoldStep<T>(hs: seq<Hunk<T>>, i: int, done: seq<Hunk<T>>)
    requires 0 <= i < |hs|
    ensures done + Fold(hs[i..]) ==
            if i + 1 < |hs| && DeleteThenInsert(hs[i], hs[i + 1]) then
              done + [Hunk(hs[i].start, hs[i].end, hs[i + 1].lines)] + Fold(hs[i + 2..])
            else if i + 1 < |hs| && InsertThenDelete(hs[i], hs[i + 1]) then
              done + [Hunk(hs[i + 1].start, hs[i + 1].end, hs[i].lines)] + Fold(hs[i + 2..])
            else done + [hs[i]] + Fold(hs[i + 1..])
  {
    var t := hs[i..];
    assert t[0] == hs[i] && t[1..] == hs[i + 1..];
    if i + 1 < |hs| {
      assert t[1] == hs[i + 1] && t[2..] == hs[i + 2..];
    } else {
      assert t == [hs[i]] && t[1..] == [];
    }
  }

  /** The walk over the diff: one raw hunk per edit. */
  method WalkDiff<T>(cs: seq<Chunk<T>>) returns (hunks: seq<Hunk<T>>)
    ensures hunks == RawHunks(cs, 0)
  {
    hide RawHunks;
    hunks := [];
    var baseLine := 0;
    var k := 0;
    assert cs[0..] == cs;
    while k < |cs|
      invariant 0 <= k <= |cs|
      invariant RawHunks(cs, 0) == hunks + RawHunks(cs[k..], baseLine)
    {
      var n := |cs[k].lines|;
      RawStep(cs, k, baseLine, hunks);
      match cs[k].kind {
        case Equal => baseLine := baseLine + n;
        case Delete =>
          hunks := hunks + [Hunk(baseLine, baseLine + n, [])];
          baseLine := baseLine + n;
        case Insert =>
          hunks := hunks + [Hunk(baseLine, baseLine, cs[k].lines)];
      }
      k := k + 1;
    }
    assert cs[k..] == [];
    NoRaw<T>(baseLine, hunks);
  }

  lemma NoRaw<T>(at: int, done: seq<Hunk<T>>)
    ensures done + RawHunks<T>([], at) == done
  {
  }

  /** The folding pass. */
  method FoldNeighbours<T>(hunks: seq<Hunk<T>>) returns (merged: seq<Hunk<T>>)
    ensures merged == Fold(hunks)
  {
    merged := [];
    var i := 0;
    assert hunks[0..] == hunks;
    while i < |hunks|
      invariant 0 <= i <= |hunks|
      invariant Fold(hunks) == merged + Fold(hunks[i..])
    {
      var h := hunks[i];
      FoldStep(hunks, i, merged);
      if i + 1 < |hunks| {
        var cur, next := hunks[i], hunks[i + 1];
        if cur.end == next.start && |cur.lines| == 0 && next.start == next.end {
          h := Hunk(cur.start, cur.end, next.lines);
          i := i + 1;
        } else if cur.start == cur.end && next.start == cur.start && |next.lines| == 0 {
          h := Hunk(next.start, next.end, cur.lines);
          i := i + 1;
        }
      }
      merged := merged + [h];
      i := i + 1;
    }
  }

  /** The edit list that a diff amounts to. */
  ghost function Side<T>(cs: seq<Chunk<T>>): seq<Hunk<T>> { Fold(RawHunks(cs, 0)) }

  /** `computeHunks`. Applied to the base the hunks give back the modified text, for any diff of
      the two, followed by what of the base the diff did not reach; a normalised diff moreover gives a
      valid side with a line between any two hunks. */
  method ComputeHunks<T>(cs: seq<Chunk<T>>, ghost base: seq<T>, ghost rest: seq<T>) returns (merged: seq<Hunk<T>>)
    requires NonEmpty(cs) && base == OldLines(cs) + rest
    ensures merged == Side(cs)
    ensures InOrder(0, merged, |base|)
    ensures ApplyFrom(base, 0, merged) == NewLines(cs) + rest
    ensures Normalised(cs) ==> SideValid(merged, |base|) && Separated(merged)
  {
    var hunks := WalkDiff(cs);
    merged := FoldNeighbours(hunks);
    SideRebuilds(cs, base, rest);
    if Normalised(cs) { DiffIsValid(cs, base, rest); }
  }

  lemma SideRebuilds<T>(cs: seq<Chunk<T>>, base: seq<T>, rest: seq<T>)
    requires NonEmpty(cs) && base == OldLines(cs) + rest
    ensures InOrder(0, Side(cs), |base|) && ApplyFrom(base, 0, Side(cs)) == NewLines(cs) + rest
  {
    assert base[0..] == base;
    RawRebuilds(base, cs, 0, rest);
    FoldKeepsMeaning(base, 0, RawHunks(cs, 0));
  }

  lemma DiffIsValid<T>(cs: seq<Chunk<T>>, base: seq<T>, rest: seq<T>)
    requires NonEmpty(cs) && base == OldLines(cs) + rest && Normalised(cs)
    ensures SideValid(Side(cs), |base|) && Separated(Side(cs))
  {
    SideRebuilds(cs, base, rest);
    FoldSeparates(cs, 0);
    SeparatedIsValid(Side(cs), 0, |base|);
  }

  /** Every hunk starts strictly after the previous one ended. */
  ghost predicate Separated<T>(hs: seq<Hunk<T>>) {
    forall i :: 0 <= i && i + 1 < |hs| ==> hs[i].end < hs[i + 1].start
  }

  lemma {:induction false} SeparatedIsValid<T>(hs: seq<Hunk<T>>, pos: int, n: int)
    requires InOrder(pos, hs, n) && Separated(hs)
    ensures SideValid(hs, n)
    ensures forall i :: 0 <= i < |hs| ==> pos <= hs[i].start
    decreases hs
  {
    if hs != [] {
      var rest := hs[1..];
      forall i | 0 <= i && i + 1 < |rest| ensures rest[i].end < rest[i + 1].start {
        assert rest[i] == hs[i + 1] && rest[i + 1] == hs[i + 2];
      }
      SeparatedIsValid(rest, hs[0].end, n);
      if rest != [] { assert hs[0].end < hs[1].start; }
      forall j | 0 < j < |hs| ensures Before(hs[0], hs[j]) && Within(hs[j], n) && pos <= hs[j].start {
        assert hs[j] == rest[j - 1];
        if j > 1 { assert Before(rest[0], rest[j - 1]); }
      }
      forall i, j | 0 < i < j < |hs| ensures Before(hs[i], hs[j]) {
        assert Before(rest[i - 1], rest[j - 1]);
      }
    }
  }

  lemma {:induction false} TailNormalised<T>(cs: seq<Chunk<T>>, k: int)
    requires 0 <= k <= |cs| && NonEmpty(cs) && Normalised(cs)
    ensures NonEmpty(cs[k..]) && Normalised(cs[k..])
  {
    var t := cs[k..];
    forall i | 0 <= i && i + 2 < |t| && t[i].kind != Equal
      ensures t[i + 1].kind == Equal || t[i + 2].kind == Equal
    {
      assert t[i] == cs[k + i] && t[i + 1] == cs[k + i + 1] && t[i + 2] == cs[k + i + 2];
    }
    forall i | 0 <= i && i + 1 < |t| && t[i].kind != Equal ensures t[i + 1].kind != t[i].kind {
      assert t[i] == cs[k + i] && t[i + 1] == cs[k + i + 1];
    }
  }

  /** The folded hunks of a normalised diff lie at least one equal line apart. */
  ghost predicate FoldedFrom<T>(cs: seq<Chunk<T>>, at: int) {
    var f := Fold(RawHunks(cs, at));
    Separated(f) && (f != [] ==> at <= f[0].start && (cs != [] && cs[0].kind == Equal ==> at < f[0].start))
  }

  lemma {:induction false} FoldLone<T>(cs: seq<Chunk<T>>, at: int, h: Hunk<T>, here: int)
    requires NonEmpty(cs) && cs != [] && cs[0].kind == Equal
    requires h.start <= h.end == here && (h.start == h.end || h.lines == [])
    requires FoldedFrom(cs, here) && at <= h.start
    ensures var f := Fold([h] + RawHunks(cs, here)); Separated(f) && f != [] && at <= f[0].start
  {
    var tail := RawHunks(cs, here);
    RawAfterEqual(cs, here);
    assert ([h] + tail)[1..] == tail;
    FoldStep([h] + tail, 0, []);
    SeparatedCons(h, Fold(tail));
  }

  lemma {:induction false} FoldPairStep<T>(a: Hunk<T>, b: Hunk<T>, rest: seq<Hunk<T>>)
    requires DeleteThenInsert(a, b) || InsertThenDelete(a, b)
    ensures Fold([a] + ([b] + rest)) ==
            [if DeleteThenInsert(a, b) then Hunk(a.start, a.end, b.lines) else Hunk(b.start, b.end, a.lines)]
              + Fold(rest)
  {
    var hs := [a] + ([b] + rest);
    assert hs[0] == a && hs[1] == b && hs[2..] == rest;
  }

  lemma {:induction false} FoldTwo<T>(cs: seq<Chunk<T>>, at: int)
    requires |cs| >= 2 && cs[0].kind != Equal && cs[1].kind != Equal && cs[0].kind != cs[1].kind
    requires |cs| > 2 ==> cs[2].kind == Equal
    requires NonEmpty(cs) && FoldedFrom(cs[2..], at + |cs[if cs[0].kind == Delete then 0 else 1].lines|)
    ensures FoldedFrom(cs, at)
  {
    var d := if cs[0].kind == Delete then 0 else 1;
    var next := at + |cs[d].lines|;
    var here := if d == 0 then next else at;
    var del, ins := Hunk(at, next, []), Hunk(here, here, cs[1 - d].lines);
    var rest := RawHunks(cs[2..], next);
    RawTwo(cs, at);
    hide RawHunks;
    FoldPairStep(if d == 0 then del else ins, if d == 0 then ins else del, rest);
    SeparatedCons(Hunk(at, next, ins.lines), Fold(rest));
  }

  lemma {:induction false} RawTwo<T>(cs: seq<Chunk<T>>, at: int)
    requires |cs| >= 2 && cs[0].kind != Equal && cs[1].kind != Equal && cs[0].kind != cs[1].kind
    ensures var d := if cs[0].kind == Delete then 0 else 1;
            var next := at + |cs[d].lines|;
            var here := if d == 0 then next else at;
            var del, ins := Hunk(at, next, []), Hunk(here, here, cs[1 - d].lines);
            RawHunks(cs, at)
              == [if d == 0 then del else ins] + ([if d == 0 then ins else del] + RawHunks(cs[2..], next))
  {
    var t := cs[1..];
    assert t[0] == cs[1] && t[1..] == cs[2..];
  }

  lemma {:induction false} FoldSeparates<T>(cs: seq<Chunk<T>>, at: int)
    requires NonEmpty(cs) && Normalised(cs)
    ensures FoldedFrom(cs, at)
    decreases cs
  {
    if cs == [] {
    } else if cs[0].kind == Equal {
      TailNormalised(cs, 1);
      FoldSeparates(cs[1..], at + |cs[0].lines|);
    } else if |cs| == 1 || cs[1].kind == Equal {
      var here := if cs[0].kind == Delete then at + |cs[0].lines| else at;
      if |cs| == 1 {
        assert RawHunks(cs[1..], here) == [];
      } else {
        TailNormalised(cs, 1);
        FoldSeparates(cs[1..], here);
        FoldLone(cs[1..], at, RawHunks(cs, at)[0], here);
      }
    } else {
      TailNormalised(cs, 2);
      FoldSeparates(cs[2..], at + |cs[if cs[0].kind == Delete then 0 else 1].lines|);
      FoldTwo(cs, at);
    }
  }

  lemma {:induction false} SeparatedCons<T>(h: Hunk<T>, rest: seq<Hunk<T>>)
    requires Separated(rest) && (rest != [] ==> h.end < rest[0].start)
    ensures Separated([h] + rest)
  {
    var hs := [h] + rest;
    forall i | 0 <= i && i + 1 < |hs| ensures hs[i].end < hs[i + 1].start {
      if i > 0 { assert hs[i] == rest[i - 1] && hs[i + 1] == rest[i]; }
    }
  }

  /** After an equal run the next hunk cannot fold with what came before it. */
  lemma {:induction false} RawAfterEqual<T>(cs: seq<Chunk<T>>, at: int)
    requires NonEmpty(cs) && cs != [] && cs[0].kind == Equal
    ensures RawHunks(cs, at) != [] ==> at < RawHunks(cs, at)[0].start
  {
    RawStart(cs[1..], at + |cs[0].lines|);
  }

  lemma {:induction false} RawStart<T>(cs: seq<Chunk<T>>, at: int)
    requires NonEmpty(cs)
    ensures RawHunks(cs, at) != [] ==> at <= RawHunks(cs, at)[0].start
  {
    if cs != [] && cs[0].kind == Equal {
      RawStart(cs[1..], at + |cs[0].lines|);
    }
  }
}
