/** What the three-way merge guarantees about the text it returns. */
module MergedText {
  import opened Classification
  import opened Texts
  import opened Hunks
  import opened ThreeWay
  import opened Merging

  ghost predicate TextLines(lines: Lines) { forall x :: x in lines ==> IsText(x) }

  lemma {:induction false} SplitIsText(s: string)
    requires IsText(s)
    ensures TextLines(Split(s))
  {
    if s != "" {
      SplitIsText(s[1..]);
      var r := Split(s[1..]);
      assert r[0] in r;
      if s[0] != '\n' {
        assert IsText([s[0]] + r[0]);
        forall x | x in Split(s) ensures IsText(x) { assert x == [s[0]] + r[0] || x in r[1..]; }
      }
    }
  }

  lemma SplitLinesIsText(s: string)
    requires IsText(s)
    ensures TextLines(SplitLines(s))
  {
    if s != "" { SplitIsText(s); }
  }

  lemma {:induction false} JoinIsText(lines: Lines)
    requires TextLines(lines)
    ensures IsText(Join(lines))
  {
    if |lines| > 1 {
      assert TextLines(lines[1..]);
      JoinIsText(lines[1..]);
      assert lines[0] in lines;
      var first := lines[0] + "\n";
      assert IsText(first) && Join(lines) == first + Join(lines[1..]);
    }
  }

  /** Every merged line is a line of one side: a base line is kept only if both sides kept it. */
  lemma {:induction false} MergedFrom<T>(base: seq<T>, pos: int, a: seq<Hunk<T>>, b: seq<Hunk<T>>, x: T)
    requires SideValid(a, |base|) && SideValid(b, |base|) && Disjoint(a, b)
    requires 0 <= pos <= |base| && After(a, pos) && After(b, pos)
    requires InOrder(pos, MergeSides(a, b), |base|) && InOrder(pos, a, |base|) && InOrder(pos, b, |base|)
    requires x in ApplyFrom(base, pos, MergeSides(a, b))
    ensures x in ApplyFrom(base, pos, a) || x in ApplyFrom(base, pos, b)
    decreases |a| + |b|
  {
    TailDisjoint(a, b);
    if b != [] {
      if a != [] && Before(a[0], b[0]) {
        FirstMerged(base, pos, a, b, x);
        if x in ApplyFrom(base, a[0].end, MergeSides(a[1..], b)) { MergedFrom(base, a[0].end, a[1..], b, x); }
      } else {
        if a != [] { Trichotomy(a[0].start, a[0].end, b[0].start, b[0].end); }
        SecondMerged(base, pos, a, b, x);
        if x in ApplyFrom(base, b[0].end, MergeSides(a, b[1..])) { MergedFrom(base, b[0].end, a, b[1..], x); }
      }
    }
  }

  lemma FirstMerged<T>(base: seq<T>, pos: int, a: seq<Hunk<T>>, b: seq<Hunk<T>>, x: T)
    requires a != [] && b != [] && Before(a[0], b[0]) && SideValid(a, |base|) && SideValid(b, |base|)
    requires 0 <= pos <= a[0].start && InOrder(pos, MergeSides(a, b), |base|)
    requires InOrder(pos, a, |base|) && InOrder(pos, b, |base|)
    ensures var end := a[0].end;
            && InOrder(end, MergeSides(a[1..], b), |base|) && InOrder(end, a[1..], |base|) && InOrder(end, b, |base|)
            && After(a[1..], end) && After(b, end)
            && (x in ApplyFrom(base, pos, MergeSides(a, b)) ==>
                  x in ApplyFrom(base, pos, a) || x in ApplyFrom(base, end, MergeSides(a[1..], b)))
            && (x in ApplyFrom(base, end, a[1..]) ==> x in ApplyFrom(base, pos, a))
            && (x in ApplyFrom(base, end, b) ==> x in ApplyFrom(base, pos, b))
  {
    var m := MergeSides(a, b);
    assert m[0] == a[0] && m[1..] == MergeSides(a[1..], b);
    SideValidInOrder(a[0].end, b, |base|);
    ApplyEarlier(base, pos, a[0].end, b);
  }

  lemma SecondMerged<T>(base: seq<T>, pos: int, a: seq<Hunk<T>>, b: seq<Hunk<T>>, x: T)
    requires b != [] && (a != [] ==> !Before(a[0], b[0]) && Before(b[0], a[0]))
    requires SideValid(a, |base|) && SideValid(b, |base|)
    requires 0 <= pos <= b[0].start && InOrder(pos, MergeSides(a, b), |base|)
    requires InOrder(pos, a, |base|) && InOrder(pos, b, |base|)
    ensures var end := b[0].end;
            && InOrder(end, MergeSides(a, b[1..]), |base|) && InOrder(end, a, |base|) && InOrder(end, b[1..], |base|)
            && After(a, end) && After(b[1..], end)
            && (x in ApplyFrom(base, pos, MergeSides(a, b)) ==>
                  x in ApplyFrom(base, pos, b) || x in ApplyFrom(base, end, MergeSides(a, b[1..])))
            && (x in ApplyFrom(base, end, b[1..]) ==> x in ApplyFrom(base, pos, b))
            && (x in ApplyFrom(base, end, a) ==> x in ApplyFrom(base, pos, a))
  {
    var m := MergeSides(a, b);
    assert m[0] == b[0] && m[1..] == MergeSides(a, b[1..]);
    SideValidInOrder(b[0].end, a, |base|);
    ApplyEarlier(base, pos, b[0].end, a);
  }

  /** Merging texts without NUL bytes gives a text without NUL bytes, whatever the base is. */
  lemma MergeIsText(diff: Differ, base: string, server: string, client: string)
    requires Diffs(diff, base, server) && Diffs(diff, base, client) && IsText(server) && IsText(client)
    ensures MergeText(diff, base, server, client).Some? ==> IsText(MergeText(diff, base, server, client).value)
  {
    hide Finish, IsText, InOrder, SideOf, Disjoint, SplitLines, ApplyFrom, MergeSides, Diffs, WantsNewline, TextLines;
    if server != client && MergeText(diff, base, server, client).Some? {
      MergedInOrder(diff, base, server, client);
      MergedLinesAreText(diff, base, server, client);
      FinishIsText(ApplyFrom(SplitLines(base), 0, MergeSides(SideOf(diff, base, server), SideOf(diff, base, client))),
                   WantsNewline(server, client));
    }
  }

  lemma FinishIsText(lines: Lines, trailingNewline: bool)
    requires TextLines(lines)
    ensures IsText(Finish(lines, trailingNewline))
  {
    JoinIsText(lines);
  }

  lemma MergedLinesAreText(diff: Differ, base: string, server: string, client: string)
    requires Diffs(diff, base, server) && Diffs(diff, base, client) && IsText(server) && IsText(client)
    requires Disjoint(SideOf(diff, base, server), SideOf(diff, base, client))
    requires InOrder(0, MergeSides(SideOf(diff, base, server), SideOf(diff, base, client)), |SplitLines(base)|)
    ensures TextLines(ApplyFrom(SplitLines(base), 0,
                                MergeSides(SideOf(diff, base, server), SideOf(diff, base, client))))
  {
    var l, s, c := SplitLines(base), SideOf(diff, base, server), SideOf(diff, base, client);
    DiffRebuilds(diff, base, server);
    DiffRebuilds(diff, base, client);
    SplitLinesIsText(server);
    SplitLinesIsText(client);
    SeenIsText(SplitLines(server), l);
    SeenIsText(SplitLines(client), l);
    hide SplitLines, MergeSides, IsDiff, SideOf;
    forall x | x in ApplyFrom(l, 0, MergeSides(s, c)) ensures IsText(x) { MergedFrom(l, 0, s, c, x); }
  }

  lemma SeenIsText(lines: Lines, base: Lines)
    requires TextLines(lines)
    ensures TextLines(Seen(lines) + Unseen(base))
  {
  }

  /** A merged text ends in a newline whenever the server's does. */
  lemma MergeKeepsNewline(diff: Differ, base: string, server: string, client: string)
    requires Diffs(diff, base, server) && Diffs(diff, base, client) && MergeText(diff, base, server, client).Some?
    ensures EndsNewline(server) ==> EndsNewline(MergeText(diff, base, server, client).value)
  {
    hide SplitLines, Join, Disjoint, MergeSides;
  }

  /** Merging a text once more with the server's text, which has become the base: idle exactly if the
      text is that very text, is a lone newline, or does not end in an empty line. */
  predicate Settled(text: string, server: string) {
    text == server || text == "\n" || (!EndsBlank(text) && (EndsNewline(server) ==> EndsNewline(text)))
  }

  lemma MergeAgainIff(diff: Differ, server: string, text: string)
    requires Diffs(diff, server, text) && Diffs(diff, server, server) && SideOf(diff, server, server) == []
    ensures MergeText(diff, server, server, text).Some?
    ensures MergeText(diff, server, server, text).value == text <==> Settled(text, server)
  {
    LoneChangeIff(diff, server, text);
    if text != server { ClientSideMerges(diff, server, server, text); }
  }

  /** So a clean merge settles exactly if it is the server's text or does not end in an empty line. */
  lemma MergeSettlesIff(diff: Differ, base: string, server: string, client: string)
    requires Diffs(diff, base, server) && Diffs(diff, base, client) && MergeText(diff, base, server, client).Some?
    ensures var text := MergeText(diff, base, server, client).value;
            Settled(text, server) <==> text == server || text == "\n" || !EndsBlank(text)
  {
    MergeKeepsNewline(diff, base, server, client);
  }
}
