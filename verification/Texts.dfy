/** Texts and their lines. */
module Texts {

  predicate EndsNewline(s: string) { s != "" && s[|s| - 1] == '\n' }

  /** A text whose last line is empty. */
  predicate EndsBlank(s: string) { s == "\n" || (|s| >= 2 && s[|s| - 1] == '\n' && s[|s| - 2] == '\n') }

  function Chomp(s: string): string { if EndsNewline(s) then s[..|s| - 1] else s }

  /** `strings.Split` at newlines. */
  function Split(s: string): (r: seq<string>)
    ensures r != []
  {
    if s == "" then [""]
    else
      var r := Split(s[1..]);
      if s[0] == '\n' then [""] + r else [[s[0]] + r[0]] + r[1..]
  }

  /** `splitLines`: a last empty element goes. */
  function SplitLines(s: string): seq<string> {
    if s == "" then []
    else
      var l := Split(s);
      if l[|l| - 1] == "" then l[..|l| - 1] else l
  }

  /** `strings.Join` with newlines. */
  function Join(lines: seq<string>): string {
    if lines == [] then ""
    else if |lines| == 1 then lines[0]
    else lines[0] + "\n" + Join(lines[1..])
  }

  ghost predicate OneLine(s: string) { forall i :: 0 <= i < |s| ==> s[i] != '\n' }

  ghost predicate AreLines(lines: seq<string>) { forall i :: 0 <= i < |lines| ==> OneLine(lines[i]) }

  // ----- laws -----

  lemma {:induction false} JoinSplit(s: string)
    ensures Join(Split(s)) == s && AreLines(Split(s))
  {
    if s != "" {
      var r := Split(s[1..]);
      JoinSplit(s[1..]);
      if s[0] == '\n' {
        assert ([""] + r)[1..] == r;
      } else {
        var l := [[s[0]] + r[0]] + r[1..];
        assert l[1..] == r[1..] && l[0] == [s[0]] + r[0];
        JoinFirst(s[0], r);
      }
    }
  }

  lemma JoinFirst(c: char, r: seq<string>)
    requires r != []
    ensures Join([[c] + r[0]] + r[1..]) == [c] + Join(r)
  {
    var l := [[c] + r[0]] + r[1..];
    assert l[1..] == r[1..];
    if |r| > 1 { assert [c] + r[0] + "\n" + Join(r[1..]) == [c] + (r[0] + "\n" + Join(r[1..])); }
  }

  lemma {:induction false} JoinSnoc(lines: seq<string>, last: string)
    requires lines != []
    ensures Join(lines + [last]) == Join(lines) + "\n" + last
  {
    var l := lines + [last];
    if |lines| == 1 {
      assert l[1..] == [last] && l[0] == lines[0];
    } else {
      assert l[1..] == lines[1..] + [last] && l[0] == lines[0];
      JoinSnoc(lines[1..], last);
      assert lines[0] + "\n" + (Join(lines[1..]) + "\n" + last) == lines[0] + "\n" + Join(lines[1..]) + "\n" + last;
    }
  }

  /** The last line of a joined text, seen from its end. */
  lemma JoinEnds(lines: seq<string>)
    requires AreLines(lines) && lines != []
    ensures EndsNewline(Join(lines)) <==> |lines| > 1 && lines[|lines| - 1] == ""
  {
    var front, last := lines[..|lines| - 1], lines[|lines| - 1];
    assert lines == front + [last];
    if front != [] { JoinSnoc(front, last); } else { assert lines == [last]; }
    assert OneLine(last);
  }

  /** The lines of a text joined again are the text without its last newline. */
  lemma JoinLines(s: string)
    ensures Join(SplitLines(s)) == Chomp(s) && AreLines(SplitLines(s))
    ensures SplitLines(s) == [] <==> s == ""
  {
    if s != "" {
      var l := Split(s);
      JoinSplit(s);
      var front, last := l[..|l| - 1], l[|l| - 1];
      assert l == front + [last];
      if last == "" {
        if front != [] { JoinSnoc(front, last); }
        assert Join(front) + "\n" == s;
      } else {
        JoinEnds(l);
      }
    }
  }

  /** The last line is empty exactly when the text ends in two newlines or is one. */
  lemma LastLineBlank(s: string)
    ensures SplitLines(s) != [] && SplitLines(s)[|SplitLines(s)| - 1] == "" <==> EndsBlank(s)
  {
    var l := SplitLines(s);
    JoinLines(s);
    if l != [] {
      JoinEnds(l);
      if l == [""] { assert Chomp(s) == ""; }
    }
  }
}
