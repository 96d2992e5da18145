/** Slash-separated paths: directory, stem and extension. */
module Paths {

  /** Where the last element begins. */
  function BaseStart(p: string): (k: nat)
    ensures k <= |p|
    ensures k > 0 ==> p[k - 1] == '/'
    ensures forall i :: k <= i < |p| ==> p[i] != '/'
  {
    if p == "" || p[|p| - 1] == '/' then |p| else BaseStart(p[..|p| - 1])
  }

  /** `path.Split`: the directory with its slash, and the last element. */
  function Dir(p: string): string { p[..BaseStart(p)] }

  function Base(p: string): string { p[BaseStart(p)..] }

  /** Where the extension begins: the last dot, or the end. */
  function ExtStart(b: string): (k: nat)
    ensures k <= |b|
    ensures k < |b| ==> b[k] == '.'
    ensures forall i :: k < i < |b| ==> b[i] != '.'
    ensures k == |b| ==> forall i :: 0 <= i < |b| ==> b[i] != '.'
  {
    if b == "" || b[|b| - 1] == '.' then if b == "" then 0 else |b| - 1
    else
      var k := ExtStart(b[..|b| - 1]);
      if k == |b| - 1 then |b| else k
  }

  function Stem(b: string): string { b[..ExtStart(b)] }

  function Ext(b: string): string { b[ExtStart(b)..] }

  ghost predicate Has(s: string, c: char) { exists i :: 0 <= i < |s| && s[i] == c }

  ghost predicate IsDir(d: string) { d == "" || d[|d| - 1] == '/' }

  lemma SplitJoin(d: string, b: string)
    requires IsDir(d) && !Has(b, '/')
    ensures Dir(d + b) == d && Base(d + b) == b
  {
    var p := d + b;
    forall i | |d| <= i < |p| ensures p[i] != '/' { assert p[i] == b[i - |d|]; }
    assert d != "" ==> p[|d| - 1] == '/';
    assert BaseStart(p) == |d|;
  }

  lemma DirIsDir(p: string)
    ensures IsDir(Dir(p)) && !Has(Base(p), '/') && Dir(p) + Base(p) == p
  {
  }

  lemma ExtJoin(s: string, e: string)
    requires e != "" && e[0] == '.' && forall i :: 0 < i < |e| ==> e[i] != '.'
    ensures Stem(s + e) == s && Ext(s + e) == e
  {
    var b := s + e;
    assert b[|s|] == '.';
    forall i | |s| < i < |b| ensures b[i] != '.' { assert b[i] == e[i - |s|]; }
    assert ExtStart(b) == |s|;
  }

  lemma ExtShape(b: string)
    ensures Stem(b) + Ext(b) == b
    ensures Ext(b) != "" ==> Ext(b)[0] == '.' && forall i :: 0 < i < |Ext(b)| ==> Ext(b)[i] != '.'
  {
  }

  /** `extOf`: scan back for a dot, giving up at a slash. */
  method ExtOf(path: string) returns (ext: string)
    ensures ext == Ext(Base(path))
  {
    var b := BaseStart(path);
    for i := |path| downto 0
      invariant b <= i
      invariant forall k :: i <= k < |path| ==> path[k] != '.' && path[k] != '/'
    {
      if path[i] == '.' {
        assert i >= b;
        assert Base(path)[i - b] == '.';
        assert ExtStart(Base(path)) == i - b;
        return path[i..];
      }
      if path[i] == '/' {
        break;
      }
    }
    ext := "";
  }

  /** The stem of a sidecar's name. */
  function ConflictStem(stem: string, stamp: string): (r: string)
    ensures |r| > |stem|
  {
    stem + ".conflict." + stamp
  }

  /** `SidecarPath` on clean relative paths: a sibling with the same extension. */
  function SidecarPath(path: string, stamp: string): string {
    Dir(path) + (ConflictStem(Stem(Base(path)), stamp) + Ext(Base(path)))
  }

  lemma ConflictStemNoSlash(stem: string, stamp: string)
    requires !Has(stem, '/') && !Has(stamp, '/')
    ensures !Has(ConflictStem(stem, stamp), '/')
  {
    assert !Has(".conflict.", '/');
    hide Has;
    NoSlash(stem, ".conflict.");
    NoSlash(stem + ".conflict.", stamp);
  }

  /** A sidecar lies in the same directory, keeps a present extension, and is never the path itself. */
  lemma SidecarIsSibling(path: string, stamp: string)
    requires !Has(stamp, '/')
    ensures SidecarPath(path, stamp) != path
    ensures Dir(SidecarPath(path, stamp)) == Dir(path)
    ensures Ext(Base(path)) != "" ==> Ext(Base(SidecarPath(path, stamp))) == Ext(Base(path))
  {
    hide Dir, Base, Stem, Ext, Has, IsDir, ConflictStem;
    var b := Base(path);
    var stem := ConflictStem(Stem(b), stamp);
    DirIsDir(path);
    ExtShape(b);
    PartsNoSlash(b);
    ConflictStemNoSlash(Stem(b), stamp);
    NoSlash(stem, Ext(b));
    SplitJoin(Dir(path), stem + Ext(b));
    if Ext(b) != "" { ExtJoin(stem, Ext(b)); }
    assert |SidecarPath(path, stamp)| == |Dir(path)| + |stem| + |Ext(b)|;
  }

  /** Sidecars of one file under different stamps are different files. */
  lemma SidecarsDiffer(path: string, a: string, b: string)
    requires SidecarPath(path, a) == SidecarPath(path, b)
    ensures a == b
  {
    var front, ext := Dir(path) + (Stem(Base(path)) + ".conflict."), Ext(Base(path));
    hide Dir, Stem, Base, Ext;
    assert SidecarPath(path, a) == front + a + ext && SidecarPath(path, b) == front + b + ext;
    assert |a| == |b|;
    assert a == (front + a + ext)[|front|..|front| + |a|] && b == (front + b + ext)[|front|..|front| + |b|];
  }

  lemma PartsNoSlash(b: string)
    ensures !Has(b, '/') ==> !Has(Stem(b), '/') && !Has(Ext(b), '/')
  {
    hide ExtStart;
  }

  lemma NoSlash(a: string, b: string)
    ensures !Has(a, '/') && !Has(b, '/') ==> !Has(a + b, '/')
  {
    if Has(a + b, '/') {
      var i :| 0 <= i < |a + b| && (a + b)[i] == '/';
      if i < |a| { assert a[i] == '/'; } else { assert b[i - |a|] == '/'; }
    }
  }

  // ----- numbers in names -----

  function Digit(d: nat): char
    requires d < 10
  {
    "0123456789"[d]
  }

  function Decimal(n: nat): (r: string)
    ensures r != "" && (|r| == 1 <==> n < 10)
  {
    if n < 10 then [Digit(n)] else Decimal(n / 10) + [Digit(n % 10)]
  }

  lemma {:induction false} DecimalInjective(m: nat, n: nat)
    requires Decimal(m) == Decimal(n)
    ensures m == n
  {
    var a, b := Decimal(m), Decimal(n);
    assert a[|a| - 1] == b[|b| - 1];
    if m >= 10 && n >= 10 {
      assert a[..|a| - 1] == Decimal(m / 10) && b[..|b| - 1] == Decimal(n / 10);
      DecimalInjective(m / 10, n / 10);
    }
  }

  lemma DecimalHasNoSlash(n: nat)
    ensures !Has(Decimal(n), '/')
  {
    if n >= 10 {
      DecimalHasNoSlash(n / 10);
      NoSlash(Decimal(n / 10), [Digit(n % 10)]);
    }
  }
}
