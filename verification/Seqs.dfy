/** A few facts about sequences that the verifier wants spelled out. */
module Seqs {

  lemma Assoc<T>(a: seq<T>, b: seq<T>, c: seq<T>)
    ensures (a + b) + c == a + (b + c)
  {
  }

  lemma BagOfCons<T>(s: seq<T>)
    requires s != []
    ensures s == [s[0]] + s[1..]
    ensures multiset(s) == multiset{s[0]} + multiset(s[1..])
  {
    assert s == [s[0]] + s[1..];
  }

  lemma BagOfConcat<T>(a: seq<T>, b: seq<T>)
    ensures multiset(a + b) == multiset(a) + multiset(b)
  {
  }

  lemma DropFirst<T>(a: seq<T>, b: seq<T>)
    requires a != [] && b != [] && a[0] == b[0] && multiset(a) == multiset(b)
    ensures multiset(a[1..]) == multiset(b[1..])
  {
    BagOfCons(a);
    BagOfCons(b);
    assert multiset(a[1..]) == multiset(a) - multiset{a[0]};
    assert multiset(b[1..]) == multiset(b) - multiset{b[0]};
  }

  lemma SameMembers<T>(a: seq<T>, b: seq<T>)
    requires multiset(a) == multiset(b)
    ensures |a| == |b|
    ensures forall i :: 0 <= i < |a| ==> a[i] in b
  {
    assert |multiset(a)| == |a| && |multiset(b)| == |b|;
    forall i | 0 <= i < |a| ensures a[i] in b {
      assert a[i] in multiset(a);
      assert a[i] in multiset(b);
    }
  }

  /** Take b's copy of a's first element out of b. */
  lemma FindFirst<T>(a: seq<T>, b: seq<T>) returns (k: int)
    requires a != [] && multiset(a) == multiset(b)
    ensures 0 <= k < |b| && b[k] == a[0] && b == b[..k] + ([a[0]] + b[k + 1..])
    ensures multiset(a[1..]) == multiset(b[..k] + b[k + 1..])
  {
    SameMembers(a, b);
    k :| 0 <= k < |b| && b[k] == a[0];
    var pre, post := b[..k], b[k + 1..];
    assert b == pre + ([a[0]] + post);
    BagOfCons(a);
    BagOfConcat(pre, [a[0]] + post);
    BagOfConcat([a[0]], post);
    BagOfConcat(pre, post);
    DropOne(a[0], multiset(a[1..]), multiset(pre + post), multiset(a));
  }

  lemma DropOne<T>(x: T, a: multiset<T>, b: multiset<T>, both: multiset<T>)
    requires multiset{x} + a == both && multiset{x} + b == both
    ensures a == b
  {
    assert a == both - multiset{x};
    assert b == both - multiset{x};
  }

  ghost function Mapped<A, B>(s: seq<A>, f: A -> B): (r: seq<B>)
    ensures |r| == |s|
  {
    seq(|s|, i requires 0 <= i < |s| => f(s[i]))
  }

  lemma MappedAround<A, B>(pre: seq<A>, x: A, post: seq<A>, f: A -> B)
    ensures multiset(Mapped(pre + ([x] + post), f)) == multiset{f(x)} + multiset(Mapped(pre + post, f))
  {
    var a, b := Mapped(pre, f), Mapped(post, f);
    assert Mapped(pre + ([x] + post), f) == a + ([f(x)] + b);
    assert Mapped(pre + post, f) == a + b;
    BagOfConcat(a, [f(x)] + b);
    BagOfConcat([f(x)], b);
    BagOfConcat(a, b);
  }

  /** Mapping two rearrangements gives two rearrangements. */
  lemma {:induction false} MappedBag<A, B>(a: seq<A>, b: seq<A>, f: A -> B)
    requires multiset(a) == multiset(b)
    ensures multiset(Mapped(a, f)) == multiset(Mapped(b, f))
    decreases |a|
  {
    if a == [] {
      SameMembers(a, b);
    } else {
      var k := FindFirst(a, b);
      MappedBag(a[1..], b[..k] + b[k + 1..], f);
      MappedAround([], a[0], a[1..], f);
      assert [] + ([a[0]] + a[1..]) == a && [] + a[1..] == a[1..];
      MappedAround(b[..k], a[0], b[k + 1..], f);
    }
  }
}
