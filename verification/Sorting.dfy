/** Stand-ins for Go's `sort.Slice` and `sort.SliceStable` over a lexicographic pair of integer keys. */
module Sorting {

  type Key = (int, int)

  predicate KeyLess(a: Key, b: Key) {
    a.0 < b.0 || (a.0 == b.0 && a.1 < b.1)
  }

  ghost predicate SortedBy<T>(s: seq<T>, key: T -> Key) {
    forall i, j :: 0 <= i < j < |s| ==> !KeyLess(key(s[j]), key(s[i]))
  }

  function Insert<T>(x: T, s: seq<T>, key: T -> Key): (r: seq<T>)
    ensures |r| == |s| + 1
  {
    if s == [] then [x]
    else if KeyLess(key(s[0]), key(x)) then [s[0]] + Insert(x, s[1..], key)
    else [x] + s
  }

  /** The stable order: the earlier of two equal keys stays in front. */
  function StableSort<T>(s: seq<T>, key: T -> Key): (r: seq<T>)
    ensures |r| == |s|
  {
    if s == [] then [] else Insert(s[0], StableSort(s[1..], key), key)
  }

  lemma {:induction false} SortedCons<T>(x: T, s: seq<T>, key: T -> Key)
    requires SortedBy(s, key)
    requires forall y :: y in s ==> !KeyLess(key(y), key(x))
    ensures SortedBy([x] + s, key)
  {
  }

  lemma {:induction false} InsertAdds<T>(x: T, s: seq<T>, key: T -> Key)
    ensures multiset(Insert(x, s, key)) == multiset{x} + multiset(s)
    ensures forall y :: y in Insert(x, s, key) ==> y == x || y in s
  {
    if s != [] && KeyLess(key(s[0]), key(x)) {
      InsertAdds(x, s[1..], key);
      assert s == [s[0]] + s[1..];
    }
  }

  lemma {:induction false} InsertKeeps<T>(x: T, s: seq<T>, key: T -> Key)
    requires SortedBy(s, key)
    ensures SortedBy(Insert(x, s, key), key)
  {
    if s == [] {
    } else if KeyLess(key(s[0]), key(x)) {
      InsertKeeps(x, s[1..], key);
      InsertAdds(x, s[1..], key);
      SortedCons(s[0], Insert(x, s[1..], key), key);
    } else {
      SortedCons(x, s, key);
    }
  }

  lemma {:induction false} StableSortSorts<T>(s: seq<T>, key: T -> Key)
    ensures SortedBy(StableSort(s, key), key)
    ensures multiset(StableSort(s, key)) == multiset(s)
  {
    if s != [] {
      StableSortSorts(s[1..], key);
      InsertKeeps(s[0], StableSort(s[1..], key), key);
      InsertAdds(s[0], StableSort(s[1..], key), key);
      assert s == [s[0]] + s[1..];
    }
  }

  /** `sort.Slice`: some sorted rearrangement. Nothing is promised about the order of equal keys. */
  method SortSlice<T>(s: seq<T>, key: T -> Key) returns (r: seq<T>)
    ensures SortedBy(r, key)
    ensures multiset(r) == multiset(s)
  {
    StableSortSorts(s, key);
    r := StableSort(s, key);
  }
}
