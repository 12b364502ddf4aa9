/** Ordering rows newest first, as a store's `orderBy: { createdAt: 'desc' }` does. */
module Sorting {
  /** `s` is ordered by non-increasing `key`. */
  ghost predicate SortedDesc<T>(s: seq<T>, key: T -> int) {
    forall i, j :: 0 <= i < j < |s| ==> key(s[i]) >= key(s[j])
  }

  /** Places `x` into the ordered `s` after every element whose key is at least `x`'s. */
  function Insert<T>(x: T, s: seq<T>, key: T -> int): (r: seq<T>)
    requires SortedDesc(s, key)
    ensures SortedDesc(r, key)
    ensures multiset(r) == multiset(s) + multiset{x}
    ensures forall y :: y in r ==> y == x || y in s
  {
    if s == [] then [x]
    else if key(s[0]) >= key(x) then
      var rest := Insert(x, s[1..], key);
      assert s == [s[0]] + s[1..];
      assert forall y :: y in s[1..] ==> key(s[0]) >= key(y);
      [s[0]] + rest
    else
      [x] + s
  }

  /** Insertion sort of `s` by non-increasing `key`. */
  function SortByKeyDesc<T>(s: seq<T>, key: T -> int): (r: seq<T>)
    ensures SortedDesc(r, key)
    ensures multiset(r) == multiset(s)
  {
    if s == [] then []
    else
      assert s == [s[0]] + s[1..];
      Insert(s[0], SortByKeyDesc(s[1..], key), key)
  }

  /** Sorting keeps exactly the elements it was given. */
  lemma SortedMembers<T>(s: seq<T>, key: T -> int)
    ensures forall x :: x in SortByKeyDesc(s, key) ==> x in s
    ensures forall x :: x in s ==> x in SortByKeyDesc(s, key)
  {
    var r := SortByKeyDesc(s, key);
    forall x | x in r ensures x in s {
      assert x in multiset(r);
    }
    forall x | x in s ensures x in r {
      assert x in multiset(s);
    }
  }

  /** `s.map(f)`. */
  function MapSeq<A, B>(s: seq<A>, f: A -> B): (r: seq<B>)
    ensures |r| == |s|
    ensures forall i :: 0 <= i < |s| ==> r[i] == f(s[i])
  {
    if s == [] then [] else [f(s[0])] + MapSeq(s[1..], f)
  }

  /** The mapped sequence holds the image of every element, and nothing else. */
  lemma MapSeqMembers<A, B>(s: seq<A>, f: A -> B)
    ensures forall x :: x in s ==> f(x) in MapSeq(s, f)
    ensures forall y :: y in MapSeq(s, f) ==> exists x :: x in s && y == f(x)
  {
    var r := MapSeq(s, f);
    forall x | x in s ensures f(x) in r {
      var i :| 0 <= i < |s| && s[i] == x;
      assert r[i] == f(x);
    }
    forall y | y in r ensures exists x :: x in s && y == f(x) {
      var i :| 0 <= i < |r| && r[i] == y;
      assert s[i] in s;
    }
  }

  /** A map that keeps every key keeps an ordered sequence ordered. */
  lemma MapKeepsSorted<A, B>(s: seq<A>, f: A -> B, keyA: A -> int, keyB: B -> int)
    requires forall x :: keyB(f(x)) == keyA(x)
    requires SortedDesc(s, keyA)
    ensures SortedDesc(MapSeq(s, f), keyB)
  {
  }

  /** Inserting and then mapping is mapping and then inserting, when the map keeps every key. */
  lemma {:induction false} InsertCommutesWithMap<A, B>(x: A, s: seq<A>, f: A -> B, keyA: A -> int, keyB: B -> int)
    requires forall y :: keyB(f(y)) == keyA(y)
    requires SortedDesc(s, keyA)
    ensures SortedDesc(MapSeq(s, f), keyB)
    ensures MapSeq(Insert(x, s, keyA), f) == Insert(f(x), MapSeq(s, f), keyB)
  {
    MapKeepsSorted(s, f, keyA, keyB);
    if s != [] {
      var m := MapSeq(s, f);
      assert m[0] == f(s[0]) && m[1..] == MapSeq(s[1..], f);
      if keyA(s[0]) >= keyA(x) {
        InsertCommutesWithMap(x, s[1..], f, keyA, keyB);
        assert MapSeq([s[0]] + Insert(x, s[1..], keyA), f) == [f(s[0])] + MapSeq(Insert(x, s[1..], keyA), f);
      } else {
        assert MapSeq([x] + s, f) == [f(x)] + m;
      }
    }
  }

  /** Sorting and then mapping is mapping and then sorting, when the map keeps every key. */
  lemma {:induction false} SortCommutesWithMap<A, B>(s: seq<A>, f: A -> B, keyA: A -> int, keyB: B -> int)
    requires forall y :: keyB(f(y)) == keyA(y)
    ensures MapSeq(SortByKeyDesc(s, keyA), f) == SortByKeyDesc(MapSeq(s, f), keyB)
  {
    if s != [] {
      var m := MapSeq(s, f);
      assert m[0] == f(s[0]) && m[1..] == MapSeq(s[1..], f);
      SortCommutesWithMap(s[1..], f, keyA, keyB);
      InsertCommutesWithMap(s[0], SortByKeyDesc(s[1..], keyA), f, keyA, keyB);
    }
  }
}
