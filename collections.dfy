/** Queries over the rows of a table: find the first match, filter, count. */
module Collections {
  import opened Common

  /** The first element of `s` satisfying `p` (a store's `findFirst`/`findUnique`). */
  function FindFirst<T>(s: seq<T>, p: T -> bool): (r: Option<T>)
    ensures r.Some? ==> r.value in s && p(r.value)
    ensures r.None? <==> (forall x :: x in s ==> !p(x))
  {
    if s == [] then None
    else if p(s[0]) then Some(s[0])
    else FindFirst(s[1..], p)
  }

  /** The elements of `s` satisfying `p`, in their original order (a store's `findMany` with a `where`). */
  function Filter<T>(s: seq<T>, p: T -> bool): (r: seq<T>)
    ensures |r| <= |s|
    ensures forall x :: x in r ==> x in s && p(x)
    ensures forall x :: x in s && p(x) ==> x in r
  {
    if s == [] then []
    else (if p(s[0]) then [s[0]] else []) + Filter(s[1..], p)
  }

  /** The number of elements of `s` satisfying `p` (a store's `count` with a `where`). */
  function Count<T>(s: seq<T>, p: T -> bool): (n: nat)
    ensures n <= |s|
    ensures n == 0 <==> (forall x :: x in s ==> !p(x))
  {
    if s == [] then 0
    else (if p(s[0]) then 1 else 0) + Count(s[1..], p)
  }

  /** No element occurs twice. */
  ghost predicate Distinct<T>(s: seq<T>) {
    forall i, j :: 0 <= i < |s| && 0 <= j < |s| && i != j ==> s[i] != s[j]
  }

  /** The set of elements of `s` satisfying `p`. */
  ghost function Matching<T>(s: seq<T>, p: T -> bool): (m: set<T>)
    ensures forall x :: x in m ==> x in s && p(x)
    ensures forall x :: x in s && p(x) ==> x in m
  {
    set x | x in s && p(x)
  }

  /** Over a table without repeated rows, a count is the cardinality of the filtered set of rows. */
  lemma {:induction false} CountIsCardinality<T>(s: seq<T>, p: T -> bool)
    requires Distinct(s)
    ensures Count(s, p) == |Matching(s, p)|
  {
    if s == [] {
      assert Matching(s, p) == {};
    } else {
      var rest := s[1..];
      assert Distinct(rest) by {
        forall i, j | 0 <= i < |rest| && 0 <= j < |rest| && i != j
          ensures rest[i] != rest[j]
        {
          assert rest[i] == s[i + 1] && rest[j] == s[j + 1];
        }
      }
      CountIsCardinality(rest, p);
      var all := Matching(s, p);
      var tail := Matching(rest, p);
      assert s[0] !in rest by {
        forall k | 0 <= k < |rest| ensures rest[k] != s[0] {
          assert rest[k] == s[k + 1];
        }
      }
      if p(s[0]) {
        assert all == tail + {s[0]};
        assert s[0] !in tail;
      } else {
        assert all == tail;
      }
    }
  }
}
