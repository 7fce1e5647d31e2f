/** The orderings the database applies to query results (`orderBy`), stated
    as sorting a set of rows by a total preorder. */
module Ordering {

  /** `before(a, b)`: `a` may be listed before `b`. */
  ghost predicate TotalPreorder<T(!new)>(before: (T, T) -> bool) {
    && (forall a, b :: before(a, b) || before(b, a))
    && (forall a, b, c :: before(a, b) && before(b, c) ==> before(a, c))
  }

  predicate Sorted<T>(s: seq<T>, before: (T, T) -> bool) {
    forall i, j :: 0 <= i < j < |s| ==> before(s[i], s[j])
  }

  /** Every non-empty finite set has an element that may come first. */
  lemma {:induction false} FirstExists<T(!new)>(s: set<T>, before: (T, T) -> bool)
    requires s != {}
    requires TotalPreorder(before)
    ensures exists x :: x in s && forall y :: y in s ==> before(x, y)
    decreases |s|
  {
    var z :| z in s;
    if s == {z} {
      assert before(z, z);
      assert forall y :: y in s ==> y == z;
    } else {
      var rest := s - {z};
      FirstExists(rest, before);
      var m :| m in rest && forall y :: y in rest ==> before(m, y);
      if before(m, z) {
        assert forall y :: y in s ==> y == z || y in rest;
      } else {
        assert before(z, m);
        assert forall y :: y in s ==> before(z, y) by {
          forall y | y in s ensures before(z, y) {
            if y == z { assert before(z, z); } else { assert before(m, y); }
          }
        }
      }
    }
  }

  /** The rows of `s` listed in an order that respects `before`; rows that tie
      come out in an unspecified order, as they do from the database. */
  ghost function SortBy<T(!new)>(s: set<T>, before: (T, T) -> bool): (r: seq<T>)
    requires TotalPreorder(before)
    ensures |r| == |s|
    ensures forall x :: x in r <==> x in s
    ensures Sorted(r, before)
    decreases |s|
  {
    if s == {} then []
    else
      FirstExists(s, before);
      var x :| x in s && forall y :: y in s ==> before(x, y);
      var tail := SortBy(s - {x}, before);
      assert forall j :: 0 <= j < |tail| ==> tail[j] in tail && before(x, tail[j]);
      [x] + tail
  }

  /** Code-point lexicographic order on strings. */
  predicate StrLe(a: string, b: string) {
    if a == [] then true
    else if b == [] then false
    else if a[0] != b[0] then a[0] < b[0]
    else StrLe(a[1..], b[1..])
  }

  lemma {:induction false} StrLeTotal(a: string, b: string)
    ensures StrLe(a, b) || StrLe(b, a)
  {
    if a != [] && b != [] && a[0] == b[0] {
      StrLeTotal(a[1..], b[1..]);
    }
  }

  lemma {:induction false} StrLeTransitive(a: string, b: string, c: string)
    requires StrLe(a, b) && StrLe(b, c)
    ensures StrLe(a, c)
  {
    if a != [] && b != [] && c != [] && a[0] == b[0] && b[0] == c[0] {
      StrLeTransitive(a[1..], b[1..], c[1..]);
    }
  }
}
