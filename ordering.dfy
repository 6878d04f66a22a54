/**
 * Sequences without repeats, least and greatest elements of finite sets of
 * naturals, and the ascending listing of such a set. The stores key their records by such numbers; these
 * functions fix an enumeration order where the source leaves it to the
 * dictionary.
 */
module Ordering {

  /** No element is listed twice. */
  predicate Distinct<T(==)>(s: seq<T>)
  {
    forall i, j :: 0 <= i < j < |s| ==> s[i] != s[j]
  }

  /** An element that is not in a sequence without repeats can go in front of it. */
  lemma ConsDistinct<T>(x: T, rest: seq<T>)
    requires Distinct(rest) && x !in rest
    ensures Distinct([x] + rest)
  {
    var r := [x] + rest;
    forall i, j | 0 <= i < j < |r| ensures r[i] != r[j] {
      assert r[j] == rest[j - 1];
      if i > 0 { assert r[i] == rest[i - 1]; }
    }
  }

  /** Some least element, found by removing elements one at a time. */
  ghost function SomeLeast(s: set<nat>): (r: nat)
    requires s != {}
    ensures r in s && forall y :: y in s ==> r <= y
    decreases s
  {
    var y :| y in s;
    if s == {y} then y
    else
      var m := SomeLeast(s - {y});
      assert forall z :: z in s && z != y ==> z in s - {y};
      if y < m then y else m
  }

  /** Some greatest element, found the same way. */
  ghost function SomeGreatest(s: set<nat>): (r: nat)
    requires s != {}
    ensures r in s && forall y :: y in s ==> y <= r
    decreases s
  {
    var y :| y in s;
    if s == {y} then y
    else
      var m := SomeGreatest(s - {y});
      assert forall z :: z in s && z != y ==> z in s - {y};
      if m < y then y else m
  }

  function Least(s: set<nat>): (r: nat)
    requires s != {}
    ensures r in s && forall y :: y in s ==> r <= y
  {
    ghost var w := SomeLeast(s);
    var x :| x in s && forall y :: y in s ==> x <= y;
    x
  }

  function Greatest(s: set<nat>): (r: nat)
    requires s != {}
    ensures r in s && forall y :: y in s ==> y <= r
  {
    ghost var w := SomeGreatest(s);
    var x :| x in s && forall y :: y in s ==> y <= x;
    x
  }

  /** Putting a smaller element in front keeps a sequence ascending. */
  lemma ConsAscending(m: nat, rest: seq<nat>)
    requires forall x :: x in rest ==> m < x
    requires forall i, j :: 0 <= i < j < |rest| ==> rest[i] < rest[j]
    ensures forall i, j :: 0 <= i < j < |[m] + rest| ==> ([m] + rest)[i] < ([m] + rest)[j]
  {
    var r := [m] + rest;
    forall i, j | 0 <= i < j < |r| ensures r[i] < r[j] {
      assert r[j] == rest[j - 1] && rest[j - 1] in rest;
      if i > 0 { assert r[i] == rest[i - 1]; }
    }
  }

  /** The elements of `s`, each once, in ascending order. */
  function Ascending(s: set<nat>): (r: seq<nat>)
    ensures |r| == |s|
    ensures forall x :: x in r <==> x in s
    ensures forall i, j :: 0 <= i < j < |r| ==> r[i] < r[j]
    decreases s
  {
    if s == {} then []
    else
      var m := Least(s);
      var rest := Ascending(s - {m});
      ConsAscending(m, rest);
      [m] + rest
  }
}
