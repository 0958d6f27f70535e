/** Small vocabulary shared by every model in this project. */
module Common {

  datatype Option<+T> = None | Some(value: T)

  function Max(a: int, b: int): (r: int)
    ensures a <= r && b <= r && (r == a || r == b)
  {
    if a < b then b else a
  }

  function Min(a: int, b: int): (r: int)
    ensures r <= a && r <= b && (r == a || r == b)
  {
    if a < b then a else b
  }

  /** One turn around a ring of `n` slots, without division. */
  function Wrap(x: nat, n: nat): (r: int)
    requires x < 2 * n
    ensures 0 <= r < n && (r == x || r == x - n)
  {
    if x < n then x else x - n
  }

  lemma ModIsWrap(x: nat, n: nat)
    requires 0 < n && x < 2 * n
    ensures x % n == Wrap(x, n)
  {
    if n <= x {
      assert x == n * 1 + (x - n);
      assert x / n == 1;
    }
  }

  ghost predicate NoDuplicates<T>(s: seq<T>) {
    forall a, b :: 0 <= a < b < |s| ==> s[a] != s[b]
  }

  /** The elements of a duplicate-free sequence, as a set, are as many as its positions. */
  lemma {:induction false} NoDuplicatesCount<T>(s: seq<T>)
    requires NoDuplicates(s)
    ensures |set x | x in s| == |s|
  {
    if s != [] {
      var t := s[..|s| - 1];
      NoDuplicatesCount(t);
      assert (set x | x in s) == (set x | x in t) + {s[|s| - 1]};
    }
  }

  function Filter<T>(s: seq<T>, p: T -> bool): seq<T> {
    if s == [] then [] else if p(s[0]) then [s[0]] + Filter(s[1..], p) else Filter(s[1..], p)
  }

  lemma {:induction false} FilterMembers<T>(s: seq<T>, p: T -> bool)
    ensures forall x :: x in Filter(s, p) <==> x in s && p(x)
    ensures multiset(Filter(s, p)) <= multiset(s)
  {
    if s != [] {
      FilterMembers(s[1..], p);
      assert s == [s[0]] + s[1..];
    }
  }

  /** Filtering two lists one after the other filters each. */
  lemma {:induction false} FilterAppend<T>(s: seq<T>, t: seq<T>, p: T -> bool)
    ensures Filter(s + t, p) == Filter(s, p) + Filter(t, p)
  {
    if s == [] {
      assert s + t == t;
    } else {
      FilterAppend(s[1..], t, p);
      assert (s + t)[0] == s[0] && (s + t)[1..] == s[1..] + t;
    }
  }
}
