/** Rust's stable `sort_by`, for an order given as "a may stand before b", and the order on strings. */
module StableSort {
  import opened Common

  ghost predicate TotalPreorder<T(!new)>(le: (T, T) -> bool) {
    && (forall x, y :: le(x, y) || le(y, x))
    && (forall x, y, z :: le(x, y) && le(y, z) ==> le(x, z))
  }

  function Insert<T>(x: T, s: seq<T>, le: (T, T) -> bool): seq<T> {
    if s == [] || le(x, s[0]) then [x] + s else [s[0]] + Insert(x, s[1..], le)
  }

  function Sort<T>(s: seq<T>, le: (T, T) -> bool): seq<T> {
    if s == [] then [] else Insert(s[0], Sort(s[1..], le), le)
  }

  ghost predicate Sorted<T>(s: seq<T>, le: (T, T) -> bool) {
    forall i, j :: 0 <= i < j < |s| ==> le(s[i], s[j])
  }

  lemma {:induction false} InsertSorted<T(!new)>(x: T, s: seq<T>, le: (T, T) -> bool)
    requires TotalPreorder(le) && Sorted(s, le)
    ensures Sorted(Insert(x, s, le), le)
    ensures multiset(Insert(x, s, le)) == multiset{x} + multiset(s)
  {
    if s == [] || le(x, s[0]) {
      forall j | 0 <= j < |s| ensures le(x, s[j]) { if j > 0 { assert le(s[0], s[j]); } }
    } else {
      InsertSorted(x, s[1..], le);
      assert s == [s[0]] + s[1..];
      var t := Insert(x, s[1..], le);
      forall j | 0 <= j < |t| ensures le(s[0], t[j]) {
        assert t[j] in multiset(t);
        if t[j] != x { assert t[j] in s[1..]; }
      }
    }
  }

  /** The result is sorted and has exactly the elements of the input. */
  lemma {:induction false} SortSorts<T(!new)>(s: seq<T>, le: (T, T) -> bool)
    requires TotalPreorder(le)
    ensures Sorted(Sort(s, le), le) && multiset(Sort(s, le)) == multiset(s)
  {
    if s != [] {
      SortSorts(s[1..], le);
      InsertSorted(s[0], Sort(s[1..], le), le);
      assert s == [s[0]] + s[1..];
    }
  }

  /** The elements that may stand either way round with `k`. */
  function Ties<T>(le: (T, T) -> bool, k: T): T -> bool {
    y => le(k, y) && le(y, k)
  }

  lemma {:induction false} InsertStable<T(!new)>(x: T, s: seq<T>, le: (T, T) -> bool, k: T)
    requires TotalPreorder(le) && Sorted(s, le)
    ensures var p := Ties(le, k);
            Filter(Insert(x, s, le), p) == (if p(x) then [x] else []) + Filter(s, p)
  {
    var p := Ties(le, k);
    if s == [] || le(x, s[0]) {
      assert ([x] + s)[1..] == s;
    } else {
      InsertStable(x, s[1..], le, k);
      assert Insert(x, s, le)[1..] == Insert(x, s[1..], le);
    }
  }

  /** Elements that may stand either way round keep their order: the sort is stable. */
  lemma {:induction false} SortStable<T(!new)>(s: seq<T>, le: (T, T) -> bool, k: T)
    requires TotalPreorder(le)
    ensures Filter(Sort(s, le), Ties(le, k)) == Filter(s, Ties(le, k))
  {
    if s != [] {
      SortStable(s[1..], le, k);
      SortSorts(s[1..], le);
      InsertStable(s[0], Sort(s[1..], le), le, k);
    }
  }

  lemma SortedHead<T>(s: seq<T>, le: (T, T) -> bool, x: T)
    requires Sorted(s, le) && x in multiset(s) && le(x, x)
    ensures le(s[0], x)
  {
    var i :| 0 <= i < |s| && s[i] == x;
  }

  lemma SameLength<T>(s: seq<T>, t: seq<T>)
    requires multiset(s) == multiset(t)
    ensures |s| == |t|
  {
    assert |multiset(s)| == |multiset(t)|;
  }

  /** The sort is empty only for nothing, and starts with an element that may stand before every other. */
  lemma SortHead<T(!new)>(s: seq<T>, le: (T, T) -> bool)
    requires TotalPreorder(le)
    ensures |Sort(s, le)| == |s|
    ensures s != [] ==> Sort(s, le)[0] in s && forall x :: x in s ==> le(Sort(s, le)[0], x)
  {
    SortSorts(s, le);
    SameLength(Sort(s, le), s);
    if s != [] {
      assert Sort(s, le)[0] in multiset(s);
      forall x | x in s ensures le(Sort(s, le)[0], x) { SortedHead(Sort(s, le), le, x); }
    }
  }

  lemma TailMultiset<T>(s: seq<T>)
    requires s != []
    ensures multiset(s[1..]) == multiset(s) - multiset{s[0]}
  {
    assert s == [s[0]] + s[1..];
  }

  lemma SameHead<T>(s: seq<T>, t: seq<T>, le: (T, T) -> bool)
    requires s != [] && t != [] && Sorted(s, le) && Sorted(t, le) && multiset(s) == multiset(t)
    requires forall x, y :: x in s && y in s ==> (le(x, y) && le(y, x) <==> x == y)
    ensures s[0] == t[0]
  {
    assert s[0] in multiset(s) && t[0] in multiset(t);
    assert t[0] in s;
    SortedHead(s, le, t[0]);
    SortedHead(t, le, s[0]);
  }

  /** Two sorted listings of the same elements, no two of them interchangeable, are the same listing. */
  lemma {:induction false} SortedUnique<T>(s: seq<T>, t: seq<T>, le: (T, T) -> bool)
    requires Sorted(s, le) && Sorted(t, le) && multiset(s) == multiset(t)
    requires forall x, y :: x in s && y in s ==> (le(x, y) && le(y, x) <==> x == y)
    ensures s == t
  {
    SameLength(s, t);
    if s != [] {
      SameHead(s, t, le);
      TailMultiset(s);
      TailMultiset(t);
      SortedUnique(s[1..], t[1..], le);
      assert s == [s[0]] + s[1..] && t == [t[0]] + t[1..];
    }
  }

  /** Sorting forgets the order of its input when no two elements are interchangeable. */
  lemma SortForgetsOrder<T(!new)>(s: seq<T>, t: seq<T>, le: (T, T) -> bool)
    requires TotalPreorder(le) && multiset(s) == multiset(t)
    requires forall x, y :: x in s && y in s && le(x, y) && le(y, x) ==> x == y
    ensures Sort(s, le) == Sort(t, le)
  {
    SortSorts(s, le);
    SortSorts(t, le);
    forall x | x in Sort(s, le) ensures x in s { assert x in multiset(s); }
    SortedUnique(Sort(s, le), Sort(t, le), le);
  }

  // ---------------------------------------------------------------- strings

  /** Character by character, a proper prefix first. */
  predicate StringLe(a: string, b: string) {
    a == [] || (b != [] && (a[0] < b[0] || (a[0] == b[0] && StringLe(a[1..], b[1..]))))
  }

  lemma {:induction false} StringTotal(a: string, b: string)
    ensures StringLe(a, b) || StringLe(b, a)
    ensures StringLe(a, b) && StringLe(b, a) ==> a == b
  {
    if a != [] && b != [] && a[0] == b[0] {
      StringTotal(a[1..], b[1..]);
      assert a == [a[0]] + a[1..] && b == [b[0]] + b[1..];
    }
  }

  lemma {:induction false} StringTransitive(a: string, b: string, c: string)
    requires StringLe(a, b) && StringLe(b, c)
    ensures StringLe(a, c)
  {
    if a != [] && a[0] == b[0] == c[0] { StringTransitive(a[1..], b[1..], c[1..]); }
  }

  /** The order is lexicographic: a prefix first, and otherwise by the first character that differs. */
  lemma {:induction false} StringLeExactly(a: string, b: string)
    ensures StringLe(a, b) <==>
            a <= b || exists k: nat :: k < |a| && k < |b| && a[..k] == b[..k] && a[k] < b[k]
  {
    if a != [] && b != [] {
      var a', b' := a[1..], b[1..];
      StringLeExactly(a', b');
      assert a == [a[0]] + a' && b == [b[0]] + b';
      if k: nat :| k < |a| && k < |b| && a[..k] == b[..k] && a[k] < b[k] {
        if k > 0 { FirstDifferenceInTail(a, b, k - 1); }
      }
      if a[0] == b[0] {
        if k: nat :| k < |a'| && k < |b'| && a'[..k] == b'[..k] && a'[k] < b'[k] { FirstDifferenceInTail(a, b, k); }
        assert a <= b <==> a' <= b';
      } else if a[0] < b[0] {
        assert a[..0] == b[..0];
      }
    }
  }

  lemma FirstDifferenceInTail(a: string, b: string, k: nat)
    requires k + 1 < |a| && k + 1 < |b|
    ensures a[..k + 1] == b[..k + 1] && a[k + 1] < b[k + 1] <==>
            a[0] == b[0] && a[1..][..k] == b[1..][..k] && a[1..][k] < b[1..][k]
  {
    assert a[..k + 1] == [a[0]] + a[1..][..k];
    assert b[..k + 1] == [b[0]] + b[1..][..k];
  }
}
