/** Splitting and joining strings at one character, as Rust's `split` does. */
module Strings {

  function Split(s: string, c: char): (parts: seq<string>)
    ensures |parts| > 0
  {
    if s == [] then [[]]
    else
      var rest := Split(s[1..], c);
      if s[0] == c then [[]] + rest else [[s[0]] + rest[0]] + rest[1..]
  }

  function Join(parts: seq<string>, c: char): string
    requires |parts| > 0
  {
    if |parts| == 1 then parts[0] else parts[0] + [c] + Join(parts[1..], c)
  }

  lemma {:induction false} SplitNone(s: string, c: char)
    requires c !in s
    ensures Split(s, c) == [s]
  {
    if s != [] {
      SplitNone(s[1..], c);
      assert [s[0]] + s[1..] == s;
    }
  }

  function Prefixed(x: char, parts: seq<string>, c: char): seq<string>
    requires |parts| > 0
  {
    if x == c then [[]] + parts else [[x] + parts[0]] + parts[1..]
  }

  lemma SplitCons(x: char, s: string, c: char)
    ensures Split([x] + s, c) == Prefixed(x, Split(s, c), c)
  {
    assert ([x] + s)[1..] == s;
  }

  lemma PrefixedAppend(x: char, p: seq<string>, q: seq<string>, c: char)
    requires |p| > 0
    ensures Prefixed(x, p + q, c) == Prefixed(x, p, c) + q
  {
    assert (p + q)[1..] == p[1..] + q;
  }

  /** Splitting `a`, the separator, `b` splits `a` and splits `b`. */
  lemma {:induction false} SplitAppend(a: string, b: string, c: char)
    ensures Split(a + [c] + b, c) == Split(a, c) + Split(b, c)
  {
    if a == [] {
      assert a + [c] + b == [c] + b;
      SplitCons(c, b, c);
    } else {
      var x, rest := a[0], a[1..];
      calc {
        Split(a + [c] + b, c);
      == { assert a + [c] + b == [x] + (rest + [c] + b); SplitCons(x, rest + [c] + b, c); }
        Prefixed(x, Split(rest + [c] + b, c), c);
      == { SplitAppend(rest, b, c); }
        Prefixed(x, Split(rest, c) + Split(b, c), c);
      == { PrefixedAppend(x, Split(rest, c), Split(b, c), c); }
        Prefixed(x, Split(rest, c), c) + Split(b, c);
      == { SplitCons(x, rest, c); assert [x] + rest == a; }
        Split(a, c) + Split(b, c);
      }
    }
  }

  /** A word without the separator comes off as the first part. */
  lemma SplitWord(word: string, rest: string, c: char)
    requires c !in word
    ensures Split(word + [c] + rest, c) == [word] + Split(rest, c)
  {
    SplitAppend(word, rest, c);
    SplitNone(word, c);
  }

  lemma {:induction false} JoinSplit(s: string, c: char)
    ensures Join(Split(s, c), c) == s
  {
    if s != [] {
      JoinSplit(s[1..], c);
      var rest := Split(s[1..], c);
      assert s == [s[0]] + s[1..];
      if s[0] == c {
        assert ([[]] + rest)[1..] == rest;
        assert [] + [c] + Join(rest, c) == s;
      } else if |rest| > 1 {
        var parts := [[s[0]] + rest[0]] + rest[1..];
        assert parts[1..] == rest[1..];
        assert Join(parts, c) == [s[0]] + (rest[0] + [c] + Join(rest[1..], c));
      }
    }
  }

  lemma {:induction false} JoinAppend(p: seq<string>, q: seq<string>, c: char)
    requires |p| > 0 && |q| > 0
    ensures Join(p + q, c) == Join(p, c) + [c] + Join(q, c)
  {
    if |p| == 1 {
      assert (p + q)[1..] == q;
    } else {
      JoinAppend(p[1..], q, c);
      assert (p + q)[1..] == p[1..] + q;
      assert p[0] + [c] + (Join(p[1..], c) + [c] + Join(q, c)) == (p[0] + [c] + Join(p[1..], c)) + [c] + Join(q, c);
    }
  }

  /** The other round trip: parts without the separator are what splitting their join gives back. */
  lemma {:induction false} SplitJoin(parts: seq<string>, c: char)
    requires |parts| > 0 && forall i :: 0 <= i < |parts| ==> c !in parts[i]
    ensures Split(Join(parts, c), c) == parts
  {
    SplitNone(parts[0], c);
    if |parts| > 1 {
      SplitJoin(parts[1..], c);
      SplitAppend(parts[0], Join(parts[1..], c), c);
      assert [parts[0]] + parts[1..] == parts;
    }
  }

  lemma {:induction false} SplitHasNone(s: string, c: char)
    ensures forall i :: 0 <= i < |Split(s, c)| ==> c !in Split(s, c)[i]
  {
    if s != [] { SplitHasNone(s[1..], c); }
  }
}
