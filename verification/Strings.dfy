/** Digits, and searching a string for a character. */
module Strings {
  predicate IsDigit(c: char) {
    '0' <= c <= '9'
  }

  /** The part before the first `c`, or all of `s`. */
  function Before(s: string, c: char): (r: string)
    ensures r <= s && c !in r && (|r| < |s| ==> s[|r|] == c)
  {
    if s == [] || s[0] == c then [] else [s[0]] + Before(s[1..], c)
  }

  lemma {:induction false} BeforeStops(s: string, c: char)
    requires c in s
    ensures |Before(s, c)| < |s|
    decreases |s|
  {
    if s[0] != c {
      assert s == [s[0]] + s[1..];
      BeforeStops(s[1..], c);
    }
  }

  lemma {:induction false} BeforeIs(v: string, c: char, rest: string)
    requires c !in v
    ensures Before(v + [c] + rest, c) == v
    decreases |v|
  {
    if v == "" {
      assert v + [c] + rest == [c] + rest;
    } else {
      assert v == [v[0]] + v[1..];
      assert v + [c] + rest == [v[0]] + (v[1..] + [c] + rest);
      BeforeIs(v[1..], c, rest);
    }
  }

  /** Without a `c` the part before it is everything. */
  lemma BeforeAll(s: string, c: char)
    requires c !in s
    ensures Before(s, c) == s
  {
    assert forall k :: 0 <= k < |s| ==> s[k] != c;
    assert |Before(s, c)| == |s|;
  }

  /** The last place of `c`, or -1. */
  function LastIndex(s: string, c: char): (r: int)
    ensures -1 <= r < |s| && (r >= 0 ==> s[r] == c)
    ensures forall k :: r < k < |s| ==> s[k] != c
  {
    if s == "" then -1 else if s[|s| - 1] == c then |s| - 1 else LastIndex(s[..|s| - 1], c)
  }

  predicate Contains(s: string, t: string) {
    t <= s || (s != [] && Contains(s[1..], t))
  }

  /** `t` stands somewhere in `s`. */
  ghost predicate Occurs(s: string, t: string) {
    exists p: nat, q: nat :: p <= q <= |s| && s[p..q] == t
  }

  lemma {:induction false} ContainsWhere(s: string, t: string) returns (p: nat)
    requires Contains(s, t)
    ensures p + |t| <= |s| && s[p..p + |t|] == t
    decreases |s|
  {
    if t <= s {
      p := 0;
    } else {
      p := ContainsWhere(s[1..], t);
      p := p + 1;
    }
  }

  lemma {:induction false} OccursIsContained(s: string, p: nat, q: nat)
    requires p <= q <= |s|
    ensures Contains(s, s[p..q])
    decreases p
  {
    if p > 0 {
      var t := s[1..];
      assert forall k :: 0 <= k < q - p ==> s[p..q][k] == s[p + k] == t[p - 1 + k] == t[p - 1..q - 1][k];
      assert s[p..q] == t[p - 1..q - 1];
      OccursIsContained(s[1..], p - 1, q - 1);
    }
  }

  lemma ContainsIff(s: string, t: string)
    ensures Contains(s, t) <==> Occurs(s, t)
  {
    hide Contains;
    if Contains(s, t) {
      var p := ContainsWhere(s, t);
    }
    if p: nat, q: nat :| p <= q <= |s| && s[p..q] == t { OccursIsContained(s, p, q); }
  }

  // ---- Lexicographic order by code point ----

  predicate Less(a: string, b: string) {
    b != "" && (a == "" || a[0] < b[0] || (a[0] == b[0] && Less(a[1..], b[1..])))
  }

  lemma {:induction false} LessIsTotal(a: string, b: string)
    ensures a == b || Less(a, b) || Less(b, a)
    ensures !(Less(a, b) && Less(b, a)) && !Less(a, a)
    decreases |a|
  {
    if a != "" {
      LessIsTotal(a[1..], a[1..]);
      if b != "" {
        LessIsTotal(a[1..], b[1..]);
        assert a == [a[0]] + a[1..] && b == [b[0]] + b[1..];
      }
    }
  }

  lemma {:induction false} LessChains(a: string, b: string, c: string)
    requires Less(a, b) && Less(b, c)
    ensures Less(a, c)
    decreases |a|
  {
    if a != "" && a[0] == b[0] == c[0] { LessChains(a[1..], b[1..], c[1..]); }
  }

  /** A string sorts before everything it starts. */
  lemma {:induction false} PrefixIsLess(a: string, b: string)
    requires a < b
    ensures Less(a, b)
    decreases |a|
  {
    if a != "" {
      assert a[0] == b[0] && a[1..] < b[1..];
      PrefixIsLess(a[1..], b[1..]);
    }
  }

  /** Strictly ascending. */
  ghost predicate Sorted(names: seq<string>) {
    forall i, j :: 0 <= i < j < |names| ==> Less(names[i], names[j])
  }

  function Inserted(names: seq<string>, d: string): (r: seq<string>)
    ensures forall x :: x in r <==> x in names || x == d
  {
    if names == [] || Less(d, names[0]) then [d] + names
    else
      assert names == [names[0]] + names[1..];
      [names[0]] + Inserted(names[1..], d)
  }

  lemma {:induction false} InsertedIsSorted(names: seq<string>, d: string)
    requires Sorted(names) && d !in names
    ensures Sorted(Inserted(names, d))
    decreases |names|
  {
    var r := Inserted(names, d);
    if names != [] {
      if Less(d, names[0]) {
        forall j | 0 <= j < |names| ensures Less(d, names[j]) {
          if j > 0 { LessChains(d, names[0], names[j]); }
        }
      } else {
        LessIsTotal(d, names[0]);
        assert names[0] in names;
        var tail := Inserted(names[1..], d);
        InsertedIsSorted(names[1..], d);
        forall j | 0 <= j < |tail| ensures Less(names[0], tail[j]) {
          assert tail[j] in tail;
        }
      }
    }
  }

  lemma SortedDistinct(names: seq<string>)
    requires Sorted(names)
    ensures forall i, j :: 0 <= i < j < |names| ==> names[i] != names[j]
  {
    forall i, j | 0 <= i < j < |names| ensures names[i] != names[j] {
      LessIsTotal(names[i], names[j]);
    }
  }

  /** In a sorted list a proper prefix of an element stands before it. */
  lemma PrefixStandsBefore(names: seq<string>, n: nat, a: string)
    requires Sorted(names) && n < |names| && a in names && a < names[n]
    ensures a in names[..n]
  {
    var i :| 0 <= i < |names| && names[i] == a;
    PrefixIsLess(a, names[n]);
    LessIsTotal(a, names[n]);
    assert names[..n][i] == a;
  }

  lemma NothingSorted()
    ensures Sorted([])
  {
  }
}
