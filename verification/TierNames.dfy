/** Names in the screenshot corpus: the mapper number of a directory, the tree its tier demands, and
    the stem of a PNG. */
module TierNames {
  import opened Common
  import opened Strings

  datatype TreeName = External | BestEffort

  /** The mapper numbers of the three tiers. */
  datatype Tiers = Tiers(core: set<nat>, curated: set<nat>, bestEffort: set<nat>)

  const PNG: string := ".png"
  const MAPPER: string := "mapper-"
  const HERE: string := "."
  const PARENT: string := ".."
  const STRAY: string := "...png"
  const SPECIAL: set<string> := {"fds", "pc10", "vs-system"}

  predicate IsPng(name: string) {
    |name| >= 4 && name[|name| - 4..] == PNG
  }

  function Stem(name: string): string
    requires IsPng(name)
  {
    name[..|name| - 4]
  }

  function Number(s: string, acc: nat): nat {
    if s == [] || !IsDigit(s[0]) then acc else Number(s[1..], 10 * acc + (s[0] as int - '0' as int))
  }

  /** The number after the leftmost "mapper-" that is followed by a digit. */
  function DirMapper(name: string): Option<nat> {
    if |name| < 8 then None
    else if MAPPER <= name && IsDigit(name[7]) then Some(Number(name[7..], 0))
    else DirMapper(name[1..])
  }

  function TierCategory(tiers: Tiers, mapper: nat): Option<TreeName> {
    if mapper in tiers.core then Some(External)
    else if mapper in tiers.curated then Some(External)
    else if mapper in tiers.bestEffort then Some(BestEffort)
    else None
  }

  /** The tree a directory must be in; special, unrecognised and unclassified ones have none. */
  function Category(tiers: Tiers, d: string): Option<TreeName> {
    if d in SPECIAL then None
    else
      match DirMapper(d)
      case None => None
      case Some(m) => TierCategory(tiers, m)
  }

  // ---- The number of a directory ----

  /** "mapper-" and a digit stand at `p`. */
  predicate MarkAt(name: string, p: nat) {
    p + 8 <= |name| && name[p..p + 7] == "mapper-" && '0' <= name[p + 7] <= '9'
  }

  predicate AllDigits(s: string) {
    forall i :: 0 <= i < |s| ==> '0' <= s[i] <= '9'
  }

  /** The value of a row of decimal digits: ten times that of all but the last, and the last. */
  function Value(s: string): nat
    requires AllDigits(s)
  {
    if s == [] then 0 else 10 * Value(s[..|s| - 1]) + (s[|s| - 1] as int - '0' as int)
  }

  /** The first mark stands at `p`, and its digits end at `q` with the value `m`. */
  predicate NumberAt(name: string, p: nat, q: nat, m: nat) {
    && MarkAt(name, p) && (forall o: nat :: o < p ==> !MarkAt(name, o))
    && p + 7 < q <= |name| && AllDigits(name[p + 7..q]) && (q < |name| ==> !('0' <= name[q] <= '9'))
    && m == Value(name[p + 7..q])
  }

  /** The name has the mapper number `m`. */
  ghost predicate Numbered(name: string, m: nat) {
    exists p: nat, q: nat :: NumberAt(name, p, q, m)
  }

  lemma {:induction false} NumberAppends(s: string, c: char, acc: nat)
    requires AllDigits(s + [c])
    ensures AllDigits(s) && '0' <= c <= '9' && Number(s + [c], acc) == 10 * Number(s, acc) + (c as int - '0' as int)
    decreases |s|
  {
    var t := s + [c];
    assert forall i :: 0 <= i < |s| ==> s[i] == t[i];
    assert c == t[|s|];
    if s == [] {
      assert t[1..] == [];
    } else {
      assert t[1..] == s[1..] + [c];
      NumberAppends(s[1..], c, 10 * acc + (s[0] as int - '0' as int));
    }
  }

  lemma {:induction false} NumberIsValue(s: string)
    requires AllDigits(s)
    ensures Number(s, 0) == Value(s)
    decreases |s|
  {
    if s != [] {
      var init, c := s[..|s| - 1], s[|s| - 1];
      assert s == init + [c];
      NumberAppends(init, c, 0);
      NumberIsValue(init);
    }
  }

  /** The number stops at the first other character. */
  lemma {:induction false} NumberStops(s: string, rest: string, acc: nat)
    requires AllDigits(s) && (rest != [] ==> !IsDigit(rest[0]))
    ensures Number(s + rest, acc) == Number(s, acc)
    decreases |s|
  {
    if s == [] {
      assert s + rest == rest;
    } else {
      assert (s + rest)[1..] == s[1..] + rest;
      NumberStops(s[1..], rest, 10 * acc + (s[0] as int - '0' as int));
    }
  }

  /** The first `n` characters that are digits. */
  function Digits(s: string): (n: nat)
    ensures n <= |s| && AllDigits(s[..n]) && (n < |s| ==> !IsDigit(s[n]))
  {
    if s == [] || !IsDigit(s[0]) then 0
    else
      var n := 1 + Digits(s[1..]);
      assert forall i :: 0 < i < n ==> s[i] == s[1..][i - 1];
      n
  }

  lemma MarkMoves(name: string, p: nat)
    requires name != ""
    ensures MarkAt(name[1..], p) <==> MarkAt(name, p + 1)
  {
    if p + 9 <= |name| { assert name[1..][p..p + 7] == name[p + 1..p + 8]; }
  }

  lemma NumberMoves(name: string, p: nat, q: nat, m: nat)
    requires name != "" && !MarkAt(name, 0)
    ensures NumberAt(name[1..], p, q, m) <==> NumberAt(name, p + 1, q + 1, m)
  {
    var t := name[1..];
    forall o: nat ensures MarkAt(t, o) <==> MarkAt(name, o + 1) { MarkMoves(name, o); }
    hide MarkAt;
    if p + 7 < q <= |t| { assert t[p + 7..q] == name[p + 8..q + 1]; }
    if forall o: nat :: o < p + 1 ==> !MarkAt(name, o) {
      forall o: nat | o < p ensures !MarkAt(t, o) { assert !MarkAt(name, o + 1); }
    }
    if forall o: nat :: o < p ==> !MarkAt(t, o) {
      forall o: nat | o < p + 1 ensures !MarkAt(name, o) { if o > 0 { assert !MarkAt(t, o - 1); } }
    }
  }

  /** A mark at the very start is the first, and gives the number read from there. */
  lemma NumberAtStart(name: string, p: nat, q: nat, m: nat)
    requires MarkAt(name, 0)
    ensures NumberAt(name, p, q, m) <==> p == 0 && q == 7 + Digits(name[7..]) && m == Number(name[7..], 0)
  {
    var t := name[7..];
    var n := Digits(t);
    assert t == t[..n] + t[n..];
    NumberStops(t[..n], t[n..], 0);
    NumberIsValue(t[..n]);
    assert name[7..7 + n] == t[..n] && n > 0;
    if NumberAt(name, p, q, m) {
      assert p == 0;
      DigitsEnd(name, q, 7 + n);
    }
  }

  /** A row of digits has one end. */
  lemma DigitsEnd(name: string, a: nat, b: nat)
    requires 7 < a <= |name| && AllDigits(name[7..a]) && (a < |name| ==> !('0' <= name[a] <= '9'))
    requires 7 < b <= |name| && AllDigits(name[7..b]) && (b < |name| ==> !('0' <= name[b] <= '9'))
    ensures a == b
  {
  }

  /** The number read from a name is the one it bears: that of the decimal digits behind the first
      "mapper-" that is followed by a digit. */
  lemma {:induction false} NumberedIff(name: string, m: nat)
    ensures DirMapper(name) == Some(m) <==> Numbered(name, m)
    decreases |name|
  {
    hide Number, NumberAt;
    assert MAPPER <= name && |name| >= 8 && IsDigit(name[7]) <==> MarkAt(name, 0);
    if |name| < 8 {
      if p: nat, q: nat :| NumberAt(name, p, q, m) { MarkFits(name, p, q, m); }
    } else if MarkAt(name, 0) {
      NumberAtStart(name, 0, 7 + Digits(name[7..]), Number(name[7..], 0));
      if p: nat, q: nat :| NumberAt(name, p, q, m) { NumberAtStart(name, p, q, m); }
    } else {
      NumberedIff(name[1..], m);
      if p: nat, q: nat :| NumberAt(name[1..], p, q, m) { NumberMoves(name, p, q, m); }
      if p: nat, q: nat :| NumberAt(name, p, q, m) {
        MarkFits(name, p, q, m);
        NumberMoves(name, p - 1, q - 1, m);
      }
    }
  }

  lemma MarkFits(name: string, p: nat, q: nat, m: nat)
    requires NumberAt(name, p, q, m)
    ensures |name| >= 8 && MarkAt(name, p) && q > 0
  {
  }

  function Digit(d: nat): (c: char)
    requires d < 10
    ensures '0' <= c <= '9' && c as int - '0' as int == d
  {
    "0123456789"[d]
  }

  function Decimal(m: nat): (s: string)
    ensures AllDigits(s) && s != ""
  {
    if m < 10 then [Digit(m)] else Decimal(m / 10) + [Digit(m % 10)]
  }

  /** A number printed in decimal is read back, leading zeros or not. */
  lemma {:induction false} DecimalReadsBack(m: nat, zeros: string)
    requires forall i :: 0 <= i < |zeros| ==> zeros[i] == '0'
    ensures AllDigits(zeros + Decimal(m)) && Value(zeros + Decimal(m)) == m
    decreases m
  {
    hide Digit;
    var s := zeros + Decimal(m);
    if m < 10 {
      assert s[..|s| - 1] == zeros && s[|s| - 1] == Digit(m);
      ZerosAreZero(zeros);
    } else {
      assert s[..|s| - 1] == zeros + Decimal(m / 10) && s[|s| - 1] == Digit(m % 10);
      DecimalReadsBack(m / 10, zeros);
    }
  }

  lemma {:induction false} ZerosAreZero(zeros: string)
    requires forall i :: 0 <= i < |zeros| ==> zeros[i] == '0'
    ensures AllDigits(zeros) && Value(zeros) == 0
    decreases |zeros|
  {
    if zeros != [] { ZerosAreZero(zeros[..|zeros| - 1]); }
  }

  // ---- The tree a tier demands ----

  /** The directory belongs in the external tree: a core or curated mapper. */
  ghost predicate ForExternal(tiers: Tiers, d: string) {
    d !in {"fds", "pc10", "vs-system"} && exists m :: Numbered(d, m) && m in tiers.core + tiers.curated
  }

  /** It belongs in the best-effort tree: a best-effort mapper that is neither. */
  ghost predicate ForBestEffort(tiers: Tiers, d: string) {
    d !in {"fds", "pc10", "vs-system"}
    && exists m :: Numbered(d, m) && m in tiers.bestEffort - tiers.core - tiers.curated
  }

  lemma CategoryMeans(tiers: Tiers, d: string)
    ensures Category(tiers, d) == Some(External) <==> ForExternal(tiers, d)
    ensures Category(tiers, d) == Some(BestEffort) <==> ForBestEffort(tiers, d)
  {
    hide DirMapper, Numbered;
    forall m: nat ensures DirMapper(d) == Some(m) <==> Numbered(d, m) { NumberedIff(d, m); }
  }

  // ---- Flat PNGs ----

  lemma PngIs(e: string)
    ensures IsPng(e) <==> |e| >= 4 && e[|e| - 4..] == ".png"
    ensures IsPng(e) ==> e == Stem(e) + ".png"
  {
  }
}
