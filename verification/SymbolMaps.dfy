/** The debugger's label map and its three symbol-file formats. Characters are code points, with the
    blanks and line ends of the original's character classes. */
module SymbolMaps {
  import opened Common
  import opened Strings

  type Addr = n: nat | n < 0x1_0000

  type Labels = map<Addr, string>

  datatype Format = Sym | Mlb | Nl

  datatype Entry = Entry(addr: Addr, name: string)

  const MAX_LABELS: nat := 200_000

  // ---- Character classes and splitting ----

  predicate IsNewline(c: char) {
    '\U{000A}' <= c <= '\U{000D}' || c == '\U{0085}' || c == '\U{2028}' || c == '\U{2029}'
  }

  /** A space separator or a tab. */
  predicate IsBlank(c: char) {
    c == ' ' || c == '\t' || c == '\U{00A0}' || c == '\U{1680}' || '\U{2000}' <= c <= '\U{200A}'
    || c == '\U{202F}' || c == '\U{205F}' || c == '\U{3000}'
  }

  predicate IsWhitespace(c: char) {
    IsBlank(c) || IsNewline(c)
  }

  predicate NoneOf(s: string, sep: char -> bool) {
    forall k :: 0 <= k < |s| ==> !sep(s[k])
  }

  /** The longest start of `s` without a separator. */
  function Word(s: string, sep: char -> bool): (r: string)
    ensures r <= s && NoneOf(r, sep) && (|r| < |s| ==> sep(s[|r|]))
    ensures s != "" && !sep(s[0]) ==> r != ""
  {
    if s == "" || sep(s[0]) then "" else [s[0]] + Word(s[1..], sep)
  }

  /** The non-empty pieces between separators. */
  function Words(s: string, sep: char -> bool): (r: seq<string>)
    ensures forall k :: 0 <= k < |r| ==> r[k] != "" && NoneOf(r[k], sep)
    decreases |s|
  {
    if s == "" then []
    else if sep(s[0]) then Words(s[1..], sep)
    else
      var w := Word(s, sep);
      [w] + Words(s[|w|..], sep)
  }

  /** The pieces between separators, empty ones included. */
  function Fields(s: string, c: char): (r: seq<string>)
    ensures |r| > 0
    ensures forall k :: 0 <= k < |r| ==> c !in r[k] && forall x :: x in r[k] ==> x in s
    decreases |s|
  {
    var f := Before(s, c);
    if |f| == |s| then [f]
    else
      var rest := Fields(s[|f| + 1..], c);
      assert forall x :: x in s[|f| + 1..] ==> x in s;
      [f] + rest
  }

  function TrimStart(s: string): (r: string)
    ensures r != "" ==> !IsBlank(r[0])
    ensures |r| <= |s| && r == s[|s| - |r|..]
  {
    if s != "" && IsBlank(s[0]) then TrimStart(s[1..]) else s
  }

  function TrimEnd(s: string): (r: string)
    ensures r != "" ==> !IsBlank(r[|r| - 1])
    ensures r <= s
  {
    if s != "" && IsBlank(s[|s| - 1]) then TrimEnd(s[..|s| - 1]) else s
  }

  /** Without blanks at either end. */
  predicate Trimmed(s: string) {
    s != "" ==> !IsBlank(s[0]) && !IsBlank(s[|s| - 1])
  }

  function Trim(s: string): (r: string)
    ensures Trimmed(r)
    ensures Trimmed(s) ==> r == s
    ensures forall x :: x in r ==> x in s
  {
    TrimEnd(TrimStart(s))
  }

  // ---- Addresses ----

  function HexValue(c: char): (r: Option<nat>)
    ensures r.Some? ==> r.value < 16
  {
    if '0' <= c <= '9' then Some((c - '0') as nat)
    else if 'a' <= c <= 'f' then Some((c - 'a') as nat + 10)
    else if 'A' <= c <= 'F' then Some((c - 'A') as nat + 10)
    else None
  }

  function Digits(s: string): Option<nat> {
    if s == "" then None
    else
      var last := HexValue(s[|s| - 1]);
      if |s| == 1 then last
      else
        var front := Digits(s[..|s| - 1]);
        if front.Some? && last.Some? then Some(16 * front.value + last.value) else None
  }

  /** The unsigned reading: an optional plus sign, or a minus sign before zero. Values beyond the
      machine word are rejected by the original and by every use here alike. */
  function ParseUnsigned(s: string): Option<nat> {
    if s != "" && s[0] == '+' then Digits(s[1..])
    else if s != "" && s[0] == '-' then (if Digits(s[1..]) == Some(0) then Some(0) else None)
    else Digits(s)
  }

  /** What follows the last colon. */
  function AfterBank(t: string): string {
    t[LastIndex(t, ':') + 1..]
  }

  function DropDollar(t: string): string {
    if "$" <= t then t[1..] else t
  }

  function ParseHexAddr(token: string): Option<Addr> {
    var t := DropDollar(AfterBank(Trim(token)));
    var value := ParseUnsigned(t);
    if value.Some? && value.value <= 0xFFFF then Some(value.value) else None
  }

  // ---- Lines ----

  function SymEntry(line: string): Option<Entry> {
    var parts := Words(line, IsWhitespace);
    if |parts| < 2 then None
    else
      var addr := ParseHexAddr(parts[0]);
      if addr.None? then None else Some(Entry(addr.value, parts[1]))
  }

  function MlbEntry(line: string): Option<Entry> {
    var fields := Fields(line, ':');
    if |fields| < 3 then None
    else
      var addr, name := ParseHexAddr(fields[1]), Trim(fields[2]);
      if addr.None? || name == "" then None else Some(Entry(addr.value, name))
  }

  function NlEntry(line: string): Option<Entry> {
    var fields := Fields(line, '#');
    if |fields| < 2 then None
    else
      var addr, name := ParseHexAddr(fields[0]), Trim(fields[1]);
      if addr.None? || name == "" then None else Some(Entry(addr.value, name))
  }

  predicate Skipped(line: string) {
    line == "" || line[0] == ';' || line[0] == '#'
  }

  /** The entry of a raw line, if it holds one. */
  function LineEntry(format: Format, rawLine: string): Option<Entry> {
    var line := Trim(rawLine);
    if Skipped(line) then None
    else match format case Sym => SymEntry(line) case Mlb => MlbEntry(line) case Nl => NlEntry(line)
  }

  function Put(labels: Labels, entry: Option<Entry>): Labels {
    if entry.Some? then labels[entry.value.addr := entry.value.name] else labels
  }

  function Merged(labels: Labels, format: Format, lines: seq<string>): Labels
    decreases |lines|
  {
    hide LineEntry, Put;
    if lines == [] then labels else Merged(Put(labels, LineEntry(format, lines[0])), format, lines[1..])
  }

  function Lines(text: string): seq<string> {
    Words(text, IsNewline)
  }

  // ---- The map ----

  lemma {:induction false} SmallSets(s: set<Addr>, n: nat)
    requires forall x :: x in s ==> x < n
    ensures |s| <= n
    decreases n
  {
    if n == 0 {
      assert s == {};
    } else if n <= 0x1_0000 {
      SmallSets(s - {n - 1}, n - 1);
      assert |s| <= |s - {n - 1}| + 1;
    } else {
      SmallSets(s, n - 1);
    }
  }

  /** There are fewer addresses than the cap on labels, so the cap never ends a merge early. */
  lemma CapIsNeverReached(labels: Labels)
    ensures |labels| <= 0x1_0000 < MAX_LABELS
  {
    SmallSets(labels.Keys, 0x1_0000);
    assert |labels| == |labels.Keys|;
  }

  class SymbolMap {
    var labels: Labels

    constructor ()
      ensures labels == map[]
    {
      labels := map[];
    }

    /** Parses a text and merges its labels in; the number added. */
    method Merge(text: string, format: Format) returns (added: int)
      modifies this
      ensures labels == Merged(old(labels), format, Lines(text))
      ensures added == |labels| - |old(labels)|
    {
      hide Words, Trim, Skipped, SymEntry, MlbEntry, NlEntry;
      var before := |labels|;
      var lines := Words(text, IsNewline);
      var k := 0;
      while k < |lines|
        invariant 0 <= k <= |lines|
        invariant Merged(old(labels), format, lines) == Merged(labels, format, lines[k..])
      {
        CapIsNeverReached(labels);
        if |labels| >= MAX_LABELS {
          break;
        }
        var line := Trim(lines[k]);
        assert lines[k..][1..] == lines[k + 1..];
        k := k + 1;
        if Skipped(line) {
          continue;
        }
        match format {
          case Sym => ParseSym(line);
          case Mlb => ParseMlb(line);
          case Nl => ParseNl(line);
        }
      }
      return |labels| - before;
    }

    method ParseSym(line: string)
      modifies this
      ensures labels == Put(old(labels), SymEntry(line))
    {
      hide Words, ParseHexAddr, IsWhitespace;
      var parts := Words(line, IsWhitespace);
      if |parts| < 2 {
        return;
      }
      var addr := ParseHexAddr(parts[0]);
      if addr.None? {
        return;
      }
      var name := parts[1];
      if name != "" {
        labels := labels[addr.value := name];
      }
    }

    method ParseMlb(line: string)
      modifies this
      ensures labels == Put(old(labels), MlbEntry(line))
    {
      hide Fields, ParseHexAddr, Trim;
      var fields := Fields(line, ':');
      if |fields| < 3 {
        return;
      }
      var addr := ParseHexAddr(fields[1]);
      if addr.None? {
        return;
      }
      var name := Trim(fields[2]);
      if name != "" {
        labels := labels[addr.value := name];
      }
    }

    method ParseNl(line: string)
      modifies this
      ensures labels == Put(old(labels), NlEntry(line))
    {
      hide Fields, ParseHexAddr, Trim;
      var fields := Fields(line, '#');
      if |fields| < 2 {
        return;
      }
      var addr := ParseHexAddr(fields[0]);
      if addr.None? {
        return;
      }
      var name := Trim(fields[1]);
      if name != "" {
        labels := labels[addr.value := name];
      }
    }
  }

  /** Merging one list of lines after another is merging their concatenation. */
  lemma {:induction false} MergedConcat(labels: Labels, format: Format, a: seq<string>, b: seq<string>)
    ensures Merged(labels, format, a + b) == Merged(Merged(labels, format, a), format, b)
    decreases |a|
  {
    hide LineEntry, Put;
    if a == [] {
      assert a + b == b;
    } else {
      assert (a + b)[1..] == a[1..] + b;
      MergedConcat(Put(labels, LineEntry(format, a[0])), format, a[1..], b);
    }
  }

  // ---- What the parsers can read ----

  /** The labels a format can hold. */
  predicate Legal(format: Format, name: string) {
    && name != ""
    && NoneOf(name, IsNewline)
    && match format
       case Sym => NoneOf(name, IsWhitespace)
       case Mlb => Trimmed(name) && ':' !in name
       case Nl => Trimmed(name) && '#' !in name
  }

  lemma EntriesAreLegal(format: Format, rawLine: string)
    requires NoneOf(rawLine, IsNewline)
    ensures var e := LineEntry(format, rawLine); e.Some? ==> Legal(format, e.value.name)
  {
    hide Trim, Fields, Words, ParseHexAddr, Trimmed, Skipped, IsNewline, IsBlank;
    var line, e := Trim(rawLine), LineEntry(format, rawLine);
    NoneIn(rawLine, line, IsNewline);
    if e.Some? {
      match format
      case Sym =>
        assert NoneOf(e.value.name, IsWhitespace);
      case Mlb =>
        NoneIn(line, Fields(line, ':')[2], IsNewline);
        NoneIn(Fields(line, ':')[2], e.value.name, IsNewline);
      case Nl =>
        NoneIn(line, Fields(line, '#')[1], IsNewline);
        NoneIn(Fields(line, '#')[1], e.value.name, IsNewline);
    }
  }

  lemma NoneIn(s: string, t: string, sep: char -> bool)
    requires NoneOf(s, sep) && forall x :: x in t ==> x in s
    ensures NoneOf(t, sep)
  {
    forall k | 0 <= k < |t| ensures !sep(t[k]) {
      assert t[k] in s;
    }
  }

  ghost predicate AllLegal(format: Format, labels: Labels) {
    forall a :: a in labels ==> Legal(format, labels[a])
  }

  lemma PutIsLegal(format: Format, labels: Labels, rawLine: string)
    requires AllLegal(format, labels) && NoneOf(rawLine, IsNewline)
    ensures AllLegal(format, Put(labels, LineEntry(format, rawLine)))
  {
    hide LineEntry, Legal;
    EntriesAreLegal(format, rawLine);
  }

  /** Whatever the text, every label merged from it is one its format can hold. */
  lemma {:induction false} MergedIsLegal(labels: Labels, format: Format, lines: seq<string>)
    requires AllLegal(format, labels) && forall k :: 0 <= k < |lines| ==> NoneOf(lines[k], IsNewline)
    ensures AllLegal(format, Merged(labels, format, lines))
    decreases |lines|
  {
    hide LineEntry, Put, AllLegal, NoneOf;
    if lines != [] {
      PutIsLegal(format, labels, lines[0]);
      MergedIsLegal(Put(labels, LineEntry(format, lines[0])), format, lines[1..]);
    }
  }

  // ---- Printers ----

  function HexDigit(n: nat): char
    requires n < 16
  {
    "0123456789ABCDEF"[n]
  }

  /** `n` in hex, padded with zeros to `width`. */
  function Hex(n: nat, width: nat): (r: string)
    ensures |r| >= 1
    decreases n, width
  {
    if n < 16 && width <= 1 then [HexDigit(n)]
    else Hex(n / 16, if width == 0 then 0 else width - 1) + [HexDigit(n % 16)]
  }

  const MEMORY: string := "NesMemory"

  function Line(format: Format, entry: Entry): string {
    match format
    case Sym => Hex(entry.addr, 4) + " " + entry.name
    case Mlb => MEMORY + ":" + Hex(entry.addr, 4) + ":" + entry.name
    case Nl => "$" + Hex(entry.addr, 4) + "#" + entry.name + "#"
  }

  function Print(format: Format, entries: seq<Entry>): string {
    if entries == [] then "" else Line(format, entries[0]) + "\n" + Print(format, entries[1..])
  }

  /** The entries of a map, in some order. */
  ghost predicate Lists(entries: seq<Entry>, labels: Labels) {
    && (forall k :: 0 <= k < |entries| ==> entries[k].addr in labels && labels[entries[k].addr] == entries[k].name)
    && (forall a :: a in labels ==> Entry(a, labels[a]) in entries)
  }

  lemma HexDigitFacts(n: nat)
    requires n < 16
    ensures HexValue(HexDigit(n)) == Some(n)
    ensures var c := HexDigit(n); '0' <= c <= '9' || 'A' <= c <= 'F'
  {
  }

  predicate IsHex(s: string) {
    forall k :: 0 <= k < |s| ==> '0' <= s[k] <= '9' || 'A' <= s[k] <= 'F'
  }

  lemma LastDigit(front: string, n: nat, c: char)
    requires Digits(front) == Some(n) && HexValue(c).Some?
    ensures Digits(front + [c]) == Some(16 * n + HexValue(c).value)
  {
    hide HexValue;
    var s := front + [c];
    assert s[..|s| - 1] == front && s[|s| - 1] == c;
  }

  /** Reading back a hex number of any width gives the number. */
  lemma {:induction false} HexReadsBack(n: nat, width: nat)
    ensures Digits(Hex(n, width)) == Some(n) && IsHex(Hex(n, width))
    decreases n, width
  {
    hide HexValue, HexDigit, Digits;
    HexDigitFacts(n % 16);
    var last := HexDigit(n % 16);
    if n < 16 && width <= 1 {
      OneDigit(last);
    } else {
      var w := if width == 0 then 0 else width - 1;
      HexReadsBack(n / 16, w);
      LastDigit(Hex(n / 16, w), n / 16, last);
    }
  }

  lemma OneDigit(c: char)
    ensures Digits([c]) == HexValue(c)
  {
  }

  lemma PlainHex(h: string)
    requires IsHex(h) && h != ""
    ensures ParseUnsigned(h) == Digits(h) && DropDollar(h) == h && DropDollar("$" + h) == h && ':' !in h
  {
    hide Digits;
    assert h[0] != '$' && h[0] != '+' && h[0] != '-';
    assert ("$" + h)[1..] == h;
  }

  lemma NoBank(t: string)
    requires ':' !in t
    ensures AfterBank(t) == t
  {
    hide LastIndex;
  }

  lemma WithBank(bank: string, t: string)
    requires ':' !in t
    ensures AfterBank(bank + ":" + t) == t
  {
    hide LastIndex;
    var b := bank + ":" + t;
    assert b[|bank|] == ':';
    assert forall k :: |bank| < k < |b| ==> b[k] == t[k - |bank| - 1];
    assert LastIndex(b, ':') == |bank|;
  }

  /** An address token is read by value: any zero padding, an optional dollar sign and an optional
      bank prefix change nothing, and a number beyond the address space is refused, never
      truncated. */
  lemma AddressForms(bank: string, dollar: bool, n: nat, width: nat)
    requires bank != "" ==> !IsBlank(bank[0])
    ensures var t := (if dollar then "$" else "") + Hex(n, width);
      && ParseHexAddr(t) == (if n <= 0xFFFF then Some(n) else None)
      && ParseHexAddr(bank + ":" + t) == ParseHexAddr(t)
  {
    hide Digits, Hex, ParseHexAddr, AfterBank, DropDollar, ParseUnsigned, Trimmed;
    var h := Hex(n, width);
    HexReadsBack(n, width);
    PlainHex(h);
    var t := (if dollar then "$" else "") + h;
    assert t == h || t == "$" + h;
    assert ':' !in t;
    HexIsTrimmed(h, t);
    NoBank(t);
    TokenReads(t);
    BankedIsTrimmed(bank, t);
    WithBank(bank, t);
    TokenReads(bank + ":" + t);
  }

  lemma TokenReads(token: string)
    requires Trimmed(token)
    ensures var n := ParseUnsigned(DropDollar(AfterBank(token)));
      ParseHexAddr(token) == if n.Some? && n.value <= 0xFFFF then Some(n.value) else None
  {
    hide Trim, AfterBank, DropDollar, ParseUnsigned;
  }

  lemma BankedIsTrimmed(bank: string, t: string)
    requires (bank != "" ==> !IsBlank(bank[0])) && t != "" && !IsBlank(t[|t| - 1])
    ensures Trimmed(bank + ":" + t)
  {
    var b := bank + ":" + t;
    assert b[0] == if bank == "" then ':' else bank[0];
    assert b[|b| - 1] == t[|t| - 1];
  }

  lemma HexIsTrimmed(h: string, t: string)
    requires IsHex(h) && h != "" && (t == h || t == "$" + h)
    ensures t != "" && Trimmed(t) && !IsBlank(t[|t| - 1])
  {
    assert t[|t| - 1] == h[|h| - 1];
  }

  // ---- Reading a printed line ----

  lemma {:induction false} WordStops(w: string, sep: char -> bool, rest: string)
    requires NoneOf(w, sep) && (rest != "" ==> sep(rest[0]))
    ensures Word(w + rest, sep) == w
    decreases |w|
  {
    if w == "" {
      assert w + rest == rest;
    } else {
      assert (w + rest)[1..] == w[1..] + rest && w == [w[0]] + w[1..];
      WordStops(w[1..], sep, rest);
    }
  }

  /** A word before a separator is the first word. */
  lemma FirstOfWords(w: string, sep: char -> bool, c: char, rest: string)
    requires NoneOf(w, sep) && w != "" && sep(c)
    ensures Words(w + [c] + rest, sep) == [w] + Words(rest, sep)
  {
    hide Word;
    var tail := [c] + rest;
    assert w + [c] + rest == w + tail;
    WordStops(w, sep, tail);
    assert (w + tail)[|w|..] == tail && (w + tail)[0] == w[0];
    assert tail[1..] == rest;
    assert Words(tail, sep) == Words(rest, sep);
  }

  lemma OnlyWord(w: string, sep: char -> bool)
    requires NoneOf(w, sep) && w != ""
    ensures Words(w, sep) == [w]
  {
    hide Word;
    assert w + "" == w;
    WordStops(w, sep, "");
    assert w[|w|..] == "" && Words("", sep) == [];
  }

  lemma FirstOfFields(f: string, c: char, rest: string)
    requires c !in f
    ensures Fields(f + [c] + rest, c) == [f] + Fields(rest, c)
  {
    hide Before;
    BeforeIs(f, c, rest);
    assert (f + [c] + rest)[|f| + 1..] == rest;
  }

  lemma OnlyField(f: string, c: char)
    requires c !in f
    ensures Fields(f, c) == [f]
  {
    hide Before;
    BeforeAll(f, c);
  }

  lemma HexFacts(addr: Addr, h: string)
    requires h == Hex(addr, 4)
    ensures IsHex(h) && h != "" && ':' !in h && '#' !in h && NoneOf(h, IsWhitespace)
    ensures ParseHexAddr(h) == Some(addr) && ParseHexAddr("$" + h) == Some(addr)
  {
    HexReadsBack(addr, 4);
    AddressForms("", false, addr, 4);
    AddressForms("", true, addr, 4);
    hide Hex, ParseHexAddr, Digits;
    assert "" + h == h;
    HexHasNoMarks(h);
  }

  lemma HexHasNoMarks(h: string)
    requires IsHex(h)
    ensures ':' !in h && '#' !in h && NoneOf(h, IsWhitespace)
  {
  }

  lemma SymReadsBack(addr: Addr, name: string)
    requires Legal(Sym, name)
    ensures var line := Line(Sym, Entry(addr, name));
      SymEntry(line) == Some(Entry(addr, name)) && Trimmed(line) && !Skipped(line) && NoneOf(line, IsNewline)
  {
    hide Hex, ParseHexAddr, Words;
    var h := Hex(addr, 4);
    HexFacts(addr, h);
    var line := h + " " + name;
    FirstOfWords(h, IsWhitespace, ' ', name);
    OnlyWord(name, IsWhitespace);
    assert line[0] == h[0] && line[|line| - 1] == name[|name| - 1];
  }

  lemma MlbReadsBack(addr: Addr, name: string)
    requires Legal(Mlb, name)
    ensures var line := Line(Mlb, Entry(addr, name));
      MlbEntry(line) == Some(Entry(addr, name)) && Trimmed(line) && !Skipped(line) && NoneOf(line, IsNewline)
  {
    hide Hex, ParseHexAddr, Fields, Trim;
    var h := Hex(addr, 4);
    HexFacts(addr, h);
    var line := MEMORY + ":" + h + ":" + name;
    assert line == MEMORY + ":" + (h + ":" + name);
    FirstOfFields(MEMORY, ':', h + ":" + name);
    FirstOfFields(h, ':', name);
    OnlyField(name, ':');
    assert line[0] == 'N' && line[|line| - 1] == name[|name| - 1];
  }

  lemma NlReadsBack(addr: Addr, name: string)
    requires Legal(Nl, name)
    ensures var line := Line(Nl, Entry(addr, name));
      NlEntry(line) == Some(Entry(addr, name)) && Trimmed(line) && !Skipped(line) && NoneOf(line, IsNewline)
  {
    hide Hex, ParseHexAddr, Fields, Trim;
    var h := Hex(addr, 4);
    HexFacts(addr, h);
    var line := "$" + h + "#" + name + "#";
    assert line == ("$" + h) + "#" + (name + "#" + "");
    assert '#' !in "$" + h;
    FirstOfFields("$" + h, '#', name + "#" + "");
    FirstOfFields(name, '#', "");
    OnlyField("", '#');
    assert line[0] == '$' && line[|line| - 1] == '#';
  }

  lemma LineReadsBack(format: Format, entry: Entry)
    requires Legal(format, entry.name)
    ensures LineEntry(format, Line(format, entry)) == Some(entry) && NoneOf(Line(format, entry), IsNewline)
    ensures Line(format, entry) != ""
  {
    hide Line, Legal, Trim, SymEntry, MlbEntry, NlEntry, NoneOf;
    match format
    case Sym => SymReadsBack(entry.addr, entry.name);
    case Mlb => MlbReadsBack(entry.addr, entry.name);
    case Nl => NlReadsBack(entry.addr, entry.name);
  }

  // ---- Round trip ----

  function PutAll(labels: Labels, entries: seq<Entry>): Labels
    decreases |entries|
  {
    if entries == [] then labels else PutAll(labels[entries[0].addr := entries[0].name], entries[1..])
  }

  lemma {:induction false} PrintedReadsBack(labels: Labels, format: Format, entries: seq<Entry>)
    requires forall k :: 0 <= k < |entries| ==> Legal(format, entries[k].name)
    ensures Merged(labels, format, Lines(Print(format, entries))) == PutAll(labels, entries)
    decreases |entries|
  {
    hide Line, LineEntry, Legal, Words, IsNewline;
    if entries == [] {
      NoLines();
    } else {
      var line, rest := Line(format, entries[0]), Print(format, entries[1..]);
      LineReadsBack(format, entries[0]);
      Newline();
      FirstOfWords(line, IsNewline, '\n', rest);
      assert Lines(line + "\n" + rest) == [line] + Lines(rest);
      assert ([line] + Lines(rest))[1..] == Lines(rest);
      PrintedReadsBack(Put(labels, Some(entries[0])), format, entries[1..]);
    }
  }

  lemma NoLines()
    ensures Lines("") == []
  {
  }

  lemma Newline()
    ensures IsNewline('\n')
  {
  }

  /** What putting entries that agree with `target` leaves at one address. */
  lemma {:induction false} PutAllAt(labels: Labels, entries: seq<Entry>, target: Labels, a: Addr)
    requires forall e :: e in entries ==> e.addr in target && target[e.addr] == e.name
    ensures var m := PutAll(labels, entries);
      && (a !in target ==> (a in m <==> a in labels) && (a in m ==> m[a] == labels[a]))
      && (a in target && (Entry(a, target[a]) in entries || (a in labels && labels[a] == target[a])) ==>
           a in m && m[a] == target[a])
    decreases |entries|
  {
    if entries != [] {
      var first, rest := entries[0], entries[1..];
      assert entries == [first] + rest && first in entries;
      PutAllAt(labels[first.addr := first.name], rest, target, a);
    }
  }

  /** Printing a map with legal labels, in any order, and merging the text puts exactly that map on
      top of the labels already there. */
  lemma PrintThenMerge(labels: Labels, format: Format, entries: seq<Entry>, target: Labels)
    requires Lists(entries, target) && AllLegal(format, target)
    ensures Merged(labels, format, Lines(Print(format, entries))) == labels + target
  {
    hide Legal, Line, LineEntry, Print, Merged, PutAll, Words;
    PrintedReadsBack(labels, format, entries);
    var m := PutAll(labels, entries);
    forall a: Addr ensures a in m <==> a in labels + target
      ensures a in m ==> m[a] == (labels + target)[a]
    {
      PutAllAt(labels, entries, target, a);
    }
  }

  /** The round trip: printing a map and merging the text into an empty map gives the map back
      exactly when the format can hold every label. */
  lemma RoundTripIff(format: Format, entries: seq<Entry>, target: Labels)
    requires Lists(entries, target)
    ensures Merged(map[], format, Lines(Print(format, entries))) == target <==> AllLegal(format, target)
  {
    hide Legal, Line, LineEntry, Print, Merged, Words;
    var text := Print(format, entries);
    if AllLegal(format, target) {
      PrintThenMerge(map[], format, entries, target);
      assert map[] + target == target;
    } else {
      MergedIsLegal(map[], format, Lines(text));
    }
  }

  lemma {:induction false} WordsConcat(a: string, sep: char -> bool, c: char, b: string)
    requires sep(c)
    ensures Words(a + [c] + b, sep) == Words(a, sep) + Words(b, sep)
    decreases |a|
  {
    hide Word;
    if a == "" {
      assert a + [c] + b == [c] + b && ([c] + b)[1..] == b;
    } else if sep(a[0]) {
      assert (a + [c] + b)[1..] == a[1..] + [c] + b;
      WordsConcat(a[1..], sep, c, b);
    } else {
      var w := Word(a, sep);
      var tail := a[|w|..];
      assert a + [c] + b == w + (tail + [c] + b);
      WordStops(w, sep, tail + [c] + b);
      assert (a + [c] + b)[|w|..] == tail + [c] + b;
      WordsConcat(tail, sep, c, b);
    }
  }

  /** Merging two texts joined by a line end is merging the first and then the second. */
  lemma TextsMergeInSequence(labels: Labels, format: Format, a: string, b: string)
    ensures Merged(labels, format, Lines(a + "\n" + b))
      == Merged(Merged(labels, format, Lines(a)), format, Lines(b))
  {
    hide Words, Merged, IsNewline;
    Newline();
    WordsConcat(a, IsNewline, '\n', b);
    MergedConcat(labels, format, Lines(a), Lines(b));
  }
}
