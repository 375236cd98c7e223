/** What the symbol-file parsers make of any line, not only of those a printer writes: blanks, comments,
    address tokens of every form, and fields beyond the ones that are read. */
module SymbolLines {
  import opened Common
  import opened Strings
  import opened SymbolMaps

  // ---- Characters ----

  /** The line ends and blanks, by code point. */
  lemma CharacterClasses(c: char)
    ensures IsNewline(c) <==> c as int in {10, 11, 12, 13, 0x85, 0x2028, 0x2029}
    ensures IsBlank(c) <==>
      c as int in {9, 32, 0xA0, 0x1680, 0x202F, 0x205F, 0x3000} || 0x2000 <= c as int <= 0x200A
  {
  }

  predicate AllBlank(s: string) {
    forall i :: 0 <= i < |s| ==> IsBlank(s[i])
  }

  lemma {:induction false} TrimStartStrips(b: string, s: string)
    requires AllBlank(b) && (s != "" ==> !IsBlank(s[0]))
    ensures TrimStart(b + s) == s
    decreases |b|
  {
    if b == "" {
      assert b + s == s;
    } else {
      assert (b + s)[1..] == b[1..] + s;
      TrimStartStrips(b[1..], s);
    }
  }

  lemma {:induction false} TrimEndStrips(s: string, b: string)
    requires AllBlank(b) && (s != "" ==> !IsBlank(s[|s| - 1]))
    ensures TrimEnd(s + b) == s
    decreases |b|
  {
    if b == "" {
      assert s + b == s;
    } else {
      assert (s + b)[..|s + b| - 1] == s + b[..|b| - 1];
      TrimEndStrips(s, b[..|b| - 1]);
    }
  }

  /** Trimming takes exactly the blanks at both ends. */
  lemma TrimStrips(before: string, s: string, after: string)
    requires AllBlank(before) && AllBlank(after) && Trimmed(s)
    ensures Trim(before + s + after) == s
  {
    if s == "" {
      assert before + s + after == (before + after) + "";
      TrimStartStrips(before + after, "");
    } else {
      assert before + s + after == before + (s + after);
      TrimStartStrips(before, s + after);
      TrimEndStrips(s, after);
    }
  }

  // ---- Addresses ----

  predicate IsHexDigit(c: char) {
    '0' <= c <= '9' || 'a' <= c <= 'f' || 'A' <= c <= 'F'
  }

  /** Small letters are read as capital ones, and no other characters are digits. */
  lemma HexValueIff(c: char, n: nat)
    ensures HexValue(c) == Some(n) <==> n < 16 && (c == "0123456789abcdef"[n] || c == "0123456789ABCDEF"[n])
  {
  }

  lemma {:induction false} NumberIff(s: string)
    ensures Digits(s).Some? <==> s != "" && forall i :: 0 <= i < |s| ==> IsHexDigit(s[i])
    decreases |s|
  {
    if s != "" {
      var init := s[..|s| - 1];
      NumberIff(init);
      if forall i :: 0 <= i < |init| ==> IsHexDigit(init[i]) {
        assert IsHexDigit(s[|s| - 1]) ==> forall i :: 0 <= i < |s| ==> IsHexDigit(s[i]);
      } else {
        var i :| 0 <= i < |init| && !IsHexDigit(init[i]);
        assert !IsHexDigit(s[i]);
      }
    }
  }

  /** A hex number is sixteen times what stands before its last digit, and that digit. */
  lemma NumberGrows(s: string, c: char)
    requires Digits(s).Some? && IsHexDigit(c)
    ensures Digits([c]) == HexValue(c) && Digits(s + [c]) == Some(16 * Digits(s).value + HexValue(c).value)
  {
    OneDigit(c);
    LastDigit(s, Digits(s).value, c);
  }

  datatype Sign = NoSign | Plus | Minus

  function SignText(sign: Sign): string {
    match sign case NoSign => "" case Plus => "+" case Minus => "-"
  }

  /** Every address token: blanks around it, a bank, a dollar sign and a sign before the hex digits. It
      is read as the number if that fits in sixteen bits; behind a minus only zero is. */
  lemma AddressToken(before: string, bank: Option<string>, dollar: bool, sign: Sign, digits: string, after: string)
    requires AllBlank(before) && AllBlank(after)
    requires digits != "" && forall i :: 0 <= i < |digits| ==> IsHexDigit(digits[i])
    requires bank.Some? && bank.value != "" ==> !IsBlank(bank.value[0])
    ensures var number := (if dollar then "$" else "") + SignText(sign) + digits;
      var token := before + (if bank.Some? then bank.value + ":" + number else number) + after;
      && Digits(digits).Some?
      && var v := Digits(digits).value;
         ParseHexAddr(token) == if v <= 65535 && (sign.Minus? ==> v == 0) then Some(v) else None
  {
    hide Digits, Trim, LastIndex, ParseHexAddr, TrimStart, TrimEnd, IsBlank, AfterBank;
    NumberIff(digits);
    var number := (if dollar then "$" else "") + SignText(sign) + digits;
    NumberShape(dollar, sign, digits);
    var core := if bank.Some? then bank.value + ":" + number else number;
    if bank.Some? { WithBank(bank.value, number); BankedShape(bank.value, number); } else { NoBank(number); }
    TrimStrips(before, core, after);
    ParsesFrom(before + core + after, number);
  }

  lemma BankedShape(bank: string, number: string)
    requires (bank != "" ==> !IsBlank(bank[0])) && Trimmed(number) && number != ""
    ensures Trimmed(bank + ":" + number)
  {
    BankedIsTrimmed(bank, number);
  }

  lemma NumberShape(dollar: bool, sign: Sign, digits: string)
    requires digits != "" && forall i :: 0 <= i < |digits| ==> IsHexDigit(digits[i])
    ensures var number := (if dollar then "$" else "") + SignText(sign) + digits;
      && number != "" && Trimmed(number) && ':' !in number
      && DropDollar(number) == SignText(sign) + digits
      && ParseUnsigned(SignText(sign) + digits) ==
         match sign
         case Minus => (if Digits(digits) == Some(0) then Some(0) else None)
         case _ => Digits(digits)
  {
    hide Digits, ParseUnsigned, DropDollar, Trimmed;
    SignedShape(sign, digits);
    DollarShape(dollar, SignText(sign) + digits);
    assert (if dollar then "$" else "") + SignText(sign) + digits
      == (if dollar then "$" else "") + (SignText(sign) + digits);
  }

  lemma SignedShape(sign: Sign, digits: string)
    requires digits != "" && forall i :: 0 <= i < |digits| ==> IsHexDigit(digits[i])
    ensures var signed := SignText(sign) + digits;
      && signed != "" && signed[0] != '$' && ':' !in signed && Trimmed(signed)
      && ParseUnsigned(signed) ==
         match sign
         case Minus => (if Digits(digits) == Some(0) then Some(0) else None)
         case _ => Digits(digits)
  {
    hide Digits;
    var signed := SignText(sign) + digits;
    assert signed[|signed| - 1] == digits[|digits| - 1];
    match sign
    case NoSign => assert signed == digits;
    case Plus => assert signed[1..] == digits && signed[0] == '+';
    case Minus => assert signed[1..] == digits && signed[0] == '-';
  }

  lemma DollarShape(dollar: bool, signed: string)
    requires signed != "" && signed[0] != '$' && ':' !in signed && Trimmed(signed)
    ensures var number := (if dollar then "$" else "") + signed;
      number != "" && Trimmed(number) && ':' !in number && DropDollar(number) == signed
  {
    if dollar {
      var number := "$" + signed;
      assert number[1..] == signed && number[|number| - 1] == signed[|signed| - 1];
    } else {
      assert "" + signed == signed;
    }
  }

  lemma ParsesFrom(token: string, number: string)
    requires AfterBank(Trim(token)) == number
    ensures var n := ParseUnsigned(DropDollar(number));
      ParseHexAddr(token) == if n.Some? && n.value <= 65535 then Some(n.value) else None
  {
    hide AfterBank, Trim, DropDollar, ParseUnsigned;
  }

  // ---- Lines ----

  /** Blank lines and comments hold no entry, whatever the format and however far they are indented. */
  lemma CommentsHoldNothing(format: Format, before: string, mark: char, rest: string)
    requires AllBlank(before) && (mark == ';' || mark == '#')
    ensures LineEntry(format, before) == None && LineEntry(format, before + [mark] + rest) == None
  {
    hide TrimStart, TrimEnd, SymEntry, MlbEntry, NlEntry;
    TrimStrips(before, "", "");
    assert before + "" + "" == before;
    var s := [mark] + rest;
    assert before + [mark] + rest == before + s;
    TrimStartStrips(before, s);
    assert TrimEnd(s) <= s;
    MarkStays(s);
  }

  lemma {:induction false} MarkStays(s: string)
    requires s != "" && !IsBlank(s[0])
    ensures TrimEnd(s) != "" && TrimEnd(s)[0] == s[0]
    decreases |s|
  {
    if IsBlank(s[|s| - 1]) { MarkStays(s[..|s| - 1]); }
  }

  /** A .sym line: an address and a label with white space between them, whatever follows. */
  lemma SymLine(addr: string, gap: string, name: string, rest: string)
    requires NoneOf(addr, IsWhitespace) && addr != "" && NoneOf(name, IsWhitespace) && name != ""
    requires gap != "" && (forall i :: 0 <= i < |gap| ==> IsWhitespace(gap[i]))
    requires rest != "" ==> IsWhitespace(rest[0])
    ensures SymEntry(addr + gap + name + rest) ==
      match ParseHexAddr(addr) case None => None case Some(a) => Some(Entry(a, name))
  {
    hide ParseHexAddr, Words, Word, IsWhitespace;
    var tail := gap[1..] + name + rest;
    assert addr + gap + name + rest == addr + [gap[0]] + tail;
    FirstOfWords(addr, IsWhitespace, gap[0], tail);
    GapBetween(gap[1..], name, rest);
  }

  lemma {:induction false} GapBetween(gap: string, name: string, rest: string)
    requires forall i :: 0 <= i < |gap| ==> IsWhitespace(gap[i])
    requires NoneOf(name, IsWhitespace) && name != "" && (rest != "" ==> IsWhitespace(rest[0]))
    ensures var words := Words(gap + name + rest, IsWhitespace); |words| >= 1 && words[0] == name
    decreases |gap|
  {
    hide IsWhitespace, Word;
    if gap == "" {
      assert gap + name + rest == name + rest;
      if rest == "" {
        assert name + rest == name;
        OnlyWord(name, IsWhitespace);
      } else {
        assert name + rest == name + [rest[0]] + rest[1..];
        FirstOfWords(name, IsWhitespace, rest[0], rest[1..]);
      }
    } else {
      assert (gap + name + rest)[1..] == gap[1..] + name + rest && (gap + name + rest)[0] == gap[0];
      GapBetween(gap[1..], name, rest);
    }
  }

  /** A .mlb line: the memory type, the address and the label between colons; a comment is not read. */
  lemma MlbLine(kind: string, addr: string, name: string, comment: Option<string>)
    requires ':' !in kind && ':' !in addr && ':' !in name
    ensures MlbEntry(kind + ":" + addr + ":" + name + if comment.Some? then ":" + comment.value else "") ==
      match ParseHexAddr(addr)
      case None => None
      case Some(a) => if Trim(name) == "" then None else Some(Entry(a, Trim(name)))
  {
    hide ParseHexAddr, Fields, Trim;
    var more := if comment.Some? then ":" + comment.value else "";
    var line := kind + ":" + addr + ":" + name + more;
    assert line == kind + [':'] + (addr + [':'] + (name + more));
    FirstOfFields(kind, ':', addr + [':'] + (name + more));
    FirstOfFields(addr, ':', name + more);
    LastField(name, ':', comment);
  }

  lemma LastField(f: string, c: char, more: Option<string>)
    requires c !in f
    ensures var fields := Fields(f + if more.Some? then [c] + more.value else "", c); fields[0] == f
  {
    hide Fields;
    if more.Some? {
      assert f + ([c] + more.value) == f + [c] + more.value;
      FirstOfFields(f, c, more.value);
    } else {
      assert f + "" == f;
      OnlyField(f, c);
    }
  }

  /** A .nl line: the address and the name between hash signs; a comment is not read. */
  lemma NlLine(addr: string, name: string, comment: Option<string>)
    requires '#' !in addr && '#' !in name
    ensures NlEntry(addr + "#" + name + if comment.Some? then "#" + comment.value else "") ==
      match ParseHexAddr(addr)
      case None => None
      case Some(a) => if Trim(name) == "" then None else Some(Entry(a, Trim(name)))
  {
    hide ParseHexAddr, Fields, Trim;
    var more := if comment.Some? then "#" + comment.value else "";
    assert addr + "#" + name + more == addr + ['#'] + (name + more);
    FirstOfFields(addr, '#', name + more);
    LastField(name, '#', comment);
  }

  /** Lines with too few words or fields hold no entry. */
  lemma ShortLinesHoldNothing(word: string, kind: string, addr: string)
    requires NoneOf(word, IsWhitespace) && word != "" && ':' !in kind && ':' !in addr && '#' !in addr
    ensures SymEntry(word) == None && MlbEntry(kind) == None && MlbEntry(kind + ":" + addr) == None
      && NlEntry(addr) == None
  {
    hide ParseHexAddr, Fields, Trim, Words, IsWhitespace;
    OnlyWord(word, IsWhitespace);
    OnlyField(kind, ':');
    assert kind + ":" + addr == kind + [':'] + addr;
    FirstOfFields(kind, ':', addr);
    OnlyField(addr, ':');
    OnlyField(addr, '#');
  }

  /** An entry is read from the line without the blanks around it. */
  lemma BlanksDoNotMatter(format: Format, before: string, line: string, after: string)
    requires AllBlank(before) && AllBlank(after) && Trimmed(line) && line != ""
    ensures LineEntry(format, before + line + after) ==
      if line[0] == ';' || line[0] == '#' then None
      else match format case Sym => SymEntry(line) case Mlb => MlbEntry(line) case Nl => NlEntry(line)
  {
    hide SymEntry, MlbEntry, NlEntry, Trim, IsBlank;
    TrimStrips(before, line, after);
  }
}
