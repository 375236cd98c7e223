/** Rewriting the wiki references of a raw page for the local mirror. Two library pieces are
    parameters: `decode`, percent-decoding, and `isWord`, the word characters of a regex boundary. */
module MirrorLinks {
  import opened Common
  import opened Strings

  // ---- File names ----

  predicate IsNameChar(c: char) {
    'A' <= c <= 'Z' || 'a' <= c <= 'z' || '0' <= c <= '9' || c == '_'
  }

  /** Every character that cannot be in a crawler file name becomes an underscore. */
  function Collapse(s: string): (r: string)
    ensures |r| == |s| && forall i :: 0 <= i < |s| ==> r[i] == if IsNameChar(s[i]) then s[i] else '_'
  {
    if s == [] then [] else [if IsNameChar(s[0]) then s[0] else '_'] + Collapse(s[1..])
  }

  const XHTML: string := ".xhtml"

  function LocalName(decode: string -> string, page: string): string {
    Collapse(decode(page)) + XHTML
  }

  // ---- One attribute value ----

  const EXTERNAL_PREFIXES: seq<string> :=
    ["http://", "https://", "data:", "mailto:", "tel:", "ftp://", "javascript:", "irc://", "ircs://",
     "gopher://", "magnet:", "ssh://", "git://", "mw-data:", "blob:"]

  predicate StartsWithAny(s: string, prefixes: seq<string>) {
    prefixes != [] && (prefixes[0] <= s || StartsWithAny(s, prefixes[1..]))
  }

  datatype Rule = ProtoRelative | WikiQueryOffsite | WikiLocal | WikiOffsite | WBackend | OtherAbsolute

  /** The new value, and the rule whose counter is incremented, if any. */
  datatype Rewritten = Rewritten(value: string, rule: Option<Rule>)

  function Rewrite(value: string, base: string, files: set<string>, decode: string -> string): Rewritten {
    if value == "" || value[0] == '#' || StartsWithAny(value, EXTERNAL_PREFIXES) then Rewritten(value, None)
    else if "//" <= value then Rewritten("https:" + value, Some(ProtoRelative))
    else if "/wiki/" <= value then
      var rest := value[6..];
      var page := Before(rest, '#');
      if '?' in page then Rewritten(base + value, Some(WikiQueryOffsite))
      else if LocalName(decode, page) in files then
        Rewritten(LocalName(decode, page) + rest[|page|..], Some(WikiLocal))
      else Rewritten(base + value, Some(WikiOffsite))
    else if "/w/" <= value then Rewritten(base + value, Some(WBackend))
    else if value[0] == '/' then Rewritten(base + value, Some(OtherAbsolute))
    else Rewritten(value, None)
  }

  /** The rule counters of one document. */
  class Stats {
    var counts: multiset<Rule>

    constructor ()
      ensures counts == multiset{}
    {
      counts := multiset{};
    }

    method Bump(rule: Rule)
      modifies this
      ensures counts == old(counts) + multiset{rule}
    {
      counts := counts + multiset{rule};
    }

    method RewriteAttributeValue(value: string, base: string, files: set<string>, decode: string -> string)
      returns (r: string)
      modifies this
      ensures r == Rewrite(value, base, files, decode).value
      ensures counts == old(counts) + Counted(Rewrite(value, base, files, decode).rule)
    {
      if value == "" || value[0] == '#' || StartsWithAny(value, EXTERNAL_PREFIXES) {
        return value;
      }
      if "//" <= value {
        Bump(ProtoRelative);
        return "https:" + value;
      }
      if "/wiki/" <= value {
        var rest := value[6..];
        var basePath := Before(rest, '#');
        var hasFrag := |basePath| < |rest|;
        var frag := if hasFrag then rest[|basePath| + 1..] else "";
        if '?' in basePath {
          Bump(WikiQueryOffsite);
          return base + value;
        }
        var local := LocalName(decode, basePath);
        if local in files {
          var newVal := local;
          if hasFrag {
            newVal := newVal + ("#" + frag);
          }
          assert rest[|basePath|..] == if hasFrag then "#" + frag else "";
          Bump(WikiLocal);
          return newVal;
        }
        Bump(WikiOffsite);
        return base + value;
      }
      if "/w/" <= value {
        Bump(WBackend);
        return base + value;
      }
      if value[0] == '/' {
        Bump(OtherAbsolute);
        return base + value;
      }
      return value;
    }
  }

  function Counted(rule: Option<Rule>): multiset<Rule> {
    if rule.Some? then multiset{rule.value} else multiset{}
  }

  /** A usable upstream base: non-empty and not itself a path. Every http(s) base is one. */
  predicate GoodBase(base: string) {
    base != "" && base[0] != '/'
  }

  lemma SlashPrefix(p: string, value: string)
    requires "/" <= p
    ensures p <= value ==> value != "" && value[0] == '/'
  {
  }

  /** A value that does not start with a slash is left alone. */
  lemma NoSlashNoRewrite(value: string, base: string, files: set<string>, decode: string -> string)
    requires value != "" ==> value[0] != '/'
    ensures Rewrite(value, base, files, decode) == Rewritten(value, None)
  {
    hide StartsWithAny;
    SlashPrefix("//", value);
    SlashPrefix("/wiki/", value);
    SlashPrefix("/w/", value);
  }

  /** The result of a rewrite never starts with a slash, and a rule is counted exactly when the
      value changes. */
  lemma RewriteLeavesNoSlash(value: string, base: string, files: set<string>, decode: string -> string)
    requires GoodBase(base)
    ensures var r := Rewrite(value, base, files, decode);
      && (value != "" ==> r.value != "" && (r.rule.Some? || value[0] != '/' || StartsWithAny(value, EXTERNAL_PREFIXES)))
      && (r.rule.Some? ==> r.value != "" && r.value[0] != '/')
      && (r.rule.Some? <==> r.value != value)
  {
    hide StartsWithAny;
    var r := Rewrite(value, base, files, decode);
    if r.rule.Some? {
      assert value[0] == '/';
      if r.rule == Some(WikiLocal) {
        var local := LocalName(decode, Before(value[6..], '#'));
        assert r.value[0] == local[0];
        assert |Collapse(decode(Before(value[6..], '#')))| > 0 ==> IsNameChar(local[0]);
      } else if r.rule != Some(ProtoRelative) {
        assert r.value[0] == base[0];
      }
    }
  }

  lemma {:induction false} ExternalHasNoSlash(value: string, prefixes: seq<string>)
    requires StartsWithAny(value, prefixes)
    requires forall i :: 0 <= i < |prefixes| ==> prefixes[i] != "" && prefixes[i][0] != '/'
    ensures value != "" && value[0] != '/'
    decreases |prefixes|
  {
    if prefixes[0] <= value {
      assert value[0] == prefixes[0][0];
    } else {
      ExternalHasNoSlash(value, prefixes[1..]);
    }
  }

  lemma PrefixesHaveNoSlash()
    ensures forall i :: 0 <= i < |EXTERNAL_PREFIXES| ==> EXTERNAL_PREFIXES[i] != "" && EXTERNAL_PREFIXES[i][0] != '/'
  {
  }

  /** Never a slash: whatever the value, the rewritten value does not start with "/". */
  lemma NeverStartsWithSlash(value: string, base: string, files: set<string>, decode: string -> string)
    requires GoodBase(base)
    ensures var r := Rewrite(value, base, files, decode).value; r != "" ==> r[0] != '/'
  {
    RewriteLeavesNoSlash(value, base, files, decode);
    PrefixesHaveNoSlash();
    if StartsWithAny(value, EXTERNAL_PREFIXES) { ExternalHasNoSlash(value, EXTERNAL_PREFIXES); }
  }

  /** Idempotence: rewriting a rewritten value changes nothing and counts nothing. */
  lemma RewriteIsIdempotent(value: string, base: string, files: set<string>, decode: string -> string)
    requires GoodBase(base)
    ensures var r := Rewrite(value, base, files, decode).value;
      Rewrite(r, base, files, decode) == Rewritten(r, None)
  {
    NeverStartsWithSlash(value, base, files, decode);
    NoSlashNoRewrite(Rewrite(value, base, files, decode).value, base, files, decode);
  }

  lemma HttpBasesAreGood(base: string)
    requires "http://" <= base || "https://" <= base
    ensures GoodBase(base)
  {
    assert base[0] == 'h';
  }

  /** In particular for an http(s) base: no rewritten value starts with a slash, and rewriting again
      changes nothing. */
  lemma HttpBaseLinks(value: string, base: string, files: set<string>, decode: string -> string)
    requires "http://" <= base || "https://" <= base
    ensures var r := Rewrite(value, base, files, decode);
      && (r.value != "" ==> r.value[0] != '/')
      && (r.rule.Some? <==> r.value != value)
      && Rewrite(r.value, base, files, decode) == Rewritten(r.value, None)
  {
    hide Rewrite, GoodBase;
    HttpBasesAreGood(base);
    NeverStartsWithSlash(value, base, files, decode);
    RewriteLeavesNoSlash(value, base, files, decode);
    RewriteIsIdempotent(value, base, files, decode);
  }

  /** A local link names an existing file, made from the page's name, and keeps the fragment; a
      page without query gets one exactly when its file exists. */
  lemma LocalLinksExist(value: string, base: string, files: set<string>, decode: string -> string)
    requires "/wiki/" <= value
    ensures var r, rest := Rewrite(value, base, files, decode), value[6..];
      var page := Before(rest, '#');
      && (r.rule == Some(WikiLocal) <==> '?' !in page && LocalName(decode, page) in files)
      && (r.rule == Some(WikiLocal) ==> r.value == LocalName(decode, page) + rest[|page|..])
      && (r.rule == Some(WikiLocal) ==> (rest[|page|..] == "" || rest[|page|] == '#'))
  {
    assert value[0] == '/' && value[1] == 'w';
    PrefixesHaveNoSlash();
    if StartsWithAny(value, EXTERNAL_PREFIXES) {
      ExternalHasNoSlash(value, EXTERNAL_PREFIXES);
    }
    hide StartsWithAny;
  }

  // ---- The attribute pass over a document's text ----

  datatype Attr = Attr(name: string, value: string) {
    function Text(): string {
      name + "=\"" + value + "\""
    }
  }

  /** The attribute the pattern matches at the start of `t`, given whether the character before it
      is a word character. */
  function AttrAt(wordBefore: bool, t: string): Option<Attr> {
    if wordBefore then None
    else if "src=\"" <= t && '\"' in t[5..] then Some(Attr("src", Before(t[5..], '\"')))
    else if "href=\"" <= t && '\"' in t[6..] then Some(Attr("href", Before(t[6..], '\"')))
    else None
  }

  /** What the pass needs to know. */
  datatype Site = Site(base: string, files: set<string>, decode: string -> string, isWord: char -> bool)

  /** The rewritten text and the rules counted, in order. */
  datatype Passed = Passed(text: string, rules: seq<Rule>)

  /** The text up to the closing quote is the matched attribute. */
  lemma OpenedAttr(name: string, t: string)
    requires name + "=\"" <= t && '\"' in t[|name| + 2..]
    ensures var a := Attr(name, Before(t[|name| + 2..], '\"'));
      a.Text() <= t && '\"' !in a.value
  {
    var rest := t[|name| + 2..];
    var value := Before(rest, '\"');
    BeforeStops(rest, '\"');
    hide Before;
    assert rest[..|value| + 1] == value + "\"";
    PrefixThenPrefix(name + "=\"", value + "\"", t);
    assert Attr(name, value).Text() == (name + "=\"") + (value + "\"");
  }

  lemma PrefixThenPrefix(a: string, b: string, t: string)
    requires a <= t && b <= t[|a|..]
    ensures a + b <= t
  {
    assert t[..|a| + |b|] == a + b;
  }

  lemma TextLength(a: Attr)
    ensures |a.Text()| == |a.name| + |a.value| + 3
  {
  }

  lemma MatchIsPrefix(wordBefore: bool, t: string)
    requires AttrAt(wordBefore, t).Some?
    ensures var a := AttrAt(wordBefore, t).value;
      && a.Text() <= t && (a.name == "src" || a.name == "href") && '\"' !in a.value
      && t == a.Text() + t[|a.Text()|..] && |a.Text()| >= 6
  {
    hide Before, Attr.Text;
    assert "src" + "=\"" == "src=\"" && "href" + "=\"" == "href=\"";
    if "src=\"" <= t && '\"' in t[5..] {
      OpenedAttr("src", t);
      TextLength(Attr("src", Before(t[5..], '\"')));
    } else {
      OpenedAttr("href", t);
      TextLength(Attr("href", Before(t[6..], '\"')));
    }
  }

  function Pass(site: Site, wordBefore: bool, t: string): Passed
    decreases |t|
  {
    if t == "" then Passed("", [])
    else
      match AttrAt(wordBefore, t)
      case None => PassOver(t[0], Pass(site, site.isWord(t[0]), t[1..]))
      case Some(a) =>
        MatchIsPrefix(wordBefore, t);
        Substituted(site, a, Pass(site, site.isWord('\"'), t[|a.Text()|..]))
  }

  function PassOver(c: char, rest: Passed): Passed {
    Passed([c] + rest.text, rest.rules)
  }

  function Substituted(site: Site, a: Attr, rest: Passed): Passed {
    var r := Rewrite(a.value, site.base, site.files, site.decode);
    Passed(Attr(a.name, r.value).Text() + rest.text, RuleList(r.rule) + rest.rules)
  }

  function RuleList(rule: Option<Rule>): (r: seq<Rule>)
    ensures multiset(r) == Counted(rule)
  {
    if rule.Some? then [rule.value] else []
  }

  lemma PassSome(site: Site, wordBefore: bool, t: string)
    requires t != "" && AttrAt(wordBefore, t).Some?
    ensures var a := AttrAt(wordBefore, t).value;
      && |a.Text()| <= |t|
      && Pass(site, wordBefore, t) == Substituted(site, a, Pass(site, site.isWord('\"'), t[|a.Text()|..]))
  {
    hide AttrAt, Rewrite, Substituted;
    MatchIsPrefix(wordBefore, t);
  }

  /** The replacement of one match: an unchanged attribute keeps its own text. */
  method Replacement(site: Site, a: Attr, stats: Stats) returns (text: string)
    modifies stats
    ensures var r := Rewrite(a.value, site.base, site.files, site.decode);
      text == Attr(a.name, r.value).Text() && stats.counts == old(stats.counts) + multiset(RuleList(r.rule))
  {
    hide Rewrite, Attr.Text, RuleList;
    var newValue := stats.RewriteAttributeValue(a.value, site.base, site.files, site.decode);
    return (if newValue == a.value then a else Attr(a.name, newValue)).Text();
  }

  /** The substitution over a whole text. */
  method AttributePass(site: Site, text: string, stats: Stats) returns (out: string)
    modifies stats
    ensures out == Pass(site, false, text).text
    ensures stats.counts == old(stats.counts) + multiset(Pass(site, false, text).rules)
  {
    hide Rewrite, AttrAt, GoodBase, Pass, RuleList, Attr.Text, Counted;
    out := "";
    var i, wordBefore := 0, false;
    ghost var rules: seq<Rule> := [];
    while i < |text|
      invariant 0 <= i <= |text|
      invariant Pass(site, false, text).text == out + Pass(site, wordBefore, text[i..]).text
      invariant Pass(site, false, text).rules == rules + Pass(site, wordBefore, text[i..]).rules
      invariant stats.counts == old(stats.counts) + multiset(rules)
      decreases |text| - i
    {
      ghost var t := text[i..];
      match AttrAt(wordBefore, text[i..])
      case None =>
        assert t[1..] == text[i + 1..];
        PassNone(site, wordBefore, t);
        out := out + [text[i]];
        wordBefore := site.isWord(text[i]);
        i := i + 1;
      case Some(a) =>
        PassSome(site, wordBefore, t);
        MatchIsPrefix(wordBefore, t);
        var replaced := Replacement(site, a, stats);
        rules := rules + RuleList(Rewrite(a.value, site.base, site.files, site.decode).rule);
        out := out + replaced;
        assert t[|a.Text()|..] == text[i + |a.Text()|..];
        i := i + |a.Text()|;
        wordBefore := site.isWord('\"');
    }
    assert text[i..] == "";
    EmptyPass(site, wordBefore);
    assert rules == Pass(site, false, text).rules && out == Pass(site, false, text).text;
  }

  lemma PassNone(site: Site, wordBefore: bool, t: string)
    requires t != "" && AttrAt(wordBefore, t).None?
    ensures Pass(site, wordBefore, t) == PassOver(t[0], Pass(site, site.isWord(t[0]), t[1..]))
  {
    hide AttrAt, Rewrite, PassOver;
  }

  lemma EmptyPass(site: Site, wordBefore: bool)
    ensures Pass(site, wordBefore, "") == Passed("", [])
  {
  }

  function Quotes(t: string): nat {
    if t == "" then 0 else (if t[0] == '\"' then 1 else 0) + Quotes(t[1..])
  }

  lemma {:induction false} QuotesConcat(a: string, b: string)
    ensures Quotes(a + b) == Quotes(a) + Quotes(b)
    decreases |a|
  {
    if a == "" {
      assert a + b == b;
    } else {
      assert (a + b)[1..] == a[1..] + b;
      QuotesConcat(a[1..], b);
    }
  }

  lemma {:induction false} NoQuotes(t: string)
    ensures Quotes(t) == 0 <==> '\"' !in t
    decreases |t|
  {
    if t != "" {
      NoQuotes(t[1..]);
      assert t == [t[0]] + t[1..];
    }
  }

  lemma AttrHasTwoQuotes(a: Attr)
    ensures Quotes(a.Text()) >= 2
  {
    assert a.Text() == a.name + "=\"" + a.value + "\"";
    QuotesConcat(a.name + "=\"" + a.value, "\"");
    QuotesConcat(a.name + "=\"", a.value);
    QuotesConcat(a.name, "=\"");
    assert "=\""[1..] == "\"" && Quotes("\"") == 1 && Quotes("=\"") == 1;
  }

  lemma MatchHasTwoQuotes(wordBefore: bool, t: string)
    ensures AttrAt(wordBefore, t).Some? ==> Quotes(t) >= 2
  {
    if AttrAt(wordBefore, t).Some? {
      MatchIsPrefix(wordBefore, t);
      var a := AttrAt(wordBefore, t).value;
      AttrHasTwoQuotes(a);
      QuotesConcat(a.Text(), t[|a.Text()|..]);
    }
  }

  /** A match takes two quotes, so text with fewer is passed through. */
  lemma {:induction false} FewQuotesUnchanged(site: Site, wordBefore: bool, t: string)
    requires Quotes(t) <= 1
    ensures Pass(site, wordBefore, t) == Passed(t, [])
    decreases |t|
  {
    hide Rewrite, AttrAt;
    if t != "" {
      MatchHasTwoQuotes(wordBefore, t);
      PassNone(site, wordBefore, t);
      assert t == [t[0]] + t[1..];
      FewQuotesUnchanged(site, site.isWord(t[0]), t[1..]);
    }
  }

  /** A piece of text that cannot overlap the start of an attribute starts the output exactly when
      it starts the input. */
  lemma {:induction false} PassKeepsPrefix(site: Site, wordBefore: bool, t: string, p: string)
    requires forall i :: 0 <= i < |p| ==> p[i] != 's' && p[i] != 'h'
    ensures p <= t <==> p <= Pass(site, wordBefore, t).text
    decreases |p|
  {
    hide Rewrite, AttrAt, Pass;
    if t == "" {
      EmptyPass(site, wordBefore);
    } else if p != "" {
      var out := Pass(site, wordBefore, t).text;
      if AttrAt(wordBefore, t).Some? {
        PassSome(site, wordBefore, t);
        MatchIsPrefix(wordBefore, t);
        var a := AttrAt(wordBefore, t).value;
        assert t[0] == a.name[0] && out[0] == a.name[0];
        assert p[0] != t[0];
      } else {
        PassNone(site, wordBefore, t);
        PassKeepsPrefix(site, site.isWord(t[0]), t[1..], p[1..]);
        PrefixByHead(p, t);
        PrefixByHead(p, out);
        assert out[1..] == Pass(site, site.isWord(t[0]), t[1..]).text;
      }
    }
  }

  lemma PrefixByHead(p: string, t: string)
    requires p != "" && t != ""
    ensures p <= t <==> p[0] == t[0] && p[1..] <= t[1..]
  {
    if p[0] == t[0] && p[1..] <= t[1..] {
      assert p == [p[0]] + p[1..] && t == [t[0]] + t[1..];
    }
  }

  /** Where the pass finds no attribute, it finds none in its own output either. */
  lemma UnmatchedStaysUnmatched(site: Site, wordBefore: bool, t: string)
    requires t != "" && AttrAt(wordBefore, t).None?
    ensures AttrAt(wordBefore, Pass(site, wordBefore, t).text).None?
  {
    hide Rewrite, Pass;
    PassNone(site, wordBefore, t);
    var rest := Pass(site, site.isWord(t[0]), t[1..]).text;
    var out := [t[0]] + rest;
    assert Pass(site, wordBefore, t).text == out;
    if Quotes(t) <= 1 {
      FewQuotesUnchanged(site, wordBefore, t);
    } else {
      PassKeepsPrefix(site, site.isWord(t[0]), t[1..], "rc=\"");
      PassKeepsPrefix(site, site.isWord(t[0]), t[1..], "ref=\"");
      NoPrefixStays(wordBefore, t, out);
    }
  }

  /** With two quotes the head is unmatched only because neither attribute name starts there. */
  lemma NoPrefixStays(wordBefore: bool, t: string, out: string)
    requires t != "" && out != "" && t[0] == out[0] && Quotes(t) >= 2 && AttrAt(wordBefore, t).None?
    requires "rc=\"" <= t[1..] <==> "rc=\"" <= out[1..]
    requires "ref=\"" <= t[1..] <==> "ref=\"" <= out[1..]
    ensures AttrAt(wordBefore, out).None?
  {
    hide AttrAt;
    AttrNames(t);
    AttrNames(out);
    UnmatchedHasNoName(wordBefore, t);
    NoNameNoMatch(wordBefore, out);
  }

  /** The names the pattern knows, by their heads. */
  lemma AttrNames(t: string)
    requires t != ""
    ensures "src=\"" <= t <==> t[0] == 's' && "rc=\"" <= t[1..]
    ensures "href=\"" <= t <==> t[0] == 'h' && "ref=\"" <= t[1..]
  {
    PrefixByHead("src=\"", t);
    PrefixByHead("href=\"", t);
    assert "src=\""[1..] == "rc=\"" && "href=\""[1..] == "ref=\"";
  }

  lemma UnmatchedHasNoName(wordBefore: bool, t: string)
    requires Quotes(t) >= 2 && AttrAt(wordBefore, t).None?
    ensures wordBefore || (!("src=\"" <= t) && !("href=\"" <= t))
  {
    hide Before, Quotes;
    if !wordBefore {
      if "src=\"" <= t {
        SecondQuote("src", t);
      } else if "href=\"" <= t {
        SecondQuote("href", t);
      }
    }
  }

  lemma NoNameNoMatch(wordBefore: bool, t: string)
    requires wordBefore || (!("src=\"" <= t) && !("href=\"" <= t))
    ensures AttrAt(wordBefore, t).None?
  {
    hide Before;
  }

  lemma SecondQuote(name: string, t: string)
    requires name + "=\"" <= t && Quotes(t) >= 2 && '\"' !in name
    ensures '\"' in t[|name| + 2..]
  {
    var rest := t[|name| + 2..];
    assert t == name + "=\"" + rest;
    QuotesConcat(name + "=\"", rest);
    QuotesConcat(name, "=\"");
    NoQuotes(name);
    NoQuotes(rest);
    assert "=\""[1..] == "\"" && Quotes("\"") == 1 && Quotes("=\"") == 1;
  }

  /** A rewrite brings in no quote. */
  lemma RewriteHasNoQuote(value: string, base: string, files: set<string>, decode: string -> string)
    requires '\"' !in value && '\"' !in base
    ensures '\"' !in Rewrite(value, base, files, decode).value
  {
    hide StartsWithAny;
    if "/wiki/" <= value {
      var page := Before(value[6..], '#');
      assert '\"' !in Collapse(decode(page));
    }
  }

  /** An attribute's own text is matched wherever an attribute may start, whatever follows it. */
  lemma AttrIsMatched(a: Attr, rest: string)
    requires (a.name == "src" || a.name == "href") && '\"' !in a.value
    ensures AttrAt(false, a.Text() + rest) == Some(a)
  {
    var t := a.Text() + rest;
    var tail := a.value + ['\"'] + rest;
    assert t == (a.name + "=\"") + tail;
    BeforeIs(a.value, '\"', rest);
    OpenedIsMatched(a.name, tail);
  }

  lemma OpenedIsMatched(name: string, tail: string)
    requires (name == "src" || name == "href") && '\"' in tail
    ensures AttrAt(false, (name + "=\"") + tail) == Some(Attr(name, Before(tail, '\"')))
  {
    hide Before;
    var t := (name + "=\"") + tail;
    if name == "src" {
      assert "src=\"" == name + "=\"" && t[5..] == tail;
    } else {
      assert "href=\"" == name + "=\"" && t[6..] == tail;
      assert t[0] == 'h';
    }
  }

  /** A substituted attribute is matched again, and its value is not rewritten again. */
  lemma SubstitutedIsStable(site: Site, a: Attr, rest: Passed)
    requires GoodBase(site.base) && '\"' !in site.base
    requires (a.name == "src" || a.name == "href") && '\"' !in a.value
    requires Pass(site, site.isWord('\"'), rest.text) == Passed(rest.text, [])
    ensures var out := Substituted(site, a, rest).text; Pass(site, false, out) == Passed(out, [])
  {
    hide Rewrite, AttrAt, Pass, GoodBase, Attr.Text;
    var b := Attr(a.name, Rewrite(a.value, site.base, site.files, site.decode).value);
    var out := b.Text() + rest.text;
    RewriteHasNoQuote(a.value, site.base, site.files, site.decode);
    RewriteIsIdempotent(a.value, site.base, site.files, site.decode);
    AttrIsMatched(b, rest.text);
    MatchIsPrefix(false, out);
    PassSome(site, false, out);
    assert out[|b.Text()|..] == rest.text;
  }

  /** A second pass over the pass's own output changes nothing and counts nothing. */
  lemma {:induction false} PassIsIdempotent(site: Site, wordBefore: bool, t: string)
    requires GoodBase(site.base) && '\"' !in site.base
    ensures var out := Pass(site, wordBefore, t).text; Pass(site, wordBefore, out) == Passed(out, [])
    decreases |t|
  {
    hide Rewrite, AttrAt, Pass, GoodBase, Attr.Text, Substituted;
    if t == "" {
      EmptyPass(site, wordBefore);
    } else if AttrAt(wordBefore, t).None? {
      var w := site.isWord(t[0]);
      PassNone(site, wordBefore, t);
      PassIsIdempotent(site, w, t[1..]);
      UnmatchedStaysUnmatched(site, wordBefore, t);
      var out := Pass(site, wordBefore, t).text;
      assert out[1..] == Pass(site, w, t[1..]).text;
      PassNone(site, wordBefore, out);
    } else {
      PassSome(site, wordBefore, t);
      MatchIsPrefix(wordBefore, t);
      MatchedAfterNonWord(wordBefore, t);
      var a := AttrAt(wordBefore, t).value;
      PassIsIdempotent(site, site.isWord('\"'), t[|a.Text()|..]);
      SubstitutedIsStable(site, a, Pass(site, site.isWord('\"'), t[|a.Text()|..]));
    }
  }

  lemma MatchedAfterNonWord(wordBefore: bool, t: string)
    ensures AttrAt(wordBefore, t).Some? ==> !wordBefore
  {
  }

  /** The attribute values of a text, in order. */
  function Values(site: Site, wordBefore: bool, t: string): seq<string>
    decreases |t|
  {
    if t == "" then []
    else
      match AttrAt(wordBefore, t)
      case None => Values(site, site.isWord(t[0]), t[1..])
      case Some(a) =>
        MatchIsPrefix(wordBefore, t);
        [a.value] + Values(site, site.isWord('\"'), t[|a.Text()|..])
  }

  /** How many of the values a rewrite changes. */
  function Changed(site: Site, values: seq<string>): nat {
    if values == [] then 0
    else
      (if Rewrite(values[0], site.base, site.files, site.decode).value != values[0] then 1 else 0)
      + Changed(site, values[1..])
  }

  /** The counters add up to the number of attribute values the pass changed. */
  lemma {:induction false} CountersAddUp(site: Site, wordBefore: bool, t: string)
    requires GoodBase(site.base)
    ensures |Pass(site, wordBefore, t).rules| == Changed(site, Values(site, wordBefore, t))
    decreases |t|
  {
    hide Rewrite, AttrAt, GoodBase, Attr.Text;
    if t != "" {
      if AttrAt(wordBefore, t).None? {
        CountersAddUp(site, site.isWord(t[0]), t[1..]);
      } else {
        MatchIsPrefix(wordBefore, t);
        var a := AttrAt(wordBefore, t).value;
        RewriteLeavesNoSlash(a.value, site.base, site.files, site.decode);
        CountersAddUp(site, site.isWord('\"'), t[|a.Text()|..]);
        var more := Values(site, site.isWord('\"'), t[|a.Text()|..]);
        assert ([a.value] + more)[1..] == more;
      }
    }
  }
}
