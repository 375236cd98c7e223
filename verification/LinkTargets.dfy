/** Where links point: references resolved against the upstream site (section 5.2 of RFC 3986, for
    absolute URLs, network-path and absolute-path references), and what rewriting does to that. */
module LinkTargets {
  import opened Common
  import opened Strings
  import opened MirrorLinks

  /** A place on the web: scheme, authority, and all that follows the authority. */
  datatype Location = Location(scheme: string, authority: string, rest: string)

  predicate EndsAuthority(c: char) {
    c == '/' || c == '?' || c == '#'
  }

  function Authority(s: string): (a: string)
    ensures a <= s && (forall c :: c in a ==> !EndsAuthority(c)) && (|a| < |s| ==> EndsAuthority(s[|a|]))
  {
    if s == [] || EndsAuthority(s[0]) then [] else [s[0]] + Authority(s[1..])
  }

  function AtAuthority(scheme: string, s: string): Location {
    Location(scheme, Authority(s), s[|Authority(s)|..])
  }

  /** What a reference points to on a page of `site`: one without a scheme that starts with two slashes
      names another authority, with one slash another path; others here are absolute URLs. */
  function Target(ref: string, site: Location): Option<Location> {
    if "//" <= ref then Some(AtAuthority(site.scheme, ref[2..]))
    else if "/" <= ref then Some(Location(site.scheme, site.authority, ref))
    else
      var scheme := Before(ref, ':');
      if scheme != "" && scheme + "://" <= ref then Some(AtAuthority(scheme, ref[|scheme| + 3..])) else None
  }

  /** `base` is the site's scheme and authority written out. */
  predicate BaseOf(base: string, site: Location) {
    && base == site.scheme + "://" + site.authority
    && site.scheme != "" && ':' !in site.scheme && '/' !in site.scheme
    && site.authority != "" && (forall c :: c in site.authority ==> !EndsAuthority(c))
  }

  lemma {:induction false} AuthorityEnds(a: string, rest: string)
    requires (forall c :: c in a ==> !EndsAuthority(c)) && (rest != "" ==> EndsAuthority(rest[0]))
    ensures Authority(a + rest) == a
    decreases |a|
  {
    if a == "" {
      assert a + rest == rest;
    } else {
      assert (a + rest)[1..] == a[1..] + rest && a == [a[0]] + a[1..];
      AuthorityEnds(a[1..], rest);
    }
  }

  /** A base with a path behind it is an absolute URL of that path on the site. */
  lemma BaseTarget(base: string, site: Location, value: string, from: Location)
    requires BaseOf(base, site) && "/" <= value
    ensures Target(base + value, from) == Some(Location(site.scheme, site.authority, value))
  {
    hide Target, AtAuthority, EndsAuthority;
    var after := site.authority + value;
    AbsoluteTarget(site.scheme, after, from);
    assert base + value == site.scheme + "://" + after;
    PathAtAuthority(site.scheme, site.authority, value);
  }

  lemma PathAtAuthority(scheme: string, authority: string, path: string)
    requires (forall c :: c in authority ==> !EndsAuthority(c)) && "/" <= path
    ensures AtAuthority(scheme, authority + path) == Location(scheme, authority, path)
  {
    AuthorityEnds(authority, path);
    hide Authority;
    assert (authority + path)[|authority|..] == path;
  }

  lemma AbsoluteTarget(scheme: string, after: string, from: Location)
    requires scheme != "" && ':' !in scheme && '/' !in scheme
    ensures Target(scheme + "://" + after, from) == Some(AtAuthority(scheme, after))
  {
    var ref := scheme + "://" + after;
    assert ref == scheme + [':'] + ("//" + after);
    BeforeIs(scheme, ':', "//" + after);
    assert ref[0] == scheme[0] && scheme[0] in scheme;
    assert scheme + "://" <= ref && ref[|scheme| + 3..] == after;
    hide Before, AtAuthority;
  }

  /** File names keep ASCII letters, digits and underscores, by code point. */
  lemma NameCharacters(c: char)
    ensures var n := c as int; IsNameChar(c) <==> 48 <= n < 58 || 65 <= n < 91 || n == 95 || 97 <= n < 123
  {
  }

  /** The rule of each shape of value, and no other: two slashes; a wiki page with a query before its
      fragment, with a file, or without; the backend; any other path; and none for the rest. */
  ghost predicate RuleFits(value: string, files: set<string>, decode: string -> string, rule: Option<Rule>) {
    var wiki := "/wiki/" <= value;
    var page := if wiki then Before(value[6..], '#') else "";
    && (rule == Some(ProtoRelative) <==> "//" <= value)
    && (rule == Some(WikiQueryOffsite) <==> wiki && '?' in page)
    && (rule == Some(WikiLocal) <==> wiki && '?' !in page && Collapse(decode(page)) + ".xhtml" in files)
    && (rule == Some(WikiOffsite) <==> wiki && '?' !in page && Collapse(decode(page)) + ".xhtml" !in files)
    && (rule == Some(WBackend) <==> "/w/" <= value)
    && (rule == Some(OtherAbsolute) <==> "/" <= value && !("//" <= value) && !wiki && !("/w/" <= value))
    && (rule == None <==> !("/" <= value))
  }

  lemma RewriteCounts(value: string, base: string, files: set<string>, decode: string -> string)
    ensures RuleFits(value, files, decode, Rewrite(value, base, files, decode).rule)
  {
    PrefixesHaveNoSlash();
    if StartsWithAny(value, EXTERNAL_PREFIXES) { ExternalHasNoSlash(value, EXTERNAL_PREFIXES); }
    hide StartsWithAny, Before, Collapse;
    if value != "" && value[0] == '/' { SlashShapes(value); }
  }

  lemma SlashShapes(value: string)
    requires value != "" && value[0] == '/'
    ensures "/" <= value && !("//" <= value && "/w/" <= value) && !("/wiki/" <= value && "//" <= value)
      && !("/wiki/" <= value && "/w/" <= value)
  {
    if "/wiki/" <= value { assert value[1] == 'w' && value[2] == 'i'; }
    if "/w/" <= value { assert value[1] == 'w' && value[2] == '/'; }
    if "//" <= value { assert value[1] == '/'; }
  }

  /** Rewriting keeps what a link points to. A value without a leading slash is left as it is; a local
      link names the file of its page and keeps the fragment; every other rewritten value is an
      absolute URL of the same place, from whatever page it is read, with one exception: a
      network-path reference goes to https, which is its place if and only if that is the site's
      scheme. */
  lemma RewriteKeepsTheTarget(value: string, site: Location, from: Location, base: string, files: set<string>,
                              decode: string -> string)
    requires BaseOf(base, site)
    ensures var r := Rewrite(value, base, files, decode);
      && (!("/" <= value) ==> r.value == value)
      && (r.rule == Some(WikiLocal) ==>
            var page := Before(value[6..], '#'); r.value == Collapse(decode(page)) + ".xhtml" + value[6 + |page|..])
      && ("/" <= value && r.rule != Some(WikiLocal) ==>
            (Target(r.value, from) == Target(value, site) <==> !("//" <= value && site.scheme != "https")))
      && ("//" <= value ==> Target(r.value, from) == Some(Target(value, site).value.(scheme := "https")))
  {
    RewriteCounts(value, base, files, decode);
    var r := Rewrite(value, base, files, decode);
    hide Before, Collapse, Authority;
    if "//" <= value {
      NetworkPath(value, from);
      RewritesSlashes(value, base, files, decode);
    } else if "/" <= value {
      BaseTarget(base, site, value, from);
      RewritesPaths(value, base, files, decode);
    }
  }

  lemma NetworkPath(value: string, from: Location)
    requires "//" <= value
    ensures Target("https:" + value, from) == Some(AtAuthority("https", value[2..]))
  {
    hide Target, AtAuthority;
    AbsoluteTarget("https", value[2..], from);
    assert "https:" + value == "https" + "://" + value[2..];
  }

  lemma RewritesSlashes(value: string, base: string, files: set<string>, decode: string -> string)
    requires "//" <= value
    ensures Rewrite(value, base, files, decode) == Rewritten("https:" + value, Some(ProtoRelative))
  {
    RewriteCounts(value, base, files, decode);
    hide StartsWithAny, Before, Collapse;
  }

  lemma RewritesPaths(value: string, base: string, files: set<string>, decode: string -> string)
    requires "/" <= value && !("//" <= value)
    ensures var r := Rewrite(value, base, files, decode); r.rule != Some(WikiLocal) ==> r.value == base + value
    ensures var r := Rewrite(value, base, files, decode);
      r.rule == Some(WikiLocal) ==>
        "/wiki/" <= value
        && var page := Before(value[6..], '#'); r.value == Collapse(decode(page)) + ".xhtml" + value[6 + |page|..]
  {
    RewriteCounts(value, base, files, decode);
    hide StartsWithAny, Before, Collapse;
  }

  // ---- A whole text ----

  /** An attribute with one of the two names and a value without quotes stands at the start of `t`, not
      right behind a word character. */
  predicate StandsAt(wordBefore: bool, t: string, a: Attr) {
    !wordBefore && (a.name == "src" || a.name == "href") && '\"' !in a.value && a.name + "=\"" + a.value + "\"" <= t
  }

  /** A text is cut into attributes and the characters between them. */
  datatype Piece = Plain(c: char) | Link(a: Attr)

  function TextOf(pieces: seq<Piece>): string {
    if pieces == [] then ""
    else
      (match pieces[0]
       case Plain(c) => [c]
       case Link(a) => a.name + "=\"" + a.value + "\"") + TextOf(pieces[1..])
  }

  /** From left to right, an attribute is cut out wherever one stands. */
  ghost predicate CutsLeftmost(isWord: char -> bool, wordBefore: bool, pieces: seq<Piece>)
    decreases |pieces|
  {
    pieces == []
    || match pieces[0]
       case Plain(c) =>
         && (forall a :: !StandsAt(wordBefore, TextOf(pieces), a))
         && CutsLeftmost(isWord, isWord(c), pieces[1..])
       case Link(a) =>
         StandsAt(wordBefore, TextOf(pieces), a) && CutsLeftmost(isWord, isWord('\"'), pieces[1..])
  }

  /** The pieces with every attribute's value rewritten. */
  function RewrittenPieces(site: Site, pieces: seq<Piece>): seq<Piece> {
    if pieces == [] then []
    else
      [match pieces[0]
       case Plain(c) => Plain(c)
       case Link(a) => Link(Attr(a.name, Rewrite(a.value, site.base, site.files, site.decode).value))]
      + RewrittenPieces(site, pieces[1..])
  }

  function PieceRules(site: Site, pieces: seq<Piece>): multiset<Rule> {
    if pieces == [] then multiset{}
    else
      (match pieces[0]
       case Plain(c) => multiset{}
       case Link(a) =>
         var rule := Rewrite(a.value, site.base, site.files, site.decode).rule;
         if rule.Some? then multiset{rule.value} else multiset{})
      + PieceRules(site, pieces[1..])
  }

  lemma AttrAtIff(wordBefore: bool, t: string, a: Attr)
    ensures AttrAt(wordBefore, t) == Some(a) <==> StandsAt(wordBefore, t, a)
  {
    hide AttrAt, StandsAt;
    if AttrAt(wordBefore, t) == Some(a) { FoundStands(wordBefore, t, a); }
    if StandsAt(wordBefore, t, a) { StandsIsFound(wordBefore, t, a); }
  }

  lemma FoundStands(wordBefore: bool, t: string, a: Attr)
    requires AttrAt(wordBefore, t) == Some(a)
    ensures StandsAt(wordBefore, t, a)
  {
    MatchIsPrefix(wordBefore, t);
  }

  lemma StandsIsFound(wordBefore: bool, t: string, a: Attr)
    requires StandsAt(wordBefore, t, a)
    ensures AttrAt(wordBefore, t) == Some(a)
  {
    var open := if a.name == "src" then "src=\"" else "href=\"";
    assert open == a.name + "=\"";
    OpensAt(open, a.value, t);
    assert t[0] == a.name[0];
    hide Before, StandsAt;
  }

  lemma OpensAt(open: string, value: string, t: string)
    requires open + value + "\"" <= t && '\"' !in value
    ensures open <= t && '\"' in t[|open|..] && Before(t[|open|..], '\"') == value
  {
    var rest := t[|open| + |value| + 1..];
    assert t[|open|..] == value + ['\"'] + rest;
    BeforeIs(value, '\"', rest);
    assert t[|open|..][|value|] == '\"';
  }

  /** The pass over any text rewrites exactly the attributes cut out of it, leaves every character
      between them, and counts their rules. */
  lemma {:induction false} PassRewritesTheLinks(site: Site, wordBefore: bool, pieces: seq<Piece>)
    requires CutsLeftmost(site.isWord, wordBefore, pieces)
    ensures var p := Pass(site, wordBefore, TextOf(pieces));
      p.text == TextOf(RewrittenPieces(site, pieces)) && multiset(p.rules) == PieceRules(site, pieces)
    decreases |pieces|
  {
    hide Rewrite, AttrAt, Pass, StandsAt;
    var t := TextOf(pieces);
    if pieces == [] {
      EmptyPass(site, wordBefore);
    } else {
      PassRewritesTheLinks(site, if pieces[0].Plain? then site.isWord(pieces[0].c) else site.isWord('\"'), pieces[1..]);
      match pieces[0]
      case Plain(c) =>
        assert t[1..] == TextOf(pieces[1..]);
        if a :| AttrAt(wordBefore, t) == Some(a) { AttrAtIff(wordBefore, t, a); }
        PassNone(site, wordBefore, t);
      case Link(a) =>
        AttrAtIff(wordBefore, t, a);
        PassSome(site, wordBefore, t);
        TextLength(a);
        assert a.Text() == a.name + "=\"" + a.value + "\"";
        assert t[|a.Text()|..] == TextOf(pieces[1..]);
    }
  }

  /** Every text is cut that way. */
  lemma {:induction false} EveryTextIsCut(isWord: char -> bool, wordBefore: bool, t: string)
    returns (pieces: seq<Piece>)
    ensures TextOf(pieces) == t && CutsLeftmost(isWord, wordBefore, pieces)
    decreases |t|
  {
    hide AttrAt, StandsAt;
    if t == "" {
      pieces := [];
    } else if AttrAt(wordBefore, t).Some? {
      var a := AttrAt(wordBefore, t).value;
      AttrAtIff(wordBefore, t, a);
      MatchIsPrefix(wordBefore, t);
      var rest := EveryTextIsCut(isWord, isWord('\"'), t[|a.Text()|..]);
      pieces := [Link(a)] + rest;
      assert pieces[1..] == rest && TextOf(pieces) == a.Text() + t[|a.Text()|..] == t;
    } else {
      var rest := EveryTextIsCut(isWord, isWord(t[0]), t[1..]);
      pieces := [Plain(t[0])] + rest;
      assert pieces[1..] == rest && TextOf(pieces) == [t[0]] + t[1..] == t;
      forall a ensures !StandsAt(wordBefore, t, a) { AttrAtIff(wordBefore, t, a); }
    }
  }
}
