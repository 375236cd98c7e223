/** Guessing the wiki page behind a missing mirror file. A file name has lost its punctuation, so
    several page URLs are tried; each must name the file it was guessed from. The percent-encoding
    of characters outside the safe ones is a parameter, and so is percent-decoding. */
module PageUrls {
  import opened Common
  import opened MirrorLinks
  import opened Strings

  const ONE_WORD: set<string> :=
    {"Category", "User", "Talk", "Template", "Help", "File", "MediaWiki", "Special", "Project"}
  const WITH_TALK: set<string> := {"User", "Category", "Template", "File", "Help", "MediaWiki", "Project"}
  const TWO_WORDS: set<string> := set w | w in WITH_TALK :: w + "_talk"
  const NAMESPACES: set<string> := ONE_WORD + TWO_WORDS

  const WIKI: string := "https://www.nesdev.org/wiki/"

  // ---- The main candidate ----

  datatype Split = Split(namespace: Option<string>, title: string)

  function SplitNamespace(stem: string): Split {
    var first := Before(stem, '_');
    if |first| == |stem| then Split(None, stem)
    else
      var rest := stem[|first| + 1..];
      if first in NAMESPACES then Split(Some(first), rest)
      else
        var second := Before(rest, '_');
        var two := first + "_" + second;
        if two in NAMESPACES then Split(Some(two), if |second| < |rest| then rest[|second| + 1..] else "")
        else Split(None, stem)
  }

  predicate IsSafe(c: char) {
    IsNameChar(c) || c == '.' || c == '-' || c == '~' || c == ':' || c == '/'
  }

  function Quote(path: string, escape: char -> string): string {
    if path == "" then ""
    else (if IsSafe(path[0]) then [path[0]] else escape(path[0])) + Quote(path[1..], escape)
  }

  function PagePath(stem: string): string {
    var split := SplitNamespace(stem);
    if split.namespace.Some? then split.namespace.value + ":" + split.title else stem
  }

  function Candidate(stem: string, escape: char -> string): string {
    WIKI + Quote(PagePath(stem), escape)
  }

  lemma TwoWordFacts(s: string)
    requires s in TWO_WORDS
    ensures Before(s, '_') in ONE_WORD
  {
    hide Before;
    var w :| w in WITH_TALK && s == w + "_talk";
    OneWordFacts(w);
    assert s == w + ['_'] + "talk";
    BeforeIs(w, '_', "talk");
  }

  lemma OneWordFacts(s: string)
    requires s in ONE_WORD
    ensures '_' !in s
  {
  }

  /** The first word of every two-word namespace is a namespace too, so the search for two-word
      namespaces, which comes second, never finds one. */
  lemma TwoWordSearchNeverHits(first: string, second: string)
    requires '_' !in first && first + "_" + second in NAMESPACES
    ensures first in NAMESPACES
  {
    hide Before;
    var s := first + "_" + second;
    assert s == first + ['_'] + second;
    assert s[|first|] == '_';
    BeforeIs(first, '_', second);
    if s in ONE_WORD {
      OneWordFacts(s);
    } else {
      TwoWordFacts(s);
    }
  }

  /** The split looks at the first underscore only, and finds a namespace exactly when the first
      word is one. */
  lemma SplitByFirstWord(stem: string)
    ensures var s, first := SplitNamespace(stem), Before(stem, '_');
      && (s.namespace.Some? <==> |first| < |stem| && first in NAMESPACES)
      && (s.namespace.Some? ==> s == Split(Some(first), stem[|first| + 1..]))
      && (s.namespace.None? ==> s.title == stem)
  {
    var first := Before(stem, '_');
    if |first| < |stem| {
      var second := Before(stem[|first| + 1..], '_');
      if first + "_" + second in NAMESPACES { TwoWordSearchNeverHits(first, second); }
      hide Before;
    }
  }

  /** A namespace and a title are the two sides of the first underscore of the stem, and the
      namespace is a single word. */
  lemma SplitRejoins(stem: string)
    ensures var s := SplitNamespace(stem);
      && (s.namespace.Some? ==> s.namespace.value + "_" + s.title == stem)
      && (s.namespace.Some? ==> '_' !in s.namespace.value && s.namespace.value in NAMESPACES)
      && (s.namespace.None? ==> s.title == stem)
  {
    hide SplitNamespace, Before;
    SplitByFirstWord(stem);
    var first := Before(stem, '_');
    if |first| < |stem| { assert stem == first + "_" + stem[|first| + 1..]; }
  }

  /** The single-word namespaces. */
  predicate IsNamespace(w: string) {
    w == "Category" || w == "User" || w == "Talk" || w == "Template" || w == "Help" || w == "File" || w == "MediaWiki"
    || w == "Special" || w == "Project"
  }

  lemma NamespaceIff(w: string)
    ensures IsNamespace(w) <==> w in NAMESPACES && '_' !in w
  {
    if w in ONE_WORD { OneWordFacts(w); }
    if w in TWO_WORDS {
      var v :| v in WITH_TALK && w == v + "_talk";
      assert w[|v|] == '_';
    }
  }

  /** A stem that starts with a single-word namespace and an underscore is split there, and no other
      stem is split. */
  lemma SplitsIff(stem: string)
    ensures SplitNamespace(stem).namespace.Some? <==> exists w :: IsNamespace(w) && w + "_" <= stem
  {
    hide SplitNamespace, IsNamespace;
    SplitsAtName(stem);
    if SplitNamespace(stem).namespace.Some? {
      var w :| w in NAMESPACES && '_' !in w && w + "_" <= stem;
      NamespaceIff(w);
    }
    if w :| IsNamespace(w) && w + "_" <= stem { NamespaceIff(w); }
  }

  lemma SplitsAtName(stem: string)
    ensures SplitNamespace(stem).namespace.Some? <==> exists w :: w in NAMESPACES && '_' !in w && w + "_" <= stem
  {
    hide SplitNamespace, Before;
    SplitByFirstWord(stem);
    var first := Before(stem, '_');
    if |first| < |stem| { assert first + "_" <= stem; }
    forall w | '_' !in w && w + "_" <= stem ensures first == w && |first| < |stem| {
      assert stem == w + ['_'] + stem[|w| + 1..];
      BeforeIs(w, '_', stem[|w| + 1..]);
    }
  }

  // ---- Names survive the guess ----

  predicate AllNameChars(s: string) {
    forall i :: 0 <= i < |s| ==> IsNameChar(s[i])
  }

  lemma CollapseIdentity(s: string)
    requires AllNameChars(s)
    ensures Collapse(s) == s
  {
  }

  /** Replacing an underscore by another character that collapses to one keeps the name. */
  lemma CollapseUpdate(s: string, i: nat, c: char)
    requires i < |s| && s[i] == '_' && (!IsNameChar(c) || c == '_')
    ensures Collapse(s[i := c]) == Collapse(s)
  {
  }

  lemma PathCollapses(stem: string)
    requires AllNameChars(stem)
    ensures Collapse(PagePath(stem)) == stem
    ensures forall i :: 0 <= i < |PagePath(stem)| ==> IsNameChar(PagePath(stem)[i]) || PagePath(stem)[i] == ':'
  {
    hide SplitNamespace, Collapse;
    SplitRejoins(stem);
    CollapseIdentity(stem);
    var s := SplitNamespace(stem);
    if s.namespace.Some? {
      assert stem == s.namespace.value + "_" + s.title;
      assert PagePath(stem) == stem[|s.namespace.value| := ':'];
      CollapseUpdate(stem, |s.namespace.value|, ':');
    }
  }

  lemma {:induction false} QuoteKeepsSafe(path: string, escape: char -> string)
    requires forall i :: 0 <= i < |path| ==> IsSafe(path[i])
    ensures Quote(path, escape) == path
    decreases |path|
  {
    if path != "" {
      QuoteKeepsSafe(path[1..], escape);
      assert path == [path[0]] + path[1..];
    }
  }

  /** Percent-decoding leaves text without a percent sign alone. */
  ghost predicate DecodesPlainText(decode: string -> string) {
    forall s :: '%' !in s ==> decode(s) == s
  }

  /** A page URL names a mirror file: it is below the wiki's root, and the local name of its page is
      the file's. */
  predicate Names(url: string, decode: string -> string, stem: string) {
    WIKI <= url && LocalName(decode, url[|WIKI|..]) == stem + XHTML
  }

  lemma PathNames(path: string, decode: string -> string, stem: string)
    requires DecodesPlainText(decode) && '%' !in path && Collapse(path) == stem
    ensures Names(WIKI + path, decode, stem)
  {
    assert (WIKI + path)[|WIKI|..] == path;
  }

  lemma CandidateIsPath(stem: string, escape: char -> string)
    requires AllNameChars(stem)
    ensures Candidate(stem, escape) == WIKI + PagePath(stem)
  {
    PathCollapses(stem);
    QuoteKeepsSafe(PagePath(stem), escape);
  }

  /** The main candidate of a crawler stem: the page below the wiki's root, with a colon behind its
      namespace if it starts with one. */
  lemma CandidateIs(stem: string, w: string, escape: char -> string)
    requires AllNameChars(stem)
    ensures IsNamespace(w) && w + "_" <= stem ==>
      Candidate(stem, escape) == "https://www.nesdev.org/wiki/" + w + ":" + stem[|w| + 1..]
    ensures !(exists v :: IsNamespace(v) && v + "_" <= stem) ==>
      Candidate(stem, escape) == "https://www.nesdev.org/wiki/" + stem
  {
    hide SplitNamespace, Before, IsNamespace, Quote;
    CandidateIsPath(stem, escape);
    SplitsIff(stem);
    SplitRejoins(stem);
    if IsNamespace(w) && w + "_" <= stem { SplitsThere(stem, w); }
    hide Candidate;
  }

  lemma SplitsThere(stem: string, w: string)
    requires IsNamespace(w) && w + "_" <= stem
    ensures SplitNamespace(stem) == Split(Some(w), stem[|w| + 1..])
  {
    hide SplitNamespace, Before, IsNamespace;
    SplitByFirstWord(stem);
    NamespaceIff(w);
    assert stem == w + ['_'] + stem[|w| + 1..];
    BeforeIs(w, '_', stem[|w| + 1..]);
  }

  /** Quoting goes character by character and keeps the unreserved characters, the colon and the slash. */
  lemma QuoteIs(a: string, b: string, c: char, escape: char -> string)
    ensures Quote([c], escape) == if IsNameChar(c) || c in ".-~:/" then [c] else escape(c)
    ensures Quote(a + b, escape) == Quote(a, escape) + Quote(b, escape)
  {
    QuoteOne(c, escape);
    QuoteConcat(a, b, escape);
  }

  lemma QuoteOne(c: char, escape: char -> string)
    ensures Quote([c], escape) == if IsNameChar(c) || c in ".-~:/" then [c] else escape(c)
  {
    assert [c][1..] == "" && Quote("", escape) == "";
    assert c in ".-~:/" <==> c == '.' || c == '-' || c == '~' || c == ':' || c == '/' by {
      assert ".-~:/" == ['.', '-', '~', ':', '/'];
    }
  }

  lemma {:induction false} QuoteConcat(a: string, b: string, escape: char -> string)
    ensures Quote(a + b, escape) == Quote(a, escape) + Quote(b, escape)
    decreases |a|
  {
    if a == "" {
      assert a + b == b;
    } else {
      assert (a + b)[1..] == a[1..] + b;
      QuoteConcat(a[1..], b, escape);
    }
  }

  /** The main candidate names the stem's file. */
  lemma CandidateNames(stem: string, escape: char -> string, decode: string -> string)
    requires AllNameChars(stem) && DecodesPlainText(decode)
    ensures Names(Candidate(stem, escape), decode, stem)
  {
    CandidateIsPath(stem, escape);
    PathCollapses(stem);
    PathNames(PagePath(stem), decode, stem);
  }

  /** Flipping one underscore of a URL into punctuation keeps the file it names. */
  lemma FlipNames(path: string, decode: string -> string, stem: string, i: nat, c: char)
    requires DecodesPlainText(decode) && '%' !in path && Collapse(path) == stem
    requires i < |WIKI + path| && (WIKI + path)[i] == '_' && !IsNameChar(c) && c != '%'
    ensures Names((WIKI + path)[i := c], decode, stem)
  {
    hide Collapse, Names, DecodesPlainText;
    FlippedInPath(path, i, c);
    var k := i - |WIKI|;
    CollapseUpdate(path, k, c);
    assert '%' !in path[k := c];
    PathNames(path[k := c], decode, stem);
  }

  lemma FlippedInPath(path: string, i: nat, c: char)
    requires i < |WIKI + path| && (WIKI + path)[i] == '_'
    ensures i >= |WIKI| && path[i - |WIKI|] == '_'
    ensures (WIKI + path)[i := c] == WIKI + path[i - |WIKI| := c]
  {
    assert forall k :: 0 <= k < |WIKI| ==> WIKI[k] != '_';
  }

  // ---- Digit pairs ----

  /** An underscore, digit, underscore, digit, underscore at `i`. */
  predicate PairAt(url: string, i: int) {
    0 <= i && i + 5 <= |url| && url[i] == '_' && IsDigit(url[i + 1]) && url[i + 2] == '_'
    && IsDigit(url[i + 3]) && url[i + 4] == '_'
  }

  /** The pairs found from `i` on: leftmost first, none overlapping the one before. */
  function Pairs(url: string, i: nat): seq<nat>
    decreases |url| - i
  {
    if i + 5 > |url| then [] else if PairAt(url, i) then [i] + Pairs(url, i + 5) else Pairs(url, i + 1)
  }

  lemma PairsStep(url: string, i: nat)
    requires i + 5 <= |url|
    ensures PairAt(url, i) ==> url[i + 2] == '_'
    ensures Pairs(url, i) == if PairAt(url, i) then [i] + Pairs(url, i + 5) else Pairs(url, i + 1)
  {
  }

  /** Pairs from `i` on, in order and not overlapping, with every other pair overlapping one. */
  ghost predicate Leftmost(url: string, i: nat, at: seq<nat>) {
    && (forall k :: 0 <= k < |at| ==> at[k] >= i && PairAt(url, at[k]))
    && (forall k, l :: 0 <= k < l < |at| ==> at[k] + 5 <= at[l])
    && (forall p :: i <= p && PairAt(url, p) ==> p in at || exists q :: q in at && q < p < q + 5)
  }

  lemma LeftmostCons(url: string, i: nat, rest: seq<nat>)
    requires PairAt(url, i) && Leftmost(url, i + 5, rest)
    ensures Leftmost(url, i, [i] + rest)
  {
    var at := [i] + rest;
    assert at[0] == i && i in at;
    forall p | i <= p && PairAt(url, p) ensures p in at || exists q :: q in at && q < p < q + 5 {
      if p >= i + 5 && p !in rest {
        var q :| q in rest && q < p < q + 5;
        assert q in at;
      }
    }
  }

  lemma {:induction false} PairsAreLeftmost(url: string, i: nat)
    ensures Leftmost(url, i, Pairs(url, i))
    decreases |url| - i
  {
    hide Leftmost;
    if i + 5 > |url| {
      NoneLeft(url, i);
    } else if PairAt(url, i) {
      PairsAreLeftmost(url, i + 5);
      LeftmostCons(url, i, Pairs(url, i + 5));
    } else {
      PairsAreLeftmost(url, i + 1);
      LeftmostSkip(url, i, Pairs(url, i + 1));
    }
  }

  lemma LeftmostSkip(url: string, i: nat, at: seq<nat>)
    requires !PairAt(url, i) && Leftmost(url, i + 1, at)
    ensures Leftmost(url, i, at)
  {
  }

  lemma NoneLeft(url: string, i: nat)
    requires i + 5 > |url|
    ensures Leftmost(url, i, [])
  {
  }

  /** The pairs tried are exactly those not overlapping an earlier pair that is tried, so of two
      overlapping pairs the second is never tried. */
  lemma PairIsTriedIff(url: string, p: nat)
    requires PairAt(url, p)
    ensures p in Pairs(url, 0) <==> !exists q :: q in Pairs(url, 0) && q < p < q + 5
  {
    PairsAreLeftmost(url, 0);
    var at := Pairs(url, 0);
    if p in at {
      var l :| 0 <= l < |at| && at[l] == p;
      forall q | q in at ensures !(q < p < q + 5) {
        var k :| 0 <= k < |at| && at[k] == q;
        assert k < l ==> at[k] + 5 <= at[l];
        assert l < k ==> at[l] + 5 <= at[k];
      }
    }
  }

  /** Every pair of the URL is tried if and only if no two of its pairs overlap. */
  lemma EveryPairIsTriedIff(url: string)
    ensures (forall p :: PairAt(url, p) ==> p in Pairs(url, 0))
      <==> !exists p, q :: PairAt(url, p) && PairAt(url, q) && p < q < p + 5
  {
    PairsAreLeftmost(url, 0);
    hide PairAt, Pairs;
    if p, q :| PairAt(url, p) && PairAt(url, q) && p < q < p + 5 {
      PairsArePlaces(url, p);
      PairsArePlaces(url, q);
      if p in Pairs(url, 0) { PairIsTriedIff(url, q); }
    }
  }

  lemma PairsArePlaces(url: string, p: int)
    requires PairAt(url, p)
    ensures p >= 0
  {
  }

  /** The second dot of "1.2.3" is never guessed. */
  lemma OverlappingPairIsMissed()
    ensures PairAt("_1_2_3_", 0) && PairAt("_1_2_3_", 2) && Pairs("_1_2_3_", 0) == [0]
  {
    assert Pairs("_1_2_3_", 5) == [];
  }

  /** The pair at `i` with its middle underscore as a dot. */
  function DottedAt(url: string, i: nat): (r: string)
    requires PairAt(url, i)
    ensures r == url[i + 2 := '.']
  {
    var mid := "_" + [url[i + 1]] + "." + [url[i + 3]] + "_";
    var spliced := url[..i] + mid + url[i + 5..];
    assert forall k :: 0 <= k < 5 ==> mid[k] == url[i + 2 := '.'][i + k];
    spliced
  }

  /** One variant for every pair, with the middle underscore as a dot. */
  method DigitPairDotVariants(url: string) returns (variants: seq<string>)
    ensures |variants| == |Pairs(url, 0)|
    ensures forall k :: 0 <= k < |variants| ==>
      PairAt(url, Pairs(url, 0)[k]) && variants[k] == url[Pairs(url, 0)[k] + 2 := '.']
  {
    hide Pairs, DottedAt, PairAt;
    variants := [];
    var i := 0;
    ghost var found: seq<nat> := [];
    while i + 5 <= |url|
      invariant 0 <= i
      invariant Pairs(url, 0) == found + Pairs(url, i)
      invariant |variants| == |found|
      invariant forall k :: 0 <= k < |found| ==> found[k] + 5 <= |url| && PairAt(url, found[k])
      invariant forall k :: 0 <= k < |found| ==> variants[k] == url[found[k] + 2 := '.']
      decreases |url| - i
    {
      PairsStep(url, i);
      if PairAt(url, i) {
        var candidate := DottedAt(url, i);
        assert candidate[i + 2] != url[i + 2];
        if candidate != url {
          variants := variants + [candidate];
        }
        found := found + [i];
        i := i + 5;
      } else {
        i := i + 1;
      }
    }
    NoPairsLeft(url, i);
    assert found == Pairs(url, 0);
  }

  lemma NoPairsLeft(url: string, i: nat)
    requires i + 5 > |url|
    ensures Pairs(url, i) == []
  {
  }

  // ---- Subpages ----

  predicate SeparatorAt(url: string, i: int) {
    0 <= i && i + 3 <= |url| && url[i] == ':' && url[i + 1] == '/' && url[i + 2] == '/'
  }

  /** The first place of the scheme separator at or after `i`, or -1. */
  function SchemeEnd(url: string, i: nat): (r: int)
    requires i <= |url|
    ensures r == -1 || (i <= r && SeparatorAt(url, r))
    ensures forall k :: i <= k && (r == -1 || k < r) ==> !SeparatorAt(url, k)
    decreases |url| - i
  {
    if i + 3 > |url| then -1 else if SeparatorAt(url, i) then i else SchemeEnd(url, i + 1)
  }

  /** The scheme ends at the first "://". */
  lemma {:induction false} SchemeEndIs(before: string, scheme: string, rest: string)
    requires ':' !in scheme
    ensures var url := before + scheme + "://" + rest; SchemeEnd(url, |before|) == |before| + |scheme|
    decreases |scheme|
  {
    var url := before + scheme + "://" + rest;
    if scheme == "" {
      assert url[|before|] == ':' && url[|before| + 1] == '/' && url[|before| + 2] == '/';
    } else {
      assert url[|before|] == scheme[0];
      assert before + [scheme[0]] + scheme[1..] + "://" + rest == url;
      SchemeEndIs(before + [scheme[0]], scheme[1..], rest);
    }
  }

  /** The underscores of `title[..n]` after `colon`, from the right. */
  function Flips(title: string, colon: int, n: nat): seq<nat>
    requires n <= |title|
  {
    if n == 0 then []
    else (if title[n - 1] == '_' && n - 1 > colon then [n - 1] else []) + Flips(title, colon, n - 1)
  }

  function Underscores(s: string): nat {
    if s == "" then 0 else Underscores(s[..|s| - 1]) + if s[|s| - 1] == '_' then 1 else 0
  }

  lemma {:induction false} FlipsMembers(title: string, colon: int, n: nat, p: nat)
    requires n <= |title|
    ensures p in Flips(title, colon, n) <==> colon < p < n && title[p] == '_'
    decreases n
  {
    FlipsStep(title, colon, n);
    if n > 0 {
      FlipsMembers(title, colon, n - 1, p);
      hide Flips;
      var first: seq<nat> := if title[n - 1] == '_' && n - 1 > colon then [n - 1] else [];
      var rest := Flips(title, colon, n - 1);
      assert p in first + rest <==> p in first || p in rest;
    }
  }

  lemma {:induction false} FlipsDescend(title: string, colon: int, n: nat, k: nat, l: nat)
    requires n <= |title| && k < l < |Flips(title, colon, n)|
    ensures Flips(title, colon, n)[k] > Flips(title, colon, n)[l]
    decreases n
  {
    var at, rest := Flips(title, colon, n), Flips(title, colon, n - 1);
    if at == rest {
      FlipsDescend(title, colon, n - 1, k, l);
    } else if k > 0 {
      FlipsDescend(title, colon, n - 1, k - 1, l - 1);
    } else {
      FlipsMembers(title, colon, n - 1, rest[l - 1]);
    }
  }

  /** The flips are the underscores after the colon, from the right. */
  lemma FlipsFacts(title: string, colon: int, n: nat)
    requires n <= |title|
    ensures var at := Flips(title, colon, n);
      && (forall p :: p in at <==> colon < p < n && 0 <= p && title[p] == '_')
      && (forall k, l :: 0 <= k < l < |at| ==> at[k] > at[l])
  {
    hide Flips;
    var at := Flips(title, colon, n);
    forall p: nat ensures p in at <==> colon < p < n && title[p] == '_' {
      FlipsMembers(title, colon, n, p);
    }
    forall k, l | 0 <= k < l < |at| ensures at[k] > at[l] {
      FlipsDescend(title, colon, n, k, l);
    }
  }

  lemma {:induction false} FlipsCount(title: string, colon: int, n: nat)
    requires n <= |title| && -1 <= colon
    ensures |Flips(title, colon, n)| == if colon + 1 <= n then Underscores(title[colon + 1..n]) else 0
    decreases n
  {
    if n > 0 {
      FlipsCount(title, colon, n - 1);
      FlipsStep(title, colon, n);
      hide Flips;
      if colon + 1 <= n - 1 {
        var tail := title[colon + 1..n];
        assert tail[..|tail| - 1] == title[colon + 1..n - 1] && tail[|tail| - 1] == title[n - 1];
      }
    }
  }

  /** Where the title of a URL starts: after the last slash behind the scheme separator. */
  function TitleStart(url: string): Option<nat> {
    var scheme := SchemeEnd(url, 0);
    if scheme < 0 then None
    else
      var slash := LastIndex(url[scheme + 3..], '/');
      if slash < 0 then None else Some(scheme + 3 + slash + 1)
  }

  /** The title stands behind the last slash after the first "://"; a URL without either has none. */
  lemma TitleStartIs(scheme: string, path: string, title: string)
    requires ':' !in scheme && '/' !in title
    ensures TitleStart(scheme + "://" + path + "/" + title) == Some(|scheme| + 3 + |path| + 1)
    ensures TitleStart(scheme) == None && TitleStart(scheme + "://" + title) == None
  {
    hide SchemeEnd, LastIndex, TitleStart;
    LastSlash(path, title);
    assert scheme + "://" + path + "/" + title == scheme + "://" + (path + "/" + title);
    StartBehind(scheme, path + "/" + title);
    StartBehind(scheme, title);
    NoColonNoScheme(scheme);
    NoSchemeNoTitle(scheme);
  }

  lemma StartBehind(scheme: string, rest: string)
    requires ':' !in scheme
    ensures var slash := LastIndex(rest, '/');
      TitleStart(scheme + "://" + rest) == if slash < 0 then None else Some(|scheme| + 3 + slash + 1)
  {
    hide SchemeEnd, LastIndex;
    var url := scheme + "://" + rest;
    assert url == "" + scheme + "://" + rest;
    SchemeEndIs("", scheme, rest);
    assert url[|scheme| + 3..] == rest;
  }

  lemma NoSchemeNoTitle(s: string)
    requires SchemeEnd(s, 0) == -1
    ensures TitleStart(s) == None
  {
    hide SchemeEnd;
  }

  lemma LastSlash(path: string, title: string)
    requires '/' !in title
    ensures LastIndex(path + "/" + title, '/') == |path| && LastIndex(title, '/') == -1
  {
    hide LastIndex;
    var rest := path + "/" + title;
    assert rest[|path|] == '/';
    assert forall k :: |path| < k < |rest| ==> rest[k] == title[k - |path| - 1];
  }

  lemma NoColonNoScheme(s: string)
    requires ':' !in s
    ensures SchemeEnd(s, 0) == -1
  {
    hide SchemeEnd;
    assert forall k :: SeparatorAt(s, k) ==> ':' in s;
    hide SeparatorAt;
  }

  /** The URL put together again with a slash at place `i` of its title. */
  function Spliced(proto: string, prefix: string, title: string, i: nat): string
    requires i < |title|
  {
    proto + "://" + (prefix + (title[..i] + "/" + title[i + 1..]))
  }

  /** One variant for every underscore of the title after its last colon, from the right, with
      that underscore as a slash. */
  method SubpageVariants(url: string) returns (variants: seq<string>)
    ensures TitleStart(url).None? ==> variants == []
    ensures TitleStart(url).Some? ==>
      var start := TitleStart(url).value;
      && start <= |url|
      && var title := url[start..];
      && var at := Flips(title, LastIndex(title, ':'), |title|);
      && |variants| == |at|
      && forall k :: 0 <= k < |at| ==> at[k] < |title| && variants[k] == url[start + at[k] := '/']
  {
    hide SchemeEnd, LastIndex, Flips, SeparatorAt, Spliced;
    var scheme := SchemeEnd(url, 0);
    if scheme < 0 {
      return [];
    }
    SeparatorFits(url, scheme);
    var proto, hostAndPath := url[..scheme], url[scheme + 3..];
    var lastSlash := LastIndex(hostAndPath, '/');
    if lastSlash < 0 {
      return [];
    }
    var title, prefix := hostAndPath[lastSlash + 1..], hostAndPath[..lastSlash + 1];
    ghost var start := scheme + 3 + lastSlash + 1;
    assert title == url[start..];
    variants := [];
    var i := |title|;
    ghost var all, found := Flips(title, LastIndex(title, ':'), |title|), [];
    while i > 0
      invariant 0 <= i <= |title|
      invariant all == found + Flips(title, LastIndex(title, ':'), i)
      invariant |variants| == |found|
      invariant forall k :: 0 <= k < |found| ==> 0 <= found[k] < |title| && variants[k] == url[start + found[k] := '/']
    {
      FlipsStep(title, LastIndex(title, ':'), i);
      i := i - 1;
      if title[i] == '_' {
        var colon := LastIndex(title, ':');
        if i > colon {
          variants := variants + [Spliced(proto, prefix, title, i)];
          SplicedIsUpdate(url, scheme, start, i);
          found := found + [i];
        }
      }
    }
    FlipsStep(title, LastIndex(title, ':'), 0);
    assert all == found;
  }

  lemma SeparatorFits(url: string, i: int)
    requires SeparatorAt(url, i)
    ensures 0 <= i && i + 3 <= |url|
  {
  }

  lemma FlipsStep(title: string, colon: int, n: nat)
    requires n <= |title|
    ensures n == 0 ==> Flips(title, colon, n) == []
    ensures n > 0 ==>
      Flips(title, colon, n) ==
        (if title[n - 1] == '_' && n - 1 > colon then [n - 1] else []) + Flips(title, colon, n - 1)
  {
  }

  lemma SplicedIsUpdate(url: string, scheme: nat, start: nat, i: nat)
    requires scheme + 3 <= start <= |url| && start + i < |url| && SeparatorAt(url, scheme)
    ensures Spliced(url[..scheme], url[scheme + 3..][..start - scheme - 3], url[start..], i) == url[start + i := '/']
  {
    var host, title := url[scheme + 3..start], url[start..];
    assert url[scheme + 3..][..start - scheme - 3] == host;
    var flipped := title[..i] + "/" + title[i + 1..];
    assert flipped == title[i := '/'];
    assert url[scheme..scheme + 3] == "://";
    assert url == url[..scheme] + url[scheme..scheme + 3] + host + title;
    assert url[..scheme] + "://" + (host + flipped) == url[..scheme] + "://" + host + flipped;
    var front := url[..scheme] + "://" + host;
    assert |front| == start;
    assert front + title[i := '/'] == (front + title)[start + i := '/'];
  }

  /** The title of a candidate is its page path. */
  lemma CandidateTitle(stem: string, escape: char -> string)
    requires AllNameChars(stem)
    ensures TitleStart(Candidate(stem, escape)) == Some(|WIKI|)
  {
    hide Candidate, PagePath, Collapse, SchemeEnd, LastIndex;
    var path := PagePath(stem);
    CandidateIsPath(stem, escape);
    PathCollapses(stem);
    WikiScheme(path);
    assert (WIKI + path)[8..] == WIKI[8..] + path;
    WikiSlash(path);
  }

  lemma WikiScheme(path: string)
    ensures SchemeEnd(WIKI + path, 0) == 5
  {
    hide SchemeEnd;
    var url := WIKI + path;
    assert url[5] == WIKI[5] && url[6] == WIKI[6] && url[7] == WIKI[7];
    assert SeparatorAt(url, 5);
    forall k | 0 <= k < 5 ensures !SeparatorAt(url, k) {
      assert url[k] == WIKI[k];
    }
  }

  lemma WikiSlash(path: string)
    requires '/' !in path
    ensures LastIndex(WIKI[8..] + path, '/') == 19 == |WIKI| - 9
  {
    hide LastIndex;
    var rest := WIKI[8..] + path;
    assert rest[19] == WIKI[27];
    assert forall k :: 20 <= k < |rest| ==> rest[k] == path[k - 20];
  }

  /** What the subpage variants of a candidate are: one per underscore of the title. */
  lemma SubpageCount(stem: string)
    requires AllNameChars(stem)
    ensures |PathFlips(stem)| == Underscores(SplitNamespace(stem).title)
  {
    hide SplitNamespace, Underscores, Flips, LastIndex, AllNameChars;
    var s := SplitNamespace(stem);
    SplitRejoins(stem);
    NoColon(stem);
    if s.namespace.Some? {
      var n := |s.namespace.value|;
      assert s.title == stem[n + 1..];
      NamespacedCount(s.namespace.value, s.title);
    } else {
      PlainCount(stem);
    }
  }

  lemma NoColon(s: string)
    requires AllNameChars(s)
    ensures ':' !in s
  {
  }

  lemma PlainCount(title: string)
    requires ':' !in title
    ensures |Flips(title, LastIndex(title, ':'), |title|)| == Underscores(title)
  {
    hide Underscores, Flips, LastIndex;
    FlipsCount(title, -1, |title|);
    assert title[0..|title|] == title;
  }

  lemma NamespacedCount(namespace: string, title: string)
    requires ':' !in title
    ensures var path := namespace + ":" + title;
      |Flips(path, LastIndex(path, ':'), |path|)| == Underscores(title)
  {
    hide Underscores, Flips, LastIndex;
    var path, n := namespace + ":" + title, |namespace|;
    assert path[n] == ':';
    assert forall k :: n < k < |path| ==> path[k] == title[k - n - 1];
    assert LastIndex(path, ':') == n;
    FlipsCount(path, n, |path|);
    assert path[n + 1..|path|] == title;
  }

  /** All the guesses for a stem over letters, digits and underscores, in the order they are tried.
      Every one names the file of exactly that stem, and the subpage guesses number the underscores
      of the title. */
  method Guesses(stem: string, escape: char -> string, ghost decode: string -> string)
    returns (candidate: string, dots: seq<string>, subpages: seq<string>)
    requires AllNameChars(stem) && DecodesPlainText(decode)
    ensures Names(candidate, decode, stem)
    ensures forall k :: 0 <= k < |dots| ==> Names(dots[k], decode, stem)
    ensures forall k :: 0 <= k < |subpages| ==> Names(subpages[k], decode, stem)
    ensures |subpages| == Underscores(SplitNamespace(stem).title)
    ensures forall k, l :: 0 <= k < l < |subpages| ==> subpages[k] != subpages[l]
  {
    hide Names, Candidate, DecodesPlainText, PagePath, SplitNamespace, AllNameChars, PairAt, Underscores, Pairs, Flips,
         LastIndex, SchemeEnd, Collapse, Quote;
    candidate := Candidate(stem, escape);
    CandidateNames(stem, escape, decode);
    CandidateTitle(stem, escape);
    CandidateIsPath(stem, escape);
    SubpageCount(stem);
    PlainPath(stem);
    assert candidate[|WIKI|..] == PagePath(stem);
    dots := DigitPairDotVariants(candidate);
    forall k | 0 <= k < |dots| ensures Names(dots[k], decode, stem) {
      DotNames(PagePath(stem), decode, stem, Pairs(candidate, 0)[k]);
    }
    subpages := SubpageVariants(candidate);
    forall k | 0 <= k < |subpages| ensures Names(subpages[k], decode, stem) {
      SubpageNames(stem, decode, k);
    }
    forall k, l | 0 <= k < l < |subpages| ensures subpages[k] != subpages[l] {
      SubpagesDiffer(stem, decode, k, l);
    }
  }

  function PathFlips(stem: string): seq<nat> {
    Flips(PagePath(stem), LastIndex(PagePath(stem), ':'), |PagePath(stem)|)
  }

  lemma PlainPath(stem: string)
    requires AllNameChars(stem)
    ensures '%' !in PagePath(stem) && Collapse(PagePath(stem)) == stem
  {
    PathCollapses(stem);
  }

  lemma DotNames(path: string, decode: string -> string, stem: string, i: nat)
    requires DecodesPlainText(decode) && '%' !in path && Collapse(path) == stem && PairAt(WIKI + path, i)
    ensures i + 2 < |WIKI + path|
    ensures Names((WIKI + path)[i + 2 := '.'], decode, stem)
  {
    hide Names, DecodesPlainText, Collapse;
    var url := WIKI + path;
    assert i + 2 < |url| && url[i + 2] == '_';
    hide PairAt;
    FlipNames(path, decode, stem, i + 2, '.');
  }

  lemma SubpageNames(stem: string, decode: string -> string, k: nat)
    requires AllNameChars(stem) && DecodesPlainText(decode) && k < |PathFlips(stem)|
    ensures var i, url := |WIKI| + PathFlips(stem)[k], WIKI + PagePath(stem);
      i < |url| && url[i] == '_' && Names(url[i := '/'], decode, stem)
  {
    hide Names, DecodesPlainText, AllNameChars, PagePath, LastIndex, Collapse;
    var path := PagePath(stem);
    var at := Flips(path, LastIndex(path, ':'), |path|);
    PlainPath(stem);
    FlipsFacts(path, LastIndex(path, ':'), |path|);
    assert at[k] in at;
    assert (WIKI + path)[|WIKI| + at[k]] == path[at[k]];
    FlipNames(path, decode, stem, |WIKI| + at[k], '/');
  }

  lemma SubpagesDiffer(stem: string, decode: string -> string, k: nat, l: nat)
    requires AllNameChars(stem) && DecodesPlainText(decode) && k < l < |PathFlips(stem)|
    ensures var url, i, j := WIKI + PagePath(stem), |WIKI| + PathFlips(stem)[k], |WIKI| + PathFlips(stem)[l];
      i < |url| && j < |url| && url[i := '/'] != url[j := '/']
  {
    hide Names, DecodesPlainText, AllNameChars, PagePath, Flips, LastIndex;
    var path, at := PagePath(stem), PathFlips(stem);
    var url := WIKI + path;
    SubpageNames(stem, decode, k);
    SubpageNames(stem, decode, l);
    FlipsFacts(path, LastIndex(path, ':'), |path|);
    var i, j := |WIKI| + at[k], |WIKI| + at[l];
    assert i != j;
    assert url[i := '/'][i] == '/' && url[j := '/'][i] == url[i];
  }
}
