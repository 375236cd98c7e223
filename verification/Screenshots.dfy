/** Sorting the screenshot corpus: flat best-effort PNGs go into per-mapper directories, then
    every mapper directory goes to the tree its tier demands. A directory holds plain files. */
module Screenshots {
  import opened Common
  import opened Strings
  import opened TierNames

  type Data = seq<bv8>

  datatype Entry = File(data: Data) | Dir(items: map<string, Data>)

  type Tree = map<string, Entry>

  /** The two trees, and what stands beside them under the one name a move out of the trees has. */
  datatype Trees = Trees(external: Tree, besteffort: Tree, beside: Option<Entry>) {
    function Get(name: TreeName): Tree {
      if name.External? then external else besteffort
    }

    function With(name: TreeName, tree: Tree): Trees {
      if name.External? then this.(external := tree) else this.(besteffort := tree)
    }
  }

  // ---- The two passes; None is a raised error ----

  /** The flat PNGs that are moved: ".png" and "..png" are their own targets, because an empty
      stem and the stem "." name the tree itself. */
  predicate IsFlat(be: Tree, e: string): (r: bool)
    ensures r ==> e in be && be[e].File? && IsPng(e)
  {
    e in be && be[e].File? && IsPng(e) && Stem(e) != "" && Stem(e) != HERE
  }

  /** Those that go into a directory of their own: "...png" leaves the tree, because its stem names
      the directory above. */
  predicate Filed(be: Tree, e: string) {
    IsFlat(be, e) && Stem(e) != PARENT
  }

  /** A file moved onto `target`: it replaces a file and goes into a directory, where its name must
      be free. */
  function MovedOnto(target: Option<Entry>, e: string, data: Data): Option<Entry> {
    match target
    case Some(Dir(items)) => if e in items then None else Some(Dir(items[e := data]))
    case _ => Some(File(data))
  }

  function Normalized(t: Trees, e: string): Option<Trees> {
    var be := t.besteffort;
    if !IsFlat(be, e) then Some(t)
    else
      var stem, data := Stem(e), be[e].data;
      if stem == PARENT then
        var target := MovedOnto(t.beside, e, data);
        if target.None? then None else Some(t.(besteffort := be - {e}, beside := target))
      else if stem !in be then Some(t.(besteffort := (be - {e})[stem := Dir(map[e := data])]))
      else
        match be[stem]
        case File(_) => None
        case Dir(items) => Some(t.(besteffort := (be - {e})[stem := Dir(items[e := data])]))
  }

  function NormalizeAll(t: Trees, names: seq<string>): Option<Trees> {
    if names == [] then Some(t)
    else
      match NormalizeAll(t, names[..|names| - 1])
      case None => None
      case Some(s) => Normalized(s, names[|names| - 1])
  }

  predicate Misplaced(tiers: Tiers, t: Trees, from: TreeName, d: string) {
    d in t.Get(from) && t.Get(from)[d].Dir? && Category(tiers, d).Some? && Category(tiers, d).value != from
  }

  function Relocated(tiers: Tiers, t: Trees, from: TreeName, d: string): Option<Trees> {
    if !Misplaced(tiers, t, from, d) then Some(t)
    else
      var to := Category(tiers, d).value;
      var src, dst := t.Get(from), t.Get(to);
      if d !in dst then Some(t.With(from, src - {d}).With(to, dst[d := src[d]]))
      else
        match dst[d]
        case File(_) => None
        case Dir(items) => Some(t.With(from, src - {d}).With(to, dst[d := Dir(items + src[d].items)]))
  }

  function RelocateAll(tiers: Tiers, t: Trees, from: TreeName, names: seq<string>): Option<Trees> {
    if names == [] then Some(t)
    else
      match RelocateAll(tiers, t, from, names[..|names| - 1])
      case None => None
      case Some(u) => Relocated(tiers, u, from, names[|names| - 1])
  }

  /** `names` lists a tree's entries, in any order. */
  ghost predicate Lists(names: seq<string>, tree: Tree) {
    forall d :: d in names <==> d in tree
  }

  /** One run of the command, over the listings it takes before each loop. */
  function Run(tiers: Tiers, t: Trees, flat: seq<string>, ext: seq<string>, be: seq<string>): Option<Trees> {
    match NormalizeAll(t, flat)
    case None => None
    case Some(s) =>
      match RelocateAll(tiers, s, External, ext)
      case None => None
      case Some(u) => RelocateAll(tiers, u, BestEffort, be)
  }

  /** The listing the command takes: a tree's entries in ascending order. */
  ghost predicate Listing(names: seq<string>, tree: Tree) {
    Lists(names, tree) && Sorted(names)
  }

  /** The listings are those of the trees at the start of each loop. */
  ghost predicate TrueListings(tiers: Tiers, t: Trees, flat: seq<string>, ext: seq<string>, be: seq<string>) {
    && Lists(flat, t.besteffort) && Lists(ext, t.external)
    && (NormalizeAll(t, flat).Some? ==>
          var u := RelocateAll(tiers, NormalizeAll(t, flat).value, External, ext);
          u.Some? ==> Lists(be, u.value.besteffort))
  }

  ghost predicate SortedListings(tiers: Tiers, t: Trees, flat: seq<string>, ext: seq<string>, be: seq<string>) {
    TrueListings(tiers, t, flat, ext, be) && Sorted(flat) && Sorted(ext) && Sorted(be)
  }

  // ---- The fixed point ----

  /** Every classified, non-special mapper directory is in its tree and no flat PNG is left to move. */
  ghost predicate Settled(tiers: Tiers, t: Trees) {
    && (forall from, d :: !Misplaced(tiers, t, from, d))
    && (forall e :: !IsFlat(t.besteffort, e))
  }

  lemma NormalizedFacts(t: Trees, e: string)
    requires Normalized(t, e).Some?
    ensures var u := Normalized(t, e).value;
      var be, b := t.besteffort, u.besteffort;
      && u == t.(besteffort := b, beside := u.beside)
      && (forall x :: x in b && b[x].File? ==> x in be && b[x] == be[x] && !(x == e && IsFlat(be, e)))
      && (forall x :: x in be && be[x].File? && !(x == e && IsFlat(be, e)) ==> x in b && b[x] == be[x])
      && (!(e == STRAY && IsFlat(be, e)) ==> u.beside == t.beside)
      && (e == STRAY && IsFlat(be, e) ==> u.beside == MovedOnto(t.beside, e, be[e].data))
  {
    StemIs(e, PARENT);
    assert PARENT + PNG == STRAY;
    hide IsPng, Stem, MovedOnto;
  }

  lemma {:induction false} NormalizeAllFacts(t: Trees, names: seq<string>)
    requires NormalizeAll(t, names).Some?
    ensures var u := NormalizeAll(t, names).value;
      var be, b := t.besteffort, u.besteffort;
      && u == t.(besteffort := b, beside := u.beside)
      && (forall e :: e in b && b[e].File? ==> e in be && b[e] == be[e] && !(e in names && IsFlat(be, e)))
      && (forall e :: e in be && be[e].File? && !(e in names && IsFlat(be, e)) ==> e in b && b[e] == be[e])
    decreases |names|
  {
    if names != [] {
      var init, e := names[..|names| - 1], names[|names| - 1];
      NormalizeAllFacts(t, init);
      NormalizedFacts(NormalizeAll(t, init).value, e);
      hide Normalized, MovedOnto;
      assert forall x :: x in names <==> x in init || x == e by { assert names == init + [e]; }
    }
  }

  /** What a pass over `from` guarantees: nothing is added to `from`, plain files stay, and the
      other tree only gains directories that belong there. */
  ghost predicate PassedOver(tiers: Tiers, t: Trees, u: Trees, from: TreeName) {
    && (forall d :: d in u.Get(from) ==> d in t.Get(from) && u.Get(from)[d] == t.Get(from)[d])
    && (forall to, d :: to != from && Misplaced(tiers, u, to, d) ==> Misplaced(tiers, t, to, d))
    && (forall to, d :: to != from && d in u.Get(to) && u.Get(to)[d].File? ==>
          d in t.Get(to) && t.Get(to)[d] == u.Get(to)[d])
    && (forall name, d :: d in t.Get(name) && t.Get(name)[d].File? ==>
          d in u.Get(name) && u.Get(name)[d] == t.Get(name)[d])
  }

  lemma RelocatedFacts(tiers: Tiers, t: Trees, from: TreeName, d: string)
    requires Relocated(tiers, t, from, d).Some?
    ensures var u := Relocated(tiers, t, from, d).value;
      PassedOver(tiers, t, u, from) && !Misplaced(tiers, u, from, d)
  {
    hide Category;
    if Misplaced(tiers, t, from, d) {
      MovePassesOver(tiers, t, from, d);
    } else {
      NoPass(tiers, t, from);
    }
  }

  lemma MovePassesOver(tiers: Tiers, t: Trees, from: TreeName, d: string)
    requires Misplaced(tiers, t, from, d) && Relocated(tiers, t, from, d).Some?
    ensures var u := Relocated(tiers, t, from, d).value;
      PassedOver(tiers, t, u, from) && !Misplaced(tiers, u, from, d)
  {
    hide Category;
    var to := Category(tiers, d).value;
    var u := Relocated(tiers, t, from, d).value;
    assert u.Get(from) == t.Get(from) - {d};
    assert u.Get(to) - {d} == t.Get(to) - {d};
    assert d in u.Get(to) && u.Get(to)[d].Dir? && (d in t.Get(to) ==> t.Get(to)[d].Dir?);
    MovedPassesOver(tiers, t, u, from, d);
  }

  lemma MovedPassesOver(tiers: Tiers, t: Trees, u: Trees, from: TreeName, d: string)
    requires Misplaced(tiers, t, from, d)
    requires u.Get(from) == t.Get(from) - {d}
    requires var to := Category(tiers, d).value;
      && u.Get(to) - {d} == t.Get(to) - {d}
      && d in u.Get(to) && u.Get(to)[d].Dir? && (d in t.Get(to) ==> t.Get(to)[d].Dir?)
    ensures PassedOver(tiers, t, u, from) && !Misplaced(tiers, u, from, d)
  {
    hide Category, Trees.Get;
    var to := Category(tiers, d).value;
    SameOutside(u.Get(from), t.Get(from) - {d}, d);
    SameOutside(t.Get(from), t.Get(from) - {d}, d);
    SameOutside(u.Get(to), t.Get(to), d);
  }

  lemma SameOutside(u: Tree, t: Tree, d: string)
    requires u - {d} == t - {d}
    ensures forall x :: x != d ==> (x in u <==> x in t) && (x in t ==> u[x] == t[x])
  {
    forall x | x != d
      ensures (x in u <==> x in t) && (x in t ==> u[x] == t[x])
    {
      assert x in u <==> x in u - {d};
      assert x in t <==> x in t - {d};
    }
  }

  lemma PassesCompose(tiers: Tiers, t: Trees, u: Trees, v: Trees, from: TreeName)
    requires PassedOver(tiers, t, u, from) && PassedOver(tiers, u, v, from)
    ensures PassedOver(tiers, t, v, from)
    ensures forall d :: !Misplaced(tiers, u, from, d) ==> !Misplaced(tiers, v, from, d)
  {
    hide Category;
  }

  lemma {:induction false} RelocateAllFacts(tiers: Tiers, t: Trees, from: TreeName, names: seq<string>)
    requires RelocateAll(tiers, t, from, names).Some?
    ensures var u := RelocateAll(tiers, t, from, names).value;
      PassedOver(tiers, t, u, from) && forall d :: d in names ==> !Misplaced(tiers, u, from, d)
    decreases |names|
  {
    hide Category, Relocated, PassedOver, Misplaced;
    if names == [] {
      NoPass(tiers, t, from);
    } else {
      var init, d := names[..|names| - 1], names[|names| - 1];
      RelocateAllFacts(tiers, t, from, init);
      var u := RelocateAll(tiers, t, from, init).value;
      RelocatedFacts(tiers, u, from, d);
      PassesCompose(tiers, t, u, RelocateAll(tiers, t, from, names).value, from);
      assert forall x :: x in names <==> x in init || x == d by { assert names == init + [d]; }
    }
  }

  lemma NoPass(tiers: Tiers, t: Trees, from: TreeName)
    ensures PassedOver(tiers, t, t, from)
  {
  }

  /** One completed run reaches a settled state, whatever the order of its listings. */
  lemma CompletedRunSettles(tiers: Tiers, t: Trees, flat: seq<string>, ext: seq<string>, be: seq<string>)
    requires TrueListings(tiers, t, flat, ext, be) && Run(tiers, t, flat, ext, be).Some?
    ensures Settled(tiers, Run(tiers, t, flat, ext, be).value)
  {
    hide Category;
    NormalizeAllFacts(t, flat);
    var s := NormalizeAll(t, flat).value;
    RelocateAllFacts(tiers, s, External, ext);
    var u := RelocateAll(tiers, s, External, ext).value;
    RelocateAllFacts(tiers, u, BestEffort, be);
    var v := RelocateAll(tiers, u, BestEffort, be).value;
    forall from, d ensures !Misplaced(tiers, v, from, d) {
      if from.External? {
        assert d in u.Get(External) ==> d in s.Get(External);
      } else if d in v.Get(BestEffort) {
        assert d in u.Get(BestEffort) && d in be;
      }
    }
    forall e ensures !IsFlat(v.besteffort, e) {
      if e in v.Get(BestEffort) && v.Get(BestEffort)[e].File? {
        assert u.Get(BestEffort)[e] == v.Get(BestEffort)[e];
        assert s.Get(BestEffort)[e] == u.Get(BestEffort)[e];
        assert e in t.besteffort;
      }
    }
  }

  /** From a settled state a run, whatever it lists, completes and changes nothing. */
  lemma {:induction false} SettledIsFixed(tiers: Tiers, t: Trees, flat: seq<string>, ext: seq<string>, be: seq<string>)
    requires Settled(tiers, t)
    ensures Run(tiers, t, flat, ext, be) == Some(t)
  {
    hide Category;
    SettledNormalizes(tiers, t, flat);
    SettledRelocates(tiers, t, External, ext);
    SettledRelocates(tiers, t, BestEffort, be);
  }

  lemma {:induction false} SettledNormalizes(tiers: Tiers, t: Trees, names: seq<string>)
    requires Settled(tiers, t)
    ensures NormalizeAll(t, names) == Some(t)
    decreases |names|
  {
    if names != [] { SettledNormalizes(tiers, t, names[..|names| - 1]); }
  }

  lemma {:induction false} SettledRelocates(tiers: Tiers, t: Trees, from: TreeName, names: seq<string>)
    requires Settled(tiers, t)
    ensures RelocateAll(tiers, t, from, names) == Some(t)
    decreases |names|
  {
    hide Category;
    if names != [] { SettledRelocates(tiers, t, from, names[..|names| - 1]); }
  }

  // ---- When a run completes ----

  /** The directory a flat PNG will be moved into is taken by a plain file that stays, or the place
      of "...png" beside the trees by a directory that has such an item. */
  predicate BlockedFlat(t: Trees, e: string) {
    && IsFlat(t.besteffort, e)
    && if Stem(e) == PARENT then MovedOnto(t.beside, e, t.besteffort[e].data).None?
       else Stem(e) in t.besteffort && t.besteffort[Stem(e)].File? && !IsFlat(t.besteffort, Stem(e))
  }

  /** The external directory `d` belongs in the best-effort tree, where a plain file that stays has
      its place. */
  predicate BlockedOut(tiers: Tiers, t: Trees, d: string) {
    && Category(tiers, d) == Some(BestEffort) && d in t.external && t.external[d].Dir?
    && d in t.besteffort && t.besteffort[d].File? && !IsFlat(t.besteffort, d)
  }

  /** `d` is a best-effort directory, or will be one once the flat PNGs have been moved; it belongs
      in the external tree, where a plain file has its place. */
  predicate BlockedIn(tiers: Tiers, t: Trees, d: string) {
    && Category(tiers, d) == Some(External) && d in t.external && t.external[d].File?
    && ((d in t.besteffort && t.besteffort[d].Dir?) || Filed(t.besteffort, d + PNG))
  }

  /** Nothing stands in the way of a run. */
  ghost predicate Clear(tiers: Tiers, t: Trees) {
    && (forall e :: !BlockedFlat(t, e))
    && (forall d :: !BlockedOut(tiers, t, d))
    && (forall d :: !BlockedIn(tiers, t, d))
  }

  /** The first pass over a sorted listing completes unless a flat PNG is blocked: a flat PNG in the
      way of another sorts before it, and has been moved by then. */
  lemma {:induction false} NormalizesIff(t: Trees, names: seq<string>, n: nat)
    requires Listing(names, t.besteffort) && n <= |names|
    ensures NormalizeAll(t, names[..n]).Some? <==> forall e :: e in names[..n] ==> !BlockedFlat(t, e)
    decreases n
  {
    hide Normalized, BlockedFlat;
    if n > 0 {
      var e := names[n - 1];
      assert names[..n][..n - 1] == names[..n - 1] && names[..n] == names[..n - 1] + [e];
      NormalizesIff(t, names, n - 1);
      assert forall x :: x in names[..n] <==> x in names[..n - 1] || x == e;
      if NormalizeAll(t, names[..n - 1]).Some? {
        NormalizesOneIff(t, names, n - 1);
      }
    }
  }

  lemma NormalizesOneIff(t: Trees, names: seq<string>, n: nat)
    requires Listing(names, t.besteffort) && n < |names| && NormalizeAll(t, names[..n]).Some?
    ensures Normalized(NormalizeAll(t, names[..n]).value, names[n]).Some? <==> !BlockedFlat(t, names[n])
  {
    var e := names[n];
    NormalizeAllFacts(t, names[..n]);
    SortedDistinct(names);
    assert e !in names[..n];
    FlatUntilListed(t, names[..n], e);
    if IsFlat(t.besteffort, e) {
      var stem := Stem(e);
      assert stem < e;
      StemIs(e, PARENT);
      assert PARENT + PNG == STRAY;
      if stem == PARENT {
        BesideAfter(t, names[..n]);
      } else if stem in t.besteffort {
        PrefixStandsBefore(names, n, stem);
      }
    }
    hide NormalizeAll, Sorted, MovedOnto, IsPng;
  }

  lemma NormalizedOneDir(t: Trees, e: string, d: string)
    requires Normalized(t, e).Some?
    ensures var b := Normalized(t, e).value.besteffort;
      d in b && b[d].Dir? <==> (d in t.besteffort && t.besteffort[d].Dir?) || (e == d + PNG && Filed(t.besteffort, e))
  {
    StemIs(e, d);
    hide IsPng, Stem, MovedOnto;
  }

  lemma StemIs(e: string, d: string)
    ensures IsPng(d + PNG) && Stem(d + PNG) == d
    ensures IsPng(e) ==> (Stem(e) == d <==> e == d + PNG)
  {
    if IsPng(e) { assert e == Stem(e) + PNG; }
  }

  /** A flat PNG is still flat until the pass comes to it. */
  lemma FlatUntilListed(t: Trees, names: seq<string>, e: string)
    requires NormalizeAll(t, names).Some?
    ensures IsFlat(NormalizeAll(t, names).value.besteffort, e) <==> IsFlat(t.besteffort, e) && e !in names
  {
    NormalizeAllFacts(t, names);
    hide NormalizeAll, IsPng, Stem;
  }

  /** Only "...png" ends beside the trees. */
  lemma {:induction false} BesideAfter(t: Trees, names: seq<string>)
    requires NormalizeAll(t, names).Some?
    ensures NormalizeAll(t, names).value.beside ==
      if STRAY in names && IsFlat(t.besteffort, STRAY) then MovedOnto(t.beside, STRAY, t.besteffort[STRAY].data)
      else t.beside
    decreases |names|
  {
    hide Normalized, IsFlat, MovedOnto;
    if names != [] {
      var init, e := names[..|names| - 1], names[|names| - 1];
      assert names == init + [e];
      BesideAfter(t, init);
      NormalizeAllFacts(t, init);
      FlatUntilListed(t, init, e);
      NormalizedFacts(NormalizeAll(t, init).value, e);
    }
  }

  /** The directories after the first pass. */
  lemma {:induction false} NormalizedDirs(t: Trees, names: seq<string>, d: string)
    requires NormalizeAll(t, names).Some?
    ensures var b := NormalizeAll(t, names).value.besteffort;
      d in b && b[d].Dir? <==>
        (d in t.besteffort && t.besteffort[d].Dir?) || (d + PNG in names && Filed(t.besteffort, d + PNG))
    decreases |names|
  {
    hide Normalized, IsFlat;
    if names != [] {
      var init, e := names[..|names| - 1], names[|names| - 1];
      NormalizedDirs(t, init, d);
      FlatUntilListed(t, init, e);
      NormalizedOneDir(NormalizeAll(t, init).value, e, d);
      assert names == init + [e];
      assert d + PNG in names <==> d + PNG in init || d + PNG == e;
    }
  }

  /** An entry a pass has not come to is where it was. */
  lemma {:induction false} UnlistedStays(tiers: Tiers, t: Trees, from: TreeName, names: seq<string>, d: string)
    requires RelocateAll(tiers, t, from, names).Some? && d !in names
    ensures var u := RelocateAll(tiers, t, from, names).value;
      (d in u.Get(from) <==> d in t.Get(from)) && (d in t.Get(from) ==> u.Get(from)[d] == t.Get(from)[d])
    decreases |names|
  {
    hide Category;
    if names != [] {
      var init := names[..|names| - 1];
      assert names == init + [names[|names| - 1]];
      UnlistedStays(tiers, t, from, init, d);
    }
  }

  /** A plain file has the place of a misplaced directory. */
  predicate InTheWay(tiers: Tiers, t: Trees, from: TreeName, d: string) {
    Misplaced(tiers, t, from, d)
    && var dst := t.Get(Category(tiers, d).value); d in dst && dst[d].File?
  }

  lemma RelocatesOneIff(tiers: Tiers, t: Trees, from: TreeName, d: string)
    ensures Relocated(tiers, t, from, d).Some? <==> !InTheWay(tiers, t, from, d)
  {
    hide Category;
  }

  lemma SameInTheWay(tiers: Tiers, t: Trees, from: TreeName, names: seq<string>, d: string)
    requires RelocateAll(tiers, t, from, names).Some? && d !in names
    ensures InTheWay(tiers, RelocateAll(tiers, t, from, names).value, from, d) <==> InTheWay(tiers, t, from, d)
  {
    hide Category, RelocateAll;
    UnlistedStays(tiers, t, from, names, d);
    RelocateAllFacts(tiers, t, from, names);
  }

  lemma MovedIsNotInTheWay(tiers: Tiers, t: Trees, from: TreeName, names: seq<string>, d: string)
    requires RelocateAll(tiers, t, from, names).Some? && d in names
    ensures !InTheWay(tiers, RelocateAll(tiers, t, from, names).value, from, d)
  {
    RelocateAllFacts(tiers, t, from, names);
    hide Category, RelocateAll, PassedOver;
  }

  /** The pass over one tree completes, in whatever order, unless a plain file has the place of a
      misplaced directory. */
  lemma {:induction false} RelocatesIff(tiers: Tiers, t: Trees, from: TreeName, names: seq<string>)
    ensures RelocateAll(tiers, t, from, names).Some? <==> forall d :: d in names ==> !InTheWay(tiers, t, from, d)
    decreases |names|
  {
    hide Category, Relocated, InTheWay;
    if names != [] {
      var init, d := names[..|names| - 1], names[|names| - 1];
      assert names == init + [d];
      assert forall x :: x in names <==> x in init || x == d;
      RelocatesIff(tiers, t, from, init);
      if RelocateAll(tiers, t, from, init).Some? {
        var u := RelocateAll(tiers, t, from, init).value;
        RelocatesOneIff(tiers, u, from, d);
        if d !in init {
          SameInTheWay(tiers, t, from, init, d);
        } else {
          MovedIsNotInTheWay(tiers, t, from, init, d);
        }
      }
    }
  }

  /** What the second pass meets, in terms of the trees before the run. */
  lemma BlockedOutIff(tiers: Tiers, t: Trees, flat: seq<string>, d: string)
    requires Lists(flat, t.besteffort) && NormalizeAll(t, flat).Some?
    ensures var s := NormalizeAll(t, flat).value;
      InTheWay(tiers, s, External, d) <==> BlockedOut(tiers, t, d)
  {
    NormalizeAllFacts(t, flat);
    hide Category, NormalizeAll;
  }

  /** What the third pass meets, likewise. */
  lemma BlockedInIff(tiers: Tiers, t: Trees, flat: seq<string>, ext: seq<string>, d: string)
    requires Lists(flat, t.besteffort) && NormalizeAll(t, flat).Some?
    requires var s := NormalizeAll(t, flat).value;
      RelocateAll(tiers, s, External, ext).Some?
    ensures var s := NormalizeAll(t, flat).value;
      InTheWay(tiers, RelocateAll(tiers, s, External, ext).value, BestEffort, d) <==> BlockedIn(tiers, t, d)
  {
    var s := NormalizeAll(t, flat).value;
    NormalizeAllFacts(t, flat);
    NormalizedDirs(t, flat, d);
    assert Filed(t.besteffort, d + PNG) ==> d + PNG in flat;
    hide Filed;
    RelocateAllFacts(tiers, s, External, ext);
    OwnDirsStay(tiers, s, External, ext, d);
    hide Category, NormalizeAll, RelocateAll;
  }

  /** A pass leaves the directories of the other tree in place. */
  lemma {:induction false} OwnDirsStay(tiers: Tiers, t: Trees, from: TreeName, names: seq<string>, d: string)
    requires RelocateAll(tiers, t, from, names).Some?
    ensures var u := RelocateAll(tiers, t, from, names).value;
      forall to :: to != from && d in t.Get(to) && t.Get(to)[d].Dir? ==> d in u.Get(to) && u.Get(to)[d].Dir?
    decreases |names|
  {
    hide Category;
    if names != [] { OwnDirsStay(tiers, t, from, names[..|names| - 1], d); }
  }

  /** A run of the command completes if and only if nothing stands in its way. */
  lemma RunCompletesIff(tiers: Tiers, t: Trees, flat: seq<string>, ext: seq<string>, be: seq<string>)
    requires SortedListings(tiers, t, flat, ext, be)
    ensures Run(tiers, t, flat, ext, be).Some? <==> Clear(tiers, t)
  {
    hide NormalizeAll, RelocateAll, Category, BlockedOut, BlockedIn, InTheWay;
    assert flat[..|flat|] == flat;
    NormalizesIff(t, flat, |flat|);
    assert forall e :: BlockedFlat(t, e) ==> e in flat;
    if NormalizeAll(t, flat).Some? {
      var s := NormalizeAll(t, flat).value;
      RelocatesIff(tiers, s, External, ext);
      forall d ensures InTheWay(tiers, s, External, d) <==> BlockedOut(tiers, t, d) {
        BlockedOutIff(tiers, t, flat, d);
      }
      forall d ensures BlockedOut(tiers, t, d) ==> d in ext { OutIsListed(tiers, t, d); }
      if RelocateAll(tiers, s, External, ext).Some? {
        var u := RelocateAll(tiers, s, External, ext).value;
        RelocatesIff(tiers, u, BestEffort, be);
        forall d ensures InTheWay(tiers, u, BestEffort, d) <==> BlockedIn(tiers, t, d) {
          BlockedInIff(tiers, t, flat, ext, d);
        }
        forall d ensures InTheWay(tiers, u, BestEffort, d) ==> d in be { WayIsListed(tiers, u, d); }
      }
    }
  }

  lemma OutIsListed(tiers: Tiers, t: Trees, d: string)
    ensures BlockedOut(tiers, t, d) ==> d in t.external
  {
  }

  lemma WayIsListed(tiers: Tiers, t: Trees, d: string)
    ensures InTheWay(tiers, t, BestEffort, d) ==> d in t.besteffort
  {
  }

  /** One run over trees with nothing in the way completes and reaches a settled state. */
  lemma RunSettles(tiers: Tiers, t: Trees, flat: seq<string>, ext: seq<string>, be: seq<string>)
    requires SortedListings(tiers, t, flat, ext, be) && Clear(tiers, t)
    ensures Run(tiers, t, flat, ext, be).Some? && Settled(tiers, Run(tiers, t, flat, ext, be).value)
  {
    RunCompletesIff(tiers, t, flat, ext, be);
    CompletedRunSettles(tiers, t, flat, ext, be);
  }

  /** The run is idempotent: after one run a second one, whatever it lists, moves nothing. */
  lemma SecondRunMovesNothing(tiers: Tiers, t: Trees, flat: seq<string>, ext: seq<string>, be: seq<string>,
                              flat': seq<string>, ext': seq<string>, be': seq<string>)
    requires SortedListings(tiers, t, flat, ext, be) && Clear(tiers, t)
    ensures var once := Run(tiers, t, flat, ext, be);
      once.Some? && Run(tiers, once.value, flat', ext', be') == once
  {
    RunSettles(tiers, t, flat, ext, be);
    SettledIsFixed(tiers, Run(tiers, t, flat, ext, be).value, flat', ext', be');
  }

  /** A plain file named like the stem of a flat PNG stops the command. */
  lemma PlainFileStopsTheRun(tiers: Tiers, x: Data, y: Data, flat: seq<string>, ext: seq<string>, be: seq<string>)
    requires var t := Trees(map[], map["a" := File(x), "a.png" := File(y)], None);
      SortedListings(tiers, t, flat, ext, be)
    ensures var t := Trees(map[], map["a" := File(x), "a.png" := File(y)], None); Run(tiers, t, flat, ext, be) == None
  {
    var t := Trees(map[], map["a" := File(x), "a.png" := File(y)], None);
    RunCompletesIff(tiers, t, flat, ext, be);
    assert "a.png"[1..] == PNG && "a.png"[..1] == "a" && "a"[0] != '.';
    assert BlockedFlat(t, "a.png");
  }

  /** So does the flat PNG "..png", which stays, beside "..png.png". */
  lemma KeptPngStopsTheRun(tiers: Tiers, x: Data, y: Data, flat: seq<string>, ext: seq<string>, be: seq<string>)
    requires var t := Trees(map[], map["..png" := File(x), "..png.png" := File(y)], None);
      SortedListings(tiers, t, flat, ext, be)
    ensures var t := Trees(map[], map["..png" := File(x), "..png.png" := File(y)], None);
      Run(tiers, t, flat, ext, be) == None
  {
    var t := Trees(map[], map["..png" := File(x), "..png.png" := File(y)], None);
    RunCompletesIff(tiers, t, flat, ext, be);
    assert "..png.png"[5..] == PNG && "..png.png"[..5] == "..png" && "..png"[..1] == HERE && |"..png"| == 5;
    assert BlockedFlat(t, "..png.png");
  }

  /** Of the flat PNGs a run leaves exactly ".png" and "..png" where they are. */
  lemma FlatPngStaysIff(tiers: Tiers, t: Trees, flat: seq<string>, ext: seq<string>, be: seq<string>, e: string)
    requires TrueListings(tiers, t, flat, ext, be) && Run(tiers, t, flat, ext, be).Some?
    requires e in t.besteffort && t.besteffort[e].File? && |e| >= 4 && e[|e| - 4..] == ".png"
    ensures var b := Run(tiers, t, flat, ext, be).value.besteffort;
      e in b && b[e] == t.besteffort[e] <==> e == ".png" || e == "..png"
  {
    PngIs(e);
    hide TrueListings, IsPng;
    FlatIff(t.besteffort, e);
    PlainFilesStay(tiers, t, flat, ext, be);
    hide Run, IsFlat;
    assert Plain(t.besteffort, e, t.besteffort[e].data);
    assert Plain(Run(tiers, t, flat, ext, be).value.besteffort, e, t.besteffort[e].data)
      <==> !IsFlat(t.besteffort, e);
  }

  lemma FlatIff(be: Tree, e: string)
    requires e in be && be[e].File? && IsPng(e)
    ensures IsFlat(be, e) <==> e != ".png" && e != "..png"
  {
    assert HERE + PNG == "..png";
    StemIs(e, "");
    StemIs(e, HERE);
    assert "" + PNG == PNG;
    hide IsPng, Stem;
  }

  // ---- What the trees hold afterwards ----

  /** Item `i` of directory `d`. */
  function ItemOf(tree: Tree, d: string, i: string): Option<Data> {
    if d in tree && tree[d].Dir? && i in tree[d].items then Some(tree[d].items[i]) else None
  }

  function Or(a: Option<Data>, b: Option<Data>): Option<Data> {
    if a.Some? then a else b
  }

  /** Item `i` of best-effort directory `d` once the flat PNGs have been filed: the flat PNG wins. */
  function FiledItem(t: Trees, d: string, i: string): Option<Data> {
    if Filed(t.besteffort, i) && Stem(i) == d then Some(t.besteffort[i].data) else ItemOf(t.besteffort, d, i)
  }

  lemma NormalizedItem(t: Trees, e: string, d: string, i: string)
    requires Normalized(t, e).Some?
    ensures ItemOf(Normalized(t, e).value.besteffort, d, i) ==
      if i == e && Filed(t.besteffort, e) && Stem(e) == d then Some(t.besteffort[e].data)
      else ItemOf(t.besteffort, d, i)
  {
    if IsFlat(t.besteffort, e) { assert |Stem(e)| < |e|; }
    hide IsPng, Stem, MovedOnto;
  }

  lemma {:induction false} NormalizedItems(t: Trees, names: seq<string>, d: string, i: string)
    requires NormalizeAll(t, names).Some?
    ensures ItemOf(NormalizeAll(t, names).value.besteffort, d, i) ==
      if i in names then FiledItem(t, d, i) else ItemOf(t.besteffort, d, i)
    decreases |names|
  {
    hide Normalized, IsFlat, ItemOf;
    if names != [] {
      var init, e := names[..|names| - 1], names[|names| - 1];
      assert names == init + [e];
      NormalizedItems(t, init, d, i);
      NormalizeAllFacts(t, init);
      FlatUntilListed(t, init, e);
      NormalizedItem(NormalizeAll(t, init).value, e, d, i);
      assert i in names <==> i in init || i == e;
    }
  }

  /** Item `i` of `d` in tree `name` once the misplaced directories of `from` have moved: the moved
      item wins. */
  function PassedItem(tiers: Tiers, t: Trees, from: TreeName, name: TreeName, d: string, i: string): Option<Data> {
    var c := Category(tiers, d);
    if c.None? || c.value == from then ItemOf(t.Get(name), d, i)
    else if name == from then None
    else Or(ItemOf(t.Get(from), d, i), ItemOf(t.Get(name), d, i))
  }

  lemma RelocatedItem(tiers: Tiers, t: Trees, from: TreeName, e: string, name: TreeName, d: string, i: string)
    requires Relocated(tiers, t, from, e).Some?
    ensures ItemOf(Relocated(tiers, t, from, e).value.Get(name), d, i) ==
      if d == e then PassedItem(tiers, t, from, name, d, i) else ItemOf(t.Get(name), d, i)
  {
    hide Category;
  }

  lemma {:induction false} RelocatedItems(tiers: Tiers, t: Trees, from: TreeName, names: seq<string>,
                                          name: TreeName, d: string, i: string)
    requires RelocateAll(tiers, t, from, names).Some?
    ensures ItemOf(RelocateAll(tiers, t, from, names).value.Get(name), d, i) ==
      if d in names then PassedItem(tiers, t, from, name, d, i) else ItemOf(t.Get(name), d, i)
    decreases |names|
  {
    hide Category, Relocated, ItemOf, Trees.Get;
    if names != [] {
      var init, e := names[..|names| - 1], names[|names| - 1];
      assert names == init + [e];
      assert d in names <==> d in init || d == e;
      RelocatedItems(tiers, t, from, init, name, d, i);
      RelocatedItems(tiers, t, from, init, from, d, i);
      RelocatedItem(tiers, RelocateAll(tiers, t, from, init).value, from, e, name, d, i);
    }
  }

  /** With every entry of `from` listed, the pass is complete. */
  lemma PassItems(tiers: Tiers, t: Trees, from: TreeName, names: seq<string>, name: TreeName, d: string, i: string)
    requires Lists(names, t.Get(from)) && RelocateAll(tiers, t, from, names).Some?
    ensures ItemOf(RelocateAll(tiers, t, from, names).value.Get(name), d, i)
      == PassedItem(tiers, t, from, name, d, i)
  {
    hide Category, RelocateAll;
    RelocatedItems(tiers, t, from, names, name, d, i);
  }

  /** What the run leaves as item `i` of `d` in tree `name`: an unclassified directory stays with its
      tree; a classified one ends in its tier's tree only, where a moved item replaces one of the
      same name, and a flat PNG counts as a best-effort item. */
  function FinalItem(tiers: Tiers, t: Trees, name: TreeName, d: string, i: string): Option<Data> {
    var own, filed := ItemOf(t.external, d, i), FiledItem(t, d, i);
    match Category(tiers, d)
    case None => if name.External? then own else filed
    case Some(c) =>
      if name != c then None
      else if c.External? then Or(filed, own)
      else Or(own, filed)
  }

  function FinalBeside(t: Trees): Option<Entry> {
    if IsFlat(t.besteffort, STRAY) then MovedOnto(t.beside, STRAY, t.besteffort[STRAY].data) else t.beside
  }

  /** The exact contents after a completed run, whatever the order of its listings. */
  lemma RunItems(tiers: Tiers, t: Trees, flat: seq<string>, ext: seq<string>, be: seq<string>)
    requires TrueListings(tiers, t, flat, ext, be) && Run(tiers, t, flat, ext, be).Some?
    ensures var v := Run(tiers, t, flat, ext, be).value;
      && v.beside == FinalBeside(t)
      && forall name: TreeName, d, i :: ItemOf(v.Get(name), d, i) == FinalItem(tiers, t, name, d, i)
  {
    hide Category, NormalizeAll, RelocateAll, IsFlat, ItemOf, MovedOnto;
    var s := NormalizeAll(t, flat).value;
    NormalizeAllFacts(t, flat);
    BesideAfter(t, flat);
    var u := RelocateAll(tiers, s, External, ext).value;
    BesideStays(tiers, s, External, ext);
    BesideStays(tiers, u, BestEffort, be);
    forall name: TreeName, d, i
      ensures ItemOf(Run(tiers, t, flat, ext, be).value.Get(name), d, i) == FinalItem(tiers, t, name, d, i)
    {
      NormalizedItems(t, flat, d, i);
      PassItems(tiers, s, External, ext, External, d, i);
      PassItems(tiers, s, External, ext, BestEffort, d, i);
      PassItems(tiers, u, BestEffort, be, name, d, i);
    }
  }

  // ---- The same in terms of names ----

  /** The best-effort tree has item `i` of `d` once the flat PNGs are filed: flat "d.png" is the item of
      its name. */
  function BestEffortItem(t: Trees, d: string, i: string): Option<Data> {
    if i == d + ".png" && d !in {"", ".", ".."} && i in t.besteffort && t.besteffort[i].File?
    then Some(t.besteffort[i].data)
    else ItemOf(t.besteffort, d, i)
  }

  /** Where every item ends: a core or curated mapper's in the external tree, a best-effort mapper's in
      the best-effort tree, and the moved file in the place of one of its name; any other where it was. */
  ghost predicate ItemSorted(tiers: Tiers, t: Trees, v: Trees, d: string, i: string) {
    var ext, be := ItemOf(t.external, d, i), BestEffortItem(t, d, i);
    && ItemOf(v.external, d, i) == (if ForExternal(tiers, d) then (if be.Some? then be else ext)
                                    else if ForBestEffort(tiers, d) then None
                                    else ext)
    && ItemOf(v.besteffort, d, i) == (if ForExternal(tiers, d) then None
                                      else if ForBestEffort(tiers, d) then (if ext.Some? then ext else be)
                                      else be)
  }

  ghost predicate ItemsSorted(tiers: Tiers, t: Trees, v: Trees) {
    forall d, i :: ItemSorted(tiers, t, v, d, i)
  }

  predicate IsDir(tree: Tree, d: string) {
    d in tree && tree[d].Dir?
  }

  /** Where every directory ends. */
  ghost predicate DirsSorted(tiers: Tiers, t: Trees, v: Trees) {
    forall d ::
      var ext := IsDir(t.external, d);
      var be := IsDir(t.besteffort, d)
                || (d !in {"", ".", ".."} && d + ".png" in t.besteffort && t.besteffort[d + ".png"].File?);
      && (IsDir(v.external, d) <==> if ForExternal(tiers, d) then ext || be
                                    else !ForBestEffort(tiers, d) && ext)
      && (IsDir(v.besteffort, d) <==> if ForBestEffort(tiers, d) then ext || be
                                      else !ForExternal(tiers, d) && be)
  }

  /** Of the flat PNGs only the two that name the tree itself are left. */
  ghost predicate FlatSorted(v: Trees) {
    forall e :: e in v.besteffort && v.besteffort[e].File? && |e| >= 4 && e[|e| - 4..] == ".png" ==>
      e == ".png" || e == "..png"
  }

  lemma FiledMeans(be: Tree, d: string, e: string)
    ensures Filed(be, e) && Stem(e) == d <==> e == d + ".png" && d !in {"", ".", ".."} && e in be && be[e].File?
  {
    StemIs(e, d);
    hide IsPng, Stem;
  }

  lemma FinalItemMeans(tiers: Tiers, t: Trees, v: Trees, d: string, i: string)
    requires ItemOf(v.external, d, i) == FinalItem(tiers, t, External, d, i)
    requires ItemOf(v.besteffort, d, i) == FinalItem(tiers, t, BestEffort, d, i)
    ensures ItemSorted(tiers, t, v, d, i)
  {
    CategoryMeans(tiers, d);
    FiledMeans(t.besteffort, d, i);
    hide Category, Filed, ForExternal, ForBestEffort, ItemOf, Stem;
  }

  /** What a completed run leaves, by name and tier. */
  lemma RunSorts(tiers: Tiers, t: Trees, flat: seq<string>, ext: seq<string>, be: seq<string>)
    requires TrueListings(tiers, t, flat, ext, be) && Run(tiers, t, flat, ext, be).Some?
    ensures var v := Run(tiers, t, flat, ext, be).value;
      ItemsSorted(tiers, t, v) && DirsSorted(tiers, t, v) && FlatSorted(v)
  {
    hide Run, TrueListings, FinalItem, ItemOf, ItemSorted, Settled, FlatSorted, DirsSorted;
    var v := Run(tiers, t, flat, ext, be).value;
    RunItems(tiers, t, flat, ext, be);
    CompletedRunSettles(tiers, t, flat, ext, be);
    LeftFlat(tiers, v);
    RunDirs(tiers, t, flat, ext, be);
    forall d, i ensures ItemSorted(tiers, t, v, d, i) {
      assert ItemOf(v.Get(External), d, i) == FinalItem(tiers, t, External, d, i);
      assert ItemOf(v.Get(BestEffort), d, i) == FinalItem(tiers, t, BestEffort, d, i);
      FinalItemMeans(tiers, t, v, d, i);
    }
  }

  lemma LeftFlat(tiers: Tiers, v: Trees)
    requires Settled(tiers, v)
    ensures FlatSorted(v)
  {
    hide Category, Misplaced, IsFlat, IsPng, Stem;
    forall e | e in v.besteffort && v.besteffort[e].File? && |e| >= 4 && e[|e| - 4..] == ".png"
      ensures e == ".png" || e == "..png"
    {
      PngIs(e);
      FlatIff(v.besteffort, e);
      assert !IsFlat(v.besteffort, e);
    }
  }

  lemma RelocatedDir(tiers: Tiers, t: Trees, from: TreeName, e: string, name: TreeName, d: string)
    requires Relocated(tiers, t, from, e).Some?
    ensures IsDir(Relocated(tiers, t, from, e).value.Get(name), d) <==>
      if d == e then PassedDir(tiers, t, from, name, d) else IsDir(t.Get(name), d)
  {
    hide Category;
  }

  predicate PassedDir(tiers: Tiers, t: Trees, from: TreeName, name: TreeName, d: string) {
    var c := Category(tiers, d);
    if c.None? || c.value == from then IsDir(t.Get(name), d)
    else name != from && (IsDir(t.Get(from), d) || IsDir(t.Get(name), d))
  }

  lemma {:induction false} RelocatedDirs(tiers: Tiers, t: Trees, from: TreeName, names: seq<string>,
                                         name: TreeName, d: string)
    requires RelocateAll(tiers, t, from, names).Some?
    ensures IsDir(RelocateAll(tiers, t, from, names).value.Get(name), d) <==>
      if d in names then PassedDir(tiers, t, from, name, d) else IsDir(t.Get(name), d)
    decreases |names|
  {
    hide Category, Relocated, IsDir, Trees.Get;
    if names != [] {
      var init, e := names[..|names| - 1], names[|names| - 1];
      assert names == init + [e];
      assert d in names <==> d in init || d == e;
      RelocatedDirs(tiers, t, from, init, name, d);
      RelocatedDirs(tiers, t, from, init, from, d);
      RelocatedDir(tiers, RelocateAll(tiers, t, from, init).value, from, e, name, d);
    }
  }

  lemma PassDirs(tiers: Tiers, t: Trees, from: TreeName, names: seq<string>, name: TreeName, d: string)
    requires Lists(names, t.Get(from)) && RelocateAll(tiers, t, from, names).Some?
    ensures IsDir(RelocateAll(tiers, t, from, names).value.Get(name), d) <==> PassedDir(tiers, t, from, name, d)
  {
    hide Category, RelocateAll;
    RelocatedDirs(tiers, t, from, names, name, d);
  }

  lemma RunDirs(tiers: Tiers, t: Trees, flat: seq<string>, ext: seq<string>, be: seq<string>)
    requires TrueListings(tiers, t, flat, ext, be) && Run(tiers, t, flat, ext, be).Some?
    ensures DirsSorted(tiers, t, Run(tiers, t, flat, ext, be).value)
  {
    hide Category, NormalizeAll, RelocateAll, IsDir, Filed, ForExternal, ForBestEffort;
    var s := NormalizeAll(t, flat).value;
    NormalizeAllFacts(t, flat);
    var u := RelocateAll(tiers, s, External, ext).value;
    var v := RelocateAll(tiers, u, BestEffort, be).value;
    forall d ensures
      var e := IsDir(t.external, d);
      var b := IsDir(t.besteffort, d)
               || (d !in {"", ".", ".."} && d + ".png" in t.besteffort && t.besteffort[d + ".png"].File?);
      && (IsDir(v.external, d) <==> if ForExternal(tiers, d) then e || b else !ForBestEffort(tiers, d) && e)
      && (IsDir(v.besteffort, d) <==> if ForBestEffort(tiers, d) then e || b else !ForExternal(tiers, d) && b)
    {
      FirstPassDirs(t, flat, d);
      PassDirs(tiers, s, External, ext, External, d);
      PassDirs(tiers, s, External, ext, BestEffort, d);
      PassDirs(tiers, u, BestEffort, be, External, d);
      PassDirs(tiers, u, BestEffort, be, BestEffort, d);
      CategoryMeans(tiers, d);
      assert t.Get(External) == t.external && v.Get(External) == v.external && v.Get(BestEffort) == v.besteffort;
    }
  }

  lemma FirstPassDirs(t: Trees, flat: seq<string>, d: string)
    requires Lists(flat, t.besteffort) && NormalizeAll(t, flat).Some?
    ensures IsDir(NormalizeAll(t, flat).value.besteffort, d) <==>
      IsDir(t.besteffort, d) || (d !in {"", ".", ".."} && d + ".png" in t.besteffort && t.besteffort[d + ".png"].File?)
  {
    NormalizedDirs(t, flat, d);
    FiledMeans(t.besteffort, d, d + ".png");
    StemIs(d + ".png", d);
    hide NormalizeAll, Filed, IsPng, Stem;
  }

  lemma {:induction false} BesideStays(tiers: Tiers, t: Trees, from: TreeName, names: seq<string>)
    requires RelocateAll(tiers, t, from, names).Some?
    ensures RelocateAll(tiers, t, from, names).value.beside == t.beside
    decreases |names|
  {
    hide Category;
    if names != [] { BesideStays(tiers, t, from, names[..|names| - 1]); }
  }

  // ---- Nothing is lost ----

  /** The tree a directory ends in. */
  function Home(tiers: Tiers, name: TreeName, d: string): TreeName {
    Category(tiers, d).GetOr(name)
  }

  /** `x` is item `i` of `d` in tree `name`, or the flat PNG that will be. */
  predicate Source(t: Trees, name: TreeName, d: string, i: string, x: Data) {
    ItemOf(t.Get(name), d, i) == Some(x)
    || (name.BestEffort? && Filed(t.besteffort, i) && Stem(i) == d && t.besteffort[i].data == x)
  }

  /** `x` is the file "...png" beside the trees, or item `i` of a directory of that name. */
  predicate LiesBeside(beside: Option<Entry>, i: string, x: Data) {
    match beside
    case None => false
    case Some(File(data)) => i == STRAY && data == x
    case Some(Dir(items)) => i in items && items[i] == x
  }

  /** Every file is there afterwards, in its directory's home, or beside the trees. */
  ghost predicate KeepsEveryFile(tiers: Tiers, t: Trees, v: Trees) {
    && (forall name, d, i, x :: Source(t, name, d, i, x) ==> ItemOf(v.Get(Home(tiers, name, d)), d, i) == Some(x))
    && (IsFlat(t.besteffort, STRAY) ==> LiesBeside(v.beside, STRAY, t.besteffort[STRAY].data))
    && (forall i, x :: LiesBeside(t.beside, i, x) ==> LiesBeside(v.beside, i, x))
  }

  /** Two files that go to one place have equal data. */
  ghost predicate NoClash(tiers: Tiers, t: Trees) {
    && (forall n, m, d, i, x, y ::
          Source(t, n, d, i, x) && Source(t, m, d, i, y) && Home(tiers, n, d) == Home(tiers, m, d) ==> x == y)
    && (t.beside.Some? && t.beside.value.File? && IsFlat(t.besteffort, STRAY) ==>
          t.beside.value == t.besteffort[STRAY])
  }

  /** A run loses no file if and only if no two files with different data go to one place. */
  lemma RunKeepsEveryFileIff(tiers: Tiers, t: Trees, flat: seq<string>, ext: seq<string>, be: seq<string>)
    requires SortedListings(tiers, t, flat, ext, be) && Clear(tiers, t)
    ensures var v := Run(tiers, t, flat, ext, be);
      v.Some? && (KeepsEveryFile(tiers, t, v.value) <==> NoClash(tiers, t))
  {
    RunSettles(tiers, t, flat, ext, be);
    RunItems(tiers, t, flat, ext, be);
    BesideIsFree(tiers, t);
    StrayKeepsIff(t);
    hide Category, Clear, Run, IsFlat, SortedListings, ItemOf, FinalBeside, LiesBeside;
    var v := Run(tiers, t, flat, ext, be).value;
    if NoClash(tiers, t) {
      forall name, d, i, x | Source(t, name, d, i, x)
        ensures ItemOf(v.Get(Home(tiers, name, d)), d, i) == Some(x)
      {
        FinalIsASource(tiers, t, Home(tiers, name, d), d, i);
        SourceIsNotEmpty(tiers, t, name, d, i, x);
      }
    }
  }

  lemma BesideIsFree(tiers: Tiers, t: Trees)
    requires Clear(tiers, t)
    ensures IsFlat(t.besteffort, STRAY) ==> FinalBeside(t).Some?
  {
    StemIs(STRAY, PARENT);
    assert PARENT + PNG == STRAY && !BlockedFlat(t, STRAY);
  }

  lemma StrayKeepsIff(t: Trees)
    requires IsFlat(t.besteffort, STRAY) ==> FinalBeside(t).Some?
    ensures (IsFlat(t.besteffort, STRAY) ==> LiesBeside(FinalBeside(t), STRAY, t.besteffort[STRAY].data))
    ensures (forall i, x :: LiesBeside(t.beside, i, x) ==> LiesBeside(FinalBeside(t), i, x))
      <==> (t.beside.Some? && t.beside.value.File? && IsFlat(t.besteffort, STRAY) ==>
              t.beside.value == t.besteffort[STRAY])
  {
    hide IsFlat;
    if t.beside.Some? && t.beside.value.File? { assert LiesBeside(t.beside, STRAY, t.beside.value.data); }
  }

  /** Nothing appears: what a place holds in the end came from a source of that place. */
  lemma FinalIsASource(tiers: Tiers, t: Trees, name: TreeName, d: string, i: string)
    ensures var x := FinalItem(tiers, t, name, d, i);
      x.Some? ==> exists n :: Source(t, n, d, i, x.value) && Home(tiers, n, d) == name
  {
    hide Category, ItemOf, IsFlat;
    var x := FinalItem(tiers, t, name, d, i);
    if x.Some? {
      if Source(t, External, d, i, x.value) && Home(tiers, External, d) == name {
      } else {
        assert Source(t, BestEffort, d, i, x.value) && Home(tiers, BestEffort, d) == name;
      }
    }
  }

  lemma SourceIsNotEmpty(tiers: Tiers, t: Trees, name: TreeName, d: string, i: string, x: Data)
    requires Source(t, name, d, i, x)
    ensures FinalItem(tiers, t, Home(tiers, name, d), d, i).Some?
  {
    hide Category, ItemOf, IsFlat;
  }

  ghost predicate Plain(tree: Tree, e: string, x: Data) {
    e in tree && tree[e] == File(x)
  }

  /** The plain files of both trees stay as they are, except the flat PNGs that move. */
  lemma PlainFilesStay(tiers: Tiers, t: Trees, flat: seq<string>, ext: seq<string>, be: seq<string>)
    requires TrueListings(tiers, t, flat, ext, be) && Run(tiers, t, flat, ext, be).Some?
    ensures var v := Run(tiers, t, flat, ext, be).value;
      && (forall e, x :: Plain(v.external, e, x) <==> Plain(t.external, e, x))
      && (forall e, x :: Plain(v.besteffort, e, x) <==> Plain(t.besteffort, e, x) && !IsFlat(t.besteffort, e))
  {
    var s := NormalizeAll(t, flat).value;
    NormalizeAllFacts(t, flat);
    RelocateAllFacts(tiers, s, External, ext);
    var u := RelocateAll(tiers, s, External, ext).value;
    RelocateAllFacts(tiers, u, BestEffort, be);
    var v := RelocateAll(tiers, u, BestEffort, be).value;
    hide Category, NormalizeAll, RelocateAll, IsFlat, Misplaced, PassedOver;
    forall e, x ensures Plain(v.external, e, x) <==> Plain(t.external, e, x) {
      PassKeepsPlain(tiers, s, u, External, External, e, x);
      PassKeepsPlain(tiers, u, v, BestEffort, External, e, x);
    }
    forall e, x ensures Plain(v.besteffort, e, x) <==> Plain(s.besteffort, e, x) {
      PassKeepsPlain(tiers, s, u, External, BestEffort, e, x);
      PassKeepsPlain(tiers, u, v, BestEffort, BestEffort, e, x);
    }
  }

  lemma PassKeepsPlain(tiers: Tiers, t: Trees, u: Trees, from: TreeName, name: TreeName, e: string, x: Data)
    requires PassedOver(tiers, t, u, from)
    ensures Plain(u.Get(name), e, x) <==> Plain(t.Get(name), e, x)
  {
    hide Misplaced;
  }

  /** A merge keeps every item of both directories exactly when the items they share are equal:
      on a name collision the moved item silently replaces the other. */
  lemma MergeKeepsItemsIff(tiers: Tiers, t: Trees, from: TreeName, d: string)
    requires Misplaced(tiers, t, from, d) && d in t.Get(Category(tiers, d).value)
    requires t.Get(Category(tiers, d).value)[d].Dir?
    ensures Relocated(tiers, t, from, d).Some?
    ensures var to := Category(tiers, d).value;
      var u, src, dst := Relocated(tiers, t, from, d).value, t.Get(from)[d].items, t.Get(to)[d].items;
      (forall name, i :: ItemOf(t.Get(name), d, i).Some? ==> ItemOf(u.Get(to), d, i) == ItemOf(t.Get(name), d, i))
        <==> forall i :: i in src && i in dst ==> src[i] == dst[i]
  {
    hide Category;
    var to := Category(tiers, d).value;
    var u, src, dst := Relocated(tiers, t, from, d).value, t.Get(from)[d].items, t.Get(to)[d].items;
    if forall name, i :: ItemOf(t.Get(name), d, i).Some? ==> ItemOf(u.Get(to), d, i) == ItemOf(t.Get(name), d, i) {
      forall i | i in src && i in dst ensures src[i] == dst[i] {
        assert ItemOf(t.Get(from), d, i) == Some(src[i]) && ItemOf(t.Get(to), d, i) == Some(dst[i]);
        assert ItemOf(u.Get(to), d, i) == ItemOf(t.Get(from), d, i);
      }
    }
  }

  // ---- The command ----

  class Corpus {
    var external: Tree
    var besteffort: Tree
    var beside: Option<Entry>

    ghost function View(): Trees
      reads this
    {
      Trees(external, besteffort, beside)
    }

    constructor (trees: Trees)
      ensures View() == trees
    {
      external, besteffort, beside := trees.external, trees.besteffort, trees.beside;
    }

    method ListDir(tree: Tree) returns (names: seq<string>)
      ensures Listing(names, tree)
    {
      hide Sorted, Inserted;
      names := [];
      NothingSorted();
      var rest := tree.Keys;
      while rest != {}
        invariant rest <= tree.Keys
        invariant Sorted(names) && forall d :: d in names <==> d in tree && d !in rest
        decreases rest
      {
        var d :| d in rest;
        InsertedIsSorted(names, d);
        names := Inserted(names, d);
        rest := rest - {d};
      }
    }

    /** Moves directory `d` into the other tree, merging it into an existing directory. */
    method Move(tiers: Tiers, from: TreeName, d: string) returns (ok: bool)
      requires Misplaced(tiers, View(), from, d)
      modifies this
      ensures if ok then Relocated(tiers, old(View()), from, d) == Some(View())
              else Relocated(tiers, old(View()), from, d) == None && View() == old(View())
    {
      hide Category;
      var src, dst := external, besteffort;
      if from.BestEffort? {
        src, dst := besteffort, external;
      }
      if d in dst && dst[d].File? {
        return false;
      }
      var merged := if d in dst then Dir(dst[d].items + src[d].items) else src[d];
      src, dst := src - {d}, dst[d := merged];
      if from.External? {
        external, besteffort := src, dst;
      } else {
        external, besteffort := dst, src;
      }
      ok := true;
    }

    method RelocateTree(tiers: Tiers, from: TreeName) returns (ok: bool, moves: seq<string>, ghost names: seq<string>)
      modifies this
      ensures Listing(names, old(View()).Get(from))
      ensures RelocateAll(tiers, old(View()), from, names) == if ok then Some(View()) else None
      ensures (forall d :: !Misplaced(tiers, old(View()), from, d)) ==> moves == [] && View() == old(View())
    {
      hide Category, Relocated, Sorted, Misplaced;
      var listing := ListDir(if from.External? then external else besteffort);
      names := listing;
      moves := [];
      var n := 0;
      while n < |listing|
        invariant 0 <= n <= |listing|
        invariant RelocateAll(tiers, old(View()), from, listing[..n]) == Some(View())
        invariant (forall d :: !Misplaced(tiers, old(View()), from, d)) ==> moves == [] && View() == old(View())
      {
        var d := listing[n];
        assert listing[..n + 1][..n] == listing[..n];
        var tree := if from.External? then external else besteffort;
        var cat := Category(tiers, d);
        MisplacedIs(tiers, View(), from, d);
        if d in tree && tree[d].Dir? && cat.Some? && cat.value != from {
          moves := moves + [d];
          var done := Move(tiers, from, d);
          if !done {
            RaisedStays(tiers, old(View()), from, listing, n + 1);
            return false, moves, names;
          }
        }
        n := n + 1;
      }
      assert listing[..n] == listing;
      ok := true;
    }

    /** Moves the flat PNG `entry` where its stem says; false is a raised error. */
    method MoveFlat(entry: string) returns (ok: bool)
      requires IsFlat(besteffort, entry)
      modifies this`besteffort, this`beside
      ensures Normalized(old(View()), entry) == if ok then Some(View()) else None
    {
      hide IsPng, Stem;
      var stem, data := Stem(entry), besteffort[entry].data;
      if stem == PARENT {
        if beside.Some? && beside.value.Dir? {
          if entry in beside.value.items {
            return false;
          }
          beside := Some(Dir(beside.value.items[entry := data]));
        } else {
          beside := Some(File(data));
        }
        besteffort := besteffort - {entry};
      } else {
        if stem in besteffort && besteffort[stem].File? {
          return false;
        }
        var items := if stem in besteffort then besteffort[stem].items else map[];
        besteffort := (besteffort - {entry})[stem := Dir(items[entry := data])];
      }
      ok := true;
    }

    method NormalizeFlat() returns (ok: bool, ghost names: seq<string>)
      modifies this`besteffort, this`beside
      ensures Listing(names, old(besteffort))
      ensures NormalizeAll(old(View()), names) == if ok then Some(View()) else None
    {
      hide Sorted, Normalized, IsPng, Stem;
      var listing := ListDir(besteffort);
      names := listing;
      var n := 0;
      while n < |listing|
        invariant 0 <= n <= |listing|
        invariant NormalizeAll(old(View()), listing[..n]) == Some(View())
      {
        var entry := listing[n];
        assert listing[..n + 1][..n] == listing[..n];
        NotFlatStays(View(), entry);
        if entry in besteffort && besteffort[entry].File? && IsPng(entry) && Stem(entry) != "" && Stem(entry) != HERE {
          var done := MoveFlat(entry);
          if !done {
            RaisedNormalizeStays(old(View()), listing, n + 1);
            return false, names;
          }
        }
        n := n + 1;
      }
      assert listing[..n] == listing;
      ok := true;
    }

    /** The command without `--dry-run`: it completes exactly when nothing is in its way; then the
        corpus is settled, its contents are exactly `FinalItem`, and no file is lost if and only if
        no two different ones go to one place. A settled corpus is left as it is with no relocation. */
    method Categorize(tiers: Tiers) returns (ok: bool, moves: seq<string>)
      modifies this
      ensures ok <==> Clear(tiers, old(View()))
      ensures ok ==> exists flat, ext, be ::
        SortedListings(tiers, old(View()), flat, ext, be) && Run(tiers, old(View()), flat, ext, be) == Some(View())
      ensures ok ==> Settled(tiers, View())
      ensures ok ==> ItemsSorted(tiers, old(View()), View()) && DirsSorted(tiers, old(View()), View())
      ensures ok ==> FlatSorted(View())
      ensures ok ==> beside == FinalBeside(old(View()))
      ensures ok ==>
        forall name: TreeName, d, i :: ItemOf(View().Get(name), d, i) == FinalItem(tiers, old(View()), name, d, i)
      ensures ok ==> (KeepsEveryFile(tiers, old(View()), View()) <==> NoClash(tiers, old(View())))
      ensures Settled(tiers, old(View())) ==> ok && moves == [] && View() == old(View())
    {
      hide Category, Misplaced, Normalized, Relocated, NoClash, KeepsEveryFile, IsFlat, ItemOf, FinalItem, FinalBeside,
           Clear, Sorted, ItemsSorted, DirsSorted, FlatSorted;
      ghost var t := View();
      if Settled(tiers, t) { SettledHas(tiers, t); }
      var ok1; ghost var flat;
      ok1, flat := NormalizeFlat();
      if Settled(tiers, t) { SettledIsFixed(tiers, t, flat, [], []); SettledNormalizes(tiers, t, flat); }
      if !ok1 {
        ghost var ext := SomeListing(t.external);
        NothingSorted();
        RunCompletesIff(tiers, t, flat, ext, []);
        return false, [];
      }
      ghost var s := View();
      var ok2, moves2; ghost var ext;
      ok2, moves2, ext := RelocateTree(tiers, External);
      moves := moves2;
      if Settled(tiers, t) { SettledRelocates(tiers, t, External, ext); }
      if !ok2 {
        NothingSorted();
        RunCompletesIff(tiers, t, flat, ext, []);
        return false, moves;
      }
      ghost var u := View();
      var ok3, moves3; ghost var be;
      ok3, moves3, be := RelocateTree(tiers, BestEffort);
      moves := moves + moves3;
      if Settled(tiers, t) { SettledRelocates(tiers, t, BestEffort, be); }
      RunCompletesIff(tiers, t, flat, ext, be);
      if !ok3 {
        return false, moves;
      }
      assert SortedListings(tiers, t, flat, ext, be) && Run(tiers, t, flat, ext, be) == Some(View());
      RunSettles(tiers, t, flat, ext, be);
      RunItems(tiers, t, flat, ext, be);
      RunSorts(tiers, t, flat, ext, be);
      RunKeepsEveryFileIff(tiers, t, flat, ext, be);
      ok := true;
    }
  }

  lemma {:induction false} SomeListing(tree: Tree) returns (names: seq<string>)
    ensures Listing(names, tree)
    decreases |tree|
  {
    hide Sorted, Inserted;
    NothingSorted();
    if tree == map[] {
      names := [];
    } else {
      var d :| d in tree;
      var rest := SomeListing(tree - {d});
      InsertedIsSorted(rest, d);
      names := Inserted(rest, d);
    }
  }

  lemma NotFlatStays(t: Trees, e: string)
    ensures !IsFlat(t.besteffort, e) ==> Normalized(t, e) == Some(t)
  {
  }

  lemma MisplacedIs(tiers: Tiers, t: Trees, from: TreeName, d: string)
    ensures Misplaced(tiers, t, from, d)
      <==> d in t.Get(from) && t.Get(from)[d].Dir? && Category(tiers, d).Some? && Category(tiers, d).value != from
    ensures !Misplaced(tiers, t, from, d) ==> Relocated(tiers, t, from, d) == Some(t)
  {
  }

  lemma SettledHas(tiers: Tiers, t: Trees)
    requires Settled(tiers, t)
    ensures forall from, d :: !Misplaced(tiers, t, from, d)
  {
  }

  /** Once a pass has raised, the rest of its listing does not matter. */
  lemma {:induction false} RaisedStays(tiers: Tiers, t: Trees, from: TreeName, names: seq<string>, n: nat)
    requires n <= |names| && RelocateAll(tiers, t, from, names[..n]) == None
    ensures RelocateAll(tiers, t, from, names) == None
    decreases |names| - n
  {
    if n == |names| {
      assert names[..n] == names;
    } else {
      assert names[..n + 1][..n] == names[..n];
      RaisedStays(tiers, t, from, names, n + 1);
    }
  }

  lemma {:induction false} RaisedNormalizeStays(t: Trees, names: seq<string>, n: nat)
    requires n <= |names| && NormalizeAll(t, names[..n]) == None
    ensures NormalizeAll(t, names) == None
    decreases |names| - n
  {
    if n == |names| {
      assert names[..n] == names;
    } else {
      assert names[..n + 1][..n] == names[..n];
      RaisedNormalizeStays(t, names, n + 1);
    }
  }
}
