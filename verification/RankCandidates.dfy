/** The greedy choice of dump candidates: clean dumps first, one per base title. The base title
    of a name is a parameter; the results hold for every title function. */
module RankCandidates {
  import opened Common
  import Strings

  datatype Score = Score(unclean: nat, bad: nat, length: nat)

  predicate Less(a: Score, b: Score) {
    a.unclean < b.unclean
    || (a.unclean == b.unclean && (a.bad < b.bad || (a.bad == b.bad && a.length < b.length)))
  }

  function ScoreOf(name: string): Score {
    var clean := Strings.Contains(name, "[!]");
    var bad := Strings.Contains(name, "[b") || Strings.Contains(name, "[o") || Strings.Contains(name, "[p")
               || Strings.Contains(name, "[h") || Strings.Contains(name, "[a");
    Score(if clean then 0 else 1, if bad then 1 else 0, |name|)
  }

  /** Candidate `i` comes before candidate `j` in the stable order by score. */
  predicate Before(names: seq<string>, i: nat, j: nat)
    requires i < |names| && j < |names|
  {
    Less(ScoreOf(names[i]), ScoreOf(names[j])) || (ScoreOf(names[i]) == ScoreOf(names[j]) && i < j)
  }

  ghost predicate Ascending(names: seq<string>, order: seq<nat>) {
    && (forall k :: 0 <= k < |order| ==> order[k] < |names|)
    && (forall k, l :: 0 <= k < l < |order| ==> Before(names, order[k], order[l]))
  }

  lemma BeforeIsTotal(names: seq<string>, i: nat, j: nat, k: nat)
    requires i < |names| && j < |names| && k < |names|
    ensures i == j || Before(names, i, j) || Before(names, j, i)
    ensures !(Before(names, i, j) && Before(names, j, i))
    ensures Before(names, i, j) && Before(names, j, k) ==> Before(names, i, k)
  {
    hide ScoreOf;
  }

  function Insert(names: seq<string>, i: nat, order: seq<nat>): (r: seq<nat>)
    requires i < |names| && forall k :: k in order ==> k < |names|
    ensures |r| == |order| + 1 && forall k: nat :: k in r <==> k in order || k == i
  {
    if order == [] then [i]
    else
      assert order[0] in order && forall k :: k in order[1..] ==> k in order;
      assert forall k :: k in order ==> k == order[0] || k in order[1..];
      if Before(names, i, order[0]) then [i] + order else [order[0]] + Insert(names, i, order[1..])
  }

  /** The stable sort, as the order of the first `n` indices. */
  function StableOrder(names: seq<string>, n: nat): (r: seq<nat>)
    requires n <= |names|
    ensures |r| == n && forall k: nat :: k in r <==> k < n
  {
    if n == 0 then [] else Insert(names, n - 1, StableOrder(names, n - 1))
  }

  lemma {:induction false} InsertAscending(names: seq<string>, i: nat, order: seq<nat>)
    requires i < |names| && Ascending(names, order) && i !in order
    ensures Ascending(names, Insert(names, i, order))
    decreases |order|
  {
    hide Before;
    var r := Insert(names, i, order);
    if order != [] && !Before(names, i, order[0]) {
      InsertAscending(names, i, order[1..]);
      BeforeIsTotal(names, i, order[0], i);
      forall k | 0 < k < |r| ensures Before(names, r[0], r[k]) {
        assert r[k] == r[1..][k - 1] && r[k] in r[1..];
        if r[k] != i {
          assert r[k] in order[1..];
          var m :| 0 <= m < |order[1..]| && order[1..][m] == r[k];
          assert order[m + 1] == r[k];
        }
      }
    } else if order != [] {
      forall k | 0 < k < |r| ensures Before(names, i, r[k]) {
        assert r[k] == order[k - 1];
        BeforeIsTotal(names, i, order[0], r[k]);
      }
    }
  }

  lemma {:induction false} StableOrderAscending(names: seq<string>, n: nat)
    requires n <= |names|
    ensures Ascending(names, StableOrder(names, n))
    decreases n
  {
    if n > 0 {
      StableOrderAscending(names, n - 1);
      InsertAscending(names, n - 1, StableOrder(names, n - 1));
    }
  }

  /** Candidate `i` is the first minimal-score candidate of its title. */
  ghost predicate BestOfTitle(names: seq<string>, title: string -> string, i: nat)
    requires i < |names|
  {
    forall j :: 0 <= j < |names| && j != i && title(names[j]) == title(names[i]) ==> Before(names, i, j)
  }

  function Titles(names: seq<string>, title: string -> string): set<string> {
    set i | 0 <= i < |names| :: title(names[i])
  }

  /** An optimal choice: best-of-title candidates in the stable order, every title at most once,
      as many as asked for (at least one) or as there are titles, and no title left out whose best
      candidate would come before a chosen one. */
  ghost predicate Optimal(names: seq<string>, title: string -> string, count: int, chosen: seq<nat>) {
    && Ascending(names, chosen)
    && (forall k :: 0 <= k < |chosen| ==> BestOfTitle(names, title, chosen[k]))
    && (forall k, l :: 0 <= k < l < |chosen| ==> title(names[chosen[k]]) != title(names[chosen[l]]))
    && |chosen| == (var most := if count < 1 then 1 else count;
                    if most < |Titles(names, title)| then most else |Titles(names, title)|)
    && (forall j, k :: 0 <= j < |names| && j !in chosen && BestOfTitle(names, title, j) && 0 <= k < |chosen| ==>
          Before(names, chosen[k], j))
  }

  // ---- The choice in terms of names ----

  /** A verified good dump. */
  ghost predicate Clean(name: string) {
    Strings.Occurs(name, "[!]")
  }

  /** A bad, overdumped, pirate, hacked or alternate dump. */
  ghost predicate Flagged(name: string) {
    Strings.Occurs(name, "[b") || Strings.Occurs(name, "[o") || Strings.Occurs(name, "[p")
    || Strings.Occurs(name, "[h") || Strings.Occurs(name, "[a")
  }

  /** Clean before unclean, then without a flag before flagged, then shorter, then earlier. */
  ghost predicate Preferred(names: seq<string>, i: nat, j: nat)
    requires i < |names| && j < |names|
  {
    var a, b := names[i], names[j];
    if Clean(a) != Clean(b) then Clean(a)
    else if Flagged(a) != Flagged(b) then Flagged(b)
    else if |a| != |b| then |a| < |b|
    else i < j
  }

  lemma BeforeIsPreferred(names: seq<string>, i: nat, j: nat)
    requires i < |names| && j < |names|
    ensures Before(names, i, j) <==> Preferred(names, i, j)
  {
    forall n | n in {names[i], names[j]}
      ensures ScoreOf(n) == Score(if Clean(n) then 0 else 1, if Flagged(n) then 1 else 0, |n|)
    {
      ScoreMeans(n);
    }
    hide ScoreOf, Clean, Flagged;
  }

  lemma ScoreMeans(n: string)
    ensures ScoreOf(n) == Score(if Clean(n) then 0 else 1, if Flagged(n) then 1 else 0, |n|)
  {
    Strings.ContainsIff(n, "[!]");
    Strings.ContainsIff(n, "[b");
    Strings.ContainsIff(n, "[o");
    Strings.ContainsIff(n, "[p");
    Strings.ContainsIff(n, "[h");
    Strings.ContainsIff(n, "[a");
    hide Strings.Contains, Strings.Occurs;
  }

  /** Of every title the preferred candidate is chosen, in order of preference, and only titles whose
      every candidate comes after all the chosen ones are left out. */
  ghost predicate ChoosesPreferred(names: seq<string>, title: string -> string, chosen: seq<nat>) {
    && (forall k :: 0 <= k < |chosen| ==> chosen[k] < |names|)
    && (forall k, l :: 0 <= k < l < |chosen| ==> Preferred(names, chosen[k], chosen[l]))
    && (forall k, j :: 0 <= k < |chosen| && 0 <= j < |names| && j != chosen[k] ==>
          (title(names[j]) == title(names[chosen[k]])
           || forall l :: 0 <= l < |chosen| ==> title(names[chosen[l]]) != title(names[j])) ==>
          Preferred(names, chosen[k], j))
  }

  /** A clean dump is chosen for every chosen title that has one, and among equally clean ones an
      unflagged one if there is one. */
  lemma CleanIfAny(names: seq<string>, title: string -> string, chosen: seq<nat>, k: nat, j: nat)
    requires ChoosesPreferred(names, title, chosen) && k < |chosen| && j < |names|
    requires title(names[j]) == title(names[chosen[k]])
    ensures var c := names[chosen[k]];
      && (Clean(names[j]) ==> Clean(c))
      && (Clean(names[j]) == Clean(c) ==>
            && (Flagged(c) ==> Flagged(names[j]))
            && (Flagged(names[j]) == Flagged(c) ==> |c| <= |names[j]| && (|c| == |names[j]| ==> chosen[k] <= j)))
  {
    hide Clean, Flagged;
    assert j != chosen[k] ==> Preferred(names, chosen[k], j);
  }

  lemma {:induction false} BestExists(names: seq<string>, title: string -> string, j: nat, n: nat) returns (i: nat)
    requires j < n <= |names|
    ensures i < n && title(names[i]) == title(names[j])
    ensures forall m :: 0 <= m < n && m != i && title(names[m]) == title(names[j]) ==> Before(names, i, m)
    decreases n
  {
    hide Before;
    if j == n - 1 {
      i := j;
      if m: nat :| m < n - 1 && title(names[m]) == title(names[j]) {
        var b := BestExists(names, title, m, n - 1);
        BeforeIsTotal(names, b, j, j);
        if Before(names, b, j) { i := b; }
        else {
          forall m: nat | m < n - 1 && title(names[m]) == title(names[j]) ensures Before(names, j, m) {
            if m != b { BeforeIsTotal(names, j, b, m); }
          }
        }
      }
    } else {
      i := BestExists(names, title, j, n - 1);
      if title(names[n - 1]) == title(names[j]) {
        BeforeIsTotal(names, i, n - 1, i);
        if Before(names, n - 1, i) {
          forall m: nat | m < n - 1 && title(names[m]) == title(names[j]) ensures Before(names, n - 1, m) {
            if m != i { BeforeIsTotal(names, n - 1, i, m); }
          }
          i := n - 1;
        }
      }
    }
  }

  lemma OptimalChoosesPreferred(names: seq<string>, title: string -> string, count: int, chosen: seq<nat>)
    requires Optimal(names, title, count, chosen)
    ensures ChoosesPreferred(names, title, chosen)
  {
    hide Preferred, Before;
    forall i: nat, j: nat | i < |names| && j < |names| ensures Before(names, i, j) <==> Preferred(names, i, j) {
      BeforeIsPreferred(names, i, j);
    }
    forall k, j | 0 <= k < |chosen| && 0 <= j < |names| && j != chosen[k]
                  && (title(names[j]) == title(names[chosen[k]])
                      || forall l :: 0 <= l < |chosen| ==> title(names[chosen[l]]) != title(names[j]))
      ensures Preferred(names, chosen[k], j)
    {
      assert BestOfTitle(names, title, chosen[k]);
      if title(names[j]) != title(names[chosen[k]]) {
        var b := BestExists(names, title, j, |names|);
        assert BestOfTitle(names, title, b);
        assert b !in chosen;
        assert Before(names, chosen[k], b);
        BeforeIsTotal(names, chosen[k], b, j);
      }
    }
  }

  /** The titles of the candidates in `done`. */
  function TitlesAt(names: seq<string>, title: string -> string, done: seq<nat>): set<string>
    requires forall i :: i in done ==> i < |names|
  {
    set i | i in done :: title(names[i])
  }

  /** What the scan has when it has gone through `done`: the seen titles are those of `done`, and
      the chosen candidates are exactly the best-of-title ones in it. */
  ghost predicate Scanned(names: seq<string>, title: string -> string, done: seq<nat>, seen: set<string>,
                          chosen: seq<nat>) {
    && Ascending(names, chosen) && (forall i :: i in done ==> i < |names|)
    && seen == TitlesAt(names, title, done) && |chosen| == |seen|
    && (forall i :: i in chosen ==> i in done && BestOfTitle(names, title, i))
    && (forall i :: i in done && BestOfTitle(names, title, i) ==> i in chosen)
  }

  /** In a complete ascending order, everything outside the first `n` comes after everything in
      them. */
  lemma PrefixComesFirst(names: seq<string>, order: seq<nat>, n: nat, i: nat, j: nat)
    requires Ascending(names, order) && n <= |order| && i in order[..n] && j in order[n..]
    ensures i < |names| && j < |names| && Before(names, i, j) && i != j
  {
    hide Before;
    var k :| 0 <= k < n && order[..n][k] == i;
    var l :| 0 <= l < |order| - n && order[n..][l] == j;
    assert order[k] == i && order[n + l] == j;
    BeforeIsTotal(names, i, j, i);
  }

  /** The next candidate is the best of its title exactly when its title has not been seen. */
  lemma NextIsBestIffUnseen(names: seq<string>, title: string -> string, order: seq<nat>, n: nat)
    requires Ascending(names, order) && n < |order| && (forall i: nat :: i < |names| ==> i in order)
    ensures forall i :: i in order[..n] ==> i < |names|
    ensures BestOfTitle(names, title, order[n]) <==> title(names[order[n]]) !in TitlesAt(names, title, order[..n])
  {
    hide Before;
    var i, done := order[n], order[..n];
    assert i in order[n..] by { assert order[n..][0] == i; }
    if title(names[i]) in TitlesAt(names, title, done) {
      var j :| j in done && title(names[j]) == title(names[i]);
      PrefixComesFirst(names, order, n, j, i);
      BeforeIsTotal(names, j, i, i);
    } else {
      forall j | 0 <= j < |names| && j != i && title(names[j]) == title(names[i]) ensures Before(names, i, j) {
        assert j in order && j !in done;
        assert order == done + [i] + order[n + 1..];
        assert j in order[n + 1..];
        assert i in order[..n + 1] by { assert order[..n + 1][n] == i; }
        PrefixComesFirst(names, order, n + 1, i, j);
      }
    }
  }

  lemma ScanStep(names: seq<string>, title: string -> string, order: seq<nat>, n: nat, seen: set<string>,
                 chosen: seq<nat>)
    requires Ascending(names, order) && n < |order| && (forall i: nat :: i < |names| ==> i in order)
    requires Scanned(names, title, order[..n], seen, chosen)
    ensures var i := order[n];
      if title(names[i]) in seen then Scanned(names, title, order[..n + 1], seen, chosen)
      else Scanned(names, title, order[..n + 1], seen + {title(names[i])}, chosen + [i])
  {
    hide Before, BestOfTitle, TitlesAt;
    var i := order[n];
    NextIsBestIffUnseen(names, title, order, n);
    TitlesGrow(names, title, order[..n], i);
    assert order[..n + 1] == order[..n] + [i];
    assert forall j :: j in order[..n + 1] <==> j in order[..n] || j == i;
    if title(names[i]) !in seen {
      AscendingGrows(names, order, n, chosen);
      assert forall j :: j in chosen + [i] <==> j in chosen || j == i;
    }
  }

  lemma TitlesGrow(names: seq<string>, title: string -> string, done: seq<nat>, i: nat)
    requires (forall j :: j in done ==> j < |names|) && i < |names|
    ensures TitlesAt(names, title, done + [i]) == TitlesAt(names, title, done) + {title(names[i])}
  {
  }

  lemma AscendingGrows(names: seq<string>, order: seq<nat>, n: nat, chosen: seq<nat>)
    requires Ascending(names, order) && n < |order| && Ascending(names, chosen)
    requires forall i :: i in chosen ==> i in order[..n]
    ensures Ascending(names, chosen + [order[n]])
  {
    hide Before;
    assert order[n] in order[n..] by { assert order[n..][0] == order[n]; }
    forall k | 0 <= k < |chosen| ensures Before(names, chosen[k], order[n]) {
      assert chosen[k] in chosen;
      PrefixComesFirst(names, order, n, chosen[k], order[n]);
    }
  }

  lemma ChosenTitlesDiffer(names: seq<string>, title: string -> string, chosen: seq<nat>)
    requires Ascending(names, chosen) && forall i :: i in chosen ==> BestOfTitle(names, title, i)
    ensures forall k, l :: 0 <= k < l < |chosen| ==> title(names[chosen[k]]) != title(names[chosen[l]])
  {
    hide Before;
    forall k, l | 0 <= k < l < |chosen| ensures title(names[chosen[k]]) != title(names[chosen[l]]) {
      BeforeIsTotal(names, chosen[k], chosen[l], chosen[k]);
      assert chosen[l] in chosen;
      assert Before(names, chosen[k], chosen[l]);
    }
  }

  /** A scan that stopped early because it had enough, or that saw everything, is optimal. */
  lemma ScannedIsOptimal(names: seq<string>, title: string -> string, count: int, order: seq<nat>, n: nat,
                         seen: set<string>, chosen: seq<nat>)
    requires Ascending(names, order) && n <= |order| && (forall i: nat :: i < |names| ==> i in order)
    requires Scanned(names, title, order[..n], seen, chosen)
    requires n < |order| ==> |chosen| == (if count < 1 then 1 else count)
    requires n == |order| ==> |chosen| <= (if count < 1 then 1 else count)
    ensures Optimal(names, title, count, chosen)
  {
    hide Before, BestOfTitle;
    forall k | 0 <= k < |chosen| ensures BestOfTitle(names, title, chosen[k]) {
      assert chosen[k] in chosen;
    }
    ChosenTitlesDiffer(names, title, chosen);
    assert seen <= Titles(names, title);
    SubsetSize(seen, Titles(names, title));
    if n == |order| {
      assert order[..n] == order;
      forall t | t in Titles(names, title) ensures t in seen {
        var i: nat :| i < |names| && title(names[i]) == t;
        assert i in order;
      }
      assert seen == Titles(names, title);
    }
    forall j, k | 0 <= j < |names| && j !in chosen && BestOfTitle(names, title, j) && 0 <= k < |chosen|
      ensures Before(names, chosen[k], j)
    {
      assert order == order[..n] + order[n..] && j in order && chosen[k] in chosen;
      PrefixComesFirst(names, order, n, chosen[k], j);
    }
  }

  lemma NothingScanned(names: seq<string>, title: string -> string, order: seq<nat>)
    ensures Scanned(names, title, order[..0], {}, [])
  {
  }

  lemma OrderInRange(names: seq<string>, order: seq<nat>, n: nat)
    requires Ascending(names, order) && n < |order|
    ensures order[n] < |names|
  {
  }

  /** The greedy loop over the sorted records. A count below one still yields one candidate,
      because the length is only checked after an append. */
  method Rank(names: seq<string>, title: string -> string, count: int) returns (chosen: seq<nat>)
    ensures Optimal(names, title, count, chosen)
    ensures ChoosesPreferred(names, title, chosen)
  {
    hide Before, BestOfTitle, Optimal, Scanned, Ascending, ChoosesPreferred;
    var order := StableOrder(names, |names|);
    StableOrderAscending(names, |names|);
    NothingScanned(names, title, order);
    var seen: set<string> := {};
    chosen := [];
    var n := 0;
    while n < |order|
      invariant 0 <= n <= |order|
      invariant Scanned(names, title, order[..n], seen, chosen)
      invariant |chosen| < (if count < 1 then 1 else count)
    {
      OrderInRange(names, order, n);
      var bt := title(names[order[n]]);
      ScanStep(names, title, order, n, seen, chosen);
      n := n + 1;
      if bt !in seen {
        seen := seen + {bt};
        chosen := chosen + [order[n - 1]];
        if |chosen| >= count {
          ScannedIsOptimal(names, title, count, order, n, seen, chosen);
          OptimalChoosesPreferred(names, title, count, chosen);
          return;
        }
      }
    }
    ScannedIsOptimal(names, title, count, order, n, seen, chosen);
    OptimalChoosesPreferred(names, title, count, chosen);
  }

  lemma AscendingDistinct(names: seq<string>, a: seq<nat>)
    requires Ascending(names, a)
    ensures forall k, l :: 0 <= k < l < |a| ==> a[k] != a[l]
  {
    hide Before;
    forall k, l | 0 <= k < l < |a| ensures a[k] != a[l] {
      BeforeIsTotal(names, a[k], a[l], a[k]);
      assert Before(names, a[k], a[l]);
    }
  }

  /** Where two optimal choices first part, neither passed over the other's candidate. */
  lemma NotSkipped(names: seq<string>, title: string -> string, count: int, a: seq<nat>, b: seq<nat>, k: nat)
    requires Optimal(names, title, count, a) && Optimal(names, title, count, b)
    requires k < |a| && k < |b| && forall m :: 0 <= m < k ==> a[m] == b[m]
    ensures !Before(names, a[k], b[k])
  {
    hide Before;
    BeforeIsTotal(names, a[k], b[k], a[k]);
    AscendingDistinct(names, a);
    if a[k] in b {
      var m :| 0 <= m < |b| && b[m] == a[k];
      assert m > k ==> Before(names, b[k], b[m]);
    }
  }

  /** The optimal choice is unique, so the greedy loop's result is determined by the property. */
  lemma OptimalIsUnique(names: seq<string>, title: string -> string, count: int, a: seq<nat>, b: seq<nat>)
    requires Optimal(names, title, count, a) && Optimal(names, title, count, b)
    ensures a == b
  {
    OptimalAgree(names, title, count, a, b, |a|);
  }

  lemma {:induction false} OptimalAgree(names: seq<string>, title: string -> string, count: int, a: seq<nat>,
                                       b: seq<nat>, n: nat)
    requires Optimal(names, title, count, a) && Optimal(names, title, count, b) && n <= |a|
    ensures forall m :: 0 <= m < n ==> a[m] == b[m]
    decreases n
  {
    hide Before;
    if n > 0 {
      var k := n - 1;
      OptimalAgree(names, title, count, a, b, k);
      NotSkipped(names, title, count, a, b, k);
      NotSkipped(names, title, count, b, a, k);
      BeforeIsTotal(names, a[k], b[k], a[k]);
    }
  }
}
