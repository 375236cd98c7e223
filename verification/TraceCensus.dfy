/** Comparing two cold-boot instruction traces that may disagree: a walk with one cursor in each,
    which resynchronises after a fork and totals the cycles injected at matched instructions. */
module TraceCensus {
  datatype Row<PC> = Row(pc: PC, cycle: int)

  /** One turn of the walk: both cursors advance over a matched instruction; one of them skips to
      the next common instruction; or, when the window holds none, both advance. */
  datatype Move = Matched | SkipR(w: nat) | SkipD(w: nat) | Lost

  datatype Step = Step(i: nat, j: nat, move: Move) {
    function NextI(): nat {
      match move case Matched => i + 1 case SkipR(w) => i + w case SkipD(_) => i case Lost => i + 1
    }

    function NextJ(): nat {
      match move case Matched => j + 1 case SkipR(_) => j case SkipD(w) => j + w case Lost => j + 1
    }
  }

  const WINDOW: nat := 40

  /** Skipping `w` rows of the first trace reaches the second's instruction. */
  predicate MeetsR<PC(==)>(r: seq<Row<PC>>, d: seq<Row<PC>>, i: nat, j: nat, w: nat)
    requires j < |d|
  {
    i + w < |r| && r[i + w].pc == d[j].pc
  }

  /** Skipping `w` rows of the second trace reaches the first's instruction. */
  predicate MeetsD<PC(==)>(r: seq<Row<PC>>, d: seq<Row<PC>>, i: nat, j: nat, w: nat)
    requires i < |r|
  {
    j + w < |d| && d[j + w].pc == r[i].pc
  }

  function Resync<PC(==)>(r: seq<Row<PC>>, d: seq<Row<PC>>, i: nat, j: nat, w: nat): Move
    requires i < |r| && j < |d|
    decreases WINDOW - w
  {
    if w >= WINDOW then Lost
    else if MeetsR(r, d, i, j, w) then SkipR(w)
    else if MeetsD(r, d, i, j, w) then SkipD(w)
    else Resync(r, d, i, j, w + 1)
  }

  predicate Running<PC>(r: seq<Row<PC>>, d: seq<Row<PC>>, i: nat, j: nat) {
    i + 1 < |r| && j + 1 < |d|
  }

  function StepAt<PC(==)>(r: seq<Row<PC>>, d: seq<Row<PC>>, i: nat, j: nat): (s: Step)
    requires Running(r, d, i, j)
    ensures i <= s.NextI() < |r| && j <= s.NextJ() < |d| && i + j < s.NextI() + s.NextJ()
  {
    if r[i].pc == d[j].pc then Step(i, j, Matched)
    else
      ResyncFacts(r, d, i, j, 1);
      Step(i, j, Resync(r, d, i, j, 1))
  }

  /** The steps of the walk from a pair of cursors. */
  function Walk<PC(==)>(r: seq<Row<PC>>, d: seq<Row<PC>>, i: nat, j: nat): seq<Step>
    decreases |r| + |d| - i - j
  {
    if !Running(r, d, i, j) then []
    else
      var s := StepAt(r, d, i, j);
      [s] + Walk(r, d, s.NextI(), s.NextJ())
  }

  /** The search takes the smallest skip that meets, the first trace's at a tie, and gives up
      exactly when no skip inside the window meets. */
  lemma {:induction false} ResyncFacts<PC>(r: seq<Row<PC>>, d: seq<Row<PC>>, i: nat, j: nat, w: nat)
    requires i < |r| && j < |d|
    ensures var m := Resync(r, d, i, j, w);
      && !m.Matched?
      && (m.SkipR? ==> w <= m.w < WINDOW && MeetsR(r, d, i, j, m.w))
      && (m.SkipD? ==> w <= m.w < WINDOW && MeetsD(r, d, i, j, m.w) && !MeetsR(r, d, i, j, m.w))
      && (m.Lost? <==> forall v :: w <= v < WINDOW ==> !MeetsR(r, d, i, j, v) && !MeetsD(r, d, i, j, v))
      && (m.SkipR? || m.SkipD? ==> forall v :: w <= v < m.w ==> !MeetsR(r, d, i, j, v) && !MeetsD(r, d, i, j, v))
    decreases WINDOW - w
  {
    if w < WINDOW && !MeetsR(r, d, i, j, w) && !MeetsD(r, d, i, j, w) {
      ResyncFacts(r, d, i, j, w + 1);
    }
  }

  // ---- What the walk adds up ----

  predicate InRange<PC>(r: seq<Row<PC>>, d: seq<Row<PC>>, steps: seq<Step>) {
    forall k :: 0 <= k < |steps| ==>
      && steps[k].i < |r| && steps[k].j < |d|
      && steps[k].NextI() < |r| && steps[k].NextJ() < |d|
  }

  function CostR<PC>(r: seq<Row<PC>>, s: Step): int
    requires s.i < |r| && s.NextI() < |r|
  {
    r[s.NextI()].cycle - r[s.i].cycle
  }

  function CostD<PC>(d: seq<Row<PC>>, s: Step): int
    requires s.j < |d| && s.NextJ() < |d|
  {
    d[s.NextJ()].cycle - d[s.j].cycle
  }

  /** The cycles injected at the matched instructions of `steps`. */
  function Injected<PC>(r: seq<Row<PC>>, d: seq<Row<PC>>, steps: seq<Step>): int
    requires InRange(r, d, steps)
  {
    if steps == [] then 0
    else (if steps[0].move.Matched? then CostR(r, steps[0]) - CostD(d, steps[0]) else 0) + Injected(r, d, steps[1..])
  }

  /** The cycles of the first trace passed over at forks. */
  function SkippedR<PC>(r: seq<Row<PC>>, d: seq<Row<PC>>, steps: seq<Step>): int
    requires InRange(r, d, steps)
  {
    if steps == [] then 0
    else (if steps[0].move.Matched? then 0 else CostR(r, steps[0])) + SkippedR(r, d, steps[1..])
  }

  function SkippedD<PC>(r: seq<Row<PC>>, d: seq<Row<PC>>, steps: seq<Step>): int
    requires InRange(r, d, steps)
  {
    if steps == [] then 0
    else (if steps[0].move.Matched? then 0 else CostD(d, steps[0])) + SkippedD(r, d, steps[1..])
  }

  /** The instructions whose matched cost differs, once per difference. */
  function Mismatches<PC>(r: seq<Row<PC>>, d: seq<Row<PC>>, steps: seq<Step>): multiset<PC>
    requires InRange(r, d, steps)
  {
    if steps == [] then multiset{}
    else
      (if steps[0].move.Matched? && CostR(r, steps[0]) != CostD(d, steps[0]) then multiset{r[steps[0].i].pc}
       else multiset{}) + Mismatches(r, d, steps[1..])
  }

  /** The instructions of the second trace at which the streams fork. */
  function Forks<PC>(r: seq<Row<PC>>, d: seq<Row<PC>>, steps: seq<Step>): multiset<PC>
    requires InRange(r, d, steps)
  {
    if steps == [] then multiset{}
    else (if steps[0].move.Matched? then multiset{} else multiset{d[steps[0].j].pc}) + Forks(r, d, steps[1..])
  }

  lemma {:induction false} WalkInRange<PC>(r: seq<Row<PC>>, d: seq<Row<PC>>, i: nat, j: nat)
    ensures InRange(r, d, Walk(r, d, i, j))
    decreases |r| + |d| - i - j
  {
    hide StepAt, Step.NextI, Step.NextJ;
    if Running(r, d, i, j) {
      var s := StepAt(r, d, i, j);
      WalkInRange(r, d, s.NextI(), s.NextJ());
      var rest := Walk(r, d, s.NextI(), s.NextJ());
      StartsAt(r, d, i, j);
      assert forall k :: 1 <= k < |[s] + rest| ==> ([s] + rest)[k] == rest[k - 1];
    }
  }

  lemma StartsAt<PC>(r: seq<Row<PC>>, d: seq<Row<PC>>, i: nat, j: nat)
    requires Running(r, d, i, j)
    ensures StepAt(r, d, i, j).i == i && StepAt(r, d, i, j).j == j
  {
  }

  /** The cursors after `n` steps of the walk from the start of both traces. */
  function After(steps: seq<Step>, n: nat): (nat, nat)
    requires n <= |steps|
  {
    if n == 0 then (0, 0) else (steps[n - 1].NextI(), steps[n - 1].NextJ())
  }

  /** The walk from the start of both traces, as the loop runs it. */
  method Census<PC(==)>(r: seq<Row<PC>>, d: seq<Row<PC>>)
    returns (drift: int, mismatches: multiset<PC>, forks: multiset<PC>)
    ensures InRange(r, d, Walk(r, d, 0, 0))
    ensures drift == Injected(r, d, Walk(r, d, 0, 0))
    ensures mismatches == Mismatches(r, d, Walk(r, d, 0, 0))
    ensures forks == Forks(r, d, Walk(r, d, 0, 0))
  {
    hide Walk, InRange, Injected, Mismatches, Forks, Resync, StepAt;
    var i, j := 0, 0;
    drift, mismatches, forks := 0, multiset{}, multiset{};
    WalkInRange(r, d, 0, 0);
    while i + 1 < |r| && j + 1 < |d|
      invariant InRange(r, d, Walk(r, d, i, j))
      invariant Injected(r, d, Walk(r, d, 0, 0)) == drift + Injected(r, d, Walk(r, d, i, j))
      invariant Mismatches(r, d, Walk(r, d, 0, 0)) == mismatches + Mismatches(r, d, Walk(r, d, i, j))
      invariant Forks(r, d, Walk(r, d, 0, 0)) == forks + Forks(r, d, Walk(r, d, i, j))
      decreases |r| + |d| - i - j
    {
      ghost var s := StepAt(r, d, i, j);
      WalkInRange(r, d, s.NextI(), s.NextJ());
      FirstStep(r, d, i, j);
      if r[i].pc == d[j].pc {
        var rCost := r[i + 1].cycle - r[i].cycle;
        var dCost := d[j + 1].cycle - d[j].cycle;
        if rCost != dCost {
          mismatches := mismatches + multiset{r[i].pc};
          drift := drift + (rCost - dCost);
        }
        i, j := i + 1, j + 1;
      } else {
        forks := forks + multiset{d[j].pc};
        var resynced := false;
        var w := 1;
        ghost var i0, j0 := i, j;
        while w < WINDOW
          invariant 1 <= w <= WINDOW && i == i0 && j == j0 && !resynced
          invariant s.move == Resync(r, d, i, j, w)
        {
          ResyncStep(r, d, i, j, w);
          if i + w < |r| && r[i + w].pc == d[j].pc {
            i := i + w;
            resynced := true;
            break;
          }
          if j + w < |d| && d[j + w].pc == r[i].pc {
            j := j + w;
            resynced := true;
            break;
          }
          w := w + 1;
        }
        if !resynced {
          ResyncStep(r, d, i, j, w);
          i, j := i + 1, j + 1;
        }
      }
      assert i == s.NextI() && j == s.NextJ();
    }
    NoSteps(r, d, i, j);
  }

  lemma ResyncStep<PC>(r: seq<Row<PC>>, d: seq<Row<PC>>, i: nat, j: nat, w: nat)
    requires i < |r| && j < |d|
    ensures Resync(r, d, i, j, w) ==
      if w >= WINDOW then Lost
      else if i + w < |r| && r[i + w].pc == d[j].pc then SkipR(w)
      else if j + w < |d| && d[j + w].pc == r[i].pc then SkipD(w)
      else Resync(r, d, i, j, w + 1)
  {
  }

  lemma FirstStep<PC>(r: seq<Row<PC>>, d: seq<Row<PC>>, i: nat, j: nat)
    requires Running(r, d, i, j)
    ensures var s, walk := StepAt(r, d, i, j), Walk(r, d, i, j);
      var rest := Walk(r, d, s.NextI(), s.NextJ());
      && InRange(r, d, walk) && InRange(r, d, rest) && s.i == i && s.j == j
      && s.move == (if r[i].pc == d[j].pc then Matched else Resync(r, d, i, j, 1))
      && Injected(r, d, walk) == (if s.move.Matched? then CostR(r, s) - CostD(d, s) else 0) + Injected(r, d, rest)
      && Mismatches(r, d, walk) ==
        (if s.move.Matched? && CostR(r, s) != CostD(d, s) then multiset{r[i].pc} else multiset{})
        + Mismatches(r, d, rest)
      && Forks(r, d, walk) == (if s.move.Matched? then multiset{} else multiset{d[j].pc}) + Forks(r, d, rest)
  {
    WalkInRange(r, d, i, j);
    var s := StepAt(r, d, i, j);
    WalkInRange(r, d, s.NextI(), s.NextJ());
    var rest := Walk(r, d, s.NextI(), s.NextJ());
    assert Walk(r, d, i, j) == [s] + rest;
    assert ([s] + rest)[1..] == rest;
  }

  lemma NoSteps<PC>(r: seq<Row<PC>>, d: seq<Row<PC>>, i: nat, j: nat)
    requires !Running(r, d, i, j)
    ensures Walk(r, d, i, j) == [] && InRange(r, d, [])
    ensures Injected(r, d, []) == 0 && Mismatches(r, d, []) == multiset{} && Forks(r, d, []) == multiset{}
  {
  }

  // ---- Cycle accounting ----

  lemma InRangePrefix<PC>(r: seq<Row<PC>>, d: seq<Row<PC>>, steps: seq<Step>, n: nat)
    requires InRange(r, d, steps) && n <= |steps|
    ensures InRange(r, d, steps[..n])
  {
  }

  /** One more step at the end of the accounts. */
  lemma {:induction false} OneMore<PC>(r: seq<Row<PC>>, d: seq<Row<PC>>, steps: seq<Step>, s: Step)
    requires InRange(r, d, steps + [s])
    ensures InRange(r, d, steps) && (steps + [s])[|steps|] == s
    ensures Injected(r, d, steps + [s]) ==
      Injected(r, d, steps) + if s.move.Matched? then CostR(r, s) - CostD(d, s) else 0
    ensures SkippedR(r, d, steps + [s]) == SkippedR(r, d, steps) + if s.move.Matched? then 0 else CostR(r, s)
    ensures SkippedD(r, d, steps + [s]) == SkippedD(r, d, steps) + if s.move.Matched? then 0 else CostD(d, s)
    decreases |steps|
  {
    assert (steps + [s])[|steps|] == s;
    assert forall k :: 0 <= k < |steps| ==> (steps + [s])[k] == steps[k];
    if steps == [] {
      assert steps + [s] == [s];
    } else {
      assert (steps + [s])[1..] == steps[1..] + [s];
      OneMore(r, d, steps[1..], s);
    }
  }

  /** Every step starts where the one before it ended. */
  lemma {:induction false} WalkIsConnected<PC>(r: seq<Row<PC>>, d: seq<Row<PC>>, i: nat, j: nat, n: nat)
    requires n < |Walk(r, d, i, j)|
    ensures var steps := Walk(r, d, i, j);
      && Running(r, d, steps[n].i, steps[n].j)
      && steps[n] == StepAt(r, d, steps[n].i, steps[n].j)
      && (n == 0 ==> steps[n].i == i && steps[n].j == j)
      && (n > 0 ==> steps[n].i == steps[n - 1].NextI() && steps[n].j == steps[n - 1].NextJ())
    decreases |r| + |d| - i - j
  {
    hide StepAt, Running, Step.NextI, Step.NextJ;
    if n > 0 {
      var s := StepAt(r, d, i, j);
      WalkIsConnected(r, d, s.NextI(), s.NextJ(), n - 1);
      var rest := Walk(r, d, s.NextI(), s.NextJ());
      assert Walk(r, d, i, j)[n] == rest[n - 1];
      assert n > 1 ==> Walk(r, d, i, j)[n - 1] == rest[n - 2];
    }
    StartsAt(r, d, i, j);
  }

  /** Conservation: after any number of steps, the cycles gone by in the first trace less those in
      the second are the drift reported so far plus the cycles skipped in the first less those
      skipped in the second. */
  lemma {:induction false} Conservation<PC>(r: seq<Row<PC>>, d: seq<Row<PC>>, n: nat)
    requires r != [] && d != [] && n <= |Walk(r, d, 0, 0)|
    ensures var steps := Walk(r, d, 0, 0);
      var (i, j) := After(steps, n);
      && InRange(r, d, steps[..n]) && i < |r| && j < |d|
      && (r[i].cycle - r[0].cycle) - (d[j].cycle - d[0].cycle)
        == Injected(r, d, steps[..n]) + SkippedR(r, d, steps[..n]) - SkippedD(r, d, steps[..n])
  {
    hide Walk, StepAt, Running;
    var steps := Walk(r, d, 0, 0);
    WalkInRange(r, d, 0, 0);
    InRangePrefix(r, d, steps, n);
    if n > 0 {
      Conservation(r, d, n - 1);
      WalkIsConnected(r, d, 0, 0, n - 1);
      assert steps[..n] == steps[..n - 1] + [steps[n - 1]];
      OneMore(r, d, steps[..n - 1], steps[n - 1]);
    }
  }

  /** At the end: the reported drift is the true drift exactly when as many cycles are skipped in one
      trace as in the other. */
  lemma DriftIsTrueIff<PC>(r: seq<Row<PC>>, d: seq<Row<PC>>)
    requires r != [] && d != []
    ensures var steps := Walk(r, d, 0, 0);
      var (i, j) := After(steps, |steps|);
      && InRange(r, d, steps) && i < |r| && j < |d|
      && ((r[i].cycle - r[0].cycle) - (d[j].cycle - d[0].cycle) == Injected(r, d, steps)
          <==> SkippedR(r, d, steps) == SkippedD(r, d, steps))
  {
    var steps := Walk(r, d, 0, 0);
    Conservation(r, d, |steps|);
    assert steps[..|steps|] == steps;
  }

  function Unmatched(steps: seq<Step>): nat {
    if steps == [] then 0 else (if steps[0].move.Matched? then 0 else 1) + Unmatched(steps[1..])
  }

  /** The fork counters add up to the unmatched steps. */
  lemma {:induction false} ForksAddUp<PC>(r: seq<Row<PC>>, d: seq<Row<PC>>, steps: seq<Step>)
    requires InRange(r, d, steps)
    ensures |Forks(r, d, steps)| == Unmatched(steps)
    decreases |steps|
  {
    if steps != [] { ForksAddUp(r, d, steps[1..]); }
  }

  lemma {:induction false} NoForksNoSkips<PC>(r: seq<Row<PC>>, d: seq<Row<PC>>, steps: seq<Step>)
    requires InRange(r, d, steps) && Unmatched(steps) == 0
    ensures SkippedR(r, d, steps) == 0 && SkippedD(r, d, steps) == 0
    decreases |steps|
  {
    if steps != [] { NoForksNoSkips(r, d, steps[1..]); }
  }

  /** The two traces execute the same instructions for as long as both run. */
  ghost predicate SameStreamFrom<PC>(r: seq<Row<PC>>, d: seq<Row<PC>>, i: nat) {
    forall k :: i <= k && Running(r, d, k, k) ==> r[k].pc == d[k].pc
  }

  lemma {:induction false} UnmatchedNoneIff<PC>(r: seq<Row<PC>>, d: seq<Row<PC>>, i: nat)
    ensures Unmatched(Walk(r, d, i, i)) == 0 <==> SameStreamFrom(r, d, i)
    decreases |r| - i
  {
    hide Resync;
    if Running(r, d, i, i) {
      var steps := Walk(r, d, i, i);
      if r[i].pc == d[i].pc {
        assert steps[1..] == Walk(r, d, i + 1, i + 1);
        UnmatchedNoneIff(r, d, i + 1);
        assert SameStreamFrom(r, d, i) <==> SameStreamFrom(r, d, i + 1);
      } else {
        ResyncFacts(r, d, i, i, 1);
        assert !steps[0].move.Matched?;
      }
    }
  }

  /** The walk counts no fork if and only if the traces execute the same instructions. */
  lemma NoForksIff<PC>(r: seq<Row<PC>>, d: seq<Row<PC>>)
    ensures InRange(r, d, Walk(r, d, 0, 0))
    ensures Forks(r, d, Walk(r, d, 0, 0)) == multiset{} <==> SameStreamFrom(r, d, 0)
  {
    hide Walk, InRange, SameStreamFrom, Forks;
    WalkInRange(r, d, 0, 0);
    ForksAddUp(r, d, Walk(r, d, 0, 0));
    UnmatchedNoneIff(r, d, 0);
  }

  /** For traces that execute the same instructions the reported drift is the true one, over the
      whole of the shorter trace. */
  lemma {:induction false} SameStreamDriftIsTrue<PC>(r: seq<Row<PC>>, d: seq<Row<PC>>)
    requires r != [] && d != [] && SameStreamFrom(r, d, 0)
    ensures InRange(r, d, Walk(r, d, 0, 0))
    ensures var n := if |r| <= |d| then |r| - 1 else |d| - 1;
      Injected(r, d, Walk(r, d, 0, 0)) == (r[n].cycle - r[0].cycle) - (d[n].cycle - d[0].cycle)
  {
    hide SameStreamFrom, Resync, StepAt;
    var steps := Walk(r, d, 0, 0);
    UnmatchedNoneIff(r, d, 0);
    DriftIsTrueIff(r, d);
    NoForksNoSkips(r, d, steps);
    NoForksLockstep(r, d, 0, steps);
    WalkEnds(r, d, 0, 0);
  }

  lemma {:induction false} NoForksLockstep<PC>(r: seq<Row<PC>>, d: seq<Row<PC>>, i: nat, steps: seq<Step>)
    requires steps == Walk(r, d, i, i) && Unmatched(steps) == 0
    ensures forall k :: 0 <= k < |steps| ==> steps[k] == Step(i + k, i + k, Matched)
    decreases |steps|
  {
    if steps != [] {
      assert steps[0].move.Matched?;
      assert steps[1..] == Walk(r, d, i + 1, i + 1);
      NoForksLockstep(r, d, i + 1, steps[1..]);
    }
  }

  // ---- Extra loop trips ----

  /** After `after` equal instructions one trace takes `len` extra rows: the first or the second. */
  datatype Trip = Trip(after: nat, first: bool, len: nat)

  /** From these cursors the traces execute the same instructions for as long as both run. */
  ghost predicate SameFrom<PC>(r: seq<Row<PC>>, d: seq<Row<PC>>, i: nat, j: nat) {
    forall a :: i <= a && a + 1 < |r| && a - i + j + 1 < |d| ==> r[a].pc == d[a - i + j].pc
  }

  /** One trace goes round once more, for `w` rows, while the other leaves the loop: the extra rows
      end where the other trace went on, and in fewer rows neither comes to where the other is. */
  ghost predicate GoesRound<PC>(r: seq<Row<PC>>, d: seq<Row<PC>>, i: nat, j: nat, first: bool, w: nat) {
    && Running(r, d, i, j) && r[i].pc != d[j].pc && 1 <= w < WINDOW
    && (if first then MeetsR(r, d, i, j, w) else MeetsD(r, d, i, j, w) && !MeetsR(r, d, i, j, w))
    && forall v :: 1 <= v < w ==> !MeetsR(r, d, i, j, v) && !MeetsD(r, d, i, j, v)
  }

  /** From these cursors the traces differ by exactly the extra trips `trips`. */
  ghost predicate DifferBy<PC>(r: seq<Row<PC>>, d: seq<Row<PC>>, i: nat, j: nat, trips: seq<Trip>)
    decreases |trips|
  {
    if trips == [] then SameFrom(r, d, i, j)
    else
      var Trip(n, first, w) := trips[0];
      && (forall a :: i <= a < i + n ==> a + 1 < |r| && a - i + j + 1 < |d| && r[a].pc == d[a - i + j].pc)
      && GoesRound(r, d, i + n, j + n, first, w)
      && DifferBy(r, d, i + n + (if first then w else 0), j + n + (if first then 0 else w), trips[1..])
  }

  /** The first trip: equal rows before it, and its own rows inside its trace. */
  lemma FirstTrip<PC>(r: seq<Row<PC>>, d: seq<Row<PC>>, i: nat, j: nat, trips: seq<Trip>)
    requires DifferBy(r, d, i, j, trips) && trips != []
    ensures var Trip(n, first, w) := trips[0];
      && i + n + (if first then w else 0) < |r| && j + n + (if first then 0 else w) < |d|
      && GoesRound(r, d, i + n, j + n, first, w)
      && (n > 0 ==> Running(r, d, i, j) && r[i].pc == d[j].pc)
  {
    hide GoesRound;
    var Trip(n, first, w) := trips[0];
    RoundFits(r, d, i + n, j + n, first, w);
    if n > 0 { assert r[i].pc == d[i - i + j].pc; }
  }

  lemma RoundFits<PC>(r: seq<Row<PC>>, d: seq<Row<PC>>, i: nat, j: nat, first: bool, w: nat)
    requires GoesRound(r, d, i, j, first, w)
    ensures 1 <= w && i + (if first then w else 0) < |r| && j + (if first then 0 else w) < |d|
  {
  }

  /** The rows the trips add to one of the traces. */
  function ExtraRows(trips: seq<Trip>, first: bool): nat {
    if trips == [] then 0
    else (if trips[0].first == first then trips[0].len else 0) + ExtraRows(trips[1..], first)
  }

  /** The cursors at the end: as many common rows on as the shorter trace has, and the extra ones. */
  function EndI<PC>(r: seq<Row<PC>>, d: seq<Row<PC>>, i: nat, j: nat, trips: seq<Trip>): int {
    var a, b := |r| - 1, i + ExtraRows(trips, true) + (|d| - 1 - j - ExtraRows(trips, false));
    if a <= b then a else b
  }

  function EndJ<PC>(r: seq<Row<PC>>, d: seq<Row<PC>>, i: nat, j: nat, trips: seq<Trip>): int {
    var a, b := |d| - 1, j + ExtraRows(trips, false) + (|r| - 1 - i - ExtraRows(trips, true));
    if a <= b then a else b
  }

  /** The cycles the trips add: to the first trace, less those to the second. */
  ghost function ExtraCycles<PC>(r: seq<Row<PC>>, d: seq<Row<PC>>, i: nat, j: nat, trips: seq<Trip>): int
    requires DifferBy(r, d, i, j, trips)
    decreases |trips|
  {
    if trips == [] then 0
    else
      FirstTrip(r, d, i, j, trips);
      var Trip(n, first, w) := trips[0];
      if first then r[i + n + w].cycle - r[i + n].cycle + ExtraCycles(r, d, i + n + w, j + n, trips[1..])
      else d[j + n].cycle - d[j + n + w].cycle + ExtraCycles(r, d, i + n, j + n + w, trips[1..])
  }

  /** The true drift from the cursors to the end is the reported one and the extra cycles. */
  ghost predicate Accounts<PC>(r: seq<Row<PC>>, d: seq<Row<PC>>, i: nat, j: nat, trips: seq<Trip>)
    requires DifferBy(r, d, i, j, trips)
  {
    var walk, i', j' := Walk(r, d, i, j), EndI(r, d, i, j, trips), EndJ(r, d, i, j, trips);
    && i <= i' < |r| && j <= j' < |d| && InRange(r, d, walk) && |Forks(r, d, walk)| == |trips|
    && (r[i'].cycle - r[i].cycle) - (d[j'].cycle - d[j].cycle)
       == Injected(r, d, walk) + ExtraCycles(r, d, i, j, trips)
  }

  lemma SameNext<PC>(r: seq<Row<PC>>, d: seq<Row<PC>>, i: nat, j: nat)
    requires SameFrom(r, d, i, j) && Running(r, d, i, j)
    ensures r[i].pc == d[j].pc && SameFrom(r, d, i + 1, j + 1)
  {
    assert r[i].pc == d[i - i + j].pc;
  }

  lemma {:induction false} SameAccounts<PC>(r: seq<Row<PC>>, d: seq<Row<PC>>, i: nat, j: nat)
    requires i < |r| && j < |d| && SameFrom(r, d, i, j)
    ensures DifferBy(r, d, i, j, []) && Accounts(r, d, i, j, [])
    decreases |r| + |d| - i - j
  {
    hide Walk, StepAt, Resync, InRange, Injected, Forks, Mismatches, SameFrom;
    WalkInRange(r, d, i, j);
    if Running(r, d, i, j) {
      SameNext(r, d, i, j);
      FirstStep(r, d, i, j);
      SameAccounts(r, d, i + 1, j + 1);
    } else {
      NoSteps(r, d, i, j);
    }
  }

  /** One equal instruction less before the first trip. */
  lemma TripAhead<PC>(r: seq<Row<PC>>, d: seq<Row<PC>>, i: nat, j: nat, trips: seq<Trip>)
    requires trips != [] && trips[0].after > 0 && DifferBy(r, d, i, j, trips)
    ensures var later := [trips[0].(after := trips[0].after - 1)] + trips[1..];
      && Running(r, d, i, j) && r[i].pc == d[j].pc
      && DifferBy(r, d, i + 1, j + 1, later) && |later| == |trips|
      && ExtraCycles(r, d, i + 1, j + 1, later) == ExtraCycles(r, d, i, j, trips)
      && ExtraRows(later, true) == ExtraRows(trips, true) && ExtraRows(later, false) == ExtraRows(trips, false)
  {
    hide GoesRound, SameFrom;
    FirstTrip(r, d, i, j, trips);
    var Trip(n, first, w) := trips[0];
    var later := [Trip(n - 1, first, w)] + trips[1..];
    assert later[1..] == trips[1..];
    assert i + 1 + (n - 1) == i + n && j + 1 + (n - 1) == j + n;
  }

  /** The walk skips a trip in one step. */
  lemma TripIsSkipped<PC>(r: seq<Row<PC>>, d: seq<Row<PC>>, i: nat, j: nat, first: bool, w: nat)
    requires GoesRound(r, d, i, j, first, w)
    ensures Running(r, d, i, j) && StepAt(r, d, i, j) == Step(i, j, if first then SkipR(w) else SkipD(w))
  {
    ResyncFacts(r, d, i, j, 1);
    hide Resync;
  }

  lemma AccountsAhead<PC>(r: seq<Row<PC>>, d: seq<Row<PC>>, i: nat, j: nat, trips: seq<Trip>, later: seq<Trip>)
    requires trips != [] && trips[0].after > 0 && DifferBy(r, d, i, j, trips)
    requires later == [trips[0].(after := trips[0].after - 1)] + trips[1..]
    requires DifferBy(r, d, i + 1, j + 1, later) && Accounts(r, d, i + 1, j + 1, later)
    ensures Accounts(r, d, i, j, trips)
  {
    TripAhead(r, d, i, j, trips);
    FirstStep(r, d, i, j);
    assert EndI(r, d, i, j, trips) == EndI(r, d, i + 1, j + 1, later);
    assert EndJ(r, d, i, j, trips) == EndJ(r, d, i + 1, j + 1, later);
    hide DifferBy, ExtraCycles, ExtraRows, Walk, StepAt, Resync, InRange, Injected, Forks, EndI, EndJ;
  }

  lemma EndsAfterTrip<PC>(r: seq<Row<PC>>, d: seq<Row<PC>>, i: nat, j: nat, trips: seq<Trip>)
    requires trips != []
    ensures var w := trips[0].len;
      var i', j' := i + (if trips[0].first then w else 0), j + (if trips[0].first then 0 else w);
      && EndI(r, d, i, j, trips) == EndI(r, d, i', j', trips[1..])
      && EndJ(r, d, i, j, trips) == EndJ(r, d, i', j', trips[1..])
  {
  }

  lemma AccountsTrip<PC>(r: seq<Row<PC>>, d: seq<Row<PC>>, i: nat, j: nat, trips: seq<Trip>, i': nat, j': nat)
    requires trips != [] && trips[0].after == 0 && DifferBy(r, d, i, j, trips)
    requires i' == i + (if trips[0].first then trips[0].len else 0)
    requires j' == j + (if trips[0].first then 0 else trips[0].len)
    requires DifferBy(r, d, i', j', trips[1..]) && Accounts(r, d, i', j', trips[1..])
    ensures Accounts(r, d, i, j, trips)
  {
    hide DifferBy, ExtraCycles, ExtraRows, Walk, StepAt, Resync, InRange, Injected, Forks, Mismatches, GoesRound, EndI,
         EndJ;
    FirstTrip(r, d, i, j, trips);
    TripIsSkipped(r, d, i, j, trips[0].first, trips[0].len);
    FirstStep(r, d, i, j);
    TripCycles(r, d, i, j, trips);
    EndsAfterTrip(r, d, i, j, trips);
  }

  /** The first trip's share of the extra cycles, when it comes at once. */
  lemma TripCycles<PC>(r: seq<Row<PC>>, d: seq<Row<PC>>, i: nat, j: nat, trips: seq<Trip>)
    requires trips != [] && trips[0].after == 0 && DifferBy(r, d, i, j, trips)
    ensures var w := trips[0].len;
      if trips[0].first
      then i + w < |r| && DifferBy(r, d, i + w, j, trips[1..])
           && ExtraCycles(r, d, i, j, trips)
              == r[i + w].cycle - r[i].cycle + ExtraCycles(r, d, i + w, j, trips[1..])
      else j + w < |d| && DifferBy(r, d, i, j + w, trips[1..])
           && ExtraCycles(r, d, i, j, trips)
              == d[j].cycle - d[j + w].cycle + ExtraCycles(r, d, i, j + w, trips[1..])
  {
    FirstTrip(r, d, i, j, trips);
    hide GoesRound, SameFrom;
  }

  /** However many extra loop trips either trace makes, the reported drift is the true one less the
      cycles of those trips, and every trip counts as one fork. */
  lemma {:induction false} ExtraTripsAreHidden<PC>(r: seq<Row<PC>>, d: seq<Row<PC>>, i: nat, j: nat, trips: seq<Trip>)
    requires i < |r| && j < |d| && DifferBy(r, d, i, j, trips)
    ensures Accounts(r, d, i, j, trips)
    decreases |r| + |d| - i - j
  {
    hide Accounts, ExtraCycles;
    if trips == [] {
      SameAccounts(r, d, i, j);
    } else if trips[0].after > 0 {
      TripAhead(r, d, i, j, trips);
      var later := [trips[0].(after := trips[0].after - 1)] + trips[1..];
      ExtraTripsAreHidden(r, d, i + 1, j + 1, later);
      AccountsAhead(r, d, i, j, trips, later);
    } else {
      FirstTrip(r, d, i, j, trips);
      var w := trips[0].len;
      var i', j' := i + (if trips[0].first then w else 0), j + (if trips[0].first then 0 else w);
      RoundFits(r, d, i, j, trips[0].first, w);
      ExtraTripsAreHidden(r, d, i', j', trips[1..]);
      AccountsTrip(r, d, i, j, trips, i', j');
    }
  }

  /** The walk stops only when a cursor is on the last row of its trace. */
  lemma {:induction false} WalkEnds<PC>(r: seq<Row<PC>>, d: seq<Row<PC>>, i: nat, j: nat)
    ensures var steps := Walk(r, d, i, j);
      var last := if steps == [] then (i, j) else (steps[|steps| - 1].NextI(), steps[|steps| - 1].NextJ());
      !Running(r, d, last.0, last.1)
    decreases |r| + |d| - i - j
  {
    hide StepAt, Running, Step.NextI, Step.NextJ;
    if Running(r, d, i, j) {
      var s := StepAt(r, d, i, j);
      WalkEnds(r, d, s.NextI(), s.NextJ());
    }
  }

  /** Every resynchronisation lands on equal instructions, at the smallest distance inside the
      window; a step that gives up had none there to land on. */
  lemma ResyncLandsOnEqualPcs<PC>(r: seq<Row<PC>>, d: seq<Row<PC>>, n: nat)
    requires n < |Walk(r, d, 0, 0)|
    ensures var s := Walk(r, d, 0, 0)[n];
      && s.i < |r| && s.j < |d| && s.NextI() < |r| && s.NextJ() < |d|
      && (s.move.Matched? <==> r[s.i].pc == d[s.j].pc)
      && (s.move.SkipR? || s.move.SkipD? ==> r[s.NextI()].pc == d[s.NextJ()].pc && 1 <= s.move.w < 40)
      && (s.move.SkipR? || s.move.SkipD? ==>
           forall v :: 1 <= v < s.move.w ==> !MeetsR(r, d, s.i, s.j, v) && !MeetsD(r, d, s.i, s.j, v))
      && (s.move.SkipD? ==> !MeetsR(r, d, s.i, s.j, s.move.w))
      && (s.move.Lost? ==> forall v :: 1 <= v < 40 ==> !MeetsR(r, d, s.i, s.j, v) && !MeetsD(r, d, s.i, s.j, v))
  {
    hide Walk, Resync;
    WalkIsConnected(r, d, 0, 0, n);
    var s := Walk(r, d, 0, 0)[n];
    ResyncFacts(r, d, s.i, s.j, 1);
  }

  /** A resynchronising step is followed by a matched one, unless the walk ends there: two forks in
      a row are possible only after giving up. */
  lemma ResyncThenMatch<PC>(r: seq<Row<PC>>, d: seq<Row<PC>>, n: nat)
    requires n + 1 < |Walk(r, d, 0, 0)|
    requires Walk(r, d, 0, 0)[n].move.SkipR? || Walk(r, d, 0, 0)[n].move.SkipD?
    ensures Walk(r, d, 0, 0)[n + 1].move.Matched?
  {
    hide Walk, Resync;
    ResyncLandsOnEqualPcs(r, d, n);
    WalkIsConnected(r, d, 0, 0, n + 1);
  }

  /** A trace that goes once more around a waiting loop forks, and its extra cycles are missing from
      the reported drift. */
  lemma ForkHidesDrift()
    ensures var r := [Row(1, 0), Row(2, 2), Row(1, 5), Row(3, 7), Row(4, 9)];
      var d := [Row(1, 0), Row(3, 2), Row(4, 4)];
      var steps := Walk(r, d, 0, 0);
      && steps == [Step(0, 0, Matched), Step(1, 1, SkipR(2)), Step(3, 1, Matched)]
      && InRange(r, d, steps)
      && Injected(r, d, steps) == 0 && SkippedR(r, d, steps) == 5 && SkippedD(r, d, steps) == 0
  {
    var r := [Row(1, 0), Row(2, 2), Row(1, 5), Row(3, 7), Row(4, 9)];
    var d := [Row(1, 0), Row(3, 2), Row(4, 4)];
    assert Resync(r, d, 1, 1, 2) == SkipR(2) && Resync(r, d, 1, 1, 1) == SkipR(2);
    assert StepAt(r, d, 1, 1) == Step(1, 1, SkipR(2));
    assert Walk(r, d, 4, 2) == [];
    assert Walk(r, d, 3, 1) == [Step(3, 1, Matched)];
    assert Walk(r, d, 1, 1) == [Step(1, 1, SkipR(2)), Step(3, 1, Matched)];
    var steps := Walk(r, d, 0, 0);
    ForkSums();
  }

  lemma ForkSums()
    ensures var r := [Row(1, 0), Row(2, 2), Row(1, 5), Row(3, 7), Row(4, 9)];
      var d := [Row(1, 0), Row(3, 2), Row(4, 4)];
      var steps := [Step(0, 0, Matched), Step(1, 1, SkipR(2)), Step(3, 1, Matched)];
      && InRange(r, d, steps)
      && Injected(r, d, steps) == 0 && SkippedR(r, d, steps) == 5 && SkippedD(r, d, steps) == 0
  {
    var r := [Row(1, 0), Row(2, 2), Row(1, 5), Row(3, 7), Row(4, 9)];
    var d := [Row(1, 0), Row(3, 2), Row(4, 4)];
    var steps := [Step(0, 0, Matched), Step(1, 1, SkipR(2)), Step(3, 1, Matched)];
    var last, two := [Step(3, 1, Matched)], [Step(1, 1, SkipR(2)), Step(3, 1, Matched)];
    assert InRange(r, d, []) && InRange(r, d, last) && InRange(r, d, two) && InRange(r, d, steps);
    assert last[1..] == [] && two[1..] == last && steps[1..] == two;
    assert Injected(r, d, last) == 0 && SkippedR(r, d, last) == 0 && SkippedD(r, d, last) == 0;
    assert Injected(r, d, two) == 0 && SkippedR(r, d, two) == 5 && SkippedD(r, d, two) == 0;
  }
}
