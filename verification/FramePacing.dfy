/** The display-link pacing clock of the Metal game view: elapsed wall time is credited to an
    accumulator and paid out as console frames, at most two a callback, with the unpaid debt
    clamped to four frames. Times are reals; floating-point rounding is not modelled. */
module FramePacing {

  /** One console frame at 60.0988 Hz. */
  const PERIOD: real := 1.0 / 60.0988
  const MAX_FRAMES_PER_CALLBACK: nat := 2
  const MAX_BACKLOG_FRAMES: nat := 4

  /** `n` frames last `n` periods. */
  function Frames(n: int): real {
    n as real * PERIOD
  }

  const BACKLOG_CAP: real := Frames(MAX_BACKLOG_FRAMES)

  /** The pacing state: the last timestamp seen (0 = none yet) and the unpaid debt. */
  datatype Clock = Clock(last: real, debt: real)

  /** The clock right after construction or a reset. */
  const FRESH: Clock := Clock(0.0, 0.0)

  /** What one callback does: the new clock, the frames it ran, the time it credited and the
      debt it threw away at the clamp. */
  datatype Callback = Callback(clock: Clock, ticks: nat, credited: real, discarded: real)

  function Credited(last: real, t: real): real {
    var delta := t - (if last == 0.0 then t else last);
    if delta > 0.25 || delta < 0.0 then PERIOD else delta
  }

  /** The number of whole frames in `debt`, as the floor of a quotient. */
  function WholeFrames(debt: real): int {
    (debt / PERIOD).Floor
  }

  /** A callback in closed form: it runs as many whole frames as are due, up to the burst cap. */
  function Vsync(c: Clock, t: real): Callback
    requires c.debt >= 0.0
  {
    var credited := Credited(c.last, t);
    var owed := c.debt + credited;
    WholeFramesBounds(owed);
    var ticks := if WholeFrames(owed) < MAX_FRAMES_PER_CALLBACK then WholeFrames(owed) else MAX_FRAMES_PER_CALLBACK;
    var rest := owed - Frames(ticks);
    var kept := if rest > BACKLOG_CAP then BACKLOG_CAP else rest;
    Callback(Clock(t, kept), ticks, credited, rest - kept)
  }

  lemma WholeFramesBounds(debt: real)
    ensures Frames(WholeFrames(debt)) <= debt < Frames(WholeFrames(debt) + 1)
    ensures debt >= 0.0 ==> WholeFrames(debt) >= 0
  {
    var q := debt / PERIOD;
    assert q * PERIOD == debt;
    assert (q.Floor as real) * PERIOD <= q * PERIOD;
    assert q * PERIOD < ((q.Floor + 1) as real) * PERIOD;
  }

  lemma WholeFramesUnique(debt: real, n: int)
    requires Frames(n) <= debt < Frames(n + 1)
    ensures n == WholeFrames(debt)
  {
    WholeFramesBounds(debt);
  }

  /** The reachable clocks: the debt never leaves 0 .. four periods. */
  ghost predicate InBounds(c: Clock) {
    0.0 <= c.debt <= BACKLOG_CAP
  }

  class Coordinator {
    var frameAccumulator: real
    var lastTimestamp: real

    ghost function View(): Clock
      reads this
    {
      Clock(lastTimestamp, frameAccumulator)
    }

    constructor ()
      ensures View() == FRESH
    {
      frameAccumulator := 0.0;
      lastTimestamp := 0.0;
    }

    /** One display-link callback; `ticks` counts the calls to the emulator's tick. */
    method Step(timestamp: real) returns (ticks: nat)
      requires frameAccumulator >= 0.0
      modifies this
      ensures View() == Vsync(old(View()), timestamp).clock
      ensures ticks == Vsync(old(View()), timestamp).ticks
    {
      if lastTimestamp == 0.0 {
        lastTimestamp := timestamp;
      }
      var delta := timestamp - lastTimestamp;
      lastTimestamp := timestamp;
      if delta > 0.25 || delta < 0.0 {
        delta := PERIOD;
      }
      frameAccumulator := frameAccumulator + delta;

      ghost var owed := frameAccumulator;
      assert owed == old(frameAccumulator) + Credited(old(lastTimestamp), timestamp);
      var budget := MAX_FRAMES_PER_CALLBACK;
      ticks := 0;
      while frameAccumulator >= PERIOD && budget > 0
        invariant ticks + budget == MAX_FRAMES_PER_CALLBACK
        invariant frameAccumulator == owed - Frames(ticks)
        invariant frameAccumulator >= 0.0
        invariant lastTimestamp == timestamp
        decreases budget
      {
        ticks := ticks + 1;
        frameAccumulator := frameAccumulator - PERIOD;
        budget := budget - 1;
      }
      WholeFramesBounds(owed);
      if frameAccumulator < PERIOD {
        assert owed < Frames(ticks + 1);
        WholeFramesUnique(owed, ticks);
      } else {
        assert Frames(ticks) <= owed;
      }
      var maxBacklog := Frames(MAX_BACKLOG_FRAMES);
      if frameAccumulator > maxBacklog {
        frameAccumulator := maxBacklog;
      }
    }

    method ResetPacing()
      modifies this
      ensures View() == FRESH
    {
      lastTimestamp := 0.0;
      frameAccumulator := 0.0;
    }
  }

  // ---- Whole runs ----

  /** A display-link callback or a pacing reset (return to the foreground). */
  datatype Event = Refresh(t: real) | Reset

  /** The accounts of a run. A reset forgives the debt it drops, so it counts as discarded. */
  datatype Ledger = Ledger(clock: Clock, ticks: nat, credited: real, discarded: real)

  function Account(l: Ledger, e: Event): Ledger
    requires l.clock.debt >= 0.0
  {
    match e
    case Refresh(t) =>
      var c := Vsync(l.clock, t);
      Ledger(c.clock, l.ticks + c.ticks, l.credited + c.credited, l.discarded + c.discarded)
    case Reset => Ledger(FRESH, l.ticks, l.credited, l.discarded + l.clock.debt)
  }

  /** The time credited: none at the first callback, the time since the last one up to a quarter of a
      second, and one period for a longer gap or a clock that went back. */
  lemma CreditIs(c: Clock, t: real)
    requires c.debt >= 0.0
    ensures var r := Vsync(c, t);
      && r.clock.last == t
      && (c.last == 0.0 ==> r.credited == 0.0)
      && (c.last != 0.0 && 0.0 <= t - c.last <= 0.25 ==> r.credited == t - c.last)
      && (c.last != 0.0 && !(0.0 <= t - c.last <= 0.25) ==> r.credited == 1.0 / 60.0988)
  {
    hide WholeFrames;
  }

  lemma CallbackFacts(c: Clock, t: real)
    requires InBounds(c)
    ensures var r := Vsync(c, t);
      && InBounds(r.clock) && r.ticks <= 2
      && r.credited >= 0.0 && r.discarded >= 0.0
      && Frames(r.ticks) + r.clock.debt + r.discarded == c.debt + r.credited
      && (c.debt + r.credited < Frames(3) ==> r.clock.debt < PERIOD && r.discarded == 0.0)
      && (r.clock.debt >= PERIOD ==> r.ticks == 2)
  {
    var owed := c.debt + Credited(c.last, t);
    WholeFramesBounds(owed);
    if WholeFrames(owed) > 2 { assert Frames(3) <= Frames(WholeFrames(owed)); }
  }

  /** Runs the events of `es` in order. */
  ghost function Run(c: Clock, es: seq<Event>): (l: Ledger)
    requires InBounds(c)
    ensures InBounds(l.clock)
    decreases |es|
  {
    if es == [] then Ledger(c, 0, 0.0, 0.0)
    else
      var before := Run(c, es[..|es| - 1]);
      CallbackFacts(before.clock, match es[|es| - 1] case Refresh(t) => t case Reset => 0.0);
      Account(before, es[|es| - 1])
  }

  lemma FramesSum(a: int, b: int)
    ensures Frames(a + b) == Frames(a) + Frames(b)
  {
    assert (a + b) as real == a as real + b as real;
  }

  lemma FramesOrder(a: int, b: int)
    ensures Frames(a) < Frames(b) <==> a < b
  {
    FramesSum(a, b - a);
    assert b > a ==> (b - a) as real >= 1.0;
    assert b <= a ==> (b - a) as real <= 0.0;
  }

  /** One event leaves the balance of the account where it is. */
  lemma AccountBalances(l: Ledger, e: Event)
    requires InBounds(l.clock)
    ensures var m := Account(l, e);
      && Frames(m.ticks) + m.clock.debt + m.discarded - m.credited
         == Frames(l.ticks) + l.clock.debt + l.discarded - l.credited
      && m.discarded >= l.discarded && m.credited >= l.credited
  {
    if e.Refresh? {
      CallbackFacts(l.clock, e.t);
      FramesSum(l.ticks, Vsync(l.clock, e.t).ticks);
    }
    hide Vsync, Frames;
  }

  /** Conservation, on every run: nothing is emitted that was not credited, nothing credited
      is lost except what the clamp or a reset discarded. */
  lemma {:induction false} Conservation(c: Clock, es: seq<Event>)
    requires InBounds(c)
    ensures var l := Run(c, es);
      && Frames(l.ticks) + l.clock.debt + l.discarded == c.debt + l.credited
      && l.discarded >= 0.0 && l.credited >= 0.0
    decreases |es|
  {
    assert Frames(0) == 0.0;
    hide Account, Frames;
    if es != [] {
      Conservation(c, es[..|es| - 1]);
      AccountBalances(Run(c, es[..|es| - 1]), es[|es| - 1]);
    }
  }

  /** Any window of callbacks, from any reachable clock and at any refresh rate, runs at most
      four frames more than the time credited in it, and falls short of it by no more than the
      final backlog and what was discarded. */
  lemma WindowBound(c: Clock, es: seq<Event>)
    requires InBounds(c)
    ensures var l := Run(c, es);
      && l.ticks <= WholeFrames(l.credited) + 4
      && l.ticks >= WholeFrames(l.credited - l.discarded) - 4
  {
    var l := Run(c, es);
    Conservation(c, es);
    hide Run, Frames, WholeFrames;
    var most, least := WholeFrames(l.credited), WholeFrames(l.credited - l.discarded);
    WholeFramesBounds(l.credited);
    WholeFramesBounds(l.credited - l.discarded);
    FramesSum(most + 1, 4);
    FramesOrder(l.ticks, most + 5);
    FramesSum(l.ticks, 4);
    FramesOrder(least, l.ticks + 5);
    FramesOrder(l.ticks + 4, l.ticks + 5);
  }

  ghost function Callbacks(ts: seq<real>): seq<Event> {
    seq(|ts|, i requires 0 <= i < |ts| => Refresh(ts[i]))
  }

  /** The timestamp a clock holds when callback `i` comes. */
  ghost function LastSeen(c: Clock, ts: seq<real>, i: nat): real
    requires i < |ts|
  {
    if i == 0 then c.last else ts[i - 1]
  }

  /** Every callback credits at most two periods (30 Hz or faster). */
  ghost predicate Smooth(c: Clock, ts: seq<real>) {
    forall i :: 0 <= i < |ts| ==> Credited(LastSeen(c, ts, i), ts[i]) <= Frames(2)
  }

  /** The run of one more callback. */
  lemma OneMore(c: Clock, ts: seq<real>)
    requires InBounds(c) && ts != []
    ensures var n := |ts| - 1;
      Run(c, Callbacks(ts)) == Account(Run(c, Callbacks(ts[..n])), Refresh(ts[n]))
  {
    hide Vsync, Account;
    assert Callbacks(ts)[..|ts| - 1] == Callbacks(ts[..|ts| - 1]);
  }

  /** On a smooth run nothing is discarded, the debt stays below a frame, and the clock keeps the
      last timestamp. */
  lemma {:induction false} SmoothRunLosesNothing(c: Clock, ts: seq<real>)
    requires 0.0 <= c.debt < PERIOD && Smooth(c, ts)
    ensures var l := Run(c, Callbacks(ts));
      && l.discarded == 0.0 && 0.0 <= l.clock.debt < PERIOD
      && l.clock.last == if ts == [] then c.last else ts[|ts| - 1]
    decreases |ts|
  {
    hide WholeFrames, Credited;
    if ts != [] {
      var n := |ts| - 1;
      var init := ts[..n];
      assert forall i :: 0 <= i < n ==> init[i] == ts[i] && LastSeen(c, init, i) == LastSeen(c, ts, i);
      SmoothRunLosesNothing(c, init);
      OneMore(c, ts);
      var before := Run(c, Callbacks(init));
      CallbackFacts(before.clock, ts[n]);
      assert before.clock.last == LastSeen(c, ts, n);
    }
  }

  /** On a smooth run that starts with less than a frame of debt, the frames run are exactly the
      whole frames in that debt and the credited time together. */
  lemma SmoothRunIsExact(c: Clock, ts: seq<real>)
    requires 0.0 <= c.debt < PERIOD && Smooth(c, ts)
    ensures var l := Run(c, Callbacks(ts));
      l.discarded == 0.0 && l.ticks == WholeFrames(c.debt + l.credited)
  {
    hide WholeFrames, Run, Callbacks;
    SmoothRunLosesNothing(c, ts);
    Conservation(c, Callbacks(ts));
    var l := Run(c, Callbacks(ts));
    assert Frames(l.ticks + 1) == Frames(l.ticks) + PERIOD;
    WholeFramesUnique(c.debt + l.credited, l.ticks);
  }

  /** Timestamps that never go back and whose gaps are at most two periods. */
  ghost predicate Steady(ts: seq<real>) {
    && (forall i :: 0 <= i < |ts| ==> ts[i] > 0.0)
    && (forall i :: 0 < i < |ts| ==> 0.0 <= ts[i] - ts[i - 1] <= Frames(2))
  }

  lemma SteadyIsSmooth(ts: seq<real>)
    requires Steady(ts)
    ensures Smooth(FRESH, ts)
    ensures forall i :: 0 < i < |ts| ==> Credited(ts[i - 1], ts[i]) == ts[i] - ts[i - 1]
  {
  }

  /** A period is the 60.0988th part of a second. */
  lemma WholeFramesPerSecond(seconds: real)
    ensures WholeFrames(seconds) == (seconds * 60.0988).Floor
  {
    var n := (seconds * 60.0988).Floor;
    var a: real := n as real;
    assert a <= seconds * 60.0988 < a + 1.0;
    assert PERIOD * 60.0988 == 1.0;
    assert Frames(n) == a * PERIOD && Frames(n + 1) == (a + 1.0) * PERIOD;
    assert seconds == seconds * 60.0988 * PERIOD;
    Scaled(a, seconds * 60.0988);
    Scaled(seconds * 60.0988, a + 1.0);
    WholeFramesUnique(seconds, n);
  }

  lemma Scaled(a: real, b: real)
    ensures a <= b ==> a * PERIOD <= b * PERIOD
    ensures a < b ==> a * PERIOD < b * PERIOD
  {
  }

  /** Steady callbacks after a reset credit the time from the first to the last. */
  lemma {:induction false} SteadyCredit(ts: seq<real>)
    requires Steady(ts) && ts != []
    ensures Run(FRESH, Callbacks(ts)).credited == ts[|ts| - 1] - ts[0]
    decreases |ts|
  {
    hide WholeFrames, Smooth;
    var n := |ts| - 1;
    var init := ts[..n];
    OneMore(FRESH, ts);
    assert Steady(init);
    SteadyIsSmooth(ts);
    SteadyIsSmooth(init);
    SmoothRunLosesNothing(FRESH, init);
    if n > 0 { SteadyCredit(init); }
  }

  /** The frame rate does not depend on the refresh rate: two steady callback sequences that
      span the same time run the same number of frames, the whole frames in that time, however
      finely each divides it. */
  lemma RefreshRateIndependence(a: seq<real>, b: seq<real>)
    requires |a| > 0 && |b| > 0 && Steady(a) && Steady(b)
    requires a[|a| - 1] - a[0] == b[|b| - 1] - b[0]
    ensures Run(FRESH, Callbacks(a)).ticks == Run(FRESH, Callbacks(b)).ticks
      == ((a[|a| - 1] - a[0]) * 60.0988).Floor
  {
    SameSpanSameFrames(a, b);
    hide WholeFrames, Run, Callbacks, Steady;
    WholeFramesPerSecond(a[|a| - 1] - a[0]);
  }

  lemma SameSpanSameFrames(a: seq<real>, b: seq<real>)
    requires |a| > 0 && |b| > 0 && Steady(a) && Steady(b)
    requires a[|a| - 1] - a[0] == b[|b| - 1] - b[0]
    ensures Run(FRESH, Callbacks(a)).ticks == Run(FRESH, Callbacks(b)).ticks == WholeFrames(a[|a| - 1] - a[0])
  {
    hide Smooth, Run, Callbacks, Steady;
    SteadyIsSmooth(a);
    SteadyIsSmooth(b);
    SmoothRunIsExact(FRESH, a);
    SmoothRunIsExact(FRESH, b);
    SteadyCredit(a);
    SteadyCredit(b);
  }

  /** Every callback credits at most one period (60 Hz or faster). */
  ghost predicate Frequent(c: Clock, ts: seq<real>) {
    forall i :: 0 <= i < |ts| ==> Credited(LastSeen(c, ts, i), ts[i]) <= PERIOD
  }

  /** Such a callback pays off at least a period of debt, or leaves less than a period. */
  lemma CallbackPays(c: Clock, t: real)
    requires InBounds(c) && Credited(c.last, t) <= PERIOD
    ensures var d := Vsync(c, t).clock; InBounds(d) && d.last == t && (d.debt < PERIOD || d.debt <= c.debt - PERIOD)
  {
    CallbackFacts(c, t);
    var r := Vsync(c, t);
    hide Credited, Vsync;
    if r.ticks == 2 { assert Frames(r.ticks) == 2.0 * PERIOD; }
  }

  lemma {:induction false} DebtIsPaid(c: Clock, ts: seq<real>)
    requires InBounds(c) && Frequent(c, ts)
    ensures var d := Run(c, Callbacks(ts)).clock;
      && d.last == (if ts == [] then c.last else ts[|ts| - 1])
      && (d.debt < PERIOD || d.debt <= c.debt - Frames(|ts|))
    decreases |ts|
  {
    hide Credited, Vsync, Callbacks;
    if ts == [] {
      assert Callbacks(ts) == [] by { NoCallbacks(); }
    } else {
      var n := |ts| - 1;
      var init := ts[..n];
      assert forall i :: 0 <= i < n ==> init[i] == ts[i] && LastSeen(c, init, i) == LastSeen(c, ts, i);
      DebtIsPaid(c, init);
      OneMore(c, ts);
      var before := Run(c, Callbacks(init)).clock;
      assert before.last == LastSeen(c, ts, n);
      CallbackPays(before, ts[n]);
      assert Frames(n + 1) == Frames(n) + PERIOD;
    }
  }

  lemma NoCallbacks()
    ensures Callbacks([]) == []
  {
  }

  /** Recovery: from any reachable clock, four or more callbacks that each credit at most one period
      bring the debt below one period. */
  lemma FourCallbacksRecover(c: Clock, ts: seq<real>)
    requires InBounds(c) && Frequent(c, ts) && |ts| >= 4
    ensures Run(c, Callbacks(ts)).clock.debt < PERIOD
  {
    hide Run, Callbacks, Frequent;
    DebtIsPaid(c, ts);
    assert Frames(|ts|) >= Frames(4) == BACKLOG_CAP;
  }

  /** Such a callback discards nothing. */
  lemma NothingDiscarded(c: Clock, t: real)
    requires InBounds(c) && Credited(c.last, t) <= PERIOD
    ensures Vsync(c, t).discarded == 0.0
  {
    CallbackFacts(c, t);
    var r := Vsync(c, t);
    assert Frames(2) == 2.0 * PERIOD && BACKLOG_CAP == 4.0 * PERIOD;
    assert r.discarded > 0.0 ==> r.clock.debt == BACKLOG_CAP;
  }

  lemma {:induction false} FrequentAccounts(c: Clock, ts: seq<real>)
    requires InBounds(c) && Frequent(c, ts)
    ensures var l := Run(c, Callbacks(ts));
      && l.discarded == 0.0 && l.ticks <= 2 * |ts| && (l.clock.debt >= PERIOD ==> l.ticks == 2 * |ts| || ts == [])
      && l.clock.last == if ts == [] then c.last else ts[|ts| - 1]
    decreases |ts|
  {
    hide Credited, Vsync, Callbacks;
    if ts == [] {
      assert Callbacks(ts) == [] by { NoCallbacks(); }
    } else {
      var n := |ts| - 1;
      var init := ts[..n];
      assert forall i :: 0 <= i < n ==> init[i] == ts[i] && LastSeen(c, init, i) == LastSeen(c, ts, i);
      FrequentAccounts(c, init);
      OneMore(c, ts);
      var before := Run(c, Callbacks(init)).clock;
      assert before.last == LastSeen(c, ts, n);
      CallbackPays(before, ts[n]);
      CallbackFacts(before, ts[n]);
      NothingDiscarded(before, ts[n]);
    }
  }

  /** Exactly when callbacks that each credit at most one period have paid the debt off: two frames
      each, and less than one left over. */
  lemma PaidOffIff(c: Clock, ts: seq<real>)
    requires InBounds(c) && Frequent(c, ts)
    ensures var l := Run(c, Callbacks(ts)); l.clock.debt < PERIOD <==> c.debt + l.credited < Frames(2 * |ts| + 1)
  {
    FrequentAccounts(c, ts);
    Conservation(c, Callbacks(ts));
    var l := Run(c, Callbacks(ts));
    FramesSum(2 * |ts|, 1);
    FramesOrder(2 * |ts|, l.ticks);
    assert ts == [] ==> l == Ledger(c, 0, 0.0, 0.0) by { NoCallbacks(); }
    hide Run, Callbacks, Frequent;
  }

  /** Four is tight: one late callback after a reset reaches the full backlog, and after three more
      that credit a period each a whole frame is still owed. */
  lemma ThreeCallbacksAreNotEnough()
    ensures var ts := [1.0, 1.25];
      Run(FRESH, Callbacks(ts)).clock == Clock(1.25, BACKLOG_CAP)
    ensures var ts := [1.25 + Frames(1), 1.25 + Frames(2), 1.25 + Frames(3)];
      var c := Clock(1.25, BACKLOG_CAP);
      Frequent(c, ts) && Run(c, Callbacks(ts)).clock.debt == PERIOD
  {
    BacklogIsReached();
    ThreeFromTheBacklog(1.25);
  }

  lemma BacklogIsReached()
    ensures Run(FRESH, Callbacks([1.0, 1.25])).clock == Clock(1.25, BACKLOG_CAP)
  {
    var es := Callbacks([1.0, 1.25]);
    var c := Clock(1.0, 0.0);
    FirstCallback(1.0);
    LateCallback(c, 1.25);
    hide Vsync;
    assert es[..1][..0] == [] && Run(FRESH, es[..1]).clock == c;
  }

  lemma FirstCallback(t: real)
    ensures Vsync(FRESH, t).clock == Clock(t, 0.0)
  {
    WholeFramesUnique(0.0, 0);
    hide WholeFrames;
  }

  /** A quarter of a second is more than six frames. */
  lemma LateCallback(c: Clock, t: real)
    requires c.debt == 0.0 && Credited(c.last, t) == 0.25
    ensures Vsync(c, t).clock == Clock(t, BACKLOG_CAP)
  {
    WholeFramesBounds(0.25);
    assert Frames(6) < 0.25 && Frames(2) + Frames(4) == Frames(6);
    FramesOrder(WholeFrames(0.25) + 1, 6);
    hide WholeFrames, Credited, Frames;
  }

  lemma ThreeFromTheBacklog(t: real)
    requires t > 0.0
    ensures var c := Clock(t, BACKLOG_CAP);
      var ts := [t + Frames(1), t + Frames(2), t + Frames(3)];
      Frequent(c, ts) && Run(c, Callbacks(ts)).clock.debt == PERIOD
  {
    var c := Clock(t, BACKLOG_CAP);
    var ts := [t + Frames(1), t + Frames(2), t + Frames(3)];
    var es := Callbacks(ts);
    var c1 := Vsync(c, ts[0]).clock;
    CallbackFacts(c, ts[0]);
    WholeFramesUnique(Frames(5), 5);
    assert c1.debt == Frames(3);
    WholeFramesUnique(Frames(4), 4);
    var c2 := Vsync(c1, ts[1]).clock;
    CallbackFacts(c1, ts[1]);
    assert c2.debt == Frames(2);
    WholeFramesUnique(Frames(3), 3);
    CallbackFacts(c2, ts[2]);
    assert Vsync(c2, ts[2]).clock.debt == Frames(1);
    assert es[..2][..1] == es[..1] && es[..1][..0] == [];
    assert Run(c, es[..1]).clock == c1;
    assert Run(c, es[..2]).clock == c2;
  }
}
