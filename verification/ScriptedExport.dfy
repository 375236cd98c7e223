/** The scripted-input (TAS) export of the emulator core: a table of per-frame player-1 masks
    is injected one mask a tick while the core records, and the recorder is stopped on the
    very tick that runs the last authored frame. */
module ScriptedExport {
  import opened Common
  import opened NesButtons

  /** One recorded frame of input. */
  datatype Frame = Frame(p1: Mask, p2: Mask)

  /** The part of the bridged core the export uses: the four port masks and the recorder. */
  datatype Core = Core(ports: seq<Mask>, recorder: Option<seq<Frame>>) {
    ghost predicate Valid() {
      |ports| == 4
    }

    function SetButtons(port: nat, mask: Mask): Core
      requires Valid()
    {
      if port < 4 then this.(ports := ports[port := mask]) else this
    }

    /** Runs one frame: an armed recorder captures the input the frame consumes. */
    function RunFrame(): Core
      requires Valid()
    {
      if recorder.Some? then this.(recorder := Some(recorder.value + [Frame(ports[0], ports[1])])) else this
    }

    function RecordFromPowerOn(): Core {
      Core([0, 0, 0, 0], Some([]))
    }
  }

  /** The fields of the emulator core that take part in an export. */
  datatype State = State(frames: seq<Mask>, cursor: nat, active: bool, exporting: bool, finalize: bool,
                         exported: Option<seq<Frame>>, running: bool, attached: bool, core: Core)
  {
    ghost predicate Valid() {
      core.Valid()
    }

    /** A tick advances the core only while the loop runs and a renderer is attached. */
    predicate Ticks() {
      running && attached
    }
  }

  datatype Event =
    | Tick
    | SetButtons(port: nat, mask: Mask)
    | Start
    | Pause
    | Attach
    | Detach
    | Poll
    | Stop

  // ---- The state functions the methods below are proved against ----

  function StartExport(s: State, table: seq<Mask>): State {
    if table == [] then s
    else s.(frames := table, cursor := 0, active := true, exporting := true, finalize := false,
            exported := None, core := s.core.RecordFromPowerOn())
  }

  function Advanced(s: State): State
    requires s.Valid()
  {
    if !s.active then s
    else
      var mask := if s.cursor < |s.frames| then s.frames[s.cursor] else 0;
      var last := s.cursor + 1 >= |s.frames|;
      s.(cursor := s.cursor + 1, active := !last, finalize := s.finalize || (last && s.exporting),
         core := s.core.SetButtons(0, mask))
  }

  function Finalized(s: State): State {
    if !s.finalize then s
    else s.(finalize := false, exporting := false, exported := Some(s.core.recorder.GetOr([])),
            core := s.core.(recorder := None))
  }

  function Ticked(s: State): State
    requires s.Valid()
  {
    if !s.Ticks() then s
    else
      var a := Advanced(s);
      Finalized(a.(core := a.core.RunFrame()))
  }

  function Stopped(s: State): State {
    s.(active := false, finalize := s.finalize || (s.exporting && s.active))
  }

  function Apply(s: State, e: Event): (t: State)
    requires s.Valid()
    ensures t.Valid()
  {
    match e
    case Tick => Ticked(s)
    case SetButtons(port, mask) => s.(core := s.core.SetButtons(port, mask))
    case Start => s.(running := true)
    case Pause => s.(running := false)
    case Attach => s.(attached := true)
    case Detach => s.(attached := false)
    case Poll => s.(exported := None)
    case Stop => Stopped(s)
  }

  /** What an event hands to the host: the finished movie, if this is a poll that finds one. */
  function Output(s: State, e: Event): seq<seq<Frame>> {
    if e.Poll? && s.exported.Some? then [s.exported.value] else []
  }

  // ---- The mutable objects ----

  class NesController {
    var ports: seq<Mask>
    var recorder: Option<seq<Frame>>

    ghost function View(): Core
      reads this
    {
      Core(ports, recorder)
    }

    constructor ()
      ensures View() == Core([0, 0, 0, 0], None)
    {
      ports := [0, 0, 0, 0];
      recorder := None;
    }

    method SetButtons(port: nat, mask: Mask)
      requires View().Valid()
      modifies this
      ensures View() == old(View()).SetButtons(port, mask)
    {
      if port < 4 {
        ports := ports[port := mask];
      }
    }

    method RunFrame()
      requires View().Valid()
      modifies this
      ensures View() == old(View()).RunFrame()
    {
      if recorder.Some? {
        recorder := Some(recorder.value + [Frame(ports[0], ports[1])]);
      }
    }

    method MovieRecordFromPowerOn()
      modifies this
      ensures View() == old(View()).RecordFromPowerOn()
    {
      ports := [0, 0, 0, 0];
      recorder := Some([]);
    }

    method MovieStopRecording() returns (movie: seq<Frame>)
      modifies this
      ensures movie == old(recorder).GetOr([])
      ensures View() == old(View()).(recorder := None)
    {
      movie := recorder.GetOr([]);
      recorder := None;
    }
  }

  class EmulatorCore {
    const controller: NesController
    var isRunning: bool
    var gfxAttached: bool
    var tasFrames: seq<Mask>
    var tasCursor: nat
    var tasActive: bool
    var tasExporting: bool
    var tasFinalizeExport: bool
    var tasExportedMovie: Option<seq<Frame>>

    ghost function View(): State
      reads this, controller
    {
      State(tasFrames, tasCursor, tasActive, tasExporting, tasFinalizeExport, tasExportedMovie,
            isRunning, gfxAttached, controller.View())
    }

    constructor ()
      ensures View() == State([], 0, false, false, false, None, false, false, Core([0, 0, 0, 0], None))
      ensures fresh(controller)
    {
      controller := new NesController();
      isRunning, gfxAttached := false, false;
      tasFrames, tasCursor, tasActive := [], 0, false;
      tasExporting, tasFinalizeExport, tasExportedMovie := false, false, None;
    }

    method SetButtons(port: nat, mask: Mask)
      requires View().Valid()
      modifies controller
      ensures View() == Apply(old(View()), Event.SetButtons(port, mask))
    {
      controller.SetButtons(port, mask);
    }

    method TasStartExport(p1Masks: seq<Mask>)
      requires View().Valid()
      modifies this, controller
      ensures View() == StartExport(old(View()), p1Masks)
    {
      if p1Masks == [] {
        return;
      }
      controller.MovieRecordFromPowerOn();
      tasFrames := p1Masks;
      tasCursor := 0;
      tasActive := p1Masks != [];
      tasExporting := p1Masks != [];
      tasFinalizeExport := false;
      tasExportedMovie := None;
    }

    method TasTakeExportedMovie() returns (movie: Option<seq<Frame>>)
      requires View().Valid()
      modifies this
      ensures View() == Apply(old(View()), Poll)
      ensures Output(old(View()), Poll) == if movie.Some? then [movie.value] else []
    {
      movie := tasExportedMovie;
      tasExportedMovie := None;
    }

    method TasStop()
      requires View().Valid()
      modifies this
      ensures View() == Apply(old(View()), Stop)
    {
      var wasExporting := tasExporting && tasActive;
      tasActive := false;
      if wasExporting {
        tasFinalizeExport := true;
      }
    }

    method TasAdvanceIfActive()
      requires View().Valid()
      modifies this, controller
      ensures View() == Advanced(old(View()))
    {
      if !tasActive {
        return;
      }
      var mask: Mask := if tasCursor < |tasFrames| then tasFrames[tasCursor] else 0;
      tasCursor := tasCursor + 1;
      if tasCursor >= |tasFrames| {
        tasActive := false;
        if tasExporting {
          tasFinalizeExport := true;
        }
      }
      SetButtons(0, mask);
    }

    method TasFinalizeExportIfPending()
      requires View().Valid()
      modifies this, controller
      ensures View() == Finalized(old(View()))
    {
      if !tasFinalizeExport {
        return;
      }
      tasFinalizeExport := false;
      tasExporting := false;
      var bytes := controller.MovieStopRecording();
      tasExportedMovie := Some(bytes);
    }

    /** One display-link tick: inject, run the frame, then stop the recorder if that was it. */
    method Tick()
      requires View().Valid()
      modifies this, controller
      ensures View() == Apply(old(View()), Event.Tick)
    {
      if !isRunning || !gfxAttached {
        return;
      }
      TasAdvanceIfActive();
      controller.RunFrame();
      TasFinalizeExportIfPending();
    }
  }

  // ---- Whole runs ----

  ghost function Run(s: State, es: seq<Event>): (t: State)
    requires s.Valid()
    ensures t.Valid()
    decreases |es|
  {
    if es == [] then s else Run(Apply(s, es[0]), es[1..])
  }

  /** The movies handed to the host during a run, in order. */
  ghost function Outputs(s: State, es: seq<Event>): seq<seq<Frame>>
    requires s.Valid()
    decreases |es|
  {
    if es == [] then [] else Output(s, es[0]) + Outputs(Apply(s, es[0]), es[1..])
  }

  /** The ticks of a run that really advance the core. */
  ghost function EffectiveTicks(s: State, es: seq<Event>): nat
    requires s.Valid()
    decreases |es|
  {
    if es == [] then 0
    else (if es[0].Tick? && s.Ticks() then 1 else 0) + EffectiveTicks(Apply(s, es[0]), es[1..])
  }

  ghost function P1(movie: seq<Frame>): seq<Mask> {
    seq(|movie|, i requires 0 <= i < |movie| => movie[i].p1)
  }

  /** Everything a run has handed out or still holds for the next poll. */
  ghost function Delivered(s: State, es: seq<Event>): seq<seq<Frame>>
    requires s.Valid()
  {
    Outputs(s, es) + (var t := Run(s, es); if t.exported.Some? then [t.exported.value] else [])
  }

  /** The export is under way and has recorded the first `k` authored masks. */
  ghost predicate Recording(s: State, table: seq<Mask>, k: nat) {
    && s.Valid() && s.active && s.exporting && !s.finalize && s.exported == None
    && s.frames == table && s.cursor == k < |table|
    && s.core.recorder.Some? && P1(s.core.recorder.value) == table[..k]
  }

  /** The export was cut short; the next effective tick finishes it. */
  ghost predicate Stopping(s: State, recorded: seq<Mask>) {
    && s.Valid() && !s.active && s.exporting && s.finalize && s.exported == None
    && s.core.recorder.Some? && P1(s.core.recorder.value) == recorded
  }

  /** No export is under way and the recorder is off. */
  ghost predicate Finished(s: State) {
    s.Valid() && !s.active && !s.exporting && !s.finalize && s.core.recorder == None
  }

  lemma StartBegins(s: State, table: seq<Mask>)
    requires s.Valid() && table != []
    ensures Recording(StartExport(s, table), table, 0)
  {
    assert P1([]) == table[..0];
  }

  /** A finished export hands its movie out once, whatever follows. */
  lemma {:induction false} FinishedDeliversOnce(s: State, es: seq<Event>)
    requires s.Valid() && Finished(s)
    ensures Finished(Run(s, es))
    ensures Delivered(s, es) == if s.exported.Some? then [s.exported.value] else []
    decreases |es|
  {
    hide Finished, Output, Ticked, State.Valid, State.Ticks;
    if es == [] {
      FinishedIsValid(s);
    } else {
      FinishedStays(s, es[0]);
      DeliveredStep(s, es);
      FinishedDeliversOnce(Apply(s, es[0]), es[1..]);
    }
  }

  lemma FinishedIsValid(s: State)
    requires Finished(s)
    ensures s.Valid()
  {
  }

  /** A finished export stays finished, and a poll takes its movie. */
  lemma FinishedStays(s: State, e: Event)
    requires Finished(s)
    ensures s.Valid() && Finished(Apply(s, e))
    ensures var left := Apply(s, e).exported;
      Output(s, e) + (if left.Some? then [left.value] else []) == if s.exported.Some? then [s.exported.value] else []
  {
  }

  /** An effective tick injects and records the next authored mask; the last one finishes. */
  lemma TickRecords(s: State, table: seq<Mask>, k: nat)
    requires Recording(s, table, k) && s.Ticks()
    ensures var t := Ticked(s);
      if k + 1 < |table| then Recording(t, table, k + 1)
      else Finished(t) && t.exported.Some? && P1(t.exported.value) == table
  {
    var movie := s.core.recorder.value + [Frame(table[k], s.core.ports[1])];
    assert P1(movie) == table[..k + 1];
    if k + 1 == |table| { assert table[..k + 1] == table; }
  }

  /** Every other event but a stop leaves the recording where it is. */
  lemma OthersKeepRecording(s: State, table: seq<Mask>, k: nat, e: Event)
    requires Recording(s, table, k) && e != Stop && !(e.Tick? && s.Ticks())
    ensures Recording(Apply(s, e), table, k)
  {
  }

  lemma RecordingHandsOutNothing(s: State, table: seq<Mask>, k: nat, e: Event)
    requires Recording(s, table, k)
    ensures Output(s, e) == []
  {
  }

  lemma NothingYet(s: State, table: seq<Mask>, k: nat)
    requires Recording(s, table, k)
    ensures Delivered(s, []) == []
  {
  }

  /** For a non-empty authored table and every interleaving of ticks, live input, pauses,
      renderer loss and polling: until the table is exhausted nothing is delivered and the
      recording is the prefix injected so far; from then on the host gets exactly one movie,
      whose player-1 stream is the table. */
  lemma {:induction false} ExportRecordsTheTable(s: State, table: seq<Mask>, k: nat, es: seq<Event>)
    requires s.Valid() && Recording(s, table, k) && k < |table|
    requires Stop !in es
    ensures var n := EffectiveTicks(s, es);
      if k + n < |table| then Recording(Run(s, es), table, k + n) && Delivered(s, es) == []
      else Finished(Run(s, es)) && |Delivered(s, es)| == 1 && P1(Delivered(s, es)[0]) == table
    decreases |es|
  {
    hide Recording, Finished, P1, Delivered, Output, Ticked, State.Valid, State.Ticks;
    if es == [] {
      NothingYet(s, table, k);
    } else {
      assert Stop !in es[1..];
      DeliveredStep(s, es);
      RecordingHandsOutNothing(s, table, k, es[0]);
      if es[0].Tick? && s.Ticks() {
        TickRecords(s, table, k);
        if k + 1 < |table| {
          ExportRecordsTheTable(Ticked(s), table, k + 1, es[1..]);
        } else {
          FinishedDeliversOnce(Ticked(s), es[1..]);
        }
      } else {
        OthersKeepRecording(s, table, k, es[0]);
        ExportRecordsTheTable(Apply(s, es[0]), table, k, es[1..]);
      }
    }
  }

  /** The headline form: an export started in any state. */
  lemma ExportIsExact(s: State, table: seq<Mask>, es: seq<Event>)
    requires s.Valid() && table != [] && Stop !in es
    requires EffectiveTicks(StartExport(s, table), es) >= |table|
    ensures var d := Delivered(StartExport(s, table), es);
      |d| == 1 && P1(d[0]) == table
  {
    StartBegins(s, table);
    ExportRecordsTheTable(StartExport(s, table), table, 0, es);
  }

  /** Between a stop and the next effective tick the recording waits, whatever happens. */
  lemma {:induction false} StoppingWaits(s: State, recorded: seq<Mask>, es: seq<Event>)
    requires Stopping(s, recorded)
    requires EffectiveTicks(s, es) == 0
    ensures Stopping(Run(s, es), recorded) && Outputs(s, es) == []
    decreases |es|
  {
    if es != [] {
      StoppingWaits(Apply(s, es[0]), recorded, es[1..]);
    }
  }

  lemma {:induction false} DeliveredConcat(s: State, a: seq<Event>, b: seq<Event>)
    requires s.Valid()
    ensures Run(s, a + b) == Run(Run(s, a), b)
    ensures Delivered(s, a + b) == Outputs(s, a) + Delivered(Run(s, a), b)
    decreases |a|
  {
    if a == [] {
      assert a + b == b;
    } else {
      assert (a + b)[1..] == a[1..] + b;
      DeliveredConcat(Apply(s, a[0]), a[1..], b);
      DeliveredStep(s, a + b);
    }
  }

  lemma DeliveredStep(s: State, es: seq<Event>)
    requires s.Valid() && es != []
    ensures Delivered(s, es) == Output(s, es[0]) + Delivered(Apply(s, es[0]), es[1..])
  {
  }

  /** The effective tick after a stop records one frame of the live mask and delivers it all. */
  lemma NextTickFinishes(s: State, recorded: seq<Mask>, rest: seq<Event>)
    requires Stopping(s, recorded) && s.Ticks()
    ensures var d := Delivered(s, [Tick] + rest);
      |d| == 1 && P1(d[0]) == recorded + [s.core.ports[0]]
  {
    var movie := s.core.recorder.value + [Frame(s.core.ports[0], s.core.ports[1])];
    assert P1(movie) == recorded + [s.core.ports[0]];
    var t := Ticked(s);
    assert Finished(t) && t.exported == Some(movie);
    FinishedDeliversOnce(t, rest);
    DeliveredStep(s, [Tick] + rest);
    assert ([Tick] + rest)[1..] == rest;
  }

  lemma StopStops(s: State, table: seq<Mask>, k: nat)
    requires Recording(s, table, k)
    ensures Stopping(Stopped(s), table[..k]) && Stopped(s) == Apply(s, Stop) && Output(s, Stop) == []
  {
  }

  /** What is delivered includes what has been handed out. */
  lemma BeforeTheStop(s: State, es: seq<Event>)
    requires s.Valid()
    ensures Delivered(s, es) == [] ==> Outputs(s, es) == []
  {
  }

  /** A stop after `k` of the authored frames: whatever happens up to the next effective tick
      (`quiet`) and afterwards (`rest`, further stops included), the one movie delivered is the
      first `k` masks plus a single frame of the mask port 0 holds at that tick. */
  lemma StoppedExportIsAPrefixPlusOneFrame(s: State, table: seq<Mask>, es: seq<Event>, quiet: seq<Event>,
                                           rest: seq<Event>)
    requires s.Valid() && table != [] && Stop !in es
    requires EffectiveTicks(StartExport(s, table), es) < |table|
    requires EffectiveTicks(Stopped(Run(StartExport(s, table), es)), quiet) == 0
    requires Run(Stopped(Run(StartExport(s, table), es)), quiet).Ticks()
    ensures var k := EffectiveTicks(StartExport(s, table), es);
      var atTick := Run(Stopped(Run(StartExport(s, table), es)), quiet);
      var d := Delivered(StartExport(s, table), es + ([Stop] + (quiet + ([Tick] + rest))));
      |d| == 1 && P1(d[0]) == table[..k] + [atTick.core.ports[0]]
  {
    hide Recording, Stopping, P1, Delivered, State.Ticks, StartExport, Stopped, Run, Outputs, EffectiveTicks;
    var s0 := StartExport(s, table);
    StartBegins(s, table);
    ExportRecordsTheTable(s0, table, 0, es);
    var k := EffectiveTicks(s0, es);
    var s1 := Run(s0, es);
    var s2 := Stopped(s1);
    StopStops(s1, table, k);
    BeforeTheStop(s0, es);
    StoppingWaits(s2, table[..k], quiet);
    NextTickFinishes(Run(s2, quiet), table[..k], rest);
    var afterStop := quiet + ([Tick] + rest);
    DeliveredConcat(s2, quiet, [Tick] + rest);
    DeliveredStep(s1, [Stop] + afterStop);
    assert ([Stop] + afterStop)[1..] == afterStop;
    DeliveredConcat(s0, es, [Stop] + afterStop);
  }

  // ---- The switches and the live input ----

  /** The last of the two switches thrown in `es`. */
  function Switched(es: seq<Event>, on: Event, off: Event, was: bool): bool {
    if es == [] then was
    else Switched(es[1..], on, off, if es[0] == on then true else if es[0] == off then false else was)
  }

  /** On every run the loop runs as the last start or pause said, and a renderer is there as the last
      attach or detach said. */
  lemma {:induction false} SwitchesFollow(s: State, es: seq<Event>)
    requires s.Valid()
    ensures Run(s, es).running == Switched(es, Event.Start, Pause, s.running)
    ensures Run(s, es).attached == Switched(es, Attach, Detach, s.attached)
    decreases |es|
  {
    hide Apply;
    if es != [] {
      SwitchesStep(s, es[0]);
      SwitchesFollow(Apply(s, es[0]), es[1..]);
    }
  }

  lemma SwitchesStep(s: State, e: Event)
    requires s.Valid()
    ensures Apply(s, e).running == if e == Event.Start then true else if e == Pause then false else s.running
    ensures Apply(s, e).attached == if e == Attach then true else if e == Detach then false else s.attached
  {
  }

  /** A tick without a renderer or while paused changes nothing. */
  lemma StandsStill(s: State)
    requires s.Valid() && !(s.running && s.attached)
    ensures Apply(s, Tick) == s
  {
  }

  /** The last mask set for `port` in `es`. */
  function LastMask(es: seq<Event>, port: nat, was: Mask): Mask {
    if es == [] then was
    else LastMask(es[1..], port, if es[0].SetButtons? && es[0].port == port then es[0].mask else was)
  }

  /** On every run the core carries on each port the mask last set for it; only the first port takes
      injected masks, and only while an export is active. */
  lemma {:induction false} PortsFollow(s: State, es: seq<Event>, port: nat)
    requires s.Valid() && port < 4 && (port == 0 ==> !s.active)
    ensures Run(s, es).core.ports[port] == LastMask(es, port, s.core.ports[port])
    decreases |es|
  {
    hide Apply;
    if es != [] {
      PortsStep(s, es[0], port);
      PortsFollow(Apply(s, es[0]), es[1..], port);
    }
  }

  lemma PortsStep(s: State, e: Event, port: nat)
    requires s.Valid() && port < 4 && (port == 0 ==> !s.active)
    ensures var t := Apply(s, e);
      && (port == 0 ==> !t.active)
      && t.core.ports[port] == if e.SetButtons? && e.port == port then e.mask else s.core.ports[port]
  {
  }

  /** An export starts at power-on, with no button pressed, an empty recording and nothing delivered; it
      changes neither switch. An empty table starts none. */
  lemma StartsAtPowerOn(s: State, table: seq<Mask>)
    ensures var t := StartExport(s, table);
      if table == [] then t == s
      else t == State(table, 0, true, true, false, None, s.running, s.attached, Core([0, 0, 0, 0], Some([])))
  {
  }

  /** While an export is active its cursor is inside the table, so a mask is never made up. */
  lemma {:induction false} CursorStaysInTable(s: State, es: seq<Event>)
    requires s.Valid() && (s.active ==> s.cursor < |s.frames|)
    ensures var t := Run(s, es); t.active ==> t.cursor < |t.frames|
    decreases |es|
  {
    if es != [] { CursorStaysInTable(Apply(s, es[0]), es[1..]); }
  }

  /** A stop asks for the end of the recording only when an export was still active. */
  lemma StopFinalizesIff(s: State)
    requires s.Valid() && !s.finalize
    ensures var t := Apply(s, Stop); !t.active && (t.finalize <==> s.active && s.exporting)
    ensures var t := Apply(s, Stop); t == s.(active := false, finalize := t.finalize)
  {
  }
}
