/** The whole way of the input, from the pads and the touch surface to the core: the pad manager and
    the app model's fan-in run together, with games opening and closing in between. */
module InputPath {
  import opened Common
  import opened NesButtons
  import opened InputFanIn
  import opened ControllerPorts

  datatype JointEvent = Pads(e: Event) | Touch(mask: Mask) | Open | Close

  ghost function JointStep(h: Hub, e: JointEvent): Hub
    requires Inv(h)
  {
    match e
    case Pads(p) => Apply(h, p)
    case Touch(mask) => h.(app := h.app.TouchMask(mask))
    case Open => h.(app := h.app.OpenGame())
    case Close => h.(app := h.app.CloseGame())
  }

  /** The ports of the first `n` pads; with `turboOnly`, of those on turbo. */
  ghost function SentPorts(pads: seq<Pad>, n: nat, turboOnly: bool): set<int>
    requires n <= |pads|
  {
    set i | 0 <= i < n && !(turboOnly && pads[i].turbo == 0) :: pads[i].port
  }

  /** The ports whose pads an event of the manager sends afresh. */
  ghost function Resent(h: Hub, e: Event): set<int>
    requires Inv(h)
  {
    match e
    case Connected(d, r) => if Accepts(h, d) then {PreferredPort(h.pads, h.saved, d)} else {}
    case Disconnected(_) => {}
    case Assigned(id, port) =>
      var i := IndexOf(h.pads, id);
      if i < |h.pads| && Reassigns(h, i, port) then Ports(Apply(h, e).pads) else {}
    case Changed(id, _) => var i := IndexOf(h.pads, id); if i < |h.pads| then {h.pads[i].port} else {}
    case Remapped(_) => Ports(h.pads)
    case TimerFires => if h.timer then SentPorts(h.pads, |h.pads|, true) else {}
  }

  /** The ports pushed to the core since its game opened. */
  ghost function Pushed(h: Hub, ps: set<int>, e: JointEvent): set<int>
    requires Inv(h)
  {
    match e
    case Pads(p) => ps + Resent(h, p)
    case Touch(_) => ps + {0}
    case Open => {}
    case Close => ps
  }

  // ---- What the manager's emissions do to the core ----

  /** From `f` to `g` some ports were pushed, `ports` among them. */
  ghost predicate Follows(f: FanIn, g: FanIn, ports: set<int>)
    requires f.Valid() && g.Valid()
  {
    && g.touch == f.touch && (g.core.Some? <==> f.core.Some?)
    && forall p :: 0 <= p < MAX_PLAYERS && (p in ports || f.AgreesAt(p)) ==> g.AgreesAt(p)
  }

  lemma PadMaskFollows(f: FanIn, port: nat, mask: Mask)
    requires f.Valid() && port < MAX_PLAYERS
    ensures f.PadMask(port, mask).Valid() && Follows(f, f.PadMask(port, mask), {port})
  {
    hide FanIn.Merged;
    var k := f.(pads := f.pads[port := mask]);
    MergedElsewhere(f, port, mask);
    MergedFrame(k, k.Pushed(port));
    var g := f.PadMask(port, mask);
    assert g == k.Pushed(port);
    forall p | 0 <= p < MAX_PLAYERS && (p == port || f.AgreesAt(p)) ensures g.AgreesAt(p) {
    }
  }

  lemma FollowsChains(f: FanIn, g: FanIn, h: FanIn, a: set<int>, b: set<int>)
    requires f.Valid() && g.Valid() && h.Valid() && Follows(f, g, a) && Follows(g, h, b)
    ensures Follows(f, h, a + b)
  {
    hide FanIn.AgreesAt;
  }

  lemma FollowsItself(f: FanIn)
    requires f.Valid()
    ensures Follows(f, f, {})
  {
  }

  lemma EmittedFollows(h: Hub, i: nat)
    requires Shape(h) && i < |h.pads|
    ensures Emitted(h, i).app.Valid() && Follows(h.app, Emitted(h, i).app, {h.pads[i].port})
  {
    hide Follows;
    PadMaskFollows(h.app, h.pads[i].port, h.pads[i].Effective(h.phase));
  }

  lemma SentPortsStep(pads: seq<Pad>, n: nat, turboOnly: bool)
    requires n < |pads|
    ensures SentPorts(pads, n + 1, turboOnly)
      == SentPorts(pads, n, turboOnly) + if turboOnly && pads[n].turbo == 0 then {} else {pads[n].port}
  {
    assert forall p :: p in SentPorts(pads, n + 1, turboOnly) ==>
      p in SentPorts(pads, n, turboOnly) || (!(turboOnly && pads[n].turbo == 0) && p == pads[n].port);
    assert forall i :: 0 <= i < n + 1 && !(turboOnly && pads[i].turbo == 0) ==>
      pads[i].port in SentPorts(pads, n + 1, turboOnly);
  }

  lemma AllPortsSent(pads: seq<Pad>)
    ensures SentPorts(pads, |pads|, false) == Ports(pads)
  {
  }

  lemma {:induction false} EmitFirstFollows(h: Hub, n: nat, turboOnly: bool)
    requires Shape(h) && n <= |h.pads|
    ensures Follows(h.app, EmitFirst(h, n, turboOnly).app, SentPorts(h.pads, n, turboOnly))
    decreases n
  {
    hide Follows, Emitted, SentPorts;
    if n == 0 {
      FollowsItself(h.app);
      NothingSent(h.pads, turboOnly);
    } else {
      EmitFirstFollows(h, n - 1, turboOnly);
      SentPortsStep(h.pads, n - 1, turboOnly);
      var g := EmitFirst(h, n - 1, turboOnly);
      if !(turboOnly && h.pads[n - 1].turbo == 0) {
        EmittedFollows(g, n - 1);
        FollowsChains(h.app, g.app, Emitted(g, n - 1).app, SentPorts(h.pads, n - 1, turboOnly), {h.pads[n - 1].port});
      } else {
        assert SentPorts(h.pads, n, turboOnly) == SentPorts(h.pads, n - 1, turboOnly);
      }
    }
  }

  lemma NothingSent(pads: seq<Pad>, turboOnly: bool)
    ensures SentPorts(pads, 0, turboOnly) == {}
  {
  }

  lemma FollowsLess(f: FanIn, g: FanIn, a: set<int>, b: set<int>)
    requires f.Valid() && g.Valid() && Follows(f, g, a) && b <= a
    ensures Follows(f, g, b)
  {
    hide FanIn.AgreesAt;
  }

  lemma SettledFollows(h: Hub)
    requires Shape(h)
    ensures Settled(h).app.Valid() && Follows(h.app, Settled(h).app, {})
  {
    hide Follows, EmitFirst, AnyTurbo;
    FollowsItself(h.app);
    if !AnyTurbo(h.pads) && h.timer {
      var k := h.(timer := false, phase := false);
      EmitFirstFollows(k, |h.pads|, false);
      FollowsLess(h.app, Settled(h).app, SentPorts(h.pads, |h.pads|, false), {});
    }
  }

  lemma ReevaluatedFollows(h: Hub, i: nat)
    requires Shape(h) && i < |h.pads|
    ensures Reevaluated(h, i).app.Valid() && Follows(h.app, Reevaluated(h, i).app, {h.pads[i].port})
  {
    hide Follows, HeldMask, TurboMask, Settled, Emitted;
    var pad := h.pads[i].(held := HeldMask(h.remap, h.pads[i].reading), turbo := TurboMask(h.remap, h.pads[i].reading));
    var k := h.(pads := h.pads[i := pad]);
    EmittedFollows(k, i);
    var e := Emitted(k, i);
    EmittedShape(k, i);
    SettledFollows(e);
    FollowsChains(h.app, e.app, Settled(e).app, {h.pads[i].port}, {});
    assert {h.pads[i].port} + {} == {h.pads[i].port};
  }

  lemma EmittedShape(h: Hub, i: nat)
    requires Shape(h) && i < |h.pads|
    ensures Shape(Emitted(h, i))
  {
  }

  lemma {:induction false} EvaluateFirstFollows(h: Hub, n: nat)
    requires Shape(h) && n <= |h.pads|
    ensures Follows(h.app, EvaluateFirst(h, n).app, SentPorts(h.pads, n, false))
    decreases n
  {
    hide Follows, Reevaluated, SentPorts;
    if n == 0 {
      FollowsItself(h.app);
      NothingSent(h.pads, false);
    } else {
      EvaluateFirstFollows(h, n - 1);
      SentPortsStep(h.pads, n - 1, false);
      var g := EvaluateFirst(h, n - 1);
      ReevaluatedFollows(g, n - 1);
      EvaluateFirstFacts(h, n - 1);
      FollowsChains(h.app, g.app, Reevaluated(g, n - 1).app, SentPorts(h.pads, n - 1, false), {h.pads[n - 1].port});
    }
  }

  lemma RewiredFollows(h: Hub, i: nat, port: int)
    requires Shape(h) && i < |h.pads| && Reassigns(h, i, port)
    ensures Rewired(h, i, port).app.Valid() && Follows(h.app, Rewired(h, i, port).app, {})
  {
    hide Follows, OwnerOf;
    var previous := h.pads[i].port;
    var o := OwnerOf(h.pads, port, h.pads[i].device.id);
    var g := if o < |h.pads| then h.app.PadMask(previous, 0) else h.app;
    FollowsItself(h.app);
    PadMaskFollows(h.app, previous, 0);
    PadMaskFollows(g, port, 0);
    var first: set<int> := if o < |h.pads| then {previous} else {};
    FollowsChains(h.app, g, g.PadMask(port, 0), first, {port});
    FollowsLess(h.app, g.PadMask(port, 0), first + {port}, {});
  }

  /** Every event of the manager keeps the core in agreement where it agreed, and brings it into
      agreement on the ports it sends afresh. */
  lemma PadEventFollows(h: Hub, e: Event)
    requires Inv(h)
    ensures var g := Apply(h, e); g.app.Valid() && Follows(h.app, g.app, Resent(h, e))
  {
    FollowsItself(h.app);
    hide Follows, AfterConnect, AfterDisconnect, AfterAssign, AfterInput, AfterRemap, TimerFired, Ports, Inv, Reassigns,
         Accepts, InRange;
    match e
    case Connected(d, r) => ConnectFollows(h, d, r);
    case Disconnected(id) => DisconnectFollows(h, id);
    case Assigned(id, port) => AssignFollows(h, id, port);
    case Changed(id, r) => ChangeFollows(h, id, r);
    case Remapped(remap) => RemapFollows(h, remap);
    case TimerFires => TimerFollows(h);
  }

  lemma ChangeFollows(h: Hub, id: int, r: Reading)
    requires Inv(h)
    ensures var i, g := IndexOf(h.pads, id), AfterInput(h, id, r);
      g.app.Valid() && Follows(h.app, g.app, if i < |h.pads| then {h.pads[i].port} else {})
  {
    hide Follows, HeldMask, TurboMask, Mirrors, AnyTurbo, Reevaluated;
    FollowsItself(h.app);
    var i := IndexOf(h.pads, id);
    if i < |h.pads| { ReevaluatedFollows(h.(pads := h.pads[i := h.pads[i].(reading := r)]), i); }
  }

  lemma RemapFollows(h: Hub, remap: ButtonRemap)
    requires Inv(h)
    ensures var g := AfterRemap(h, remap); g.app.Valid() && Follows(h.app, g.app, Ports(h.pads))
  {
    hide Follows, HeldMask, TurboMask, Mirrors, AnyTurbo, EvaluateFirst;
    EvaluateFirstFollows(h.(remap := remap), |h.pads|);
    AllPortsSent(h.pads);
  }

  lemma TimerFollows(h: Hub)
    requires Inv(h)
    ensures var g := TimerFired(h);
      g.app.Valid() && Follows(h.app, g.app, if h.timer then SentPorts(h.pads, |h.pads|, true) else {})
  {
    hide Follows, HeldMask, TurboMask, Mirrors, AnyTurbo, EmitFirst, SentPorts;
    FollowsItself(h.app);
    if h.timer { EmitFirstFollows(h.(phase := !h.phase), |h.pads|, true); }
  }

  lemma ConnectFollows(h: Hub, d: Device, r: Reading)
    requires Inv(h)
    ensures var g := AfterConnect(h, d, r);
      g.app.Valid() && Follows(h.app, g.app, if Accepts(h, d) then {PreferredPort(h.pads, h.saved, d)} else {})
  {
    hide Follows, HeldMask, TurboMask, Mirrors, AnyTurbo, SortByPort, Rows, Persisted, Reevaluated, PreferredPort;
    FollowsItself(h.app);
    if Accepts(h, d) {
      ConnectShape(h, d, r);
      var pads := Joined(h, d, r);
      var k := h.(pads := pads, saved := Persisted(h.saved, pads), connected := SortByPort(Rows(pads)));
      ReevaluatedFollows(k, |h.pads|);
    }
  }

  lemma DisconnectFollows(h: Hub, id: int)
    requires Inv(h)
    ensures var g := AfterDisconnect(h, id); g.app.Valid() && Follows(h.app, g.app, {})
  {
    hide Follows, HeldMask, TurboMask, Mirrors, AnyTurbo, SortByPort, Rows, Settled;
    FollowsItself(h.app);
    var i := IndexOf(h.pads, id);
    if i < |h.pads| {
      var port := h.pads[i].port;
      var k := Removed(h, i);
      RemovedShape(h, i);
      PadMaskFollows(h.app, port, 0);
      SettledFollows(k);
      FollowsChains(h.app, k.app, Settled(k).app, {port}, {});
      FollowsLess(h.app, Settled(k).app, {port} + {}, {});
    }
  }

  lemma AssignFollows(h: Hub, id: int, port: int)
    requires Inv(h)
    ensures var i, g := IndexOf(h.pads, id), AfterAssign(h, id, port);
      g.app.Valid() && Follows(h.app, g.app, if i < |h.pads| && Reassigns(h, i, port) then Ports(g.pads) else {})
  {
    hide Follows, HeldMask, TurboMask, Mirrors, AnyTurbo, SortByPort, Rows, Persisted, EvaluateFirst, Rewired, Ports;
    FollowsItself(h.app);
    var i := IndexOf(h.pads, id);
    if i < |h.pads| && Reassigns(h, i, port) {
      RewiredShape(h, i, port);
      var k := Rewired(h, i, port);
      RewiredPads(h, i, port);
      RewiredFollows(h, i, port);
      EvaluateFirstFollows(k, |h.pads|);
      AllPortsSent(k.pads);
      EvaluateFirstFacts(k, |h.pads|);
      var g := EvaluateFirst(k, |h.pads|);
      FollowsChains(h.app, k.app, g.app, {}, Ports(k.pads));
      assert {} + Ports(k.pads) == Ports(g.pads);
    }
  }

  // ---- Joint runs ----

  lemma EventKeepsInput(h: Hub, ps: set<int>, e: JointEvent)
    requires Inv(h) && h.app.Agrees(ps)
    ensures Inv(JointStep(h, e)) && JointStep(h, e).app.Agrees(Pushed(h, ps, e))
  {
    match e
    case Pads(p) =>
      EventKeeps(h, p);
      PadEventFollows(h, p);
      hide Inv, Apply, Resent, FanIn.AgreesAt;
    case Touch(mask) =>
      AppEventKeeps(h, h.app.TouchMask(mask));
      TouchAgrees(h.app, ps, mask);
    case Open => AppEventKeeps(h, h.app.OpenGame());
    case Close => AppEventKeeps(h, h.app.CloseGame());
  }

  lemma TouchAgrees(f: FanIn, ps: set<int>, mask: Mask)
    requires f.Valid() && f.Agrees(ps)
    ensures f.TouchMask(mask).Valid() && f.TouchMask(mask).Agrees(ps + {0})
  {
    var g := f.TouchMask(mask);
    forall p | 0 <= p < MAX_PLAYERS && p in ps + {0} ensures g.AgreesAt(p) {
      assert p != 0 ==> f.AgreesAt(p) && g.Merged(p) == f.Merged(p);
    }
  }

  /** The manager's invariant does not depend on the touch mask or the core. */
  lemma AppEventKeeps(h: Hub, app: FanIn)
    requires Inv(h) && app.Valid() && app.pads == h.app.pads
    ensures Inv(h.(app := app))
  {
    hide HeldMask, TurboMask, Mirrors, AnyTurbo;
    var g := h.(app := app);
    forall i | 0 <= i < |g.pads| ensures Evaluated(g, i) && Sent(g, i) {
      assert Evaluated(h, i) && Sent(h, i);
    }
  }

  ghost function JointRun(h: Hub, es: seq<JointEvent>): (g: Hub)
    requires Inv(h)
    ensures Inv(g)
    decreases |es|
  {
    if es == [] then h
    else
      EventKeepsInput(h, {}, es[0]);
      JointRun(JointStep(h, es[0]), es[1..])
  }

  /** The ports pushed since the last game opened, given those already pushed. */
  ghost function PushedSince(h: Hub, ps: set<int>, es: seq<JointEvent>): set<int>
    requires Inv(h)
    decreases |es|
  {
    if es == [] then ps
    else
      EventKeepsInput(h, {}, es[0]);
      PushedSince(JointStep(h, es[0]), Pushed(h, ps, es[0]), es[1..])
  }

  lemma {:induction false} InputKeeps(h: Hub, ps: set<int>, es: seq<JointEvent>)
    requires Inv(h) && h.app.Agrees(ps)
    ensures JointRun(h, es).app.Agrees(PushedSince(h, ps, es))
    decreases |es|
  {
    hide Inv, JointStep, Pushed, FanIn.Agrees;
    if es != [] {
      EventKeepsInput(h, ps, es[0]);
      InputKeeps(JointStep(h, es[0]), Pushed(h, ps, es[0]), es[1..]);
    }
  }

  /** End to end: on every joint run of pads, touches and games, the running core carries, on every
      port a pad owns and that was pushed since the game opened, that pad's held buttons with its
      turbo buttons on the on-phase, and on the first port the touched buttons as well. */
  lemma CoreCarriesThePads(h: Hub, ps: set<int>, es: seq<JointEvent>, i: nat)
    requires Inv(h) && h.app.Agrees(ps) && i < |JointRun(h, es).pads|
    ensures var g := JointRun(h, es);
      var pad := g.pads[i];
      var mask := pad.Effective(g.phase);
      && InRange(pad.port)
      && pad.held == HeldMask(g.remap, pad.reading) && pad.turbo == TurboMask(g.remap, pad.reading)
      && (g.app.core.Some? && pad.port in PushedSince(h, ps, es) ==>
            g.app.core.value[pad.port] == if pad.port == 0 then g.app.touch | mask else mask)
  {
    hide HeldMask, TurboMask, Mirrors, AnyTurbo, PushedSince, JointRun;
    InputKeeps(h, ps, es);
    var g := JointRun(h, es);
    assert Evaluated(g, i) && Sent(g, i);
    if pad :| pad == g.pads[i] && pad.port in PushedSince(h, ps, es) {
      assert g.app.AgreesAt(pad.port);
    }
  }
}
