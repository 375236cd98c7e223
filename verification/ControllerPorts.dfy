/** The hardware-pad manager: up to four pads bound to the NES ports 0..3, a persisted memory of
    the port each pad model used last, a user remap with turbo targets, and one shared timer
    that pulses every turbo button. Masks go out through the app model's fan-in. */
module ControllerPorts {
  import opened Common
  import opened NesButtons
  import opened InputFanIn

  // ---- Remap ----

  datatype PhysicalButton =
    | South | East | West | North
    | L1 | R1 | L2 | R2
    | Menu | Options
    | DpadUp | DpadDown | DpadLeft | DpadRight

  const ALL_PHYSICAL: seq<PhysicalButton> :=
    [South, East, West, North, L1, R1, L2, R2, Menu, Options, DpadUp, DpadDown, DpadLeft, DpadRight]

  /** What a physical button drives: a NES button, its auto-fire variant, or nothing. */
  datatype ControllerInput = Plain(button: NesButton) | TurboA | TurboB | Unmapped

  type ButtonRemap = map<PhysicalButton, ControllerInput>

  function Target(remap: ButtonRemap, p: PhysicalButton): ControllerInput {
    if p in remap then remap[p] else Unmapped
  }

  /** A live reading of the extended profile: the pressed buttons and the left stick. */
  datatype Reading = Reading(pressed: set<PhysicalButton>, x: real, y: real)

  predicate StickDrives(r: Reading, b: NesButton) {
    match b
    case Up => r.y > 0.5
    case Down => r.y < -0.5
    case Left => r.x < -0.5
    case Right => r.x > 0.5
    case _ => false
  }

  function TurboTarget(b: NesButton): ControllerInput {
    match b
    case A => TurboA
    case B => TurboB
    case _ => Unmapped
  }

  /** A NES button is held exactly when some pressed button is mapped to it or the stick leans
      its way; it is on turbo exactly when some pressed button is mapped to its turbo. */
  ghost predicate Held(remap: ButtonRemap, r: Reading, b: NesButton) {
    (exists p :: p in r.pressed && Target(remap, p) == Plain(b)) || StickDrives(r, b)
  }

  ghost predicate OnTurbo(remap: ButtonRemap, r: Reading, b: NesButton) {
    b in {A, B} && exists p :: p in r.pressed && Target(remap, p) == TurboTarget(b)
  }

  ghost function HeldMask(remap: ButtonRemap, r: Reading): Mask {
    MaskOf(b => Held(remap, r, b))
  }

  ghost function TurboMask(remap: ButtonRemap, r: Reading): Mask {
    MaskOf(b => OnTurbo(remap, r, b))
  }

  // ---- State ----

  /** A controller: its identity, its model name if it reports one, and whether it has the
      extended profile. */
  datatype Device = Device(id: int, name: Option<string>, extended: bool)

  datatype Pad = Pad(device: Device, reading: Reading, port: int, held: Mask, turbo: Mask) {
    function Effective(phase: bool): Mask {
      if phase then held | turbo else held
    }
  }

  /** A row of the settings list. */
  datatype Row = Row(id: int, name: Option<string>, port: int)

  function RowOf(p: Pad): Row {
    Row(p.device.id, p.device.name, p.port)
  }

  datatype Hub = Hub(pads: seq<Pad>, saved: map<string, int>, remap: ButtonRemap,
                     timer: bool, phase: bool, connected: seq<Row>, app: FanIn)

  predicate InRange(port: int) {
    0 <= port < MAX_PLAYERS
  }

  function Ports(pads: seq<Pad>): set<int> {
    set i | 0 <= i < |pads| :: pads[i].port
  }

  ghost predicate AnyTurbo(pads: seq<Pad>) {
    exists i :: 0 <= i < |pads| && pads[i].turbo != 0
  }

  /** What every event keeps, up to the masks sent: at most four pads, distinct pads on distinct
      ports in 0..3, and the timer only while something is on turbo. */
  ghost predicate Shape(h: Hub) {
    && |h.pads| <= MAX_PLAYERS
    && (forall i :: 0 <= i < |h.pads| ==> h.pads[i].device.extended && InRange(h.pads[i].port))
    && (forall i, j :: 0 <= i < j < |h.pads| ==>
          h.pads[i].device.id != h.pads[j].device.id && h.pads[i].port != h.pads[j].port)
    && (!h.timer ==> !h.phase)
    && h.app.Valid()
  }

  ghost predicate TimerFits(h: Hub) {
    h.timer <==> AnyTurbo(h.pads)
  }

  /** Pad `i`'s masks mean its live reading under the current remap. */
  ghost predicate Evaluated(h: Hub, i: int)
    requires 0 <= i < |h.pads|
  {
    && h.pads[i].held == HeldMask(h.remap, h.pads[i].reading)
    && h.pads[i].turbo == TurboMask(h.remap, h.pads[i].reading)
  }

  /** The last mask sent to pad `i`'s port is its held buttons, with turbo on the on-phase. */
  ghost predicate Sent(h: Hub, i: int)
    requires Shape(h) && 0 <= i < |h.pads|
  {
    h.app.pads[h.pads[i].port] == h.pads[i].Effective(h.phase)
  }

  /** The settings list shows exactly the managed pads, in port order. */
  ghost predicate Mirrors(rows: seq<Row>, pads: seq<Pad>) {
    && multiset(rows) == multiset(Rows(pads))
    && forall i, j :: 0 <= i < j < |rows| ==> rows[i].port <= rows[j].port
  }

  function Rows(pads: seq<Pad>): seq<Row> {
    seq(|pads|, i requires 0 <= i < |pads| => RowOf(pads[i]))
  }

  ghost predicate SavedNonNegative(h: Hub) {
    forall n :: n in h.saved ==> h.saved[n] >= 0
  }

  /** The timer fits, and every pad's masks are those of its reading and have been sent. */
  ghost predicate Current(h: Hub) {
    Shape(h) && TimerFits(h) && forall i :: 0 <= i < |h.pads| ==> Evaluated(h, i) && Sent(h, i)
  }

  ghost predicate Inv(h: Hub) {
    Current(h) && Mirrors(h.connected, h.pads) && SavedNonNegative(h)
  }

  /** The last masks sent are the same except on `ports`. */
  ghost predicate KeepsMasks(f: FanIn, g: FanIn, ports: set<int>) {
    f.Valid() && g.Valid() && forall p :: 0 <= p < MAX_PLAYERS && p !in ports ==> g.pads[p] == f.pads[p]
  }

  /** Every port no pad owns carries an empty mask. */
  ghost predicate IdlePortsReleased(h: Hub) {
    h.app.Valid() && forall p :: 0 <= p < MAX_PLAYERS && p !in Ports(h.pads) ==> h.app.pads[p] == 0
  }

  // ---- State functions ----

  /** The lowest port in `lo..3` that is not used, or 0. */
  function LowestFree(used: set<int>, lo: int): int
    requires 0 <= lo <= MAX_PLAYERS
    decreases MAX_PLAYERS - lo
  {
    if lo == MAX_PLAYERS then 0 else if lo !in used then lo else LowestFree(used, lo + 1)
  }

  function PreferredPort(pads: seq<Pad>, saved: map<string, int>, d: Device): int {
    var used := Ports(pads);
    if d.name.Some? && d.name.value in saved && saved[d.name.value] !in used && saved[d.name.value] < MAX_PLAYERS
    then saved[d.name.value]
    else LowestFree(used, 0)
  }

  /** The port memory after writing every managed pad's port under its name. */
  function Persisted(saved: map<string, int>, pads: seq<Pad>): map<string, int> {
    if pads == [] then saved
    else
      var earlier := Persisted(saved, pads[..|pads| - 1]);
      var last := pads[|pads| - 1];
      if last.device.name.Some? then earlier[last.device.name.value := last.port] else earlier
  }

  function InsertByPort(r: Row, rows: seq<Row>): seq<Row> {
    if rows == [] || r.port < rows[0].port then [r] + rows else [rows[0]] + InsertByPort(r, rows[1..])
  }

  function SortByPort(rows: seq<Row>): seq<Row> {
    if rows == [] then [] else InsertByPort(rows[|rows| - 1], SortByPort(rows[..|rows| - 1]))
  }

  function Release(h: Hub, port: int): Hub
    requires h.app.Valid() && port >= 0
  {
    h.(app := h.app.PadMask(port, 0))
  }

  function Emitted(h: Hub, i: nat): Hub
    requires h.app.Valid() && i < |h.pads| && h.pads[i].port >= 0
  {
    h.(app := h.app.PadMask(h.pads[i].port, h.pads[i].Effective(h.phase)))
  }

  /** Emits the first `n` pads in order; with `turboOnly`, only those on turbo. */
  function EmitFirst(h: Hub, n: nat, turboOnly: bool): (g: Hub)
    requires Shape(h) && n <= |h.pads|
    ensures g == h.(app := g.app) && g.app.Valid()
  {
    if n == 0 then h
    else
      var g := EmitFirst(h, n - 1, turboOnly);
      if turboOnly && h.pads[n - 1].turbo == 0 then g else Emitted(g, n - 1)
  }

  ghost function Settled(h: Hub): Hub
    requires Shape(h)
  {
    if AnyTurbo(h.pads) then h.(timer := true)
    else if h.timer then EmitFirst(h.(timer := false, phase := false), |h.pads|, false)
    else h
  }

  ghost function Reevaluated(h: Hub, i: nat): Hub
    requires Shape(h) && i < |h.pads|
  {
    if !h.pads[i].device.extended then h
    else
      var r := h.pads[i].reading;
      var pad := h.pads[i].(held := HeldMask(h.remap, r), turbo := TurboMask(h.remap, r));
      MasksKeepShape(h, i, pad.held, pad.turbo);
      EmitOne(h.(pads := h.pads[i := pad]), i);
      hide Shape, Emitted, HeldMask, TurboMask;
      Settled(Emitted(h.(pads := h.pads[i := pad]), i))
  }

  ghost function EvaluateFirst(h: Hub, n: nat): (g: Hub)
    requires Shape(h) && n <= |h.pads|
    ensures Shape(g) && |g.pads| == |h.pads|
  {
    hide HeldMask, TurboMask, AnyTurbo, Settled, Evaluated, Sent, TimerFits, Ports, KeepsMasks;
    if n == 0 then h
    else
      var g := EvaluateFirst(h, n - 1);
      EvaluateFacts(g, n - 1);
      hide Shape, Reevaluated;
      Reevaluated(g, n - 1)
  }

  function IndexOf(pads: seq<Pad>, id: int): (i: nat)
    ensures i <= |pads|
    ensures i < |pads| ==> pads[i].device.id == id
    ensures forall j :: 0 <= j < i ==> pads[j].device.id != id
  {
    if pads == [] then 0 else if pads[0].device.id == id then 0 else 1 + IndexOf(pads[1..], id)
  }

  function OwnerOf(pads: seq<Pad>, port: int, except: int): (i: nat)
    ensures i <= |pads|
    ensures i < |pads| ==> pads[i].port == port && pads[i].device.id != except
    ensures forall j :: 0 <= j < i ==> !(pads[j].port == port && pads[j].device.id != except)
  {
    if pads == [] then 0
    else if pads[0].port == port && pads[0].device.id != except then 0
    else 1 + OwnerOf(pads[1..], port, except)
  }

  ghost predicate Accepts(h: Hub, d: Device) {
    |h.pads| < MAX_PLAYERS && IndexOf(h.pads, d.id) == |h.pads| && d.extended
  }

  /** The pads once the controller is bound to its preferred port, before it is evaluated. */
  function Joined(h: Hub, d: Device, r: Reading): seq<Pad> {
    h.pads + [Pad(d, r, PreferredPort(h.pads, h.saved, d), 0, 0)]
  }

  ghost function AfterConnect(h: Hub, d: Device, r: Reading): Hub
    requires Inv(h)
  {
    if !Accepts(h, d) then h
    else
      ConnectShape(h, d, r);
      var pads := Joined(h, d, r);
      Reevaluated(h.(pads := pads, saved := Persisted(h.saved, pads), connected := SortByPort(Rows(pads))), |h.pads|)
  }

  function Without(pads: seq<Pad>, i: nat): (r: seq<Pad>)
    requires i < |pads|
    ensures |r| == |pads| - 1 && forall j :: 0 <= j < |r| ==> r[j] == pads[if j < i then j else j + 1]
  {
    pads[..i] + pads[i + 1..]
  }

  /** The hub between a removal and the settling of the timer: the port is released. */
  function Removed(h: Hub, i: nat): Hub
    requires h.app.Valid() && i < |h.pads| && h.pads[i].port >= 0
  {
    var pads := Without(h.pads, i);
    Release(h, h.pads[i].port).(pads := pads, connected := SortByPort(Rows(pads)))
  }

  ghost function AfterDisconnect(h: Hub, id: int): Hub
    requires Inv(h)
  {
    var i := IndexOf(h.pads, id);
    if i == |h.pads| then h
    else
      Settled(Removed(h, i))
  }

  /** The hub of a reassignment after the ports have been rewritten and released, before the
      pads are evaluated again. */
  function Rewired(h: Hub, i: nat, port: int): Hub
    requires h.app.Valid() && i < |h.pads| && h.pads[i].port >= 0 && port >= 0
  {
    var previous := h.pads[i].port;
    var o := OwnerOf(h.pads, port, h.pads[i].device.id);
    var g := if o < |h.pads|
             then Release(h, previous).(pads := h.pads[o := h.pads[o].(port := previous)])
             else h;
    Release(g, port).(pads := g.pads[i := g.pads[i].(port := port)])
  }

  ghost function AfterAssign(h: Hub, id: int, port: int): Hub
    requires Inv(h)
  {
    var i := IndexOf(h.pads, id);
    if !InRange(port) || i == |h.pads| || h.pads[i].port == port then h
    else
      RewiredShape(h, i, port);
      var g := EvaluateFirst(Rewired(h, i, port), |h.pads|);
      g.(connected := SortByPort(Rows(g.pads)), saved := Persisted(g.saved, g.pads))
  }

  ghost function AfterInput(h: Hub, id: int, r: Reading): Hub
    requires Inv(h)
  {
    var i := IndexOf(h.pads, id);
    if i == |h.pads| then h else Reevaluated(h.(pads := h.pads[i := h.pads[i].(reading := r)]), i)
  }

  ghost function AfterRemap(h: Hub, remap: ButtonRemap): Hub
    requires Inv(h)
  {
    EvaluateFirst(h.(remap := remap), |h.pads|)
  }

  function TimerFired(h: Hub): Hub
    requires Shape(h)
  {
    if !h.timer then h else EmitFirst(h.(phase := !h.phase), |h.pads|, true)
  }

  datatype Event =
    | Connected(device: Device, reading: Reading)
    | Disconnected(id: int)
    | Assigned(id: int, port: int)
    | Changed(id: int, reading: Reading)
    | Remapped(remap: ButtonRemap)
    | TimerFires

  ghost function Apply(h: Hub, e: Event): Hub
    requires Inv(h)
  {
    match e
    case Connected(d, r) => AfterConnect(h, d, r)
    case Disconnected(id) => AfterDisconnect(h, id)
    case Assigned(id, port) => AfterAssign(h, id, port)
    case Changed(id, r) => AfterInput(h, id, r)
    case Remapped(remap) => AfterRemap(h, remap)
    case TimerFires => TimerFired(h)
  }

  // ---- What the steps do ----

  /** Emitting the first `n` pads sets their ports and no other. */
  lemma MasksKeepShape(h: Hub, i: nat, held: Mask, turbo: Mask)
    requires Shape(h) && i < |h.pads|
    ensures Shape(h.(pads := h.pads[i := h.pads[i].(held := held, turbo := turbo)]))
  {
  }

  lemma OwnPort(pads: seq<Pad>, i: nat)
    requires i < |pads|
    ensures pads[i].port in Ports(pads)
  {
  }

  lemma EmittedMasks(h: Hub, i: nat)
    requires Shape(h) && i < |h.pads|
    ensures Emitted(h, i).app.pads == h.app.pads[h.pads[i].port := h.pads[i].Effective(h.phase)]
  {
  }

  lemma {:induction false} EmitFirstFacts(h: Hub, n: nat, turboOnly: bool)
    requires Shape(h) && n <= |h.pads|
    ensures var g := EmitFirst(h, n, turboOnly);
      && (forall i :: 0 <= i < |h.pads| ==>
            g.app.pads[h.pads[i].port] ==
              if i < n && !(turboOnly && h.pads[i].turbo == 0) then h.pads[i].Effective(h.phase)
              else h.app.pads[h.pads[i].port])
      && (forall p :: 0 <= p < MAX_PLAYERS && p !in Ports(h.pads) ==> g.app.pads[p] == h.app.pads[p])
    decreases n
  {
    hide Emitted, Pad.Effective, Ports;
    if n > 0 {
      var before, port := EmitFirst(h, n - 1, turboOnly), h.pads[n - 1].port;
      EmitFirstFacts(h, n - 1, turboOnly);
      OwnPort(h.pads, n - 1);
      EmittedMasks(before, n - 1);
      var g := EmitFirst(h, n, turboOnly);
      assert g.app.pads == before.app.pads
             || g.app.pads == before.app.pads[port := h.pads[n - 1].Effective(h.phase)];
    }
  }

  lemma SettledFacts(h: Hub)
    requires Shape(h)
    ensures var g := Settled(h);
      && Shape(g) && TimerFits(g)
      && g == h.(timer := g.timer, phase := g.phase, app := g.app)
      && (forall i :: 0 <= i < |h.pads| && Sent(h, i) ==> Sent(g, i))
      && KeepsMasks(h.app, g.app, Ports(h.pads))
  {
    hide Ports, EmitFirst, AnyTurbo;
    if !AnyTurbo(h.pads) && h.timer {
      EmitFirstFacts(h.(timer := false, phase := false), |h.pads|, false);
    }
  }

  lemma EmitOne(h: Hub, i: nat)
    requires Shape(h) && i < |h.pads|
    ensures var e := Emitted(h, i);
      && Shape(e) && e == h.(app := e.app) && Sent(e, i)
      && (forall j :: 0 <= j < |h.pads| && j != i && Sent(h, j) ==> Sent(e, j))
      && KeepsMasks(h.app, e.app, Ports(h.pads))
  {
    EmittedMasks(h, i);
    OwnPort(h.pads, i);
    hide Emitted, Pad.Effective, Ports;
  }

  lemma EvaluateFacts(h: Hub, i: nat)
    requires Shape(h) && i < |h.pads|
    ensures var g := Reevaluated(h, i);
      && Shape(g) && TimerFits(g)
      && g == h.(pads := g.pads, timer := g.timer, phase := g.phase, app := g.app)
      && |g.pads| == |h.pads|
      && g.pads[i] == h.pads[i].(held := g.pads[i].held, turbo := g.pads[i].turbo)
      && (forall j :: 0 <= j < |h.pads| && j != i ==> g.pads[j] == h.pads[j])
      && Evaluated(g, i) && Sent(g, i)
      && (forall j :: 0 <= j < |h.pads| && Sent(h, j) ==> Sent(g, j))
      && KeepsMasks(h.app, g.app, Ports(h.pads))
  {
    hide HeldMask, TurboMask, Ports, AnyTurbo, Settled;
    var pad := h.pads[i].(held := HeldMask(h.remap, h.pads[i].reading), turbo := TurboMask(h.remap, h.pads[i].reading));
    var k := h.(pads := h.pads[i := pad]);
    EmitOne(k, i);
    var e := Emitted(k, i);
    SamePorts(h.pads, e.pads);
    hide Emitted;
    forall j | 0 <= j < |h.pads| && j != i && Sent(h, j) ensures Sent(e, j) {
      assert Sent(k, j);
    }
    SettledFacts(e);
  }

  /** Evaluating the first `n` pads refreshes and re-sends each of them and disturbs no other port. */
  lemma {:induction false} EvaluateFirstFacts(h: Hub, n: nat)
    requires Shape(h) && n <= |h.pads|
    ensures var g := EvaluateFirst(h, n);
      && g == h.(pads := g.pads, timer := g.timer, phase := g.phase, app := g.app)
      && (forall i :: 0 <= i < |h.pads| ==>
            g.pads[i] == h.pads[i].(held := g.pads[i].held, turbo := g.pads[i].turbo))
      && (forall i :: 0 <= i < n ==> Evaluated(g, i) && Sent(g, i))
      && (n > 0 ==> TimerFits(g))
      && Ports(g.pads) == Ports(h.pads) && KeepsMasks(h.app, g.app, Ports(h.pads))
    decreases n
  {
    hide HeldMask, TurboMask, Reevaluated, Ports, AnyTurbo;
    if n > 0 {
      EvaluateFirstFacts(h, n - 1);
      var f := EvaluateFirst(h, n - 1);
      EvaluateFacts(f, n - 1);
      var g := Reevaluated(f, n - 1);
      SamePorts(f.pads, g.pads);
      forall i | 0 <= i < n ensures Evaluated(g, i) && Sent(g, i) {
        if i < n - 1 {
          assert Evaluated(f, i) && Sent(f, i);
          assert g.pads[i] == f.pads[i];
        }
      }
    }
  }

  lemma SamePorts(a: seq<Pad>, b: seq<Pad>)
    requires |a| == |b| && forall i :: 0 <= i < |a| ==> a[i].port == b[i].port
    ensures Ports(a) == Ports(b)
  {
    forall p ensures p in Ports(a) <==> p in Ports(b) {
      if p in Ports(a) {
        var j :| 0 <= j < |a| && a[j].port == p;
        assert b[j].port == p;
      }
      if p in Ports(b) {
        var j :| 0 <= j < |b| && b[j].port == p;
        assert a[j].port == p;
      }
    }
  }

  lemma {:induction false} PortsSize(pads: seq<Pad>)
    ensures |Ports(pads)| <= |pads|
    decreases |pads|
  {
    if pads != [] {
      var init, last := pads[..|pads| - 1], pads[|pads| - 1].port;
      PortsSize(init);
      assert Ports(pads) == Ports(init) + {last} by {
        forall p | p in Ports(init) ensures p in Ports(pads) {
          var j :| 0 <= j < |init| && init[j].port == p;
          assert pads[j].port == p;
        }
      }
    }
  }

  /** Pigeonhole: with a slot left some port in 0..3 is free, and the lowest one is chosen. */
  lemma FreePortExists(pads: seq<Pad>)
    requires |pads| < MAX_PLAYERS
    ensures var p := LowestFree(Ports(pads), 0);
      && InRange(p) && p !in Ports(pads) && forall q :: 0 <= q < p ==> q in Ports(pads)
  {
    var used := Ports(pads);
    PortsSize(pads);
    if 0 in used && 1 in used && 2 in used && 3 in used {
      SubsetSize({0, 1, 2, 3}, used);
    }
    LowestFreeFacts(used, 0);
  }

  lemma {:induction false} LowestFreeFacts(used: set<int>, lo: int)
    requires 0 <= lo <= MAX_PLAYERS
    ensures var p := LowestFree(used, lo);
      (exists q :: lo <= q < MAX_PLAYERS && q !in used) ==>
        lo <= p < MAX_PLAYERS && p !in used && forall q :: lo <= q < p ==> q in used
    decreases MAX_PLAYERS - lo
  {
    if lo < MAX_PLAYERS && lo in used {
      LowestFreeFacts(used, lo + 1);
    }
  }

  /** With a slot left the preferred port is never in use, and it is in 0..3 exactly when the
      remembered port it would take is not negative: the range check has no lower bound. */
  lemma PreferredPortFacts(pads: seq<Pad>, saved: map<string, int>, d: Device)
    requires |pads| < MAX_PLAYERS
    requires forall i :: 0 <= i < |pads| ==> InRange(pads[i].port)
    ensures PreferredPort(pads, saved, d) !in Ports(pads)
    ensures InRange(PreferredPort(pads, saved, d)) <==>
      !(d.name.Some? && d.name.value in saved && saved[d.name.value] < 0)
  {
    FreePortExists(pads);
  }

  lemma ConnectShape(h: Hub, d: Device, r: Reading)
    requires Inv(h) && Accepts(h, d)
    ensures InRange(PreferredPort(h.pads, h.saved, d)) && PreferredPort(h.pads, h.saved, d) !in Ports(h.pads)
    ensures forall saved, rows :: Shape(h.(pads := Joined(h, d, r), saved := saved, connected := rows))
  {
    PreferredPortFacts(h.pads, h.saved, d);
    forall i | 0 <= i < |h.pads| ensures h.pads[i].port in Ports(h.pads) {
    }
  }

  lemma JoinedPorts(h: Hub, d: Device, r: Reading)
    ensures Ports(h.pads) <= Ports(Joined(h, d, r))
  {
    hide PreferredPort;
    var pads := Joined(h, d, r);
    forall p | p in Ports(h.pads) ensures p in Ports(pads) {
      var j :| 0 <= j < |h.pads| && h.pads[j].port == p;
      assert pads[j] == h.pads[j];
    }
  }

  /** What an accepted connection changes. */
  lemma ConnectFacts(h: Hub, d: Device, r: Reading)
    requires Inv(h) && Accepts(h, d)
    ensures var g := AfterConnect(h, d, r);
      && Current(g) && |g.pads| == |h.pads| + 1
      && g == h.(pads := g.pads, saved := Persisted(h.saved, Joined(h, d, r)),
                 connected := SortByPort(Rows(Joined(h, d, r))), timer := g.timer, phase := g.phase, app := g.app)
      && (forall i :: 0 <= i < |h.pads| ==> g.pads[i] == h.pads[i])
      && g.pads[|h.pads|].device == d && g.pads[|h.pads|].port == PreferredPort(h.pads, h.saved, d)
      && Ports(h.pads) <= Ports(g.pads) && KeepsMasks(h.app, g.app, Ports(g.pads))
  {
    hide HeldMask, TurboMask, Reevaluated, Mirrors, SavedNonNegative, Persisted, SortByPort, Rows,
         PreferredPort, AnyTurbo, Ports;
    ConnectShape(h, d, r);
    JoinedPorts(h, d, r);
    var pads := Joined(h, d, r);
    var k := h.(pads := pads, saved := Persisted(h.saved, pads), connected := SortByPort(Rows(pads)));
    var n := |h.pads|;
    EvaluateFacts(k, n);
    var g := Reevaluated(k, n);
    forall i | 0 <= i < n ensures Evaluated(g, i) && Sent(g, i) {
      assert Evaluated(h, i) && Sent(h, i);
      assert g.pads[i] == k.pads[i] == h.pads[i];
      assert Sent(k, i);
    }
    SamePorts(k.pads, g.pads);
  }

  lemma RemovedShape(h: Hub, i: nat)
    requires Shape(h) && i < |h.pads|
    ensures Shape(Removed(h, i)) && Removed(h, i).app.pads == h.app.pads[h.pads[i].port := 0]
  {
    hide SortByPort, Rows, AnyTurbo;
  }

  lemma RemovedFacts(h: Hub, i: nat)
    requires Shape(h) && i < |h.pads|
    ensures var k := Removed(h, i);
      && Shape(k) && k.app.pads[h.pads[i].port] == 0 && h.pads[i].port !in Ports(k.pads)
      && (forall j :: 0 <= j < |k.pads| && Sent(h, if j < i then j else j + 1) ==> Sent(k, j))
      && Ports(h.pads) == Ports(k.pads) + {h.pads[i].port}
      && KeepsMasks(h.app, k.app, {h.pads[i].port})
  {
    RemovedShape(h, i);
    var k := Removed(h, i);
    assert k.pads == Without(h.pads, i) && k.phase == h.phase;
    hide SortByPort, Rows, AnyTurbo, Removed, Without;
    RemovedPorts(h.pads, k.pads, i);
    hide Ports;
  }

  lemma RemovedPorts(pads: seq<Pad>, less: seq<Pad>, i: nat)
    requires i < |pads| && |less| == |pads| - 1
    requires forall j :: 0 <= j < |less| ==> less[j] == pads[if j < i then j else j + 1]
    ensures Ports(pads) == Ports(less) + {pads[i].port}
    ensures (forall j :: 0 <= j < |pads| && j != i ==> pads[j].port != pads[i].port) ==> pads[i].port !in Ports(less)
  {
    forall p | p in Ports(pads) && p != pads[i].port ensures p in Ports(less) {
      var o :| 0 <= o < |pads| && pads[o].port == p;
      assert less[if o < i then o else o - 1].port == p;
    }
    forall p | p in Ports(less) ensures p in Ports(pads) {
      var j :| 0 <= j < |less| && less[j].port == p;
      assert pads[if j < i then j else j + 1].port == p;
    }
    assert pads[i].port in Ports(pads);
  }

  /** What removing a managed pad changes. */
  lemma DisconnectFacts(h: Hub, i: nat)
    requires Inv(h) && i < |h.pads| && IndexOf(h.pads, h.pads[i].device.id) == i
    ensures var g := AfterDisconnect(h, h.pads[i].device.id);
      && Current(g)
      && g == h.(pads := Without(h.pads, i), connected := SortByPort(Rows(Without(h.pads, i))),
                 timer := g.timer, phase := g.phase, app := g.app)
      && g.app.pads[h.pads[i].port] == 0
      && Ports(h.pads) == Ports(g.pads) + {h.pads[i].port}
      && KeepsMasks(h.app, g.app, Ports(g.pads) + {h.pads[i].port})
  {
    hide HeldMask, TurboMask, Mirrors, SavedNonNegative, SortByPort, Rows, AnyTurbo, Settled, Ports;
    var k := Removed(h, i);
    RemovedFacts(h, i);
    SettledFacts(k);
    var g := Settled(k);
    forall j | 0 <= j < |k.pads| ensures Evaluated(g, j) && Sent(g, j) {
      var o := if j < i then j else j + 1;
      assert Evaluated(h, o) && Sent(h, o);
      assert Sent(k, j);
    }
  }

  lemma OwnerFacts(h: Hub, i: nat, port: int)
    requires Shape(h) && i < |h.pads| && h.pads[i].port != port
    ensures var o := OwnerOf(h.pads, port, h.pads[i].device.id); o != i && (o < |h.pads| <==> port in Ports(h.pads))
  {
    if port in Ports(h.pads) {
      var j :| 0 <= j < |h.pads| && h.pads[j].port == port;
      assert h.pads[j].device.id != h.pads[i].device.id;
    }
  }

  /** Rewriting the ports of a reassignment: a swap when the target port is owned, else a move. */
  lemma RewiredPads(h: Hub, i: nat, port: int)
    requires Shape(h) && i < |h.pads| && InRange(port) && h.pads[i].port != port
    ensures var g := Rewired(h, i, port);
      var o := OwnerOf(h.pads, port, h.pads[i].device.id);
      && |g.pads| == |h.pads| && g == h.(pads := g.pads, app := g.app) && g.app.Valid()
      && o != i && (o < |h.pads| <==> port in Ports(h.pads))
      && (forall j :: 0 <= j < |h.pads| ==>
            g.pads[j] == h.pads[j].(port := if j == i then port else if j == o then h.pads[i].port else h.pads[j].port))
      && KeepsMasks(h.app, g.app, if o < |h.pads| then {port, h.pads[i].port} else {port})
  {
    hide OwnerOf, Ports;
    OwnerFacts(h, i, port);
  }

  lemma RewiredShape(h: Hub, i: nat, port: int)
    requires Shape(h) && i < |h.pads| && InRange(port) && h.pads[i].port != port
    ensures Shape(Rewired(h, i, port))
  {
    hide Rewired, Ports;
    RewiredPads(h, i, port);
    var g := Rewired(h, i, port);
    var o := OwnerOf(h.pads, port, h.pads[i].device.id);
    if o == |h.pads| {
      forall j | 0 <= j < |h.pads| && j != i ensures g.pads[j].port != port {
        assert h.pads[j].device.id != h.pads[i].device.id;
      }
    }
  }

  /** A swap keeps the set of owned ports; a move trades the old port for the new one. */
  lemma RewiredPorts(h: Hub, i: nat, port: int)
    requires Shape(h) && i < |h.pads| && InRange(port) && h.pads[i].port != port
    ensures var g := Rewired(h, i, port);
      && |g.pads| == |h.pads| && g == h.(pads := g.pads, app := g.app) && g.app.Valid()
      && Ports(g.pads) == (if port in Ports(h.pads) then Ports(h.pads) else Ports(h.pads) - {h.pads[i].port} + {port})
      && KeepsMasks(h.app, g.app, Ports(g.pads))
  {
    hide Rewired;
    RewiredPads(h, i, port);
    var g := Rewired(h, i, port);
    var o := OwnerOf(h.pads, port, h.pads[i].device.id);
    var previous := h.pads[i].port;
    var expected := if port in Ports(h.pads) then Ports(h.pads) else Ports(h.pads) - {previous} + {port};
    assert (if o < |h.pads| then {port, previous} else {port}) <= expected by { OwnPort(h.pads, i); }
    assert expected == Ports(g.pads) by { RewiredPortSet(h, g, i, o, port); }
    hide Ports;
  }

  lemma RewiredPortSet(h: Hub, g: Hub, i: nat, o: nat, port: int)
    requires Shape(h) && i < |h.pads| && h.pads[i].port != port && o != i && (o < |h.pads| <==> port in Ports(h.pads))
    requires o < |h.pads| ==> h.pads[o].port == port
    requires |g.pads| == |h.pads| && forall j :: 0 <= j < |h.pads| ==>
      g.pads[j].port == if j == i then port else if j == o then h.pads[i].port else h.pads[j].port
    ensures Ports(g.pads) == if port in Ports(h.pads) then Ports(h.pads) else Ports(h.pads) - {h.pads[i].port} + {port}
  {
    var previous := h.pads[i].port;
    var expected := if port in Ports(h.pads) then Ports(h.pads) else Ports(h.pads) - {previous} + {port};
    forall p | p in Ports(g.pads) ensures p in expected {
      var j :| 0 <= j < |g.pads| && g.pads[j].port == p;
      assert h.pads[j].port in Ports(h.pads) && h.pads[i].port in Ports(h.pads);
    }
    forall p | p in expected ensures p in Ports(g.pads) {
      if p == port {
        assert g.pads[i].port == p;
      } else if p == previous {
        assert g.pads[o].port == p;
      } else {
        var j :| 0 <= j < |h.pads| && h.pads[j].port == p;
        assert g.pads[j].port == p;
      }
    }
    assert Ports(g.pads) == expected;
  }

  ghost predicate Reassigns(h: Hub, i: nat, port: int) {
    i < |h.pads| && IndexOf(h.pads, h.pads[i].device.id) == i && InRange(port) && h.pads[i].port != port
  }

  /** What an effective reassignment changes. */
  lemma AssignFacts(h: Hub, i: nat, port: int)
    requires Inv(h) && Reassigns(h, i, port)
    ensures var g := AfterAssign(h, h.pads[i].device.id, port);
      var o := OwnerOf(h.pads, port, h.pads[i].device.id);
      && Current(g) && |g.pads| == |h.pads|
      && g == h.(pads := g.pads, saved := Persisted(h.saved, g.pads), connected := SortByPort(Rows(g.pads)),
                 timer := g.timer, phase := g.phase, app := g.app)
      && (forall j :: 0 <= j < |h.pads| ==>
            g.pads[j].device == h.pads[j].device && g.pads[j].reading == h.pads[j].reading)
      && (forall j :: 0 <= j < |h.pads| ==>
            g.pads[j].port == if j == i then port else if j == o then h.pads[i].port else h.pads[j].port)
      && Ports(g.pads) == (if port in Ports(h.pads) then Ports(h.pads) else Ports(h.pads) - {h.pads[i].port} + {port})
      && KeepsMasks(h.app, g.app, Ports(g.pads))
  {
    hide HeldMask, TurboMask, Mirrors, SavedNonNegative, Persisted, SortByPort, Rows, AnyTurbo, EvaluateFirst,
         Rewired, Ports;
    RewiredShape(h, i, port);
    RewiredPorts(h, i, port);
    RewiredPads(h, i, port);
    var k := Rewired(h, i, port);
    EvaluateFirstFacts(k, |h.pads|);
    var f := EvaluateFirst(k, |h.pads|);
    var g := AfterAssign(h, h.pads[i].device.id, port);
    assert g == f.(connected := SortByPort(Rows(f.pads)), saved := Persisted(f.saved, f.pads));
    forall j | 0 <= j < |g.pads| ensures Evaluated(g, j) && Sent(g, j) {
      assert Evaluated(f, j) && Sent(f, j);
    }
  }

  lemma {:induction false} InsertPermutes(r: Row, rows: seq<Row>)
    ensures multiset(InsertByPort(r, rows)) == multiset(rows) + multiset{r}
    decreases |rows|
  {
    if rows != [] {
      InsertPermutes(r, rows[1..]);
      assert rows == [rows[0]] + rows[1..];
    }
  }

  lemma {:induction false} InsertFacts(r: Row, rows: seq<Row>)
    requires forall i, j :: 0 <= i < j < |rows| ==> rows[i].port <= rows[j].port
    ensures var s := InsertByPort(r, rows);
      && multiset(s) == multiset(rows) + multiset{r}
      && (forall i, j :: 0 <= i < j < |s| ==> s[i].port <= s[j].port)
    decreases |rows|
  {
    InsertPermutes(r, rows);
    if rows != [] && !(r.port < rows[0].port) {
      InsertFacts(r, rows[1..]);
      InsertPermutes(r, rows[1..]);
      var t := InsertByPort(r, rows[1..]);
      forall j | 0 <= j < |t| ensures rows[0].port <= t[j].port {
        assert t[j] in multiset(t);
        assert t[j] in multiset(rows[1..]) || t[j] == r;
        assert t[j] in rows[1..] || t[j] == r;
      }
    }
  }

  lemma {:induction false} SortFacts(rows: seq<Row>)
    ensures var s := SortByPort(rows);
      multiset(s) == multiset(rows) && forall i, j :: 0 <= i < j < |s| ==> s[i].port <= s[j].port
    decreases |rows|
  {
    hide InsertByPort;
    if rows != [] {
      SortFacts(rows[..|rows| - 1]);
      InsertFacts(rows[|rows| - 1], SortByPort(rows[..|rows| - 1]));
      assert rows == rows[..|rows| - 1] + [rows[|rows| - 1]];
    }
  }

  lemma {:induction false} PersistedOthers(saved: map<string, int>, pads: seq<Pad>, n: string)
    requires forall i :: 0 <= i < |pads| ==> pads[i].device.name != Some(n)
    ensures var m := Persisted(saved, pads); (n in m <==> n in saved) && (n in saved ==> m[n] == saved[n])
    decreases |pads|
  {
    if pads != [] {
      assert pads[|pads| - 1].device.name != Some(n);
      PersistedOthers(saved, pads[..|pads| - 1], n);
    }
  }

  lemma {:induction false} PersistedSource(saved: map<string, int>, pads: seq<Pad>, n: string)
    requires var m := Persisted(saved, pads); n in m && !(n in saved && m[n] == saved[n])
    ensures exists i :: 0 <= i < |pads| && pads[i].device.name == Some(n) && Persisted(saved, pads)[n] == pads[i].port
    decreases |pads|
  {
    var init := pads[..|pads| - 1];
    if pads[|pads| - 1].device.name != Some(n) {
      PersistedSource(saved, init, n);
      var i :| 0 <= i < |init| && init[i].device.name == Some(n) && Persisted(saved, init)[n] == init[i].port;
      assert pads[i] == init[i];
    }
  }

  lemma {:induction false} PersistedNamed(saved: map<string, int>, pads: seq<Pad>, i: nat)
    requires i < |pads| && pads[i].device.name.Some?
    ensures pads[i].device.name.value in Persisted(saved, pads)
    ensures (forall j :: 0 <= j < |pads| && j != i ==> pads[j].device.name != pads[i].device.name) ==>
      Persisted(saved, pads)[pads[i].device.name.value] == pads[i].port
    decreases |pads|
  {
    var init := pads[..|pads| - 1];
    if i < |init| {
      PersistedNamed(saved, init, i);
      assert init[i] == pads[i];
      if forall j :: 0 <= j < |pads| && j != i ==> pads[j].device.name != pads[i].device.name {
        assert pads[|pads| - 1].device.name != pads[i].device.name;
        assert forall j :: 0 <= j < |init| && j != i ==> init[j].device.name != init[i].device.name;
      }
    }
  }

  /** Writing the ports out keeps every other name, gives each name the port of a pad that bears
      it, and each unique name exactly its pad's port. */
  lemma PersistedFacts(saved: map<string, int>, pads: seq<Pad>)
    ensures var m := Persisted(saved, pads);
      && (forall n :: (forall i :: 0 <= i < |pads| ==> pads[i].device.name != Some(n)) ==>
            (n in m <==> n in saved) && (n in saved ==> m[n] == saved[n]))
      && (forall i :: 0 <= i < |pads| && pads[i].device.name.Some? ==> pads[i].device.name.value in m)
      && (forall n :: n in m && !(n in saved && m[n] == saved[n]) ==>
            exists i :: 0 <= i < |pads| && pads[i].device.name == Some(n) && m[n] == pads[i].port)
      && (forall i :: 0 <= i < |pads| && pads[i].device.name.Some?
            && (forall j :: 0 <= j < |pads| && j != i ==> pads[j].device.name != pads[i].device.name)
            ==> m[pads[i].device.name.value] == pads[i].port)
  {
    hide Persisted;
    var m := Persisted(saved, pads);
    forall n | forall i :: 0 <= i < |pads| ==> pads[i].device.name != Some(n)
      ensures (n in m <==> n in saved) && (n in saved ==> m[n] == saved[n])
    {
      PersistedOthers(saved, pads, n);
    }
    forall n | n in m && !(n in saved && m[n] == saved[n])
      ensures exists i :: 0 <= i < |pads| && pads[i].device.name == Some(n) && m[n] == pads[i].port
    {
      PersistedSource(saved, pads, n);
    }
    forall i | 0 <= i < |pads| && pads[i].device.name.Some?
      ensures pads[i].device.name.value in m
      ensures (forall j :: 0 <= j < |pads| && j != i ==> pads[j].device.name != pads[i].device.name) ==>
        m[pads[i].device.name.value] == pads[i].port
    {
      PersistedNamed(saved, pads, i);
    }
  }

  // ---- The invariant over every run ----

  lemma PersistedNonNegative(saved: map<string, int>, pads: seq<Pad>)
    requires forall n :: n in saved ==> saved[n] >= 0
    requires forall i :: 0 <= i < |pads| ==> InRange(pads[i].port)
    ensures forall n :: n in Persisted(saved, pads) ==> Persisted(saved, pads)[n] >= 0
  {
    PersistedFacts(saved, pads);
  }

  lemma RowsOfPads(a: seq<Pad>, b: seq<Pad>)
    requires |a| == |b| && forall i :: 0 <= i < |a| ==> a[i].device == b[i].device && a[i].port == b[i].port
    ensures Rows(a) == Rows(b)
  {
  }

  lemma ConnectKeeps(h: Hub, d: Device, r: Reading)
    requires Inv(h)
    ensures Inv(AfterConnect(h, d, r))
    ensures IdlePortsReleased(h) ==> IdlePortsReleased(AfterConnect(h, d, r))
  {
    hide HeldMask, TurboMask, Persisted, SortByPort, Ports, PreferredPort, AnyTurbo, Reevaluated, Rows;
    if Accepts(h, d) {
      ConnectFacts(h, d, r);
      var g := AfterConnect(h, d, r);
      hide AfterConnect;
      ConnectShape(h, d, r);
      SortFacts(Rows(Joined(h, d, r)));
      RowsOfPads(g.pads, Joined(h, d, r));
      PersistedNonNegative(h.saved, Joined(h, d, r));
    }
  }

  lemma DisconnectKeeps(h: Hub, id: int)
    requires Inv(h)
    ensures Inv(AfterDisconnect(h, id))
    ensures IdlePortsReleased(h) ==> IdlePortsReleased(AfterDisconnect(h, id))
  {
    hide HeldMask, TurboMask, SortByPort, Ports, AnyTurbo, Settled, Rows;
    var i := IndexOf(h.pads, id);
    if i < |h.pads| {
      DisconnectFacts(h, i);
      hide AfterDisconnect;
      SortFacts(Rows(Without(h.pads, i)));
    }
  }

  lemma AssignKeeps(h: Hub, id: int, port: int)
    requires Inv(h)
    ensures Inv(AfterAssign(h, id, port))
  {
    hide HeldMask, TurboMask, Persisted, SortByPort, Ports, AnyTurbo, EvaluateFirst, Rewired, Rows;
    var i := IndexOf(h.pads, id);
    if InRange(port) && i < |h.pads| && h.pads[i].port != port {
      AssignFacts(h, i, port);
      var g := AfterAssign(h, id, port);
      hide AfterAssign;
      SortFacts(Rows(g.pads));
      PersistedNonNegative(h.saved, g.pads);
    }
  }

  lemma ChangedKeeps(h: Hub, id: int, r: Reading)
    requires Inv(h)
    ensures Inv(AfterInput(h, id, r))
    ensures IdlePortsReleased(h) ==> IdlePortsReleased(AfterInput(h, id, r))
  {
    hide HeldMask, TurboMask, Reevaluated, AnyTurbo;
    var i := IndexOf(h.pads, id);
    if i < |h.pads| {
      var k := h.(pads := h.pads[i := h.pads[i].(reading := r)]);
      assert Shape(k);
      EvaluateFacts(k, i);
      var g := Reevaluated(k, i);
      assert Rows(g.pads) == Rows(h.pads);
      SamePorts(k.pads, g.pads);
      SamePorts(h.pads, k.pads);
      forall j | 0 <= j < |h.pads| && j != i ensures Evaluated(g, j) && Sent(g, j) {
        assert Evaluated(h, j) && Sent(h, j);
        assert Sent(k, j);
      }
    }
  }

  lemma RemapKeeps(h: Hub, remap: ButtonRemap)
    requires Inv(h)
    ensures Inv(AfterRemap(h, remap))
    ensures IdlePortsReleased(h) ==> IdlePortsReleased(AfterRemap(h, remap))
  {
    hide HeldMask, TurboMask, Reevaluated;
    var k := h.(remap := remap);
    EvaluateFirstFacts(k, |h.pads|);
    var g := EvaluateFirst(k, |h.pads|);
    assert Rows(g.pads) == Rows(h.pads);
  }

  lemma TimerKeeps(h: Hub)
    requires Inv(h)
    ensures Inv(TimerFired(h))
    ensures IdlePortsReleased(h) ==> IdlePortsReleased(TimerFired(h))
  {
    hide HeldMask, TurboMask, EmitFirst, AnyTurbo;
    if h.timer {
      var k := h.(phase := !h.phase);
      EmitFirstFacts(k, |h.pads|, true);
      var g := TimerFired(h);
      forall i | 0 <= i < |h.pads| ensures Evaluated(g, i) && Sent(g, i) {
        assert Evaluated(h, i) && Sent(h, i);
        assert h.pads[i].held | 0 == h.pads[i].held;
      }
    }
  }

  lemma EventKeeps(h: Hub, e: Event)
    requires Inv(h)
    ensures Inv(Apply(h, e))
  {
    hide Inv, AfterConnect, AfterDisconnect, AfterAssign, AfterInput, AfterRemap, TimerFired;
    match e
    case Connected(d, r) => ConnectKeeps(h, d, r);
    case Disconnected(id) => DisconnectKeeps(h, id);
    case Assigned(id, port) => AssignKeeps(h, id, port);
    case Changed(id, r) => ChangedKeeps(h, id, r);
    case Remapped(remap) => RemapKeeps(h, remap);
    case TimerFires => TimerKeeps(h);
  }

  /** After any sequence of connections, removals, reassignments, remap edits, input changes and
      timer fires the invariant holds. */
  ghost function Run(h: Hub, es: seq<Event>): (g: Hub)
    requires Inv(h)
    ensures Inv(g)
    decreases |es|
  {
    if es == [] then h
    else
      EventKeeps(h, es[0]);
      Run(Apply(h, es[0]), es[1..])
  }

  // ---- Released ports ----

  /** A reassignment to a port nobody owns, by a pad whose old port carries a non-empty mask. */
  ghost predicate Strands(h: Hub, e: Event)
    requires Inv(h)
  {
    e.Assigned? && InRange(e.port) && e.port !in Ports(h.pads)
    && (var i := IndexOf(h.pads, e.id); i < |h.pads| && InRange(h.pads[i].port) && h.app.pads[h.pads[i].port] != 0)
  }

  /** One event keeps the unowned ports released unless it strands a mask: the old port of a
      pad moved to a free port is never cleared, because the clearing call sits in the swap. */
  lemma ReleasedIffNotStranded(h: Hub, e: Event)
    requires Inv(h) && IdlePortsReleased(h)
    ensures var g := Apply(h, e); Inv(g) && (IdlePortsReleased(g) <==> !Strands(h, e))
  {
    hide AfterConnect, AfterDisconnect, AfterAssign, AfterInput, AfterRemap, TimerFired, Inv, Strands,
         IdlePortsReleased;
    EventKeeps(h, e);
    OnlyAssignmentsStrand(h, e);
    match e
    case Connected(d, r) => ConnectKeeps(h, d, r);
    case Disconnected(id) => DisconnectKeeps(h, id);
    case Changed(id, r) => ChangedKeeps(h, id, r);
    case Remapped(remap) => RemapKeeps(h, remap);
    case TimerFires => TimerKeeps(h);
    case Assigned(id, port) => AssignReleases(h, id, port);
  }

  lemma OnlyAssignmentsStrand(h: Hub, e: Event)
    requires Inv(h)
    ensures Strands(h, e) ==> e.Assigned?
  {
  }

  lemma AssignReleases(h: Hub, id: int, port: int)
    requires Inv(h) && IdlePortsReleased(h)
    ensures AfterAssign(h, id, port).app.Valid()
    ensures IdlePortsReleased(AfterAssign(h, id, port)) <==> !Strands(h, Assigned(id, port))
  {
    hide HeldMask, TurboMask, Persisted, SortByPort, AnyTurbo, EvaluateFirst, Rewired, Rows, Mirrors;
    var i := IndexOf(h.pads, id);
    if i < |h.pads| { assert h.pads[i].port in Ports(h.pads); }
    if InRange(port) && i < |h.pads| && h.pads[i].port != port {
      AssignFacts(h, i, port);
      var g := AfterAssign(h, id, port);
      hide AfterAssign, Ports;
      if port !in Ports(h.pads) {
        assert h.pads[i].port !in Ports(g.pads);
        assert g.app.pads[h.pads[i].port] == h.app.pads[h.pads[i].port];
      }
    }
  }

  /** No event of the run strands a mask. */
  ghost predicate NeverStrands(h: Hub, es: seq<Event>)
    requires Inv(h)
    decreases |es|
  {
    es == [] || (!Strands(h, es[0]) && (EventKeeps(h, es[0]); NeverStrands(Apply(h, es[0]), es[1..])))
  }

  /** On every run that never moves a pressed pad to a free port, in particular when every
      reassignment is a swap, the ports no pad owns stay released. */
  lemma {:induction false} IdlePortsStayReleased(h: Hub, es: seq<Event>)
    requires Inv(h) && IdlePortsReleased(h) && NeverStrands(h, es)
    ensures IdlePortsReleased(Run(h, es))
    decreases |es|
  {
    if es != [] {
      ReleasedIffNotStranded(h, es[0]);
      IdlePortsStayReleased(Apply(h, es[0]), es[1..]);
    }
  }

  // ---- Port memory ----

  ghost predicate NoOneNamed(h: Hub, name: string) {
    forall i :: 0 <= i < |h.pads| ==> h.pads[i].device.name != Some(name)
  }

  ghost predicate Remembers(h: Hub, name: string, port: int) {
    name in h.saved && h.saved[name] == port
  }

  ghost predicate ConnectsNamed(e: Event, name: string) {
    e.Connected? && e.device.name == Some(name)
  }

  /** The events other than connections, removals and effective reassignments leave the bindings
      and the port memory alone. */
  lemma OtherEventsFrame(h: Hub, e: Event)
    requires Inv(h) && (e.Changed? || e.Remapped? || e.TimerFires?)
    ensures var g := Apply(h, e);
      && g.saved == h.saved && |g.pads| == |h.pads|
      && forall i :: 0 <= i < |h.pads| ==> g.pads[i].device == h.pads[i].device && g.pads[i].port == h.pads[i].port
  {
    hide HeldMask, TurboMask, Mirrors, Reevaluated, EvaluateFirst, AnyTurbo, Ports;
    match e
    case Changed(id, r) =>
      var i := IndexOf(h.pads, id);
      if i < |h.pads| {
        EvaluateFacts(h.(pads := h.pads[i := h.pads[i].(reading := r)]), i);
      }
    case Remapped(remap) => EvaluateFirstFacts(h.(remap := remap), |h.pads|);
    case TimerFires =>
  }

  lemma ConnectKeepsMemory(h: Hub, d: Device, r: Reading, name: string, port: int)
    requires Inv(h) && NoOneNamed(h, name) && Remembers(h, name, port) && d.name != Some(name)
    ensures NoOneNamed(AfterConnect(h, d, r), name) && Remembers(AfterConnect(h, d, r), name, port)
  {
    hide Persisted, SortByPort, Rows, PreferredPort, Inv, Current, KeepsMasks, Ports, Reevaluated;
    if Accepts(h, d) {
      ConnectFacts(h, d, r);
      hide AfterConnect, Accepts;
      PersistedFacts(h.saved, Joined(h, d, r));
    }
  }

  lemma DisconnectKeepsMemory(h: Hub, id: int, name: string, port: int)
    requires Inv(h) && NoOneNamed(h, name) && Remembers(h, name, port)
    ensures NoOneNamed(AfterDisconnect(h, id), name) && Remembers(AfterDisconnect(h, id), name, port)
  {
    hide SortByPort, Rows, Inv, Current, KeepsMasks, Ports, Settled;
    var i := IndexOf(h.pads, id);
    if i < |h.pads| {
      DisconnectFacts(h, i);
      hide AfterDisconnect;
    }
  }

  lemma AssignKeepsMemory(h: Hub, id: int, p: int, name: string, port: int)
    requires Inv(h) && NoOneNamed(h, name) && Remembers(h, name, port)
    ensures NoOneNamed(AfterAssign(h, id, p), name) && Remembers(AfterAssign(h, id, p), name, port)
  {
    hide Persisted, SortByPort, Rows, Inv, Current, KeepsMasks, Ports, Rewired, EvaluateFirst, OwnerOf;
    var i := IndexOf(h.pads, id);
    if InRange(p) && i < |h.pads| && h.pads[i].port != p {
      AssignFacts(h, i, p);
      PersistedFacts(h.saved, AfterAssign(h, id, p).pads);
      hide AfterAssign;
    }
  }

  /** The memory of a name is only changed by connecting or reassigning pads that bear it. */
  lemma EventKeepsMemory(h: Hub, e: Event, name: string, port: int)
    requires Inv(h) && NoOneNamed(h, name) && Remembers(h, name, port) && !ConnectsNamed(e, name)
    ensures NoOneNamed(Apply(h, e), name) && Remembers(Apply(h, e), name, port)
  {
    hide Inv, NoOneNamed, Remembers, AfterConnect, AfterDisconnect, AfterAssign, AfterInput, AfterRemap, TimerFired;
    match e
    case Connected(d, r) => ConnectKeepsMemory(h, d, r, name, port);
    case Disconnected(id) => DisconnectKeepsMemory(h, id, name, port);
    case Assigned(id, p) => AssignKeepsMemory(h, id, p, name, port);
    case _ =>
      OtherEventsFrame(h, e);
      SameBindings(h, Apply(h, e), name, port);
  }

  lemma SameBindings(h: Hub, g: Hub, name: string, port: int)
    requires NoOneNamed(h, name) && Remembers(h, name, port) && g.saved == h.saved && |g.pads| == |h.pads|
    requires forall i :: 0 <= i < |h.pads| ==> g.pads[i].device == h.pads[i].device
    ensures NoOneNamed(g, name) && Remembers(g, name, port)
  {
  }

  lemma {:induction false} RunKeepsMemory(h: Hub, es: seq<Event>, name: string, port: int)
    requires Inv(h) && NoOneNamed(h, name) && Remembers(h, name, port)
    requires forall e :: e in es ==> !ConnectsNamed(e, name)
    ensures Remembers(Run(h, es), name, port)
    decreases |es|
  {
    if es != [] {
      EventKeeps(h, es[0]);
      EventKeepsMemory(h, es[0], name, port);
      RunKeepsMemory(Apply(h, es[0]), es[1..], name, port);
    }
  }

  /** The port memory agrees with every managed pad that has a name. */
  ghost predicate MemoryAgrees(h: Hub) {
    forall i :: 0 <= i < |h.pads| && h.pads[i].device.name.Some? ==>
      Remembers(h, h.pads[i].device.name.value, h.pads[i].port)
  }

  ghost predicate DistinctNames(pads: seq<Pad>) {
    forall i, j :: 0 <= i < j < |pads| && pads[i].device.name.Some? ==> pads[i].device.name != pads[j].device.name
  }

  lemma ConnectKeepsAgreement(h: Hub, d: Device, r: Reading)
    requires Inv(h) && MemoryAgrees(h) && DistinctNames(AfterConnect(h, d, r).pads)
    ensures MemoryAgrees(AfterConnect(h, d, r))
  {
    hide Persisted, SortByPort, Rows, PreferredPort, Inv, Current, KeepsMasks, Ports, Reevaluated;
    if Accepts(h, d) {
      ConnectFacts(h, d, r);
      var g := AfterConnect(h, d, r);
      hide AfterConnect, Accepts;
      NamesApart(g.pads, Joined(h, d, r));
      PersistedFacts(h.saved, Joined(h, d, r));
    }
  }

  lemma DisconnectKeepsAgreement(h: Hub, id: int)
    requires Inv(h) && MemoryAgrees(h)
    ensures MemoryAgrees(AfterDisconnect(h, id))
  {
    hide SortByPort, Rows, Inv, Current, KeepsMasks, Ports, Settled;
    var i := IndexOf(h.pads, id);
    if i < |h.pads| {
      DisconnectFacts(h, i);
      hide AfterDisconnect;
    }
  }

  lemma AssignKeepsAgreement(h: Hub, id: int, p: int)
    requires Inv(h) && MemoryAgrees(h) && DistinctNames(AfterAssign(h, id, p).pads)
    ensures MemoryAgrees(AfterAssign(h, id, p))
  {
    hide Persisted, SortByPort, Rows, Inv, Current, KeepsMasks, Ports, Rewired, EvaluateFirst, OwnerOf;
    var i := IndexOf(h.pads, id);
    if InRange(p) && i < |h.pads| && h.pads[i].port != p {
      AssignFacts(h, i, p);
      var g := AfterAssign(h, id, p);
      hide AfterAssign;
      NamesApart(g.pads, g.pads);
      PersistedFacts(h.saved, g.pads);
    }
  }

  /** While the managed pads have distinct names, every event keeps the memory in agreement. */
  lemma EventKeepsAgreement(h: Hub, e: Event)
    requires Inv(h) && MemoryAgrees(h) && DistinctNames(Apply(h, e).pads)
    ensures MemoryAgrees(Apply(h, e))
  {
    hide Inv, DistinctNames, AfterConnect, AfterDisconnect, AfterAssign, AfterInput, AfterRemap, TimerFired;
    match e
    case Connected(d, r) => ConnectKeepsAgreement(h, d, r);
    case Disconnected(id) => DisconnectKeepsAgreement(h, id);
    case Assigned(id, p) => AssignKeepsAgreement(h, id, p);
    case _ => OtherEventsFrame(h, e);
  }

  /** At every state of the run the managed pads have distinct names. */
  ghost predicate NamesStayDistinct(h: Hub, es: seq<Event>)
    requires Inv(h)
    decreases |es|
  {
    && DistinctNames(h.pads)
    && (es == [] || (EventKeeps(h, es[0]); NamesStayDistinct(Apply(h, es[0]), es[1..])))
  }

  lemma StartsDistinct(h: Hub, es: seq<Event>)
    requires Inv(h) && NamesStayDistinct(h, es)
    ensures DistinctNames(h.pads)
  {
  }

  /** On every run of pads with distinct names the memory stays in agreement. */
  lemma {:induction false} RunKeepsAgreement(h: Hub, es: seq<Event>)
    requires Inv(h) && MemoryAgrees(h) && NamesStayDistinct(h, es)
    ensures MemoryAgrees(Run(h, es)) && DistinctNames(Run(h, es).pads)
    decreases |es|
  {
    hide Inv, Apply, MemoryAgrees, DistinctNames;
    StartsDistinct(h, es);
    if es != [] {
      EventKeeps(h, es[0]);
      StartsDistinct(Apply(h, es[0]), es[1..]);
      EventKeepsAgreement(h, es[0]);
      RunKeepsAgreement(Apply(h, es[0]), es[1..]);
    }
  }

  lemma NamesApart(a: seq<Pad>, b: seq<Pad>)
    requires DistinctNames(a) && |a| == |b| && forall i :: 0 <= i < |a| ==> a[i].device == b[i].device
    ensures forall i, j :: 0 <= i < |b| && 0 <= j < |b| && i != j && b[i].device.name.Some? ==>
      b[j].device.name != b[i].device.name
  {
  }

  /** Replugging: a named pad that leaves port `p` and comes back after any steps that connect no
      pad of its name gets `p` again exactly when `p` is then free. */
  lemma ReplugReclaimsPort(h: Hub, i: nat, es: seq<Event>, r: Reading)
    requires Inv(h) && MemoryAgrees(h) && DistinctNames(h.pads)
    requires i < |h.pads| && h.pads[i].device.name.Some?
    requires forall e :: e in es ==> !ConnectsNamed(e, h.pads[i].device.name.value)
    ensures Inv(AfterDisconnect(h, h.pads[i].device.id))
    ensures var d, p := h.pads[i].device, h.pads[i].port;
      var away := Run(AfterDisconnect(h, d.id), es);
      Accepts(away, d) ==>
        var back := AfterConnect(away, d, r);
        && |back.pads| == |away.pads| + 1 && back.pads[|away.pads|].device == d
        && (back.pads[|away.pads|].port == p <==> p !in Ports(away.pads))
  {
    hide HeldMask, TurboMask, Mirrors, Reevaluated, AnyTurbo, Ports, Settled, SortByPort, Rows, Persisted;
    var d, p := h.pads[i].device, h.pads[i].port;
    var name := d.name.value;
    assert IndexOf(h.pads, d.id) == i;
    DisconnectKeeps(h, d.id);
    DisconnectFacts(h, i);
    var left := AfterDisconnect(h, d.id);
    hide AfterDisconnect;
    NamesApart(h.pads, h.pads);
    RunKeepsMemory(left, es, name, p);
    var away := Run(left, es);
    hide Run;
    if Accepts(away, d) {
      ConnectShape(away, d, r);
      ConnectFacts(away, d, r);
    }
  }

  /** The same on whole runs: from a manager without pads, after any run of pads with distinct names,
      a named pad that leaves and comes back gets its port again exactly when it is then free. */
  lemma ReplugReclaimsPortOnAnyRun(h: Hub, before: seq<Event>, i: nat, es: seq<Event>, r: Reading)
    requires Inv(h) && h.pads == [] && NamesStayDistinct(h, before)
    requires i < |Run(h, before).pads| && Run(h, before).pads[i].device.name.Some?
    requires forall e :: e in es ==> !ConnectsNamed(e, Run(h, before).pads[i].device.name.value)
    ensures var g := Run(h, before);
      var d, p := g.pads[i].device, g.pads[i].port;
      && Inv(AfterDisconnect(g, d.id))
      && var away := Run(AfterDisconnect(g, d.id), es);
         Accepts(away, d) ==>
           var back := AfterConnect(away, d, r);
           && |back.pads| == |away.pads| + 1 && back.pads[|away.pads|].device == d
           && (back.pads[|away.pads|].port == p <==> p !in Ports(away.pads))
  {
    hide Inv, Run, NamesStayDistinct, AfterDisconnect, AfterConnect, Accepts, Ports;
    RunKeepsAgreement(h, before);
    ReplugReclaimsPort(Run(h, before), i, es, r);
  }
}
