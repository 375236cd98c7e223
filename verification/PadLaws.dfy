/** What the pad manager's events do, in plain terms: which buttons each port carries, how the turbo
    phase moves, and what each event leaves alone. */
module PadLaws {
  import opened Common
  import opened NesButtons
  import opened InputFanIn
  import opened ControllerPorts

  // ---- The masks ----

  ghost predicate PressesFor(h: Hub, r: Reading, input: ControllerInput) {
    exists p :: p in r.pressed && p in h.remap && h.remap[p] == input
  }

  /** The left stick pushes a direction past half of its way. */
  ghost predicate Leans(r: Reading, b: NesButton) {
    || (b == Up && r.y > 0.5) || (b == Down && r.y < -0.5)
    || (b == Left && r.x < -0.5) || (b == Right && r.x > 0.5)
  }

  /** A pad holds exactly the buttons its pressed ones are mapped to and those its stick leans to; on
      turbo are only A and B, when a pressed button is mapped to theirs. */
  lemma PadButtons(h: Hub, i: nat, b: NesButton)
    requires Inv(h) && i < |h.pads|
    ensures var r := h.pads[i].reading;
      && (Has(h.pads[i].held, b) <==> PressesFor(h, r, Plain(b)) || Leans(r, b))
      && (Has(h.pads[i].turbo, b) <==>
            (b == A && PressesFor(h, r, TurboA)) || (b == B && PressesFor(h, r, TurboB)))
  {
    assert Evaluated(h, i);
    HeldMeans(h.remap, h.pads[i].reading, b);
    TurboMeans(h.remap, h.pads[i].reading, b);
    hide Shape, TimerFits, Mirrors, SavedNonNegative, Sent, Has, HeldMask, TurboMask;
  }

  lemma HeldMeans(remap: ButtonRemap, r: Reading, b: NesButton)
    ensures Has(HeldMask(remap, r), b) <==>
      (exists p :: p in r.pressed && p in remap && remap[p] == Plain(b)) || Leans(r, b)
  {
    hide MaskOf, Has, Held;
    HeldIs(remap, r, b);
  }

  lemma HeldIs(remap: ButtonRemap, r: Reading, b: NesButton)
    ensures Held(remap, r, b) <==>
      (exists p :: p in r.pressed && p in remap && remap[p] == Plain(b)) || Leans(r, b)
  {
    assert StickDrives(r, b) == Leans(r, b);
    hide StickDrives, Leans;
    if p :| p in r.pressed && Target(remap, p) == Plain(b) { assert remap[p] == Plain(b); }
    if p :| p in r.pressed && p in remap && remap[p] == Plain(b) { assert Target(remap, p) == Plain(b); }
  }

  lemma TurboMeans(remap: ButtonRemap, r: Reading, b: NesButton)
    ensures Has(TurboMask(remap, r), b) <==>
      (b == A && exists p :: p in r.pressed && p in remap && remap[p] == TurboA)
      || (b == B && exists p :: p in r.pressed && p in remap && remap[p] == TurboB)
  {
    hide Has;
    if OnTurbo(remap, r, b) {
      var p :| p in r.pressed && Target(remap, p) == TurboTarget(b);
      assert remap[p] == if b == A then TurboA else TurboB;
    }
    if p :| p in r.pressed && p in remap && remap[p] == TurboTarget(b) { assert Target(remap, p) == TurboTarget(b); }
    hide MaskOf;
  }

  /** On every run the port of a pad carries button `b` exactly when it is held, or on turbo while the
      phase is on. */
  lemma PortCarries(h: Hub, i: nat, b: NesButton)
    requires Inv(h) && i < |h.pads|
    ensures 0 <= h.pads[i].port < 4
    ensures Has(h.app.pads[h.pads[i].port], b) <==>
      Has(h.pads[i].held, b) || (h.phase && Has(h.pads[i].turbo, b))
  {
    hide TimerFits, Mirrors, SavedNonNegative, Evaluated;
    assert Sent(h, i);
  }

  // ---- Ports ----

  predicate Taken(pads: seq<Pad>, port: int) {
    exists i :: 0 <= i < |pads| && pads[i].port == port
  }

  /** The port a new controller gets: the one remembered for its name if that is below four and free,
      else the lowest free one, and port 0 if none is. */
  ghost predicate TakesPort(h: Hub, d: Device, port: int) {
    if d.name.Some? && d.name.value in h.saved && h.saved[d.name.value] < 4 && !Taken(h.pads, h.saved[d.name.value])
    then port == h.saved[d.name.value]
    else if forall q :: 0 <= q < 4 ==> Taken(h.pads, q) then port == 0
    else 0 <= port < 4 && !Taken(h.pads, port) && forall q :: 0 <= q < port ==> Taken(h.pads, q)
  }

  lemma PreferredIs(h: Hub, d: Device)
    ensures TakesPort(h, d, PreferredPort(h.pads, h.saved, d))
  {
    forall p ensures p in Ports(h.pads) <==> Taken(h.pads, p) {
    }
    hide Taken, Ports;
    LowestFreeIs(Ports(h.pads), 0);
  }

  lemma {:induction false} LowestFreeIs(used: set<int>, lo: int)
    requires 0 <= lo <= 4
    ensures var p := LowestFree(used, lo);
      if forall q :: lo <= q < 4 ==> q in used then p == 0
      else lo <= p < 4 && p !in used && forall q :: lo <= q < p ==> q in used
    decreases 4 - lo
  {
    if lo < 4 && lo in used { LowestFreeIs(used, lo + 1); }
  }

  /** On every run the settings list has one row for every managed pad, with its identity, name and port,
      and no other, in port order. */
  lemma ListShowsPads(h: Hub)
    requires Inv(h)
    ensures |h.connected| == |h.pads|
    ensures forall i :: 0 <= i < |h.pads| ==>
      Row(h.pads[i].device.id, h.pads[i].device.name, h.pads[i].port) in h.connected
    ensures forall i, j :: 0 <= i < j < |h.connected| ==> h.connected[i].port < h.connected[j].port
  {
    hide Current;
    var rows := Rows(h.pads);
    assert |multiset(h.connected)| == |multiset(rows)|;
    forall i | 0 <= i < |h.pads| ensures RowOf(h.pads[i]) in h.connected {
      assert rows[i] in multiset(rows);
      assert rows[i] in multiset(h.connected);
    }
    PortsDiffer(h);
  }

  lemma PortsDiffer(h: Hub)
    requires Inv(h)
    ensures forall i, j :: 0 <= i < j < |h.connected| ==> h.connected[i].port < h.connected[j].port
  {
    hide Evaluated, Sent, TimerFits;
    forall i, j | 0 <= i < j < |h.connected| ensures h.connected[i].port < h.connected[j].port {
      RowsDiffer(h, i, j);
    }
  }

  lemma RowsDiffer(h: Hub, i: nat, j: nat)
    requires Inv(h) && i < j < |h.connected|
    ensures h.connected[i].port != h.connected[j].port
  {
    hide Evaluated, Sent, TimerFits;
    var rows, a, b := Rows(h.pads), h.connected[i], h.connected[j];
    assert a in multiset(h.connected) && b in multiset(h.connected);
    var m :| 0 <= m < |rows| && rows[m] == a;
    var n :| 0 <= n < |rows| && rows[n] == b;
    OnceInRows(h.pads, m);
    TwiceInSeq(h.connected, i, j);
    assert m != n;
    assert rows[m].port == h.pads[m].port && rows[n].port == h.pads[n].port;
  }

  lemma TwiceInSeq(rows: seq<Row>, i: nat, j: nat)
    requires i < j < |rows|
    ensures rows[i] == rows[j] ==> multiset(rows)[rows[i]] >= 2
  {
    assert rows == rows[..i] + [rows[i]] + rows[i + 1..j] + [rows[j]] + rows[j + 1..];
  }

  lemma OnceInRows(pads: seq<Pad>, m: nat)
    requires m < |pads| && forall i, j :: 0 <= i < j < |pads| ==> pads[i].port != pads[j].port
    ensures multiset(Rows(pads))[Rows(pads)[m]] == 1
  {
    var rows := Rows(pads);
    assert rows == rows[..m] + [rows[m]] + rows[m + 1..];
    forall k | 0 <= k < |rows| && k != m ensures rows[k] != rows[m] {
      assert rows[k].port == pads[k].port && rows[m].port == pads[m].port;
    }
    assert rows[m] !in rows[..m] && rows[m] !in rows[m + 1..];
  }

  /** On every run the timer runs exactly while some pad is on turbo. */
  lemma TimerRunsIff(h: Hub)
    requires Inv(h)
    ensures h.timer <==> exists i :: 0 <= i < |h.pads| && h.pads[i].turbo != 0
  {
    hide Evaluated, Sent, Mirrors, SavedNonNegative;
  }

  // ---- The turbo timer ----

  /** The masks of all pads are those of the phase, and every other port is as before. */
  ghost predicate Carries(h: Hub, g: Hub) {
    && h.app.Valid() && g.app.Valid() && g.app.touch == h.app.touch
    && (forall i :: 0 <= i < |h.pads| ==>
          0 <= h.pads[i].port < 4
          && g.app.pads[h.pads[i].port] ==
             (if g.phase then h.pads[i].held | h.pads[i].turbo else h.pads[i].held))
    && (forall p :: 0 <= p < 4 && (forall i :: 0 <= i < |h.pads| ==> h.pads[i].port != p) ==>
          g.app.pads[p] == h.app.pads[p])
  }

  /** A timer fire turns the phase over and changes nothing else but the masks that depend on it. */
  lemma FireFlipsPhase(h: Hub)
    requires Inv(h)
    ensures var g := Apply(h, TimerFires);
      if h.timer then g == h.(phase := !h.phase, app := g.app) && Carries(h, g) else g == h
  {
    TimerKeeps(h);
    FiredMasks(h);
    hide Inv, TimerFired, Carries, Shape, Ports;
    if h.timer { SentCarries(h, Apply(h, TimerFires)); }
  }

  /** A fire touches the phase and the masks of the pads' ports. */
  lemma FiredMasks(h: Hub)
    requires Inv(h)
    ensures Shape(h) && h.app.Valid()
    ensures var g := TimerFired(h);
      if h.timer
      then
        && g == h.(phase := !h.phase, app := g.app) && g.app.Valid() && g.app.touch == h.app.touch
        && forall p :: 0 <= p < MAX_PLAYERS && p !in Ports(h.pads) ==> g.app.pads[p] == h.app.pads[p]
      else g == h
  {
    hide HeldMask, TurboMask, AnyTurbo, Mirrors, SavedNonNegative, EmitFirst, Evaluated, Ports, Pad.Effective, Sent;
    if h.timer {
      var k := h.(phase := !h.phase);
      EmitFirstFacts(k, |h.pads|, true);
      EmitFirstTouch(k, |h.pads|, true);
    }
  }

  /** Where every pad's mask has been sent and the other ports are as before. */
  lemma SentCarries(h: Hub, g: Hub)
    requires Inv(g) && h.app.Valid() && g.pads == h.pads && g.app.touch == h.app.touch
    requires forall p :: 0 <= p < MAX_PLAYERS && p !in Ports(h.pads) ==> g.app.pads[p] == h.app.pads[p]
    ensures Carries(h, g)
  {
    hide HeldMask, TurboMask, AnyTurbo, Mirrors, SavedNonNegative, Evaluated;
    forall i | 0 <= i < |h.pads|
      ensures g.app.pads[h.pads[i].port] == if g.phase then h.pads[i].held | h.pads[i].turbo else h.pads[i].held
    {
      assert Sent(g, i);
    }
  }

  lemma {:induction false} EmitFirstTouch(h: Hub, n: nat, turboOnly: bool)
    requires Shape(h) && n <= |h.pads|
    ensures EmitFirst(h, n, turboOnly).app.touch == h.app.touch
    decreases n
  {
    if n > 0 { EmitFirstTouch(h, n - 1, turboOnly); }
  }

  function Fires(n: nat): seq<Event> {
    if n == 0 then [] else Fires(n - 1) + [TimerFires]
  }

  lemma {:induction false} RunConcat(h: Hub, es: seq<Event>, e: Event)
    requires Inv(h)
    ensures Run(h, es + [e]) == Apply(Run(h, es), e)
    decreases |es|
  {
    hide Inv, Apply;
    EventKeeps(h, e);
    if es == [] {
      assert es + [e] == [e] && [e][1..] == [];
      assert Run(Apply(h, e), []) == Apply(h, e);
    } else {
      EventKeeps(h, es[0]);
      assert (es + [e])[1..] == es[1..] + [e];
      RunConcat(Apply(h, es[0]), es[1..], e);
    }
  }

  /** Turbo pulses: after `n` timer fires the phase has turned over `n` times, every pad's port carries
      its held buttons, with its turbo buttons on every second fire, and nothing else has changed. */
  lemma {:induction false} TurboPulses(h: Hub, n: nat)
    requires Inv(h) && h.timer
    ensures var g := Run(h, Fires(n));
      && g == h.(phase := (if n % 2 == 0 then h.phase else !h.phase), app := g.app) && Carries(h, g)
    decreases n
  {
    hide Inv, Apply, Run, Carries;
    if n == 0 {
      CarriesItself(h);
    } else {
      TurboPulses(h, n - 1);
      var g := Run(h, Fires(n - 1));
      RunConcat(h, Fires(n - 1), TimerFires);
      FireFlipsPhase(g);
      CarriesChains(h, g, Apply(g, TimerFires));
    }
  }

  lemma CarriesItself(h: Hub)
    requires Inv(h)
    ensures Carries(h, h) && Run(h, []) == h
  {
    assert h.app.Valid();
    SentCarries(h, h);
    hide Inv;
  }

  lemma CarriesChains(h: Hub, k: Hub, g: Hub)
    requires Carries(h, k) && Carries(k, g) && k.pads == h.pads && g.pads == h.pads
    ensures Carries(h, g)
  {
  }

  // ---- What each event takes over and what it leaves ----

  lemma SettledPhase(h: Hub)
    requires Shape(h)
    ensures Settled(h).phase == (h.phase && AnyTurbo(h.pads)) && Settled(h).app.touch == h.app.touch
  {
    hide AnyTurbo, EmitFirst;
    EmitFirstTouch(h.(timer := false, phase := false), |h.pads|, false);
  }

  lemma ReevaluatedPhase(h: Hub, i: nat)
    requires Shape(h) && i < |h.pads|
    ensures var g := Reevaluated(h, i);
      g.phase == (h.phase && AnyTurbo(g.pads)) && g.app.touch == h.app.touch
  {
    hide HeldMask, TurboMask, AnyTurbo, Settled;
    var pad := h.pads[i].(held := HeldMask(h.remap, h.pads[i].reading), turbo := TurboMask(h.remap, h.pads[i].reading));
    var k := h.(pads := h.pads[i := pad]);
    EmitOne(k, i);
    SettledFacts(Emitted(k, i));
    SettledPhase(Emitted(k, i));
  }

  /** An extended controller that is not managed yet is accepted while there are fewer than four; it
      comes last, with its reading, and the phase goes on. */
  lemma ConnectTakes(h: Hub, d: Device, r: Reading)
    requires Inv(h)
    ensures var g, n := Apply(h, Connected(d, r)), |h.pads|;
      if n < 4 && d.extended && (forall i :: 0 <= i < n ==> h.pads[i].device.id != d.id)
      then
        && |g.pads| == n + 1 && g.pads[..n] == h.pads && g.pads[n].device == d && g.pads[n].reading == r
        && TakesPort(h, d, g.pads[n].port)
        && g.remap == h.remap && g.phase == h.phase && g.app.touch == h.app.touch
      else g == h
  {
    PreferredIs(h, d);
    hide HeldMask, TurboMask, Mirrors, SavedNonNegative, Persisted, SortByPort, Rows, PreferredPort, AnyTurbo,
         Reevaluated, TakesPort;
    if Accepts(h, d) {
      ConnectFacts(h, d, r);
      ConnectShape(h, d, r);
      var pads := Joined(h, d, r);
      var k := h.(pads := pads, saved := Persisted(h.saved, pads), connected := SortByPort(Rows(pads)));
      EvaluateFacts(k, |h.pads|);
      ReevaluatedPhase(k, |h.pads|);
      var g := Apply(h, Connected(d, r));
      if h.phase { MoreTurbo(h.pads, g.pads); }
      assert g.pads[..|h.pads|] == h.pads;
    }
  }

  lemma MoreTurbo(a: seq<Pad>, b: seq<Pad>)
    requires AnyTurbo(a) && |a| <= |b| && forall i :: 0 <= i < |a| ==> b[i] == a[i]
    ensures AnyTurbo(b)
  {
    var i :| 0 <= i < |a| && a[i].turbo != 0;
    assert b[i].turbo != 0;
  }

  /** A disconnection takes exactly that controller away; the phase goes on while turbo is held. */
  lemma DisconnectTakes(h: Hub, i: nat)
    requires Inv(h) && i < |h.pads|
    ensures var g := Apply(h, Disconnected(h.pads[i].device.id));
      && g.pads == h.pads[..i] + h.pads[i + 1..] && g.saved == h.saved && g.remap == h.remap
      && g.phase == (h.phase && g.timer) && g.app.touch == h.app.touch
  {
    assert IndexOf(h.pads, h.pads[i].device.id) == i;
    hide HeldMask, TurboMask, Mirrors, SavedNonNegative, SortByPort, Rows, AnyTurbo, Settled;
    DisconnectFacts(h, i);
    RemovedFacts(h, i);
    SettledPhase(Removed(h, i));
  }

  /** An event about a controller that is not managed changes nothing. */
  lemma StrangersChangeNothing(h: Hub, id: int, port: int, r: Reading)
    requires Inv(h) && forall i :: 0 <= i < |h.pads| ==> h.pads[i].device.id != id
    ensures Apply(h, Disconnected(id)) == h && Apply(h, Assigned(id, port)) == h && Apply(h, Changed(id, r)) == h
  {
    hide Inv, EvaluateFirst, Settled, Reevaluated;
  }

  /** Pad `i` has the reading `r`, and masks that may follow from it. */
  ghost predicate TakesReading(a: seq<Pad>, b: seq<Pad>, i: nat, r: Reading) {
    && i < |a| && |b| == |a| && (forall j :: 0 <= j < |a| && j != i ==> b[j] == a[j])
    && b[i].device == a[i].device && b[i].port == a[i].port && b[i].reading == r
  }

  /** A changed reading is taken over by its pad; the phase goes on while turbo is held. */
  lemma ChangeTakes(h: Hub, i: nat, r: Reading)
    requires Inv(h) && i < |h.pads|
    ensures var g := Apply(h, Changed(h.pads[i].device.id, r));
      && g == h.(pads := g.pads, timer := g.timer, phase := g.phase, app := g.app)
      && TakesReading(h.pads, g.pads, i, r) && g.phase == (h.phase && g.timer) && g.app.touch == h.app.touch
  {
    ChangeIs(h, i, r);
    var k := h.(pads := h.pads[i := h.pads[i].(reading := r)]);
    EvaluateFacts(k, i);
    ReevaluatedPhase(k, i);
    hide Inv, AfterInput, Shape, Reevaluated, Evaluated, Sent, KeepsMasks, AnyTurbo;
  }

  lemma ChangeIs(h: Hub, i: nat, r: Reading)
    requires Inv(h) && i < |h.pads|
    ensures var k := h.(pads := h.pads[i := h.pads[i].(reading := r)]);
      Shape(k) && Apply(h, Changed(h.pads[i].device.id, r)) == Reevaluated(k, i)
  {
    assert IndexOf(h.pads, h.pads[i].device.id) == i;
    ReadingKeepsShape(h, i, r);
    hide HeldMask, TurboMask, Mirrors, SavedNonNegative, AnyTurbo, Reevaluated, Evaluated, Sent, IndexOf, Shape;
  }

  lemma ReadingKeepsShape(h: Hub, i: nat, r: Reading)
    requires Shape(h) && i < |h.pads|
    ensures Shape(h.(pads := h.pads[i := h.pads[i].(reading := r)]))
  {
  }

  /** A new remap is taken over; it changes no controller, reading or port. */
  lemma RemapTakes(h: Hub, remap: ButtonRemap)
    requires Inv(h)
    ensures var g := Apply(h, Remapped(remap));
      && g == h.(remap := remap, pads := g.pads, timer := g.timer, phase := g.phase, app := g.app)
      && |g.pads| == |h.pads|
      && (forall i :: 0 <= i < |h.pads| ==>
            g.pads[i] == h.pads[i].(held := g.pads[i].held, turbo := g.pads[i].turbo))
      && (g.phase ==> h.phase) && g.app.touch == h.app.touch
  {
    hide HeldMask, TurboMask, Mirrors, SavedNonNegative, AnyTurbo, EvaluateFirst;
    EvaluateFirstFacts(h.(remap := remap), |h.pads|);
    EvaluateFirstPhase(h.(remap := remap), |h.pads|);
  }

  lemma {:induction false} EvaluateFirstPhase(h: Hub, n: nat)
    requires Shape(h) && n <= |h.pads|
    ensures var g := EvaluateFirst(h, n); (g.phase ==> h.phase) && g.app.touch == h.app.touch
    decreases n
  {
    hide Shape, AnyTurbo, Reevaluated;
    if n > 0 {
      EvaluateFirstPhase(h, n - 1);
      EvaluateFirstFacts(h, n - 1);
      ReevaluatedPhase(EvaluateFirst(h, n - 1), n - 1);
    }
  }

  /** Pad `i` has moved to `port`, whose owner, if any, has taken the old one; the pads are otherwise
      as before. */
  ghost predicate Moves(a: seq<Pad>, b: seq<Pad>, i: nat, port: int) {
    && i < |a| && |b| == |a|
    && forall j :: 0 <= j < |a| ==>
         b[j] == a[j].(port := if j == i then port else if a[j].port == port then a[i].port else a[j].port)
  }

  /** A reassignment inside 0..3 moves the controller to the port and swaps it with its owner. The
      phase goes on. */
  lemma AssignTakes(h: Hub, i: nat, port: int)
    requires Inv(h) && i < |h.pads|
    ensures var g := Apply(h, Assigned(h.pads[i].device.id, port));
      if 0 <= port < 4 && port != h.pads[i].port
      then Moves(h.pads, g.pads, i, port) && g.remap == h.remap && g.phase == h.phase && g.app.touch == h.app.touch
      else g == h
  {
    hide Inv, AfterAssign, Moves, EvaluateFirst, Rewired, Shape, Persisted, SortByPort, Rows, Current;
    AssignmentIs(h, i, port);
    if 0 <= port < 4 && port != h.pads[i].port { RewiredTakes(h, i, port); }
  }

  lemma AssignmentIs(h: Hub, i: nat, port: int)
    requires Inv(h) && i < |h.pads|
    ensures Current(h)
    ensures var g := AfterAssign(h, h.pads[i].device.id, port);
      if 0 <= port < 4 && port != h.pads[i].port
      then
        && Shape(h) && Shape(Rewired(h, i, port)) && |Rewired(h, i, port).pads| == |h.pads|
        && var k := EvaluateFirst(Rewired(h, i, port), |h.pads|); g == k.(connected := g.connected, saved := g.saved)
      else g == h
  {
    assert IndexOf(h.pads, h.pads[i].device.id) == i;
    hide HeldMask, TurboMask, Mirrors, SavedNonNegative, Persisted, SortByPort, Rows, EvaluateFirst, Rewired, Ports,
         IndexOf, OwnerOf, Evaluated, Sent, AnyTurbo;
    if 0 <= port < 4 && port != h.pads[i].port {
      RewiredPads(h, i, port);
      RewiredShape(h, i, port);
    }
  }

  /** The moved pads are evaluated again, which changes none of their masks. */
  lemma RewiredTakes(h: Hub, i: nat, port: int)
    requires Current(h) && i < |h.pads| && 0 <= port < 4 && port != h.pads[i].port
    ensures var k := Rewired(h, i, port);
      && Shape(k) && k == h.(pads := k.pads, app := k.app) && k.app.touch == h.app.touch
      && Moves(h.pads, k.pads, i, port) && |k.pads| == |h.pads|
      && var g := EvaluateFirst(k, |h.pads|); g == k.(app := g.app) && g.app.touch == h.app.touch
  {
    RewiredShape(h, i, port);
    RewiredRest(h, i, port);
    RewiredMoves(h, i, port);
    var k := Rewired(h, i, port);
    RewiredIsEvaluated(h, k, i, port);
    hide Current, EvaluateFirst, Rewired, Shape, Evaluated, TimerFits;
    EvaluatedStays(k, |h.pads|);
  }

  lemma RewiredMoves(h: Hub, i: nat, port: int)
    requires Shape(h) && i < |h.pads| && 0 <= port < 4 && port != h.pads[i].port
    ensures Moves(h.pads, Rewired(h, i, port).pads, i, port)
  {
    RewiredPads(h, i, port);
    hide Rewired, Ports;
  }

  lemma RewiredIsEvaluated(h: Hub, k: Hub, i: nat, port: int)
    requires Current(h) && Shape(k) && Moves(h.pads, k.pads, i, port) && k.remap == h.remap && k.timer == h.timer
    ensures TimerFits(k) && forall j :: 0 <= j < |k.pads| ==> Evaluated(k, j)
  {
    hide HeldMask, TurboMask, Sent;
    forall j | 0 <= j < |k.pads| ensures Evaluated(k, j) { assert Evaluated(h, j); }
    SameTurbo(h.pads, k.pads);
    hide AnyTurbo;
  }

  lemma SameTurbo(a: seq<Pad>, b: seq<Pad>)
    requires |a| == |b| && forall i :: 0 <= i < |a| ==> a[i].turbo == b[i].turbo
    ensures AnyTurbo(a) <==> AnyTurbo(b)
  {
    if i :| 0 <= i < |a| && a[i].turbo != 0 { assert b[i].turbo != 0; }
    if i :| 0 <= i < |b| && b[i].turbo != 0 { assert a[i].turbo != 0; }
  }

  lemma RewiredRest(h: Hub, i: nat, port: int)
    requires Shape(h) && i < |h.pads| && InRange(port)
    ensures var k := Rewired(h, i, port);
      k == h.(pads := k.pads, app := k.app) && k.app.touch == h.app.touch
  {
    hide OwnerOf;
  }

  lemma PhaseNeedsTimer(h: Hub)
    requires Shape(h)
    ensures h.phase ==> h.timer
  {
  }

  /** Evaluating pads whose masks are already those of their readings changes only what was sent. */
  lemma {:induction false} EvaluatedStays(h: Hub, n: nat)
    requires Shape(h) && TimerFits(h) && n <= |h.pads| && forall j :: 0 <= j < |h.pads| ==> Evaluated(h, j)
    ensures var g := EvaluateFirst(h, n); g == h.(app := g.app) && g.app.touch == h.app.touch
    decreases n
  {
    hide HeldMask, TurboMask, AnyTurbo, Reevaluated, Shape, Sent, KeepsMasks, Ports;
    PhaseNeedsTimer(h);
    if n > 0 {
      EvaluatedStays(h, n - 1);
      var k := EvaluateFirst(h, n - 1);
      EvaluateFirstFacts(h, n - 1);
      EvaluateFacts(k, n - 1);
      ReevaluatedPhase(k, n - 1);
      assert Evaluated(h, n - 1);
      assert Reevaluated(k, n - 1).pads == k.pads;
    }
  }
}
