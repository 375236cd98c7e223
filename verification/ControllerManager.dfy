/** The pad manager's mutable objects, proved method by method against the hub functions. */
module ControllerManager {
  import opened Common
  import opened NesButtons
  import opened InputFanIn
  import opened ControllerPorts

  lemma EveryPhysicalListed(pressed: set<PhysicalButton>)
    ensures forall p :: p in pressed ==> exists k :: 0 <= k < |ALL_PHYSICAL| && ALL_PHYSICAL[k] == p
  {
    forall p | p in pressed ensures exists k :: 0 <= k < |ALL_PHYSICAL| && ALL_PHYSICAL[k] == p {
      assert ALL_PHYSICAL[0] == South && ALL_PHYSICAL[1] == East && ALL_PHYSICAL[2] == West && ALL_PHYSICAL[3] == North;
      assert ALL_PHYSICAL[4] == L1 && ALL_PHYSICAL[5] == R1 && ALL_PHYSICAL[6] == L2 && ALL_PHYSICAL[7] == R2;
      assert ALL_PHYSICAL[8] == Menu && ALL_PHYSICAL[9] == Options;
      assert ALL_PHYSICAL[10] == DpadUp && ALL_PHYSICAL[11] == DpadDown;
      assert ALL_PHYSICAL[12] == DpadLeft && ALL_PHYSICAL[13] == DpadRight;
    }
  }

  /** One of the first `n` physical buttons is pressed and mapped to `input`. */
  ghost predicate DrivenBy(remap: ButtonRemap, r: Reading, n: int, input: ControllerInput) {
    exists k :: 0 <= k < n <= |ALL_PHYSICAL| && ALL_PHYSICAL[k] in r.pressed && Target(remap, ALL_PHYSICAL[k]) == input
  }

  lemma DrivenNone(remap: ButtonRemap, r: Reading)
    ensures forall input :: !DrivenBy(remap, r, 0, input)
  {
  }

  lemma DrivenStep(remap: ButtonRemap, r: Reading, n: nat)
    requires n < |ALL_PHYSICAL|
    ensures forall input :: DrivenBy(remap, r, n + 1, input) <==>
      (DrivenBy(remap, r, n, input) || (ALL_PHYSICAL[n] in r.pressed && Target(remap, ALL_PHYSICAL[n]) == input))
  {
    forall input ensures DrivenBy(remap, r, n + 1, input) <==>
      (DrivenBy(remap, r, n, input) || (ALL_PHYSICAL[n] in r.pressed && Target(remap, ALL_PHYSICAL[n]) == input)) {
      if DrivenBy(remap, r, n, input) {
        var k :| 0 <= k < n && ALL_PHYSICAL[k] in r.pressed && Target(remap, ALL_PHYSICAL[k]) == input;
        assert 0 <= k < n + 1;
      }
    }
  }

  lemma DrivenAll(remap: ButtonRemap, r: Reading)
    ensures forall input :: DrivenBy(remap, r, |ALL_PHYSICAL|, input) <==>
      (exists p :: p in r.pressed && Target(remap, p) == input)
  {
    hide Target;
    EveryPhysicalListed(r.pressed);
    forall input ensures DrivenBy(remap, r, |ALL_PHYSICAL|, input) <==>
      (exists p :: p in r.pressed && Target(remap, p) == input) {
      if p :| p in r.pressed && Target(remap, p) == input {
        var k :| 0 <= k < |ALL_PHYSICAL| && ALL_PHYSICAL[k] == p;
        assert ALL_PHYSICAL[k] in r.pressed;
      }
    }
  }

  lemma ShapeOf(h: Hub)
    requires Inv(h)
    ensures Shape(h) && h.app.Valid() && forall i :: 0 <= i < |h.pads| ==> InRange(h.pads[i].port)
  {
  }

  lemma AssignUnfolds(h: Hub, id: int, port: int)
    requires Inv(h)
    ensures var i := IndexOf(h.pads, id);
      if !InRange(port) || i == |h.pads| || h.pads[i].port == port then AfterAssign(h, id, port) == h
      else
        && Shape(Rewired(h, i, port))
        && var g := EvaluateFirst(Rewired(h, i, port), |h.pads|);
           AfterAssign(h, id, port) == g.(connected := SortByPort(Rows(g.pads)), saved := Persisted(g.saved, g.pads))
  {
    hide HeldMask, TurboMask, Mirrors, AnyTurbo, EvaluateFirst, Persisted, SortByPort, Rows, Rewired;
    var i := IndexOf(h.pads, id);
    if InRange(port) && i < |h.pads| && h.pads[i].port != port {
      RewiredShape(h, i, port);
    }
  }

  lemma ConnectUnfolds(h: Hub, d: Device, r: Reading)
    requires Inv(h)
    ensures if !Accepts(h, d) then AfterConnect(h, d, r) == h
      else
        var pads := Joined(h, d, r);
        var k := h.(pads := pads, saved := Persisted(h.saved, pads), connected := SortByPort(Rows(pads)));
        Shape(k) && AfterConnect(h, d, r) == Reevaluated(k, |h.pads|)
  {
    hide HeldMask, TurboMask, Mirrors, AnyTurbo, Reevaluated, Persisted, SortByPort, Rows;
    if Accepts(h, d) {
      ConnectShape(h, d, r);
    }
  }

  lemma DisconnectUnfolds(h: Hub, id: int)
    requires Inv(h)
    ensures var i := IndexOf(h.pads, id);
      if i == |h.pads| then AfterDisconnect(h, id) == h
      else Shape(Removed(h, i)) && AfterDisconnect(h, id) == Settled(Removed(h, i))
  {
    hide HeldMask, TurboMask, Mirrors, AnyTurbo, SortByPort, Rows, Settled, Removed;
    var i := IndexOf(h.pads, id);
    if i < |h.pads| {
      RemovedShape(h, i);
    }
  }

  lemma ChangeUnfolds(h: Hub, id: int, r: Reading)
    requires Inv(h)
    ensures var i := IndexOf(h.pads, id);
      if i == |h.pads| then AfterInput(h, id, r) == h
      else
        var k := h.(pads := h.pads[i := h.pads[i].(reading := r)]);
        Shape(k) && AfterInput(h, id, r) == Reevaluated(k, i)
  {
    hide HeldMask, TurboMask, Mirrors, AnyTurbo, Reevaluated;
    var i := IndexOf(h.pads, id);
    if i < |h.pads| {
      ShapeFrame(h, i, r);
    }
  }

  lemma ShapeFrame(h: Hub, i: nat, r: Reading)
    requires Shape(h)
    ensures i < |h.pads| ==> Shape(h.(pads := h.pads[i := h.pads[i].(reading := r)]))
    ensures h.timer ==> Shape(h.(phase := !h.phase))
  {
  }

  /** Releasing a port looks only at the app model. */
  lemma ReleaseFrame(h: Hub, g: Hub, port: int)
    requires h.app.Valid() && port >= 0 && g.app == h.app
    ensures Release(g, port) == g.(app := Release(h, port).app)
    ensures Release(h, port).app.Valid() && Release(h, port) == h.(app := Release(h, port).app)
  {
  }

  lemma {:induction false} FirstIndex(pads: seq<Pad>, id: int, i: nat)
    requires i <= |pads| && (i < |pads| ==> pads[i].device.id == id)
    requires forall j :: 0 <= j < i ==> pads[j].device.id != id
    ensures i == IndexOf(pads, id)
  {
  }

  lemma {:induction false} FirstOwner(pads: seq<Pad>, port: int, except: int, i: nat)
    requires i <= |pads| && (i < |pads| ==> pads[i].port == port && pads[i].device.id != except)
    requires forall j :: 0 <= j < i ==> !(pads[j].port == port && pads[j].device.id != except)
    ensures i == OwnerOf(pads, port, except)
  {
  }

  class Managed {
    const device: Device
    var reading: Reading
    var port: int
    var held: Mask
    var turbo: Mask

    constructor (device: Device, reading: Reading, port: int)
      ensures View() == Pad(device, reading, port, 0, 0)
    {
      this.device := device;
      this.reading := reading;
      this.port := port;
      held := 0;
      turbo := 0;
    }

    ghost function View(): Pad
      reads this
    {
      Pad(device, reading, port, held, turbo)
    }
  }

  class GameControllerManager {
    const sink: AppModel
    var managed: seq<Managed>
    var savedPorts: map<string, int>
    var remap: ButtonRemap
    var turboTimer: bool
    var turboPhase: bool
    var connected: seq<Row>

    ghost function Pads(): seq<Pad>
      reads this, managed
    {
      seq(|managed|, i requires 0 <= i < |managed| reads this, managed => managed[i].View())
    }

    ghost function View(): Hub
      reads this, managed, sink
    {
      Hub(Pads(), savedPorts, remap, turboTimer, turboPhase, connected, sink.View())
    }

    /** The managed pads are distinct objects. */
    ghost predicate Distinct()
      reads this
    {
      forall i, j :: 0 <= i < j < |managed| ==> managed[i] != managed[j]
    }

    constructor (sink: AppModel, savedPorts: map<string, int>, remap: ButtonRemap)
      requires sink.View().Valid() && sink.padMasks == [0, 0, 0, 0]
      ensures Distinct() && MemoryAgrees(View()) && View().app.Valid() && IdlePortsReleased(View())
      ensures Inv(View()) <==> forall n :: n in savedPorts ==> savedPorts[n] >= 0
      ensures this.sink == sink && View() == Hub([], savedPorts, remap, false, false, [], sink.View())
    {
      this.sink := sink;
      this.savedPorts := savedPorts;
      this.remap := remap;
      managed, connected := [], [];
      turboTimer, turboPhase := false, false;
    }

    method Emit(m: Managed, ghost i: nat)
      requires i < |managed| && managed[i] == m && View().app.Valid() && m.port >= 0
      modifies sink
      ensures View() == Emitted(old(View()), i)
    {
      var bits := m.held;
      if turboPhase {
        bits := bits | m.turbo;
      }
      sink.OnMaskChanged(m.port, bits);
    }

    method EmitAll(turboOnly: bool)
      requires Shape(View())
      modifies sink
      ensures View() == EmitFirst(old(View()), |managed|, turboOnly)
    {
      hide Emitted, SortByPort, Rows, Persisted, Ports;
      ghost var before := View();
      var n := 0;
      while n < |managed|
        invariant n <= |managed|
        invariant View() == EmitFirst(before, n, turboOnly)
      {
        var m := managed[n];
        assert Pads()[n] == m.View();
        if !turboOnly || m.turbo != 0 {
          Emit(m, n);
        }
        n := n + 1;
      }
    }

    method UpdateTurboTimer()
      requires Shape(View())
      modifies this`turboTimer, this`turboPhase, sink
      ensures View() == Settled(old(View()))
    {
      var anyTurbo := exists i :: 0 <= i < |managed| && managed[i].turbo != 0;
      assert anyTurbo == AnyTurbo(Pads()) by {
        forall i | 0 <= i < |managed| ensures Pads()[i].turbo == managed[i].turbo {
        }
        if anyTurbo {
          var i :| 0 <= i < |managed| && managed[i].turbo != 0;
          assert Pads()[i].turbo != 0;
        }
      }
      if anyTurbo && !turboTimer {
        turboTimer := true;
      } else if !anyTurbo && turboTimer {
        turboTimer := false;
        turboPhase := false;
        ghost var h := old(View());
        assert View() == h.(timer := false, phase := false);
        EmitAll(false);
      }
    }

    /** The mask loops of an evaluation: held buttons and turbo buttons of one reading. */
    method ReadMasks(r: Reading) returns (held: Mask, turbo: Mask)
      ensures held == HeldMask(remap, r) && turbo == TurboMask(remap, r)
    {
      hide DrivenBy, Set, Has;
      held, turbo := 0, 0;
      EmptyMask();
      DrivenNone(remap, r);
      var n := 0;
      while n < |ALL_PHYSICAL|
        invariant 0 <= n <= |ALL_PHYSICAL|
        invariant forall b :: Has(held, b) <==> DrivenBy(remap, r, n, Plain(b))
        invariant forall b :: Has(turbo, b) <==> b in {A, B} && DrivenBy(remap, r, n, TurboTarget(b))
      {
        var physical := ALL_PHYSICAL[n];
        DrivenStep(remap, r, n);
        if physical in r.pressed {
          match Target(remap, physical)
          case Plain(nes) => held := Set(held, nes, true);
          case TurboA => turbo := Set(turbo, A, true);
          case TurboB => turbo := Set(turbo, B, true);
          case Unmapped =>
        }
        n := n + 1;
      }
      DrivenAll(remap, r);
      if r.y > 0.5 { held := Set(held, Up, true); }
      if r.y < -0.5 { held := Set(held, Down, true); }
      if r.x < -0.5 { held := Set(held, Left, true); }
      if r.x > 0.5 { held := Set(held, Right, true); }
      assert forall b :: Has(held, b) <==> Held(remap, r, b);
      Extensional(held, HeldMask(remap, r));
      Extensional(turbo, TurboMask(remap, r));
    }

    method Evaluate(m: Managed, ghost i: nat)
      requires Distinct() && i < |managed| && managed[i] == m && Shape(View())
      modifies this`turboTimer, this`turboPhase, sink, m`held, m`turbo
      ensures View() == Reevaluated(old(View()), i)
    {
      hide HeldMask, TurboMask, Inv, Mirrors, SavedNonNegative, Evaluated, Sent, TimerFits, AnyTurbo, Settled, Current,
           Emitted, Ports, SortByPort, Rows, Persisted;
      assert Pads()[i] == m.View();
      if !m.device.extended {
        return;
      }
      var held, turbo := ReadMasks(m.reading);
      ghost var h := View();
      m.held := held;
      m.turbo := turbo;
      assert View() == h.(pads := h.pads[i := h.pads[i].(held := held, turbo := turbo)]);
      MasksKeepShape(h, i, held, turbo);
      EmitOne(View(), i);
      hide Shape;
      Emit(m, i);
      UpdateTurboTimer();
    }

    method EvaluateAll()
      requires Distinct() && Shape(View())
      modifies this`turboTimer, this`turboPhase, sink, managed
      ensures View() == EvaluateFirst(old(View()), |managed|)
    {
      hide HeldMask, TurboMask, Reevaluated, Settled, Shape;
      ghost var h := View();
      var n := 0;
      while n < |managed|
        invariant n <= |managed| && Distinct()
        invariant View() == EvaluateFirst(h, n)
      {
        Evaluate(managed[n], n);
        n := n + 1;
      }
    }

    method PersistPorts()
      modifies this`savedPorts
      ensures View() == old(View()).(saved := Persisted(old(savedPorts), old(Pads())))
    {
      var n := 0;
      ghost var pads := Pads();
      var ports := savedPorts;
      while n < |managed|
        invariant n <= |managed|
        invariant ports == Persisted(savedPorts, pads[..n])
      {
        var m := managed[n];
        assert pads[..n + 1][..n] == pads[..n] && pads[n] == m.View();
        if m.device.name.Some? {
          ports := ports[m.device.name.value := m.port];
        }
        n := n + 1;
      }
      assert pads[..n] == pads;
      savedPorts := ports;
    }

    method Refresh()
      modifies this`connected
      ensures View() == old(View()).(connected := SortByPort(Rows(old(Pads()))))
    {
      var n := 0;
      var rows: seq<Row> := [];
      ghost var all := Rows(Pads());
      while n < |managed|
        invariant n <= |managed|
        invariant rows == all[..n]
      {
        var m := managed[n];
        assert all[n] == RowOf(m.View());
        rows := rows + [Row(m.device.id, m.device.name, m.port)];
        n := n + 1;
      }
      assert rows == all;
      connected := SortByPort(rows);
    }

    method FindIndex(id: int) returns (i: nat)
      ensures i == IndexOf(Pads(), id)
    {
      i := 0;
      while i < |managed| && managed[i].device.id != id
        invariant i <= |managed|
        invariant forall j :: 0 <= j < i ==> managed[j].device.id != id
      {
        i := i + 1;
      }
      FirstIndex(Pads(), id, i);
    }

    method FindOwner(port: int, except: int) returns (i: nat)
      ensures i == OwnerOf(Pads(), port, except)
    {
      i := 0;
      while i < |managed| && !(managed[i].port == port && managed[i].device.id != except)
        invariant i <= |managed|
        invariant forall j :: 0 <= j < i ==> !(managed[j].port == port && managed[j].device.id != except)
      {
        i := i + 1;
      }
      FirstOwner(Pads(), port, except, i);
    }

    method ChoosePort(d: Device) returns (port: int)
      ensures port == PreferredPort(Pads(), savedPorts, d)
    {
      var used := set i | 0 <= i < |managed| :: managed[i].port;
      assert used == Ports(Pads()) by {
        forall i | 0 <= i < |managed| ensures Pads()[i].port == managed[i].port {
        }
      }
      if d.name.Some? && d.name.value in savedPorts && savedPorts[d.name.value] !in used
         && savedPorts[d.name.value] < MAX_PLAYERS {
        return savedPorts[d.name.value];
      }
      return LowestFree(used, 0);
    }

    method Connect(d: Device, r: Reading)
      requires Distinct() && Inv(View())
      modifies this, sink, managed
      ensures Distinct() && Inv(View())
      ensures View() == AfterConnect(old(View()), d, r)
    {
      hide HeldMask, TurboMask, Inv, Mirrors, SavedNonNegative, Evaluated, Sent, TimerFits, AnyTurbo, Settled,
           Reevaluated, EvaluateFirst, Persisted, SortByPort, Rows, Ports, Current;
      ghost var h := View();
      ShapeOf(h);
      ConnectKeeps(h, d, r);
      ConnectUnfolds(h, d, r);
      hide AfterConnect, Shape, PreferredPort;
      if |managed| >= MAX_PLAYERS {
        return;
      }
      var at := FindIndex(d.id);
      if at < |managed| || !d.extended {
        return;
      }
      var port := ChoosePort(d);
      Admit(d, r, port);
    }

    /** A connection once it is accepted and its port chosen. */
    method Admit(d: Device, r: Reading, port: int)
      requires Distinct()
      requires var pads := Pads() + [Pad(d, r, port, 0, 0)];
        Shape(View().(pads := pads, saved := Persisted(savedPorts, pads), connected := SortByPort(Rows(pads))))
      modifies this`managed, this`savedPorts, this`connected, this`turboTimer, this`turboPhase, sink
      ensures Distinct()
      ensures var pads := old(Pads()) + [Pad(d, r, port, 0, 0)];
        View() == Reevaluated(old(View()).(pads := pads, saved := Persisted(old(savedPorts), pads),
                                           connected := SortByPort(Rows(pads))), |old(managed)|)
    {
      hide HeldMask, TurboMask, Reevaluated, Persisted, SortByPort, Rows, Shape;
      var m := Add(d, r, port);
      PersistPorts();
      Refresh();
      Evaluate(m, |managed| - 1);
    }

    method Add(d: Device, r: Reading, port: int) returns (m: Managed)
      requires Distinct()
      modifies this`managed
      ensures fresh(m) && Distinct() && managed == old(managed) + [m]
      ensures View() == old(View()).(pads := old(Pads()) + [Pad(d, r, port, 0, 0)])
    {
      m := new Managed(d, r, port);
      managed := managed + [m];
      assert Pads() == old(Pads()) + [m.View()];
    }

    method RemoveAt(index: nat)
      requires Distinct() && index < |managed|
      modifies this`managed
      ensures Distinct() && View() == old(View()).(pads := Without(old(Pads()), index))
    {
      managed := managed[..index] + managed[index + 1..];
      assert forall j :: 0 <= j < |managed| ==> managed[j] == old(managed)[if j < index then j else j + 1];
    }

    method Disconnect(id: int)
      requires Distinct() && Inv(View())
      modifies this, sink
      ensures Distinct() && Inv(View())
      ensures View() == AfterDisconnect(old(View()), id)
    {
      hide HeldMask, TurboMask, Inv, Mirrors, SavedNonNegative, Evaluated, Sent, TimerFits, AnyTurbo, Settled,
           Reevaluated, EvaluateFirst, Persisted, SortByPort, Rows, Ports, Current, AfterDisconnect, Removed,
           IndexOf, Release;
      ghost var h := View();
      ShapeOf(h);
      DisconnectKeeps(h, id);
      DisconnectUnfolds(h, id);
      hide Shape;
      var index := FindIndex(id);
      if index == |managed| {
        return;
      }
      assert managed[index].View() == h.pads[index];
      Drop(index);
      UpdateTurboTimer();
    }

    /** A disconnection before the timer settles: the pad goes, its port is released. */
    method Drop(index: nat)
      requires Distinct() && index < |managed| && sink.View().Valid() && managed[index].port >= 0
      modifies this`managed, this`connected, sink
      ensures Distinct() && View() == Removed(old(View()), index)
    {
      hide SortByPort, Rows, Release;
      ghost var h := View();
      var port := managed[index].port;
      assert managed[index].View() == h.pads[index];
      RemoveAt(index);
      ReleaseFrame(h, View(), port);
      ReleasePort(port);
      Refresh();
    }

    method SetPort(i: nat, port: int)
      requires Distinct() && i < |managed|
      modifies managed
      ensures View() == old(View()).(pads := old(Pads())[i := old(Pads())[i].(port := port)])
    {
      ghost var pads := Pads();
      managed[i].port := port;
      assert Pads() == pads[i := pads[i].(port := port)];
    }

    method ReleasePort(port: int)
      requires sink.View().Valid() && port >= 0
      modifies sink
      ensures View() == Release(old(View()), port)
    {
      sink.OnMaskChanged(port, 0);
    }

    /** The swap: the owner of the wanted port takes the old one, which is released. */
    method GiveWay(o: nat, previous: int)
      requires Distinct() && o < |managed| && sink.View().Valid() && previous >= 0
      modifies sink, managed
      ensures View() == Release(old(View()), previous).(pads := old(Pads())[o := old(Pads())[o].(port := previous)])
    {
      hide Release;
      SetPort(o, previous);
      ReleaseFrame(old(View()), View(), previous);
      ReleasePort(previous);
    }

    /** The move: the wanted port is released and taken. */
    method Take(i: nat, port: int)
      requires Distinct() && i < |managed| && sink.View().Valid() && port >= 0
      modifies sink, managed
      ensures View() == Release(old(View()), port).(pads := old(Pads())[i := old(Pads())[i].(port := port)])
    {
      hide Release;
      ReleasePort(port);
      ReleaseFrame(old(View()), old(View()), port);
      SetPort(i, port);
    }

    /** The rewiring half of a reassignment: release and rewrite the ports of target and owner. */
    method Rewire(i: nat, o: nat, port: int)
      requires Distinct() && i < |managed| && sink.View().Valid() && managed[i].port >= 0 && 0 <= port < MAX_PLAYERS
      requires o == OwnerOf(Pads(), port, managed[i].device.id)
      modifies sink, managed
      ensures View() == Rewired(old(View()), i, port)
    {
      hide OwnerOf;
      var previous := managed[i].port;
      assert previous == Pads()[i].port && managed[i].device == Pads()[i].device;
      if o < |managed| {
        GiveWay(o, previous);
      }
      Take(i, port);
    }

    /** A reassignment once its pad and the port's owner are found. */
    method Move(i: nat, o: nat, port: int)
      requires Distinct() && i < |managed| && sink.View().Valid() && managed[i].port >= 0 && 0 <= port < MAX_PLAYERS
      requires o == OwnerOf(Pads(), port, managed[i].device.id)
      requires Shape(Rewired(View(), i, port))
      modifies this`turboTimer, this`turboPhase, this`connected, this`savedPorts, sink, managed
      ensures var g := EvaluateFirst(Rewired(old(View()), i, port), |managed|);
        View() == g.(connected := SortByPort(Rows(g.pads)), saved := Persisted(g.saved, g.pads))
    {
      hide HeldMask, TurboMask, EvaluateFirst, Persisted, SortByPort, Rows, Rewired, Shape, OwnerOf;
      Rewire(i, o, port);
      EvaluateAll();
      ghost var g := View();
      Refresh();
      PersistPorts();
      assert View() == g.(connected := SortByPort(Rows(g.pads)), saved := Persisted(g.saved, g.pads));
    }

    method Assign(id: int, port: int)
      requires Distinct() && Inv(View())
      modifies this, sink, managed
      ensures Distinct() && Inv(View())
      ensures View() == AfterAssign(old(View()), id, port)
    {
      hide HeldMask, TurboMask, Inv, Mirrors, SavedNonNegative, Evaluated, Sent, TimerFits, AnyTurbo, Settled,
           Reevaluated, EvaluateFirst, Persisted, SortByPort, Rows, Ports, Rewired, Current, AfterAssign, Shape,
           IndexOf, OwnerOf, FanIn.Valid, Emitted, Release;
      ghost var h := View();
      ShapeOf(h);
      AssignKeeps(h, id, port);
      AssignUnfolds(h, id, port);
      if port < 0 || port >= MAX_PLAYERS {
        return;
      }
      var i := FindIndex(id);
      if i == |managed| || managed[i].port == port {
        return;
      }
      var o := FindOwner(port, id);
      assert h.pads[i] == managed[i].View();
      Move(i, o, port);
    }

    /** The value handler of a pad whose live reading changed. */
    method InputChanged(id: int, r: Reading)
      requires Distinct() && Inv(View())
      modifies this, sink, managed
      ensures Distinct() && Inv(View())
      ensures View() == AfterInput(old(View()), id, r)
    {
      hide HeldMask, TurboMask, Inv, Mirrors, SavedNonNegative, Evaluated, Sent, TimerFits, AnyTurbo, Settled,
           Reevaluated, EvaluateFirst, Persisted, SortByPort, Rows, Ports, Current, AfterInput, IndexOf, Shape;
      ghost var h := View();
      ChangedKeeps(h, id, r);
      ChangeUnfolds(h, id, r);
      var i := FindIndex(id);
      if i == |managed| {
        return;
      }
      managed[i].reading := r;
      assert Pads() == h.pads[i := h.pads[i].(reading := r)];
      Evaluate(managed[i], i);
    }

    method SetRemap(remap: ButtonRemap)
      requires Distinct() && Inv(View())
      modifies this, sink, managed
      ensures Distinct() && Inv(View())
      ensures View() == AfterRemap(old(View()), remap)
    {
      hide HeldMask, TurboMask, Inv, Mirrors, SavedNonNegative, Evaluated, Sent, TimerFits, AnyTurbo, Settled,
           Reevaluated, EvaluateFirst;
      ghost var h := View();
      ShapeOf(h);
      RemapKeeps(h, remap);
      this.remap := remap;
      assert View() == h.(remap := remap);
      EvaluateAll();
    }

    method TimerFires()
      requires Distinct() && Inv(View())
      modifies this, sink
      ensures Distinct() && Inv(View())
      ensures View() == TimerFired(old(View()))
    {
      hide HeldMask, TurboMask, Inv, Mirrors, SavedNonNegative, Evaluated, Sent, TimerFits, AnyTurbo;
      ghost var h := View();
      ShapeOf(h);
      TimerKeeps(h);
      ShapeFrame(h, 0, Reading({}, 0.0, 0.0));
      if !turboTimer {
        return;
      }
      turboPhase := !turboPhase;
      assert View() == h.(phase := !h.phase);
      EmitAll(true);
    }
  }
}
