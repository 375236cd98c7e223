/** The input fan-in of the app model: one mask per port from the hardware pads, one mask from
    the multi-touch pad, merged into the running core; and the multi-touch surface itself. */
module InputFanIn {
  import opened Common
  import opened NesButtons

  const MAX_PLAYERS := 4

  /** `core` holds the port masks of the running core, or None on the library screen. */
  datatype FanIn = FanIn(touch: Mask, pads: seq<Mask>, core: Option<seq<Mask>>) {
    ghost predicate Valid() {
      |pads| == MAX_PLAYERS && (core.Some? ==> |core.value| == MAX_PLAYERS)
    }

    /** The mask port `p` should carry: touch joins the first pad, the others stand alone. */
    function Merged(p: nat): Mask
      requires Valid() && p < MAX_PLAYERS
    {
      if p == 0 then touch | pads[0] else pads[p]
    }

    function Pushed(p: nat): FanIn
      requires Valid() && p < MAX_PLAYERS
    {
      if core.Some? then this.(core := Some(core.value[p := Merged(p)])) else this
    }

    function PadMask(p: nat, mask: Mask): FanIn
      requires Valid()
    {
      if p < MAX_PLAYERS then this.(pads := pads[p := mask]).Pushed(p) else this
    }

    function TouchMask(mask: Mask): FanIn
      requires Valid()
    {
      this.(touch := mask).Pushed(0)
    }

    function OpenGame(): FanIn {
      this.(core := Some([0, 0, 0, 0]))
    }

    function CloseGame(): FanIn {
      this.(core := None)
    }

    ghost predicate AgreesAt(p: int)
      requires Valid() && 0 <= p < MAX_PLAYERS
    {
      core.Some? ==> core.value[p] == Merged(p)
    }

    /** The running core agrees with the merged masks on the ports in `ps`. */
    ghost predicate Agrees(ps: set<int>)
      requires Valid()
    {
      forall p :: 0 <= p < MAX_PLAYERS && p in ps ==> AgreesAt(p)
    }
  }

  class AppModel {
    var touchMask: Mask
    var padMasks: seq<Mask>
    var emulatorPorts: Option<seq<Mask>>

    ghost function View(): FanIn
      reads this
    {
      FanIn(touchMask, padMasks, emulatorPorts)
    }

    constructor ()
      ensures View() == FanIn(0, [0, 0, 0, 0], None)
    {
      touchMask := 0;
      padMasks := [0, 0, 0, 0];
      emulatorPorts := None;
    }

    method PushInput(port: nat)
      requires View().Valid() && port < MAX_PLAYERS
      modifies this
      ensures View() == old(View()).Pushed(port)
    {
      if emulatorPorts.None? {
        return;
      }
      if port == 0 {
        emulatorPorts := Some(emulatorPorts.value[0 := touchMask | padMasks[0]]);
      } else {
        emulatorPorts := Some(emulatorPorts.value[port := padMasks[port]]);
      }
    }

    /** The pad manager's mask callback. */
    method OnMaskChanged(port: nat, mask: Mask)
      requires View().Valid()
      modifies this
      ensures View() == old(View()).PadMask(port, mask)
    {
      if port >= |padMasks| {
        return;
      }
      padMasks := padMasks[port := mask];
      PushInput(port);
    }

    /** The touch pad's callback; `tap` is the haptic fired on a newly pressed button. */
    method SetTouchMask(mask: Mask) returns (tap: bool)
      requires View().Valid()
      modifies this
      ensures View() == old(View()).TouchMask(mask)
      ensures tap <==> exists b :: Has(mask, b) && !Has(old(touchMask), b)
    {
      hide Has;
      var newlyPressed := mask & (0xFF ^ touchMask);
      tap := newlyPressed != 0;
      NewlyPressed(mask, touchMask);
      touchMask := mask;
      PushInput(0);
    }

    method OpenGame()
      modifies this
      ensures View() == old(View()).OpenGame()
    {
      emulatorPorts := Some([0, 0, 0, 0]);
    }
  }

  // ---- Runs of the fan-in ----

  datatype AppEvent =
    | PadMask(port: nat, mask: Mask)
    | TouchMask(mask: Mask)
    | OpenGame
    | CloseGame

  function AppStep(f: FanIn, e: AppEvent): (g: FanIn)
    requires f.Valid()
    ensures g.Valid()
  {
    match e
    case PadMask(port, mask) => f.PadMask(port, mask)
    case TouchMask(mask) => f.TouchMask(mask)
    case OpenGame => f.OpenGame()
    case CloseGame => f.CloseGame()
  }

  ghost function AppRun(f: FanIn, es: seq<AppEvent>): (g: FanIn)
    requires f.Valid()
    ensures g.Valid()
    decreases |es|
  {
    if es == [] then f else AppRun(AppStep(f, es[0]), es[1..])
  }

  /** The ports an event pushes to the core. */
  function Pushes(e: AppEvent): set<int> {
    match e
    case PadMask(port, _) => {port}
    case TouchMask(_) => {0}
    case _ => {}
  }

  /** The ports pushed since the last game was opened, given those already pushed. */
  ghost function PushedInRun(ps: set<int>, es: seq<AppEvent>): set<int>
    decreases |es|
  {
    if es == [] then ps
    else PushedInRun(if es[0].OpenGame? then {} else ps + Pushes(es[0]), es[1..])
  }

  lemma MergedElsewhere(f: FanIn, port: nat, mask: Mask)
    requires f.Valid() && port < MAX_PLAYERS
    ensures var k := f.(pads := f.pads[port := mask]);
      k.Valid() && forall p :: 0 <= p < MAX_PLAYERS && p != port ==> k.Merged(p) == f.Merged(p)
  {
  }

  lemma MergedFrame(f: FanIn, g: FanIn)
    requires f.Valid() && g.Valid() && g.touch == f.touch && g.pads == f.pads
    ensures forall p :: 0 <= p < MAX_PLAYERS ==> g.Merged(p) == f.Merged(p)
  {
  }

  lemma TouchElsewhere(f: FanIn, mask: Mask)
    requires f.Valid()
    ensures var k := f.(touch := mask);
      k.Valid() && forall p :: 0 < p < MAX_PLAYERS ==> k.Merged(p) == f.Merged(p)
  {
  }

  /** Pushing a port makes it agree, and keeps every other port whose merged mask did not change. */
  lemma PushAgrees(f: FanIn, g: FanIn, ps: set<int>, port: nat)
    requires f.Valid() && g.Valid() && f.Agrees(ps) && g.core == f.core && port < MAX_PLAYERS
    requires forall p :: 0 <= p < MAX_PLAYERS && p != port ==> g.Merged(p) == f.Merged(p)
    ensures g.Pushed(port).Agrees(ps + {port})
  {
    hide FanIn.Merged;
    MergedFrame(g, g.Pushed(port));
  }

  lemma AppEventKeepsAgreement(f: FanIn, ps: set<int>, e: AppEvent)
    requires f.Valid() && f.Agrees(ps)
    ensures AppStep(f, e).Agrees(if e.OpenGame? then {} else ps + Pushes(e))
  {
    hide FanIn.Merged, FanIn.Pushed;
    match e
    case PadMask(port, mask) =>
      if port < MAX_PLAYERS {
        MergedElsewhere(f, port, mask);
        PushAgrees(f, f.(pads := f.pads[port := mask]), ps, port);
      }
    case TouchMask(mask) =>
      TouchElsewhere(f, mask);
      PushAgrees(f, f.(touch := mask), ps, 0);
    case _ =>
  }

  /** On every run the core carries, on each port pushed since its game opened, the last touch
      mask joined with the last pad mask (port 0) or the last pad mask alone. */
  lemma {:induction false} CoreFollowsInput(f: FanIn, ps: set<int>, es: seq<AppEvent>)
    requires f.Valid() && f.Agrees(ps)
    ensures AppRun(f, es).Agrees(PushedInRun(ps, es))
    decreases |es|
  {
    if es != [] {
      AppEventKeepsAgreement(f, ps, es[0]);
      CoreFollowsInput(AppStep(f, es[0]), if es[0].OpenGame? then {} else ps + Pushes(es[0]), es[1..]);
    }
  }

  function LastTouch(es: seq<AppEvent>, was: Mask): Mask {
    if es == [] then was else LastTouch(es[1..], if es[0].TouchMask? then es[0].mask else was)
  }

  function LastPad(es: seq<AppEvent>, p: nat, was: Mask): Mask {
    if es == [] then was
    else LastPad(es[1..], p, if es[0].PadMask? && es[0].port == p then es[0].mask else was)
  }

  function GameIsOpen(es: seq<AppEvent>, was: bool): bool {
    if es == [] then was
    else GameIsOpen(es[1..], if es[0].OpenGame? then true else if es[0].CloseGame? then false else was)
  }

  /** The masks remembered are the last ones told, and there is a core while a game is open. */
  lemma {:induction false} LastMasksAreRemembered(f: FanIn, es: seq<AppEvent>)
    requires f.Valid()
    ensures var g := AppRun(f, es);
      && g.touch == LastTouch(es, f.touch) && (forall p :: 0 <= p < 4 ==> g.pads[p] == LastPad(es, p, f.pads[p]))
      && (g.core.Some? <==> GameIsOpen(es, f.core.Some?))
    decreases |es|
  {
    hide AppStep;
    if es != [] {
      OneMask(f, es[0]);
      LastMasksAreRemembered(AppStep(f, es[0]), es[1..]);
    }
  }

  lemma OneMask(f: FanIn, e: AppEvent)
    requires f.Valid()
    ensures var g := AppStep(f, e);
      && g.touch == (if e.TouchMask? then e.mask else f.touch)
      && (forall p :: 0 <= p < 4 ==> g.pads[p] == if e.PadMask? && e.port == p then e.mask else f.pads[p])
      && (g.core.Some? <==> if e.OpenGame? then true else if e.CloseGame? then false else f.core.Some?)
  {
    hide FanIn.Merged;
  }

  /** Opening a game forwards nothing: the fresh core already agrees on every port exactly when
      nothing is held, so a button held across the opening is missed until its next change. */
  lemma OpeningAgreesIffNothingHeld(f: FanIn)
    requires f.Valid()
    ensures f.OpenGame().Agrees({0, 1, 2, 3}) <==> f.touch == 0 && f.pads == [0, 0, 0, 0]
  {
    var g := f.OpenGame();
    if g.Agrees({0, 1, 2, 3}) {
      assert 0 in {0, 1, 2, 3} && 1 in {0, 1, 2, 3} && 2 in {0, 1, 2, 3} && 3 in {0, 1, 2, 3};
      assert g.AgreesAt(0) && g.AgreesAt(1) && g.AgreesAt(2) && g.AgreesAt(3);
      assert g.Merged(0) == 0 && g.Merged(1) == 0 && g.Merged(2) == 0 && g.Merged(3) == 0;
      assert f.touch == 0 && f.pads[0] == 0;
    }
  }

  // ---- The multi-touch surface ----

  /** The drawable size; the pad is laid out in fractions of it. */
  datatype Size = Size(w: real, h: real)

  datatype Point = Point(x: real, y: real)

  function Abs(x: real): real {
    if x < 0.0 then -x else x
  }

  predicate InCircle(p: Point, cx: real, cy: real, r: real) {
    r > 0.0 && (p.x - cx) * (p.x - cx) + (p.y - cy) * (p.y - cy) < r * r
  }

  predicate InBox(p: Point, cx: real, cy: real, halfW: real, halfH: real) {
    Abs(p.x - cx) < halfW && Abs(p.y - cy) < halfH
  }

  /** The hit region of each button (the cross is a square with a dead zone per axis). */
  predicate Hits(p: Point, s: Size, b: NesButton) {
    var dx, dy, dz := p.x - 0.165 * s.w, p.y - 0.59 * s.h, 0.05 * s.h;
    var onCross := InBox(p, 0.165 * s.w, 0.59 * s.h, 0.225 * s.h, 0.225 * s.h);
    match b
    case Up => onCross && dy < -dz
    case Down => onCross && dy > dz
    case Left => onCross && dx < -dz
    case Right => onCross && dx > dz
    case A => InCircle(p, 0.831 * s.w, 0.707 * s.h, 0.082 * s.w)
    case B => InCircle(p, 0.703 * s.w, 0.707 * s.h, 0.082 * s.w)
    case Select => InBox(p, 0.393 * s.w, 0.708 * s.h, 0.055 * s.w, 0.075 * s.h)
    case Start => InBox(p, 0.530 * s.w, 0.708 * s.h, 0.055 * s.w, 0.075 * s.h)
  }

  /** The regions written out: two discs, two boxes, and four arms of a square around the cross. */
  lemma Regions(p: Point, s: Size)
    ensures Hits(p, s, A) <==>
      s.w > 0.0 && (p.x - 0.831 * s.w) * (p.x - 0.831 * s.w) + (p.y - 0.707 * s.h) * (p.y - 0.707 * s.h)
                   < 0.082 * s.w * (0.082 * s.w)
    ensures Hits(p, s, B) <==>
      s.w > 0.0 && (p.x - 0.703 * s.w) * (p.x - 0.703 * s.w) + (p.y - 0.707 * s.h) * (p.y - 0.707 * s.h)
                   < 0.082 * s.w * (0.082 * s.w)
    ensures Hits(p, s, Select) <==>
      0.338 * s.w < p.x < 0.448 * s.w && 0.633 * s.h < p.y < 0.783 * s.h
    ensures Hits(p, s, Start) <==>
      0.475 * s.w < p.x < 0.585 * s.w && 0.633 * s.h < p.y < 0.783 * s.h
    ensures var inSquare := 0.165 * s.w - 0.225 * s.h < p.x < 0.165 * s.w + 0.225 * s.h
                            && 0.365 * s.h < p.y < 0.815 * s.h;
      && (Hits(p, s, Up) <==> inSquare && p.y < 0.54 * s.h)
      && (Hits(p, s, Down) <==> inSquare && p.y > 0.64 * s.h)
      && (Hits(p, s, Left) <==> inSquare && p.x < 0.165 * s.w - 0.05 * s.h)
      && (Hits(p, s, Right) <==> inSquare && p.x > 0.165 * s.w + 0.05 * s.h)
  {
  }

  /** Every drawn button is hit where it is drawn: the discs and pills everywhere, the arms of the cross
      outside the dead zone. */
  lemma DrawnButtonsAreHit(p: Point, s: Size)
    requires s.w > 0.0 && s.h > 0.0
    ensures var w, h, x, y := s.w, s.h, p.x, p.y;
      && ((x - 0.831 * w) * (x - 0.831 * w) + (y - 0.707 * h) * (y - 0.707 * h) <= 0.046 * w * (0.046 * w) ==>
            Hits(p, s, A))
      && ((x - 0.703 * w) * (x - 0.703 * w) + (y - 0.707 * h) * (y - 0.707 * h) <= 0.046 * w * (0.046 * w) ==>
            Hits(p, s, B))
      && (0.3535 * w <= x <= 0.4325 * w && 0.672 * h <= y <= 0.744 * h ==> Hits(p, s, Select))
      && (0.4905 * w <= x <= 0.5695 * w && 0.672 * h <= y <= 0.744 * h ==> Hits(p, s, Start))
    ensures var across, down := p.x - 0.165 * s.w, p.y - 0.59 * s.h;
      && (-0.07 * s.h <= across <= 0.07 * s.h && -0.216 * s.h <= down <= 0.0 ==>
            (Hits(p, s, Up) <==> down < -0.05 * s.h))
      && (-0.07 * s.h <= across <= 0.07 * s.h && 0.0 <= down <= 0.216 * s.h ==>
            (Hits(p, s, Down) <==> down > 0.05 * s.h))
      && (-0.216 * s.h <= across <= 0.0 && -0.07 * s.h <= down <= 0.07 * s.h ==>
            (Hits(p, s, Left) <==> across < -0.05 * s.h))
      && (0.0 <= across <= 0.216 * s.h && -0.07 * s.h <= down <= 0.07 * s.h ==>
            (Hits(p, s, Right) <==> across > 0.05 * s.h))
  {
    DrawnDisc(p, 0.831 * s.w, 0.707 * s.h, s.w);
    DrawnDisc(p, 0.703 * s.w, 0.707 * s.h, s.w);
    hide InCircle;
  }

  lemma DrawnDisc(p: Point, cx: real, cy: real, w: real)
    requires w > 0.0
    ensures (p.x - cx) * (p.x - cx) + (p.y - cy) * (p.y - cy) <= 0.046 * w * (0.046 * w) ==>
      InCircle(p, cx, cy, 0.082 * w)
  {
    var d := (p.x - cx) * (p.x - cx) + (p.y - cy) * (p.y - cy);
    WiderDisc(d, 0.046 * w, 0.082 * w);
    assert InCircle(p, cx, cy, 0.082 * w) <==> 0.082 * w > 0.0 && d < 0.082 * w * (0.082 * w);
    hide InCircle;
  }

  lemma WiderDisc(d: real, a: real, b: real)
    requires 0.0 < a < b
    ensures d <= a * a ==> d < b * b
  {
    assert a * a < a * b < b * b;
  }

  /** No point presses opposite directions. */
  lemma OppositesExclude(p: Point, s: Size)
    requires s.h >= 0.0
    ensures !(Hits(p, s, Up) && Hits(p, s, Down)) && !(Hits(p, s, Left) && Hits(p, s, Right))
  {
    Regions(p, s);
    hide Hits;
  }

  /** The pill that toggles the menu; a half-open rectangle. */
  predicate InPill(p: Point, s: Size) {
    var lw, lh := 0.185 * s.w, 0.105 * s.h;
    var left, top := (0.703 + 0.831) / 2.0 * s.w - lw / 2.0, 0.33 * s.h - lh / 2.0;
    left <= p.x < left + lw && top <= p.y < top + lh
  }

  lemma PillRegion(p: Point, s: Size)
    ensures InPill(p, s) <==> 0.6745 * s.w <= p.x < 0.8595 * s.w && 0.2775 * s.h <= p.y < 0.3825 * s.h
  {
  }

  method HitTest(p: Point, s: Size) returns (mask: Mask)
    ensures forall b :: Has(mask, b) <==> Hits(p, s, b)
  {
    hide InCircle, InBox;
    EmptyMask();
    mask := 0;
    if InBox(p, 0.165 * s.w, 0.59 * s.h, 0.225 * s.h, 0.225 * s.h) {
      var dz := 0.05 * s.h;
      var dx, dy := p.x - 0.165 * s.w, p.y - 0.59 * s.h;
      mask := Set(mask, Up, dy < -dz);
      mask := Set(mask, Down, dy > dz);
      mask := Set(mask, Left, dx < -dz);
      mask := Set(mask, Right, dx > dz);
    }
    mask := Set(mask, A, InCircle(p, 0.831 * s.w, 0.707 * s.h, 0.082 * s.w));
    mask := Set(mask, B, InCircle(p, 0.703 * s.w, 0.707 * s.h, 0.082 * s.w));
    mask := Set(mask, Select, InBox(p, 0.393 * s.w, 0.708 * s.h, 0.055 * s.w, 0.075 * s.h));
    mask := Set(mask, Start, InBox(p, 0.530 * s.w, 0.708 * s.h, 0.055 * s.w, 0.075 * s.h));
  }

  /** One finger, as an event reports it: `down` for the began, moved and stationary phases. */
  datatype Touch = Touch(id: int, at: Point, onView: bool, down: bool)

  ghost predicate Presses(t: Touch, pill: set<int>, s: Size, b: NesButton) {
    t.onView && t.down && t.id !in pill && Hits(t.at, s, b)
  }

  ghost predicate Pressed(all: set<Touch>, pill: set<int>, s: Size, b: NesButton) {
    exists t :: t in all && Presses(t, pill, s, b)
  }

  /** A button is in the combined mask exactly when some live finger that the pill does not own
      is on it. */
  ghost function CombinedMask(all: set<Touch>, pill: set<int>, s: Size): Mask {
    MaskOf(b => Pressed(all, pill, s, b))
  }

  lemma NothingPressed(pill: set<int>, s: Size)
    ensures forall b :: !Pressed({}, pill, s, b)
  {
  }

  lemma CombinedMaskIs(m: Mask, all: set<Touch>, pill: set<int>, s: Size)
    requires forall b :: Has(m, b) <==> Pressed(all, pill, s, b)
    ensures m == CombinedMask(all, pill, s)
  {
    MaskOfIs(m, b => Pressed(all, pill, s, b));
  }

  class MultiTouchPadView {
    const app: AppModel
    const bounds: Size
    var lastBits: Mask
    var pillTouches: set<int>

    constructor (app: AppModel, bounds: Size)
      ensures this.app == app && this.bounds == bounds && lastBits == 0 && pillTouches == {}
    {
      this.app := app;
      this.bounds := bounds;
      lastBits := 0;
      pillTouches := {};
    }

    /** The pad and the app model agree on what the fingers press. */
    ghost predicate Valid()
      reads this, app
    {
      app.View().Valid() && app.touchMask == lastBits
    }

    method Recompute(all: set<Touch>)
      requires Valid()
      modifies this`lastBits, app
      ensures Valid()
      ensures lastBits == CombinedMask(all, pillTouches, bounds)
      ensures app.View() == if lastBits == old(lastBits) then old(app.View())
                            else old(app.View()).TouchMask(lastBits)
    {
      var mask: Mask := 0;
      EmptyMask();
      NothingPressed(pillTouches, bounds);
      hide Pressed, CombinedMask, Has, FanIn.Merged;
      var rest := all;
      assert all - rest == {};
      while rest != {}
        invariant rest <= all && lastBits == old(lastBits) && app.View() == old(app.View())
        invariant forall b :: Has(mask, b) <==> Pressed(all - rest, pillTouches, bounds, b)
        decreases rest
      {
        var t :| t in rest;
        ghost var done := all - rest;
        rest := rest - {t};
        assert all - rest == done + {t};
        if t.onView && t.id !in pillTouches && t.down {
          var hit := HitTest(t.at, bounds);
          mask := Union(mask, hit);
        }
        forall b ensures Has(mask, b) <==> Pressed(all - rest, pillTouches, bounds, b) {
          PressedJoins(done, t, pillTouches, bounds, b);
        }
      }
      assert all - rest == all;
      CombinedMaskIs(mask, all, pillTouches, bounds);
      if mask == lastBits {
        return;
      }
      lastBits := mask;
      var _ := app.SetTouchMask(mask);
    }

    method TouchesBegan(touches: set<Touch>, all: set<Touch>)
      requires Valid()
      modifies this, app
      ensures Valid()
      ensures pillTouches == old(pillTouches) + (set t | t in touches && InPill(t.at, bounds) :: t.id)
      ensures lastBits == CombinedMask(all, pillTouches, bounds)
    {
      pillTouches := pillTouches + (set t | t in touches && InPill(t.at, bounds) :: t.id);
      Recompute(all);
    }

    method TouchesMoved(all: set<Touch>)
      requires Valid()
      modifies this, app
      ensures Valid() && pillTouches == old(pillTouches)
      ensures lastBits == CombinedMask(all, pillTouches, bounds)
    {
      Recompute(all);
    }

    /** Ended and cancelled touches are handled alike. */
    method TouchesEnded(touches: set<Touch>, all: set<Touch>)
      requires Valid()
      modifies this, app
      ensures Valid()
      ensures pillTouches == old(pillTouches) - (set t | t in touches :: t.id)
      ensures lastBits == CombinedMask(all, pillTouches, bounds)
    {
      pillTouches := pillTouches - (set t | t in touches :: t.id);
      Recompute(all);
    }
  }

  lemma NoFingerNoPress(pill: set<int>, s: Size, b: NesButton)
    ensures !Pressed({}, pill, s, b)
  {
  }

  lemma PressedJoins(all: set<Touch>, t: Touch, pill: set<int>, s: Size, b: NesButton)
    ensures Pressed(all + {t}, pill, s, b) == (Pressed(all, pill, s, b) || Presses(t, pill, s, b))
  {
    hide Presses;
    if Presses(t, pill, s, b) { assert t in all + {t}; }
    if u :| u in all && Presses(u, pill, s, b) { assert u in all + {t}; }
  }

  /** Far-apart fingers are all honoured: adding one finger to an event joins its buttons in. */
  lemma FingersJoin(all: set<Touch>, t: Touch, pill: set<int>, s: Size)
    ensures CombinedMask(all + {t}, pill, s) == Union(CombinedMask(all, pill, s), CombinedMask({t}, pill, s))
  {
    hide Pressed, Presses, Has, Set, Union;
    forall b ensures Has(CombinedMask(all + {t}, pill, s), b)
                  == Has(Union(CombinedMask(all, pill, s), CombinedMask({t}, pill, s)), b) {
      PressedJoins(all, t, pill, s, b);
      PressedJoins({}, t, pill, s, b);
      assert {} + {t} == {t};
      NoFingerNoPress(pill, s, b);
    }
    Extensional(CombinedMask(all + {t}, pill, s), Union(CombinedMask(all, pill, s), CombinedMask({t}, pill, s)));
  }

  /** A finger the pill owns presses nothing, wherever it is dragged. */
  lemma PillOwnedFingerIsInert(all: set<Touch>, t: Touch, pill: set<int>, s: Size)
    requires t.id in pill
    ensures CombinedMask(all + {t}, pill, s) == CombinedMask(all, pill, s)
  {
    FingersJoin(all, t, pill, s);
    EmptyMask();
    Extensional(CombinedMask({t}, pill, s), 0);
    Extensional(Union(CombinedMask(all, pill, s), 0), CombinedMask(all, pill, s));
  }
}
