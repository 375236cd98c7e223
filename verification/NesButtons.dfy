/** The NES controller bitmask: eight buttons, one bit each, in the core's shift-out order. */
module NesButtons {
  type Mask = bv8

  datatype NesButton = A | B | Select | Start | Up | Down | Left | Right

  function Bit(b: NesButton): Mask {
    match b
    case A => 0x01
    case B => 0x02
    case Select => 0x04
    case Start => 0x08
    case Up => 0x10
    case Down => 0x20
    case Left => 0x40
    case Right => 0x80
  }

  predicate Has(m: Mask, b: NesButton) {
    m & Bit(b) != 0
  }

  function Set(m: Mask, b: NesButton, pressed: bool): (r: Mask)
    ensures forall c :: Has(r, c) == if c == b then pressed else Has(m, c)
  {
    if pressed then m | Bit(b) else m & (0xFF ^ Bit(b))
  }

  function Union(m: Mask, n: Mask): (r: Mask)
    ensures forall c :: Has(r, c) == (Has(m, c) || Has(n, c))
  {
    m | n
  }

  /** The bits are in the order the console shifts the buttons out: A first. */
  lemma ShiftOrder(i: nat)
    requires i < 8
    ensures Bit([A, B, Select, Start, Up, Down, Left, Right][i]) == 1 << i
  {
  }

  /** A mask is determined by its buttons. */
  lemma Extensional(m: Mask, n: Mask)
    requires forall b :: Has(m, b) == Has(n, b)
    ensures m == n
  {
    assert Has(m, A) == Has(n, A) && Has(m, B) == Has(n, B);
    assert Has(m, Select) == Has(n, Select) && Has(m, Start) == Has(n, Start);
    assert Has(m, Up) == Has(n, Up) && Has(m, Down) == Has(n, Down);
    assert Has(m, Left) == Has(n, Left) && Has(m, Right) == Has(n, Right);
  }

  predicate IsDirection(b: NesButton) {
    b.Up? || b.Down? || b.Left? || b.Right?
  }

  /** Of the first four buttons, those that satisfy `p`. */
  ghost function ActionMask(p: NesButton -> bool): (m: Mask)
    ensures forall b :: Has(m, b) == (!IsDirection(b) && p(b))
  {
    EmptyMask();
    hide Has, Set, Bit;
    Set(Set(Set(Set(0, A, p(A)), B, p(B)), Select, p(Select)), Start, p(Start))
  }

  ghost function DirectionMask(p: NesButton -> bool): (m: Mask)
    ensures forall b :: Has(m, b) == (IsDirection(b) && p(b))
  {
    EmptyMask();
    hide Has, Set, Bit;
    Set(Set(Set(Set(0, Up, p(Up)), Down, p(Down)), Left, p(Left)), Right, p(Right))
  }

  /** The mask of exactly the buttons that satisfy `p`. */
  ghost function MaskOf(p: NesButton -> bool): (m: Mask)
    ensures forall b :: Has(m, b) == p(b)
  {
    hide Has, Bit, Union, ActionMask, DirectionMask;
    Union(ActionMask(p), DirectionMask(p))
  }

  lemma MaskOfIs(m: Mask, p: NesButton -> bool)
    requires forall b :: Has(m, b) == p(b)
    ensures m == MaskOf(p)
  {
    Extensional(m, MaskOf(p));
  }

  lemma EmptyMask()
    ensures forall b :: !Has(0, b)
  {
  }

  /** The buttons of `m` that are not in `n`, as bits. */
  lemma NewBits(m: Mask, n: Mask)
    ensures forall b :: Has(m & (0xFF ^ n), b) <==> Has(m, b) && !Has(n, b)
  {
  }

  /** A mask is empty exactly when it has no button. */
  lemma EmptyIff(m: Mask)
    ensures m == 0 <==> forall b :: !Has(m, b)
  {
    EmptyMask();
    if forall b :: !Has(m, b) { Extensional(m, 0); }
  }

  /** The new bits are non-zero exactly when some button is newly pressed. */
  lemma NewlyPressed(m: Mask, n: Mask)
    ensures m & (0xFF ^ n) != 0 <==> exists b :: Has(m, b) && !Has(n, b)
  {
    var bits := m & (0xFF ^ n);
    NewBits(m, n);
    EmptyIff(bits);
    if bits != 0 {
      var b :| Has(bits, b);
      assert Has(m, b) && !Has(n, b);
    }
    forall b | Has(m, b) && !Has(n, b) ensures bits != 0 {
      assert Has(bits, b);
    }
  }
}
