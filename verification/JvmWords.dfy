/** 32-bit and 64-bit integers as the interpreter computes with them. */
module JvmWords {

  import opened BitOps
  import opened Integers

  /** The same bits without a sign. */
  function Unsigned(kind: Kind, n: int): (r: int)
    ensures 0 <= r < Modulus(kind)
  {
    n % Modulus(kind)
  }

  // ---------- a long in two words ----------

  function Low(v: int): (r: int)
    ensures InKind(Int, r)
  {
    Wrap(Int, v)
  }

  function High(v: int): (r: int)
    ensures InKind(Int, r)
  {
    Wrap(Int, v / TWO32)
  }

  /** `int64(high)<<32 | int64(low)` on unsigned halves. */
  function Join(high: int, low: int): (r: int)
    ensures InKind(Long, r)
  {
    Wrap(Long, Unsigned(Int, high) * TWO32 + Unsigned(Int, low))
  }

  /** A long comes back from its two words. */
  lemma JoinSplit(v: int)
    requires InKind(Long, v)
    ensures Join(High(v), Low(v)) == v
  {
    var h, l := v / TWO32, v % TWO32;
    UnsignedWrap(h);
    UnsignedWrap(v);
    assert v == h * TWO32 + l;
    assert -TWO31 <= h < TWO31;
    WrapsBack(v, h, l);
  }

  lemma UnsignedWrap(n: int)
    ensures Unsigned(Int, Wrap(Int, n)) == n % TWO32
  {
  }

  lemma WrapsBack(v: int, h: int, l: int)
    requires InKind(Long, v) && v == h * TWO32 + l && -TWO31 <= h < TWO31 && 0 <= l < TWO32
    ensures Wrap(Long, h % TWO32 * TWO32 + l) == v
  {
    if h < 0 {
      assert h % TWO32 == h + TWO32;
      assert h % TWO32 * TWO32 + l == v + TWO64;
    }
  }

  // ---------- arithmetic ----------

  datatype Op = Add | Sub | Mul | Div | Rem | And | Or | Xor

  /** Division truncates toward zero. */
  function Quotient(a: int, b: int): int
    requires b != 0
  {
    if a >= 0 then a / b else -((-a) / b)
  }

  function Remainder(a: int, b: int): int
    requires b != 0
  {
    a - Quotient(a, b) * b
  }

  /** The law of division (JVMS section 6.5, idiv and irem): the remainder has the sign
      of the dividend and a smaller magnitude than the divisor. */
  lemma DivisionLaw(a: int, b: int)
    requires b != 0
    ensures a == Quotient(a, b) * b + Remainder(a, b)
    ensures Abs(Remainder(a, b)) < Abs(b)
    ensures Remainder(a, b) == 0 || (Remainder(a, b) > 0 <==> a > 0)
  {
    hide Quotient, Remainder, Abs;
    if a >= 0 {
      RemainderUp(a, b);
    } else {
      RemainderDown(a, b);
    }
  }

  lemma RemainderUp(a: int, b: int)
    requires a >= 0 && b != 0
    ensures 0 <= Remainder(a, b) && Abs(Remainder(a, b)) < Abs(b) && (Remainder(a, b) > 0 ==> a > 0)
    ensures a == Quotient(a, b) * b + Remainder(a, b)
  {
    DivideLaw(a, b);
    if a == 0 {
      assert Quotient(a, b) == 0;
    }
  }

  lemma RemainderDown(a: int, b: int)
    requires a < 0 && b != 0
    ensures Remainder(a, b) <= 0 && Abs(Remainder(a, b)) < Abs(b)
    ensures a == Quotient(a, b) * b + Remainder(a, b)
  {
    DivideLaw(-a, b);
    NegateTimes(-a / b, b);
  }

  function Bits(kind: Kind): nat {
    if kind == Int then 32 else 64
  }

  function GateOf(op: Op): Gate {
    match op
    case And => AndGate
    case Or => OrGate
    case _ => XorGate
  }

  /** The result of an operation; dividing by zero is an exception. */
  function Compute(op: Op, kind: Kind, a: int, b: int): (r: int)
    requires (op == Div || op == Rem) ==> b != 0
    ensures InKind(kind, r)
  {
    match op
    case Add => Wrap(kind, a + b)
    case Sub => Wrap(kind, a - b)
    case Mul => Wrap(kind, a * b)
    case Div => Wrap(kind, Quotient(a, b))
    case Rem => Wrap(kind, Remainder(a, b))
    case _ => Wrap(kind, Bitwise(GateOf(op), a, b, Bits(kind)))
  }

  datatype ShiftOp = Shl | Shr | Ushr

  /** The distance: the low 5 or 6 bits of the second operand. */
  function Distance(kind: Kind, n: int): (r: nat)
    ensures r < Bits(kind)
  {
    n % Bits(kind)
  }

  function Shift(op: ShiftOp, kind: Kind, v: int, n: int): (r: int)
    ensures InKind(kind, r)
  {
    var s := Distance(kind, n);
    match op
    case Shl => Wrap(kind, v * Pow2(s))
    case Shr => Wrap(kind, v / Pow2(s))
    case Ushr => Wrap(kind, Unsigned(kind, v) / Pow2(s))
  }

  /** The unsigned shift of a negative number (JVMS section 6.5, iushr and lushr): the
      arithmetic shift with the missing high bits added back. */
  lemma UnsignedShift(kind: Kind, v: int, n: int)
    requires InKind(kind, v) && v < 0 && Distance(kind, n) > 0
    ensures Shift(Ushr, kind, v, n) == Shift(Shr, kind, v, n) + Pow2(Bits(kind) - Distance(kind, n))
  {
    hide Pow2, Wrap;
    var s := Distance(kind, n);
    var d, e := Pow2(s), Pow2(Bits(kind) - s);
    Pow2Parts(kind, s);
    DivideSum(v, e, d);
    assert Unsigned(kind, v) == v + e * d;
    ShiftRange(v, d);
    assert InKind(kind, v / d) && InKind(kind, v / d + e);
  }

  lemma Pow2Parts(kind: Kind, s: nat)
    requires 0 < s < Bits(kind)
    ensures var d, e := Pow2(s), Pow2(Bits(kind) - s); d * e == e * d == Modulus(kind) && 0 < e <= Half(kind)
  {
    hide Pow2;
    Pow2Add(s, Bits(kind) - s);
    FullPow2();
    Pow2Add(1, s - 1);
    Pow2One();
    HalfRange(Pow2(Bits(kind) - s), Pow2(s), Pow2(s - 1), kind);
  }

  lemma ShiftRange(v: int, d: int)
    requires v < 0 && d > 0
    ensures v <= v / d < 0
  {
    var q := v / d;
    DivideLaw(v, d);
    if q >= 0 {
      TimesPositive(q, d);
    } else if q < v {
      TimesNegative(v, d);
      TimesStep(q, v, d);
    }
  }

  lemma HalfRange(e: int, d: int, half: int, kind: Kind)
    requires d == 2 * half && half > 0 && e > 0 && d * e == Modulus(kind)
    ensures 0 < e <= Half(kind)
  {
    assert 2 * (half * e) == (2 * half) * e;
    assert half * e >= e;
  }

  // ---------- conversions and comparisons ----------

  datatype Conversion = I2L | L2I | I2B | I2C | I2S

  /** A value cut to `bits` bits, with or without sign. */
  function Convert(c: Conversion, n: int): int {
    match c
    case I2L => n
    case L2I => Wrap(Int, n)
    case I2B => (n + 0x80) % 0x100 - 0x80
    case I2C => n % 0x1_0000
    case I2S => (n + 0x8000) % 0x1_0000 - 0x8000
  }

  datatype Cond = Eq | Ne | Lt | Ge | Gt | Le

  predicate Holds(c: Cond, a: int, b: int) {
    match c
    case Eq => a == b
    case Ne => a != b
    case Lt => a < b
    case Ge => a >= b
    case Gt => a > b
    case Le => a <= b
  }

  function Compare(a: int, b: int): int {
    if a > b then 1 else if a == b then 0 else -1
  }

  /** `lcmp` followed by a test against zero is the test of the two longs themselves. */
  lemma CompareThenTest(c: Cond, a: int, b: int)
    ensures Holds(c, Compare(a, b), 0) <==> Holds(c, a, b)
  {
  }

  // ---------- laws of the arithmetic ----------

  /** Wrap-around changes a number by a multiple of the modulus. */
  lemma WrapCongruent(kind: Kind, n: int)
    ensures (Wrap(kind, n) - n) % Modulus(kind) == 0
  {
    var m := Modulus(kind);
    var shifted := n + Half(kind);
    DivideLaw(shifted, m);
    assert Wrap(kind, n) - n == -(shifted / m) * m;
    MultipleOf(-(shifted / m), m);
  }

  /** Two numbers of a kind that differ by a multiple of the modulus are one. */
  lemma WrapUnique(kind: Kind, n: int, r: int)
    requires InKind(kind, r) && (r - n) % Modulus(kind) == 0
    ensures Wrap(kind, n) == r
  {
  }

  /** A subtraction undoes an addition of the same operand, also when they overflow. */
  lemma SubUndoesAdd(kind: Kind, a: int, b: int)
    requires InKind(kind, a)
    ensures Compute(Sub, kind, Compute(Add, kind, a, b), b) == a
  {
    WrapCongruent(kind, a + b);
    var sum := Wrap(kind, a + b);
    assert (sum - (a + b)) % Modulus(kind) == 0;
    Opposite(sum - (a + b), Modulus(kind));
    WrapUnique(kind, sum - b, a);
  }

  lemma Opposite(n: int, m: int)
    requires m > 0 && n % m == 0
    ensures -n % m == 0
  {
    DivideLaw(n, m);
    MultipleOf(-(n / m), m);
    assert -n == -(n / m) * m;
  }

  /** The bits of both, of either and of one only: what both have is added twice. */
  lemma {:induction false} BitwiseLaw(a: int, b: int, n: nat)
    ensures Bitwise(AndGate, a, b, n) + Bitwise(OrGate, a, b, n) == a % Pow2(n) + b % Pow2(n)
    ensures Bitwise(XorGate, a, b, n) == Bitwise(OrGate, a, b, n) - Bitwise(AndGate, a, b, n)
    decreases n
  {
    if n > 0 {
      BitwiseLaw(a / 2, b / 2, n - 1);
      LastBit(a, n);
      LastBit(b, n);
    }
  }
}
