/** Two's complement arithmetic, bit by bit, as the fixed-width integers of Go have it. */
module JvmBits {
  import opened BitOps
  import opened Integers
  import opened JvmGo
  import opened JvmWords

  /** The number that `n` bits stand for; the topmost bit is its sign. */
  function Signed(x: nat, n: nat): int
    requires n > 0
  {
    if x < Pow2(n - 1) then x else x - Pow2(n)
  }

  lemma SignedIs(kind: Kind, n: int)
    ensures Signed(Unsigned(kind, n), Bits(kind)) == Wrap(kind, n)
  {
    HalfPow2();
    SignedWrap(n, Half(kind));
  }

  lemma SignedWrap(n: int, half: int)
    requires half > 0
    ensures (n + half) % (2 * half) - half == if n % (2 * half) < half then n % (2 * half) else n % (2 * half) - 2 * half
  {
    var m := 2 * half;
    var q, r := n / m, n % m;
    DivideLaw(n, m);
    if r < half {
      RemainderUnique(n + half, m, q, r + half);
    } else {
      assert (q + 1) * m == q * m + m;
      RemainderUnique(n + half, m, q + 1, r - half);
    }
  }

  lemma HalfPow2()
    ensures Pow2(31) == TWO31 && Pow2(32) == TWO32 && Pow2(63) == TWO63 && Pow2(64) == TWO64
  {
    FullPow2();
    assert Pow2(32) == 2 * Pow2(31) && Pow2(64) == 2 * Pow2(63);
  }

  // ---------- addition, complement, multiplication ----------

  /** A ripple-carry adder of `n` bits. */
  function AddBits(x: nat, y: nat, carry: bool, n: nat): (r: nat)
    ensures r < Pow2(n)
    decreases n
  {
    if n == 0 then 0
    else
      var a, b := x % 2 == 1, y % 2 == 1;
      var bit := (a != b) != carry;
      var next := (a && b) || (carry && (a || b));
      2 * AddBits(x / 2, y / 2, next, n - 1) + if bit then 1 else 0
  }

  function Carry(carry: bool): nat {
    if carry then 1 else 0
  }

  lemma {:induction false} AddIs(x: nat, y: nat, carry: bool, n: nat)
    ensures AddBits(x, y, carry, n) == Rest(x + y + Carry(carry), Pow2(n))
    decreases n
  {
    hide Pow2, Rest;
    if n == 0 {
      RestNone(x + y + Carry(carry));
    } else {
      var a, b := x % 2 == 1, y % 2 == 1;
      AddStep(x, y, carry);
      RestBit(x + y + Carry(carry), n);
      AddIs(x / 2, y / 2, (a && b) || (carry && (a || b)), n - 1);
    }
  }

  lemma RestNone(a: int)
    ensures Rest(a, Pow2(0)) == 0
  {
  }

  /** A sum bit and a carry are the sum of three bits. */
  lemma AddStep(x: nat, y: nat, carry: bool)
    ensures var a, b := x % 2 == 1, y % 2 == 1;
            var sum := x + y + Carry(carry);
            sum / 2 == x / 2 + y / 2 + Carry((a && b) || (carry && (a || b))) && sum % 2 == Carry((a != b) != carry)
  {
  }

  /** Every bit inverted. */
  function NotBits(x: nat, n: nat): (r: nat)
    ensures r < Pow2(n)
    decreases n
  {
    if n == 0 then 0 else 2 * NotBits(x / 2, n - 1) + if x % 2 == 1 then 0 else 1
  }

  lemma {:induction false} NotIs(x: nat, n: nat)
    ensures NotBits(x, n) == Pow2(n) - 1 - Rest(x, Pow2(n))
    decreases n
  {
    if n == 0 {
      RestNone(x);
    } else {
      hide Rest;
      RestBit(x, n);
      NotIs(x / 2, n - 1);
    }
  }

  /** A multiplication that adds `x` for each of the last `bits` bits of `y`, shifted. */
  function MulBits(x: nat, y: nat, bits: nat, n: nat): (r: nat)
    ensures r < Pow2(n)
    decreases bits
  {
    if bits == 0 then 0
    else
      var rest := MulBits(x, y / 2, bits - 1, n);
      AddBits(if y % 2 == 1 then x else 0, AddBits(rest, rest, false, n), false, n)
  }

  lemma {:induction false} MulIs(x: nat, y: nat, bits: nat, n: nat)
    ensures MulBits(x, y, bits, n) == Rest(x * Rest(y, Pow2(bits)), Pow2(n))
    decreases bits
  {
    var m := Pow2(n);
    hide Pow2, AddBits, Rest;
    if bits == 0 {
      RestNone(y);
      TimesBit(x, 0, 0);
      RestSame(0, m);
    } else {
      var rest := MulBits(x, y / 2, bits - 1, n);
      var first, high := if y % 2 == 1 then x else 0, Rest(y / 2, Pow2(bits - 1));
      MulIs(x, y / 2, bits - 1, n);
      RestBit(y, bits);
      AddIs(rest, rest, false, n);
      AddIs(first, AddBits(rest, rest, false, n), false, n);
      RestSum(x * high, x * high, m);
      RestRight(first, x * high + x * high, m);
      TimesBit(x, high, y % 2);
    }
  }

  lemma TimesBit(x: int, high: int, bit: int)
    requires bit == 0 || bit == 1
    ensures x * (2 * high + bit) == (if bit == 1 then x else 0) + (x * high + x * high) && x * 0 == 0
  {
  }

  // ---------- the operators ----------

  /** `v1 op v2` on the bits of both; a division is one of their numbers. */
  function Computed(op: Op, kind: Kind, a: int, b: int): int
    requires (op == Div || op == Rem) ==> b != 0
  {
    var x, y, n := Unsigned(kind, a), Unsigned(kind, b), Bits(kind);
    match op
    case Add => Signed(AddBits(x, y, false, n), n)
    case Sub => Signed(AddBits(x, NotBits(y, n), true, n), n)
    case Mul => Signed(MulBits(x, y, n, n), n)
    case Div => Wrap(kind, Quotient(a, b))
    case Rem => Wrap(kind, Remainder(a, b))
    case _ => Signed(Bitwise(GateOf(op), x, y, n), n)
  }

  lemma ComputedIs(op: Op, kind: Kind, a: int, b: int)
    requires (op == Div || op == Rem) ==> b != 0
    ensures Computed(op, kind, a, b) == Compute(op, kind, a, b)
  {
    hide Signed, AddBits, NotBits, MulBits, Bitwise, Wrap;
    match op
    case Add => AddedIs(kind, a, b);
    case Sub => SubtractedIs(kind, a, b);
    case Mul => MultipliedIs(kind, a, b);
    case Div =>
    case Rem =>
    case _ => CombinedIs(GateOf(op), kind, a, b);
  }

  /** The bits of a number, as many as its kind has. */
  lemma UnsignedIs(kind: Kind, n: int)
    ensures Unsigned(kind, n) == Rest(n, Pow2(Bits(kind))) && Modulus(kind) == Pow2(Bits(kind))
  {
    FullPow2();
  }

  lemma AddedIs(kind: Kind, a: int, b: int)
    ensures var n := Bits(kind); Signed(AddBits(Unsigned(kind, a), Unsigned(kind, b), false, n), n) == Wrap(kind, a + b)
  {
    hide Signed, Pow2, Wrap, Rest, Unsigned;
    UnsignedIs(kind, a);
    UnsignedIs(kind, b);
    UnsignedIs(kind, a + b);
    AddIs(Unsigned(kind, a), Unsigned(kind, b), false, Bits(kind));
    RestSum(a, b, Pow2(Bits(kind)));
    SignedIs(kind, a + b);
  }

  lemma SubtractedIs(kind: Kind, a: int, b: int)
    ensures var n := Bits(kind); Signed(AddBits(Unsigned(kind, a), NotBits(Unsigned(kind, b), n), true, n), n) == Wrap(kind, a - b)
  {
    hide Signed, Pow2, Wrap, AddBits, NotBits, Rest, Unsigned;
    var n, m := Bits(kind), Pow2(Bits(kind));
    var x, y := Unsigned(kind, a), Unsigned(kind, b);
    UnsignedIs(kind, a);
    UnsignedIs(kind, b);
    UnsignedIs(kind, a - b);
    NotIs(y, n);
    RestSame(y, m);
    AddIs(x, NotBits(y, n), true, n);
    RestDifference(a, b, m);
    SignedIs(kind, a - b);
  }

  lemma MultipliedIs(kind: Kind, a: int, b: int)
    ensures var n := Bits(kind); Signed(MulBits(Unsigned(kind, a), Unsigned(kind, b), n, n), n) == Wrap(kind, a * b)
  {
    hide Signed, Pow2, Wrap, MulBits, Rest, Unsigned;
    var n, m := Bits(kind), Pow2(Bits(kind));
    var x, y := Unsigned(kind, a), Unsigned(kind, b);
    UnsignedIs(kind, a);
    UnsignedIs(kind, b);
    UnsignedIs(kind, a * b);
    RestSame(y, m);
    MulIs(x, y, n, n);
    RestProduct(a, b, m);
    SignedIs(kind, a * b);
  }

  lemma CombinedIs(gate: Gate, kind: Kind, a: int, b: int)
    ensures var n := Bits(kind);
            Signed(Bitwise(gate, Unsigned(kind, a), Unsigned(kind, b), n), n) == Wrap(kind, Bitwise(gate, a, b, n))
  {
    hide Signed, Pow2, Wrap, Bitwise, Rest, Unsigned;
    var n := Bits(kind);
    UnsignedIs(kind, a);
    UnsignedIs(kind, b);
    UnsignedIs(kind, Bitwise(gate, a, b, n));
    BitwiseRests(gate, a, b, n);
    RestSame(Bitwise(gate, a, b, n), Pow2(n));
    SignedIs(kind, Bitwise(gate, a, b, n));
  }

  lemma {:induction false} BitwiseRests(gate: Gate, a: int, b: int, n: nat)
    ensures Bitwise(gate, Rest(a, Pow2(n)), Rest(b, Pow2(n)), n) == Bitwise(gate, a, b, n)
    decreases n
  {
    if n > 0 {
      hide Pow2, Rest, Bitwise;
      var x, y := Rest(a, Pow2(n)), Rest(b, Pow2(n));
      RestBit(a, n);
      RestBit(b, n);
      HalfBit(x, Rest(a / 2, Pow2(n - 1)), a % 2);
      HalfBit(y, Rest(b / 2, Pow2(n - 1)), b % 2);
      BitwiseRests(gate, a / 2, b / 2, n - 1);
      BitwiseStep(gate, x, y, a, b, n);
    }
  }

  lemma HalfBit(x: int, h: int, bit: int)
    requires x == 2 * h + bit && 0 <= bit < 2
    ensures x / 2 == h && x % 2 == bit
  {
  }

  lemma BitwiseStep(gate: Gate, x: int, y: int, a: int, b: int, n: nat)
    requires n > 0 && x % 2 == a % 2 && y % 2 == b % 2 && Bitwise(gate, x / 2, y / 2, n - 1) == Bitwise(gate, a / 2, b / 2, n - 1)
    ensures Bitwise(gate, x, y, n) == Bitwise(gate, a, b, n)
  {
  }

  /** `-val` */
  function Negated(kind: Kind, v: int): int {
    Signed(AddBits(0, NotBits(Unsigned(kind, v), Bits(kind)), true, Bits(kind)), Bits(kind))
  }

  lemma NegatedIs(kind: Kind, v: int)
    ensures Negated(kind, v) == Wrap(kind, -v)
  {
    hide Signed, AddBits, NotBits, Wrap;
    SubtractedIs(kind, 0, v);
  }

  // ---------- conversions ----------

  /** A narrower integer keeps the low bits; a wider one repeats the sign. */
  function Converted(c: Conversion, n: int): int {
    match c
    case I2L => Signed(BitOr(ShiftLeft(if n < 0 then TWO32 - 1 else 0, 32, 64), Unsigned(Int, n), 64), 64)
    case L2I => Signed(BitAnd(Unsigned(Long, n), TWO32 - 1, 64), 32)
    case I2B => Signed(BitAnd(Unsigned(Int, n), 0xff, 32), 8)
    case I2C => BitAnd(Unsigned(Int, n), 0xffff, 32)
    case I2S => Signed(BitAnd(Unsigned(Int, n), 0xffff, 32), 16)
  }

  lemma ConvertedIs(c: Conversion, n: int)
    requires InKind(if c == L2I then Long else Int, n)
    ensures Converted(c, n) == Convert(c, n)
  {
    hide Signed, BitOr, BitAnd, ShiftLeft, Wrap;
    match c
    case I2L => ExtendedIs(n);
    case L2I =>
      CutIs(Long, n, 32, TWO32, TWO32);
      SignedIs(Int, n);
    case I2B =>
      CutIs(Int, n, 8, 0x100, 0x100_0000);
      SignedSmall(n);
    case I2C => CutIs(Int, n, 16, 0x1_0000, 0x1_0000);
    case I2S =>
      CutIs(Int, n, 16, 0x1_0000, 0x1_0000);
      SignedSmall(n);
  }

  /** The low `bits` bits. */
  lemma CutIs(kind: Kind, n: int, bits: nat, d: int, k: int)
    requires (bits, d) == (8, 0x100) || (bits, d) == (16, 0x1_0000) || (bits, d) == (32, TWO32)
    requires bits <= Bits(kind) && k > 0 && d * k == Modulus(kind)
    ensures BitAnd(Unsigned(kind, n), d - 1, Bits(kind)) == n % d
  {
    hide Pow2, Bitwise;
    SmallPow2();
    FullPow2();
    MaskIsRemainder(Unsigned(kind, n), bits, Bits(kind));
    RemainderOfRemainder(n, d, k);
  }

  lemma SignedSmall(n: int)
    ensures Signed(n % 0x100, 8) == (n + 0x80) % 0x100 - 0x80
    ensures Signed(n % 0x1_0000, 16) == (n + 0x8000) % 0x1_0000 - 0x8000
  {
    hide Pow2;
    SmallPow2();
    HalvesSmall();
    SignedWrap(n, 0x80);
    SignedWrap(n, 0x8000);
  }

  lemma HalvesSmall()
    ensures Pow2(7) == 0x80 && Pow2(15) == 0x8000
  {
    SmallPow2();
    assert Pow2(8) == 2 * Pow2(7) && Pow2(16) == 2 * Pow2(15);
  }

  lemma ExtendedIs(n: int)
    requires InKind(Int, n)
    ensures Converted(I2L, n) == n
  {
    hide Pow2, Bitwise;
    HalfPow2();
    OrIsSum(if n < 0 then TWO32 - 1 else 0, Unsigned(Int, n), 32, 64);
  }
}
