/** The bit expressions of the interpreter's source, and the arithmetic they stand for. */
module JvmGo {
  import opened BitOps
  import opened Integers
  import opened JvmWords

  // ---------- a long from two words ----------

  /** `int64(high)<<32 | int64(low)` */
  function LongOf(high: int, low: int): int {
    Wrap(Long, BitOr(ShiftLeft(Unsigned(Int, high), 32, 64), Unsigned(Int, low), 64))
  }

  lemma LongOfIs(high: int, low: int)
    ensures LongOf(high, low) == Join(high, low)
  {
    hide Bitwise, Wrap, Pow2;
    FullPow2();
    var h, l := Unsigned(Int, high), Unsigned(Int, low);
    OrIsSum(h, l, 32, 64);
  }

  // ---------- bytes put together ----------

  /** `(byte1 << 8) | byte2` on 16 bits. */
  function ShortOf(byte1: nat, byte2: nat): nat {
    BitOr(ShiftLeft(byte1, 8, 16), byte2, 16)
  }

  lemma ShortOfIs(byte1: nat, byte2: nat)
    requires byte1 < 0x100 && byte2 < 0x100
    ensures ShortOf(byte1, byte2) == byte1 * 0x100 + byte2
  {
    hide Bitwise;
    SmallPow2();
    OrIsSum(byte1, byte2, 8, 16);
  }

  /** `(byte1 << 24) | (byte2 << 16) | (byte3 << 8) | byte4` on 32 bits. */
  function IntOf(byte1: nat, byte2: nat, byte3: nat, byte4: nat): int {
    Wrap(Int, BitOr(BitOr(BitOr(ShiftLeft(byte1, 24, 32), ShiftLeft(byte2, 16, 32), 32), ShiftLeft(byte3, 8, 32), 32), byte4, 32))
  }

  lemma IntOfIs(byte1: nat, byte2: nat, byte3: nat, byte4: nat)
    requires byte1 < 0x100 && byte2 < 0x100 && byte3 < 0x100 && byte4 < 0x100
    ensures IntOf(byte1, byte2, byte3, byte4) == Wrap(Int, byte1 * 0x100_0000 + byte2 * 0x1_0000 + byte3 * 0x100 + byte4)
  {
    hide Bitwise, Wrap, Pow2;
    SmallPow2();
    FullPow2();
    OrIsSum(byte1, byte2 * 0x1_0000, 24, 32);
    OrIsSum(byte1 * 0x100 + byte2, byte3 * 0x100, 16, 32);
    OrIsSum(byte1 * 0x1_0000 + byte2 * 0x100 + byte3, byte4, 8, 32);
  }

  // ---------- shifts ----------

  /** `uint32(n) & 0x1f`, and with `0x3f` for a long. */
  function Masked(kind: Kind, n: int): nat {
    BitAnd(Unsigned(Int, n), if kind == Int then 0x1f else 0x3f, 32)
  }

  lemma MaskedIs(kind: Kind, n: int)
    ensures Masked(kind, n) == Distance(kind, n)
  {
    hide Bitwise, Pow2;
    SmallPow2();
    LowBits(n);
    MaskIsRemainder(Unsigned(Int, n), if kind == Int then 5 else 6, 32);
  }

  lemma LowBits(n: int)
    ensures n % TWO32 % 32 == n % 32 && n % TWO32 % 64 == n % 64
  {
    RemainderOfRemainder(n, 32, 0x800_0000);
    RemainderOfRemainder(n, 64, 0x400_0000);
  }

  lemma RemainderOfRemainder(n: int, d: int, k: int)
    requires d > 0 && k > 0 && d * k > 0
    ensures n % (d * k) % d == n % d
  {
    var r := n % (d * k);
    var p, q := n / (d * k), r / d;
    DivideLaw(n, d * k);
    DivideLaw(r, d);
    assert p * (d * k) == p * k * d;
    assert (p * k + q) * d == p * k * d + q * d;
    RemainderUnique(n, d, p * k + q, r % d);
  }

  /** `v << s`, `v >> s`, and `uint(v) >> s` converted back. */
  function Shifted(op: ShiftOp, kind: Kind, v: int, s: nat): int {
    match op
    case Shl => Wrap(kind, ShiftLeft(Unsigned(kind, v), s, Bits(kind)))
    case Shr => v / Pow2(s)
    case Ushr => Wrap(kind, Unsigned(kind, v) / Pow2(s))
  }

  lemma ShiftedIs(op: ShiftOp, kind: Kind, v: int, n: int)
    requires InKind(kind, v)
    ensures Shifted(op, kind, v, Masked(kind, n)) == Shift(op, kind, v, n)
  {
    hide Bitwise, Wrap, Masked;
    MaskedIs(kind, n);
    FullPow2();
    var s := Distance(kind, n);
    match op
    case Shl => ShiftWraps(kind, v, Pow2(s));
    case Shr => ShiftSmall(kind, v, Pow2(s));
    case Ushr =>
  }

  lemma ShiftWraps(kind: Kind, v: int, d: nat)
    ensures Wrap(kind, v % Modulus(kind) * d % Modulus(kind)) == Wrap(kind, v * d)
  {
    hide Wrap;
    var m := Modulus(kind);
    RestFactor(v, d, m);
    assert v % m * d % m == Rest(v * d, m);
    var q := RestParts(v * d, m);
    WrapSame(kind, Rest(v * d, m), q);
  }

  lemma WrapSame(kind: Kind, n: int, q: int)
    ensures Wrap(kind, q * Modulus(kind) + n) == Wrap(kind, n)
  {
    var h, m := Half(kind), Modulus(kind);
    var r, p := (n + h) % m, (n + h) / m;
    DivideLaw(n + h, m);
    assert (q + p) * m == q * m + p * m;
    RemainderUnique(q * m + n + h, m, q + p, r);
  }

  lemma ShiftSmall(kind: Kind, v: int, d: nat)
    requires InKind(kind, v) && d > 0
    ensures Wrap(kind, v / d) == v / d
  {
    if v < 0 {
      ShiftRange(v, d);
    } else {
      DivideLaw(v, d);
      TimesStepDown(v, d);
    }
  }

  lemma TimesStepDown(v: int, d: int)
    requires v >= 0 && d > 0
    ensures 0 <= v / d <= v
  {
    DivideLaw(v, d);
    if v / d < 0 {
      TimesNegative(v / d + 1, d);
    } else {
      TimesPositive(v / d, d - 1);
    }
  }
}
