/** Bits of numbers: shifts, masks, and, or and exclusive or, and what they are as arithmetic. */
module BitOps {

  // ---------- powers of two, products and quotients ----------

  function Pow2(n: nat): (r: nat)
    ensures r > 0
  {
    if n == 0 then 1 else 2 * Pow2(n - 1)
  }

  function Abs(n: int): nat {
    if n < 0 then -n else n
  }

  lemma DivideLaw(n: int, d: int)
    requires d != 0
    ensures n == n / d * d + n % d && 0 <= n % d < Abs(d)
  {
  }

  lemma NegateTimes(q: int, b: int)
    ensures (-q) * b == -(q * b)
  {
  }

  lemma TimesPositive(a: int, b: int)
    requires a >= 0 && b >= 0
    ensures a * b >= 0
  {
  }

  lemma TimesStep(p: int, q: int, d: int)
    requires p < q && d >= 0
    ensures p * d + d <= q * d
  {
    TimesPositive(q - p - 1, d);
    assert (q - p - 1) * d == q * d - p * d - d;
  }

  lemma TimesNegative(v: int, d: int)
    requires v <= 0 && d > 0
    ensures v * d <= v
  {
    TimesPositive(-v, d - 1);
    assert (-v) * (d - 1) == v - v * d;
  }

  lemma TimesTwice(a: int, b: int)
    ensures 2 * a * b == 2 * (a * b)
  {
  }

  lemma TimesSwap(a: int, b: int)
    ensures a * b == b * a
  {
  }

  lemma {:induction false} Pow2Add(m: nat, n: nat)
    ensures Pow2(m + n) == Pow2(m) * Pow2(n)
    decreases m
  {
    if m > 0 {
      Pow2Add(m - 1, n);
      TimesTwice(Pow2(m - 1), Pow2(n));
    }
  }

  lemma Pow2One()
    ensures Pow2(1) == 2
  {
  }

  lemma SmallPow2()
    ensures Pow2(3) == 8 && Pow2(4) == 0x10 && Pow2(5) == 0x20 && Pow2(6) == 0x40 && Pow2(8) == 0x100
    ensures Pow2(10) == 0x400 && Pow2(16) == 0x1_0000 && Pow2(24) == 0x100_0000
  {
    assert Pow2(8) == 0x100;
    Pow2Add(8, 2);
    Pow2Add(8, 8);
    Pow2Add(8, 16);
  }

  lemma FullPow2()
    ensures Pow2(32) == 0x1_0000_0000 && Pow2(64) == 0x1_0000_0000_0000_0000
  {
    hide Pow2;
    Pow2One();
    Pow2Add(1, 1);
    Pow2Add(2, 2);
    Pow2Add(4, 4);
    Pow2Add(8, 8);
    Pow2Add(16, 16);
    Pow2Add(32, 32);
  }

  lemma DivideUnique(n: int, d: int, q: int, r: int)
    requires d > 0 && 0 <= r < d && n == q * d + r
    ensures n / d == q
  {
    var p := n / d;
    DivideLaw(n, d);
    if p > q {
      TimesStep(q, p, d);
    } else if p < q {
      TimesStep(p, q, d);
    }
  }

  lemma DivideSum(a: int, b: int, d: int)
    requires d > 0
    ensures (a + b * d) / d == a / d + b
  {
    var q, r := a / d, a % d;
    assert a + b * d == (q + b) * d + r;
    DivideUnique(a + b * d, d, q + b, r);
  }

  lemma MultipleOf(q: int, m: int)
    requires m > 0
    ensures q * m % m == 0
  {
    DivideSum(0, q, m);
    DivideLaw(q * m, m);
  }

  // ---------- what a division leaves ----------

  /** What a division by `m` leaves. */
  function Rest(n: int, m: int): (r: int)
    requires m > 0
    ensures 0 <= r < m
  {
    n % m
  }

  lemma RestSame(y: int, m: int)
    requires 0 <= y < m
    ensures Rest(y, m) == y
  {
  }

  lemma RemainderUnique(n: int, d: int, q: int, r: int)
    requires d > 0 && 0 <= r < d && n == q * d + r
    ensures n % d == r
  {
    DivideUnique(n, d, q, r);
    DivideLaw(n, d);
  }

  lemma RestIs(n: int, m: int, q: int, r: int)
    requires 0 <= r < m && n == q * m + r
    ensures Rest(n, m) == r
  {
    RemainderUnique(n, m, q, r);
  }

  /** Some multiple of `m` and what is left. */
  lemma RestParts(n: int, m: int) returns (q: int)
    requires m > 0
    ensures n == q * m + Rest(n, m)
  {
    DivideLaw(n, m);
    q := n / m;
  }

  lemma Spread(p: int, q: int, m: int)
    ensures (p + q) * m == p * m + q * m && (p - q) * m == p * m - q * m
  {
  }

  lemma RestRight(a: int, b: int, m: int)
    requires m > 0
    ensures Rest(a + Rest(b, m), m) == Rest(a + b, m)
  {
    hide Rest;
    var p := RestParts(b, m);
    var q := RestParts(a + Rest(b, m), m);
    Spread(p, q, m);
    RestIs(a + b, m, p + q, Rest(a + Rest(b, m), m));
  }

  lemma RestSum(a: int, b: int, m: int)
    requires m > 0
    ensures Rest(Rest(a, m) + Rest(b, m), m) == Rest(a + b, m)
  {
    hide Rest;
    RestRight(Rest(a, m), b, m);
    RestRight(b, a, m);
    assert Rest(a, m) + b == b + Rest(a, m);
  }

  lemma RestDifference(a: int, b: int, m: int)
    requires m > 0
    ensures Rest(Rest(a, m) + (m - Rest(b, m)), m) == Rest(a - b, m)
  {
    hide Rest;
    var p := RestParts(b, m);
    var c := m - Rest(b, m);
    RestRight(c, a, m);
    assert Rest(a, m) + c == c + Rest(a, m);
    var q := RestParts(c + a, m);
    Spread(q, p, m);
    Spread(q - p, 1, m);
    RestIs(a - b, m, q - p - 1, Rest(c + a, m));
  }

  lemma RestFactor(a: int, b: int, m: int)
    requires m > 0
    ensures Rest(Rest(a, m) * b, m) == Rest(a * b, m)
  {
    hide Rest;
    var p := RestParts(a, m);
    var q := RestParts(Rest(a, m) * b, m);
    TimesRegroup(p, m, Rest(a, m), b);
    Spread(p * b, q, m);
    RestIs(a * b, m, p * b + q, Rest(Rest(a, m) * b, m));
  }

  lemma TimesRegroup(p: int, m: int, r: int, b: int)
    ensures (p * m + r) * b == p * b * m + r * b
  {
    assert (p * m + r) * b == p * m * b + r * b;
  }

  lemma RestProduct(a: int, b: int, m: int)
    requires m > 0
    ensures Rest(Rest(a, m) * Rest(b, m), m) == Rest(a * b, m)
  {
    hide Rest;
    RestFactor(a, Rest(b, m), m);
    RestFactor(b, a, m);
    TimesSwap(a, Rest(b, m));
    TimesSwap(b, a);
  }

  lemma LastBit(a: int, n: nat)
    requires n > 0
    ensures a % Pow2(n) == 2 * (a / 2 % Pow2(n - 1)) + a % 2
  {
    var d := Pow2(n - 1);
    var h := a / 2;
    DivideLaw(h, d);
    var r := 2 * (h % d) + a % 2;
    assert a == h / d * (2 * d) + r by {
      assert h / d * (2 * d) == 2 * (h / d * d);
    }
    DivideUnique(a, 2 * d, h / d, r);
    DivideLaw(a, 2 * d);
  }

  lemma RestBit(a: int, n: nat)
    requires n > 0
    ensures Rest(a, Pow2(n)) == 2 * Rest(a / 2, Pow2(n - 1)) + a % 2
  {
    hide Pow2;
    LastBit(a, n);
  }

  // ---------- bit by bit ----------

  datatype Gate = AndGate | OrGate | XorGate

  /** Bit by bit on `n` bits of two's complement. */
  function Bitwise(gate: Gate, a: int, b: int, n: nat): (r: nat)
    ensures r < Pow2(n)
    decreases n
  {
    if n == 0 then 0
    else
      var x, y := a % 2 == 1, b % 2 == 1;
      var bit := if gate == AndGate then x && y else if gate == OrGate then x || y else x != y;
      2 * Bitwise(gate, a / 2, b / 2, n - 1) + if bit then 1 else 0
  }

  // ---------- words of `n` bits ----------

  /** `x << k` on `n` bits. */
  function ShiftLeft(x: nat, k: nat, n: nat): (r: nat)
    ensures r < Pow2(n)
  {
    x * Pow2(k) % Pow2(n)
  }

  /** `x | y` */
  function BitOr(x: nat, y: nat, n: nat): nat {
    Bitwise(OrGate, x, y, n)
  }

  /** `x & y` */
  function BitAnd(x: nat, y: nat, n: nat): nat {
    Bitwise(AndGate, x, y, n)
  }

  lemma Double(h: nat, k: nat)
    requires k > 0
    ensures h * Pow2(k) == 2 * (h * Pow2(k - 1))
  {
  }

  lemma {:induction false} OrNothing(h: nat, n: nat)
    requires h < Pow2(n)
    ensures Bitwise(OrGate, h, 0, n) == h
    decreases n
  {
    if n > 0 {
      OrNothing(h / 2, n - 1);
    }
  }

  /** Where the low bits of one operand are clear and the other has no more than these,
      the bits of both stand side by side. */
  lemma {:induction false} OrIsSum(h: nat, low: nat, k: nat, n: nat)
    requires k <= n && low < Pow2(k) && h * Pow2(k) < Pow2(n)
    ensures Bitwise(OrGate, h * Pow2(k), low, n) == h * Pow2(k) + low
    decreases k
  {
    if k == 0 {
      OrNothing(h, n);
    } else {
      Double(h, k);
      var x := h * Pow2(k - 1);
      OrIsSum(h, low / 2, k - 1, n - 1);
      assert (h * Pow2(k)) / 2 == x && (h * Pow2(k)) % 2 == 0;
    }
  }

  /** Masking with `k` ones is the remainder of a division by two to the `k`. */
  lemma {:induction false} MaskIsRemainder(x: nat, k: nat, n: nat)
    requires k <= n
    ensures Bitwise(AndGate, x, Pow2(k) - 1, n) == Rest(x, Pow2(k))
    decreases n
  {
    hide Bitwise, Pow2, Rest;
    if k == 0 {
      AndNothing(x, n);
    } else {
      RestBit(x, k);
      HalfOfOnes(k);
      AndStep(x, Pow2(k) - 1, n);
      MaskIsRemainder(x / 2, k - 1, n - 1);
    }
  }

  lemma AndStep(x: nat, y: nat, n: nat)
    requires n > 0 && y % 2 == 1
    ensures Bitwise(AndGate, x, y, n) == 2 * Bitwise(AndGate, x / 2, y / 2, n - 1) + x % 2
  {
  }

  lemma HalfOfOnes(k: nat)
    requires k > 0
    ensures (Pow2(k) - 1) / 2 == Pow2(k - 1) - 1 && (Pow2(k) - 1) % 2 == 1
  {
  }

  lemma {:induction false} AndNothing(x: nat, n: nat)
    ensures Bitwise(AndGate, x, Pow2(0) - 1, n) == Rest(x, Pow2(0))
    decreases n
  {
    if n > 0 {
      AndNothing(x / 2, n - 1);
    }
  }

  lemma {:induction false} OrSwap(x: nat, y: nat, n: nat)
    ensures Bitwise(OrGate, x, y, n) == Bitwise(OrGate, y, x, n)
    decreases n
  {
    if n > 0 {
      OrSwap(x / 2, y / 2, n - 1);
    }
  }

  /** Setting bit `k + 1`, clearing bit `k` and everything above the two leaves the mark
      and the low `k` bits. */
  lemma {:induction false} MarkedRest(x: nat, k: nat, n: nat)
    requires k + 2 <= n
    ensures Bitwise(AndGate, Bitwise(OrGate, x, 2 * Pow2(k), n), 3 * Pow2(k) - 1, n) == 2 * Pow2(k) + Rest(x, Pow2(k))
    decreases k
  {
    hide Pow2, Rest, Bitwise;
    if k == 0 {
      MarkedNone(x, n);
    } else {
      MaskHalves(k);
      RestBit(x, k);
      MarkedStep(x, Pow2(k), 3 * Pow2(k) - 1, n);
      MarkedRest(x / 2, k - 1, n - 1);
    }
  }

  lemma MarkedNone(x: nat, n: nat)
    requires n >= 2
    ensures Bitwise(AndGate, Bitwise(OrGate, x, 2 * Pow2(0), n), 3 * Pow2(0) - 1, n) == 2 * Pow2(0) + Rest(x, Pow2(0))
  {
    var v := Bitwise(OrGate, x, 2, n);
    assert v / 2 == Bitwise(OrGate, x / 2, 1, n - 1) && v / 2 % 2 == 1;
    assert Bitwise(AndGate, v, 2, n) == 2 * Bitwise(AndGate, v / 2, 1, n - 1);
    assert Bitwise(AndGate, v / 2, 1, n - 1) == 2 * Bitwise(AndGate, v / 2 / 2, 0, n - 2) + 1;
    AndNothing(v / 2 / 2, n - 2);
  }

  lemma MaskHalves(k: nat)
    requires k > 0
    ensures Pow2(k) == 2 * Pow2(k - 1) && (3 * Pow2(k) - 1) / 2 == 3 * Pow2(k - 1) - 1 && (3 * Pow2(k) - 1) % 2 == 1
  {
  }

  lemma MarkedStep(x: nat, mark: nat, mask: nat, n: nat)
    requires n > 0 && mask % 2 == 1
    ensures Bitwise(AndGate, Bitwise(OrGate, x, 2 * mark, n), mask, n) ==
            2 * Bitwise(AndGate, Bitwise(OrGate, x / 2, mark, n - 1), mask / 2, n - 1) + x % 2
  {
    var v := Bitwise(OrGate, x, 2 * mark, n);
    assert v / 2 == Bitwise(OrGate, x / 2, mark, n - 1) && v % 2 == x % 2;
  }
}
