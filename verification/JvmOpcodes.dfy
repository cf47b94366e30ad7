/** What each opcode does in one turn of the machine, in plain arithmetic. */
module JvmOpcodes {
  import opened BitOps
  import opened Integers
  import opened Optional
  import opened JvmWords
  import opened JvmCode
  import opened JvmTyped
  import JvmFrame
  import JvmShuffle

  /** The turn is at an opcode between two, and the code is well-typed there. */
  predicate Does(code: seq<byte>, t: Typed, room: nat, first: nat, last: nat) {
    0 <= t.pc < |code| && first <= code[t.pc] <= last && !Turn(code, t, room).Stuck?
  }

  /** A signed number of one, two and four bytes, the first one most significant. */
  function Signed8(code: seq<byte>, at: nat): int
    requires at < |code|
  {
    var a: int := code[at];
    if a < 0x80 then a else a - 0x100
  }

  function Signed16(code: seq<byte>, at: nat): int
    requires at + 2 <= |code|
  {
    var a: int, b: int := code[at], code[at + 1];
    if a < 0x80 then 0x100 * a + b else 0x100 * a + b - 0x1_0000
  }

  function Signed32(code: seq<byte>, at: nat): int
    requires at + 4 <= |code|
  {
    var a: int, b: int, c: int, d: int := code[at], code[at + 1], code[at + 2], code[at + 3];
    var n := 0x100_0000 * a + 0x1_0000 * b + 0x100 * c + d;
    if a < 0x80 then n else n - 0x1_0000_0000
  }

  lemma SignedIs(code: seq<byte>, at: nat)
    ensures at < |code| ==> Signed8(code, at) == Signed(code[at], 8)
    ensures at + 2 <= |code| ==> Signed16(code, at) == Signed(U16(code, at), 16)
    ensures at + 4 <= |code| ==> Signed32(code, at) == S32(code, at)
  {
  }

  /** The stack without its top values, and with others instead. */
  function Put(t: Typed, k: nat, values: seq<Value>, pc: int): Typed
    requires k <= |t.stack|
  {
    Typed(t.stack[..|t.stack| - k] + values, t.locals, pc)
  }

  function KindAt(opcode: byte): Kind {
    if opcode == opcode / 2 * 2 then Int else Long
  }

  lemma TurnIs(code: seq<byte>, t: Typed, room: nat, i: Instr, next: nat)
    requires 0 <= t.pc < |code| && Decode(code, t.pc) == Some((i, next)) && !Turn(code, t, room).Stuck?
    ensures !i.LConst? && Turn(code, t, room) == Exec(i, t.(pc := next), t.pc)
  {
    hide Decode, Exec;
  }

  // ---------- operands ----------

  /** The kinds of the values that an instruction takes from the stack, the top one last. */
  function Taken(opcode: byte): Option<seq<Kind>> {
    if IsBinary(opcode) then Some([KindAt(opcode), KindAt(opcode)])
    else if 0x74 <= opcode <= 0x75 then Some([KindAt(opcode)])
    else if 0x78 <= opcode <= 0x7d then Some([KindAt(opcode), Int])
    else if opcode == 0x85 || 0x91 <= opcode <= 0x93 || 0x99 <= opcode <= 0x9e then Some([Int])
    else if opcode == 0x88 then Some([Long])
    else if opcode == 0x94 then Some([Long, Long])
    else if 0x9f <= opcode <= 0xa4 then Some([Int, Int])
    else None
  }

  lemma {:induction false} DepthOfPart(stack: seq<Value>, n: nat)
    requires n <= |stack|
    ensures Depth(stack[..n]) <= Depth(stack)
    decreases |stack| - n
  {
    if n == |stack| {
      assert stack[..n] == stack;
    } else {
      assert stack[..|stack| - 1][..n] == stack[..n];
      DepthOfPart(stack[..|stack| - 1], n);
    }
  }

  /** These instructions go on, or throw, exactly when their operands are on the stack. */
  lemma OperandsExactly(code: seq<byte>, t: Typed, room: nat)
    requires 0 <= t.pc < |code| && Taken(code[t.pc]).Some? && Depth(t.stack) < room
    requires 0x99 <= code[t.pc] <= 0xa4 ==> t.pc + 3 <= |code|
    ensures !Turn(code, t, room).Stuck? <==> Tops(t.stack, Taken(code[t.pc]).value)
  {
    hide Decode, Exec, Takes, Taken, Tops, Depth;
    DecodeTaken(code, t.pc);
    var i := Decode(code, t.pc).value.0;
    ExecTakes(i, t.(pc := Decode(code, t.pc).value.1), t.pc);
  }

  /** The same of a decoded instruction. */
  function Takes(i: Instr): seq<Kind> {
    match i
    case Binary(_, kind) => [kind, kind]
    case Neg(kind) => [kind]
    case Shifting(_, kind) => [kind, Int]
    case Converting(c) => [if c == L2I then Long else Int]
    case Lcmp => [Long, Long]
    case If(_, _) => [Int]
    case IfIcmp(_, _) => [Int, Int]
    case _ => []
  }

  lemma DecodeTaken(code: seq<byte>, pc: nat)
    requires pc < |code| && Taken(code[pc]).Some? && (0x99 <= code[pc] <= 0xa4 ==> pc + 3 <= |code|)
    ensures Decode(code, pc).Some? && Takes(Decode(code, pc).value.0) == Taken(code[pc]).value && Taken(code[pc]).value != []
  {
    hide Decode, OpOf;
    if IsBinary(code[pc]) {
      DecodeBinary(code, pc);
    } else if code[pc] <= 0x7d {
      DecodeUnary(code, pc);
    } else if code[pc] <= 0x94 {
      DecodeConvert(code, pc);
    } else {
      DecodeBranch(code, pc);
      DecodeIf(code, pc);
    }
  }

  lemma DecodeBranch(code: seq<byte>, pc: nat)
    requires pc + 3 <= |code| && 0x99 <= code[pc] <= 0xa4
    ensures Decode(code, pc).Some?
  {
    hide Signed, U16;
  }

  lemma ExecTakes(i: Instr, t: Typed, pc: nat)
    requires Takes(i) != []
    ensures !i.LConst? && (Exec(i, t, pc).Stuck? <==> !Tops(t.stack, Takes(i)))
    ensures Exec(i, t, pc).Next? ==> Depth(Exec(i, t, pc).t.stack) <= Depth(t.stack) + 1
  {
    hide Depth, Exec, Tops;
    ExecShape(i, t, pc);
    var s, n := t.stack, |t.stack|;
    if Exec(i, t, pc).Next? {
      var r := Exec(i, t, pc).t.stack;
      var k := |Takes(i)|;
      if |r| == n - k {
        assert r == s[..n - k];
        DepthAfter(s, k, Value(Int, 0));
      } else {
        assert r == s[..n - k] + [r[|r| - 1]];
        DepthAfter(s, k, r[|r| - 1]);
      }
    }
  }

  /** The operands go, and at most one value comes. */
  lemma ExecShape(i: Instr, t: Typed, pc: nat)
    requires Takes(i) != []
    ensures !i.LConst? && (Exec(i, t, pc).Stuck? <==> !Tops(t.stack, Takes(i)))
    ensures Exec(i, t, pc).Next? ==>
              var r, n := Exec(i, t, pc).t.stack, |t.stack| - |Takes(i)|;
              1 <= |Takes(i)| <= |t.stack| && n <= |r| <= n + 1 && r[..n] == t.stack[..n]
  {
    hide Compute, Shift, Convert, Compare, Holds, Wrap, Tops;
    TopsFit(t.stack, Takes(i));
  }

  lemma TopsFit(s: seq<Value>, kinds: seq<Kind>)
    ensures Tops(s, kinds) ==> |kinds| <= |s|
  {
  }

  lemma DepthAfter(s: seq<Value>, k: nat, v: Value)
    requires 1 <= k <= |s|
    ensures Depth(s[..|s| - k]) + 1 <= Depth(s) && Depth(s[..|s| - k] + [v]) <= Depth(s) + 1
  {
    hide Depth, JvmFrame.Flatten, JvmFrame.Words;
    JvmFrame.FlattenPop(s);
    DepthOfPart(s[..|s| - 1], |s| - k);
    assert s[..|s| - 1][..|s| - k] == s[..|s| - k];
    JvmFrame.FlattenPush(s[..|s| - k], v);
  }

  // ---------- branches ----------

  lemma DecodeIf(code: seq<byte>, pc: nat)
    requires pc < |code| && 0x99 <= code[pc] <= 0xa4 && Decode(code, pc).Some?
    ensures pc + 3 <= |code|
    ensures code[pc] <= 0x9e ==> Decode(code, pc) == Some((If(CondOf(code[pc] - 0x99), Signed16(code, pc + 1)), pc + 3))
    ensures code[pc] > 0x9e ==> Decode(code, pc) == Some((IfIcmp(CondOf(code[pc] - 0x9f), Signed16(code, pc + 1)), pc + 3))
  {
    hide Signed, U16, Signed16;
    SignedIs(code, pc + 1);
  }

  lemma Decodes(code: seq<byte>, t: Typed, room: nat)
    requires 0 <= t.pc < |code| && !Turn(code, t, room).Stuck?
    ensures Decode(code, t.pc).Some? && !Decode(code, t.pc).value.0.LConst?
  {
    hide Decode, Exec;
  }

  /** `ifeq`, `ifne`, `iflt`, `ifge`, `ifgt`, `ifle`: the branch is taken exactly when the
      int on top is so against zero. */
  lemma IfTurn(code: seq<byte>, t: Typed, room: nat)
    requires Does(code, t, room, 0x99, 0x9e)
    ensures |t.stack| > 0 && t.pc + 3 <= |code|
    ensures var op, v := code[t.pc], t.stack[|t.stack| - 1].n;
            var taken := (op == 0x99 && v == 0) || (op == 0x9a && v != 0) || (op == 0x9b && v < 0)
                         || (op == 0x9c && v >= 0) || (op == 0x9d && v > 0) || (op == 0x9e && v <= 0);
            Turn(code, t, room) == Next(Put(t, 1, [], if taken then t.pc + Signed16(code, t.pc + 1) else t.pc + 3))
  {
    hide Decode, Turn, Signed16;
    Decodes(code, t, room);
    DecodeIf(code, t.pc);
    TurnIs(code, t, room, Decode(code, t.pc).value.0, t.pc + 3);
  }

  /** `if_icmpeq` to `if_icmple`: the same for the two ints on top. */
  lemma IfIcmpTurn(code: seq<byte>, t: Typed, room: nat)
    requires Does(code, t, room, 0x9f, 0xa4)
    ensures |t.stack| > 1 && t.pc + 3 <= |code|
    ensures var op, a, b := code[t.pc], t.stack[|t.stack| - 2].n, t.stack[|t.stack| - 1].n;
            var taken := (op == 0x9f && a == b) || (op == 0xa0 && a != b) || (op == 0xa1 && a < b)
                         || (op == 0xa2 && a >= b) || (op == 0xa3 && a > b) || (op == 0xa4 && a <= b);
            Turn(code, t, room) == Next(Put(t, 2, [], if taken then t.pc + Signed16(code, t.pc + 1) else t.pc + 3))
  {
    hide Decode, Turn, Signed16;
    Decodes(code, t, room);
    DecodeIf(code, t.pc);
    TurnIs(code, t, room, Decode(code, t.pc).value.0, t.pc + 3);
  }

  lemma DecodeGoto(code: seq<byte>, pc: nat)
    requires pc < |code| && (code[pc] == 0xa7 || code[pc] == 0xc8) && Decode(code, pc).Some?
    ensures code[pc] == 0xa7 ==> pc + 3 <= |code| && Decode(code, pc) == Some((Goto(Signed16(code, pc + 1)), pc + 3))
    ensures code[pc] == 0xc8 ==> pc + 5 <= |code| && Decode(code, pc) == Some((Goto(Signed32(code, pc + 1)), pc + 5))
  {
    hide Signed, U16, S32, Signed16, Signed32;
    SignedIs(code, pc + 1);
  }

  /** `goto` and `goto_w` */
  lemma GotoTurn(code: seq<byte>, t: Typed, room: nat)
    requires Does(code, t, room, 0xa7, 0xa7) || Does(code, t, room, 0xc8, 0xc8)
    ensures code[t.pc] == 0xa7 ==> t.pc + 3 <= |code| && Turn(code, t, room) == Next(t.(pc := t.pc + Signed16(code, t.pc + 1)))
    ensures code[t.pc] == 0xc8 ==> t.pc + 5 <= |code| && Turn(code, t, room) == Next(t.(pc := t.pc + Signed32(code, t.pc + 1)))
  {
    hide Decode, Turn, Signed16, Signed32;
    Decodes(code, t, room);
    DecodeGoto(code, t.pc);
    TurnIs(code, t, room, Decode(code, t.pc).value.0, Decode(code, t.pc).value.1);
    assert t.stack[..|t.stack|] + [] == t.stack;
  }

  // ---------- switches ----------

  /** Where the operands of a switch begin: at the next position divisible by four. */
  function Operands(pc: nat): nat {
    if (pc + 1) % 4 == 0 then pc + 1 else if (pc + 2) % 4 == 0 then pc + 2 else if (pc + 3) % 4 == 0 then pc + 3 else pc + 4
  }

  lemma {:induction false} IntsAt(code: seq<byte>, at: nat, n: nat, k: nat)
    requires at + 4 * n <= |code| && k < n
    ensures Ints(code, at, n)[k] == Signed32(code, at + 4 * k)
    decreases n
  {
    hide S32, Signed32;
    SignedIs(code, at);
    if k > 0 {
      IntsAt(code, at + 4, n - 1, k - 1);
    }
  }

  lemma DecodeSwitch(code: seq<byte>, pc: nat)
    requires pc < |code| && (code[pc] == 0xaa || code[pc] == 0xab) && Decode(code, pc).Some?
    ensures Operands(pc) + 8 <= |code|
    ensures code[pc] == 0xaa ==> Operands(pc) + 12 <= |code| && DecodeTable(code, pc + 1) == Decode(code, pc)
    ensures code[pc] == 0xab ==> DecodeLookup(code, pc + 1) == Decode(code, pc)
    ensures Aligned(pc + 1) == Operands(pc)
  {
    hide S32, Ints;
  }

  /** `tableswitch`: a key from the low to the high end of the range takes its own offset,
      any other key the one in front. */
  lemma TableTurn(code: seq<byte>, t: Typed, room: nat)
    requires Does(code, t, room, 0xaa, 0xaa)
    ensures |t.stack| > 0 && Operands(t.pc) + 12 <= |code|
    ensures var p, key := Operands(t.pc), t.stack[|t.stack| - 1].n;
            var low, high := Signed32(code, p + 4), Signed32(code, p + 8);
            if low <= key <= high then
              p + 16 + 4 * (key - low) <= |code|
              && Turn(code, t, room) == Next(Put(t, 1, [], t.pc + Signed32(code, p + 12 + 4 * (key - low))))
            else Turn(code, t, room) == Next(Put(t, 1, [], t.pc + Signed32(code, p)))
  {
    hide Decode, Turn, Signed32, S32, Ints, Wrap;
    Decodes(code, t, room);
    DecodeSwitch(code, t.pc);
    var p := Operands(t.pc);
    SignedIs(code, p);
    SignedIs(code, p + 4);
    SignedIs(code, p + 8);
    var i := Decode(code, t.pc).value.0;
    TurnIs(code, t, room, i, Decode(code, t.pc).value.1);
    var key := t.stack[|t.stack| - 1].n;
    if i.low <= key <= i.high {
      IntsAt(code, p + 12, |i.offsets|, key - i.low);
    }
  }

  /** The key and the offset of a pair of `lookupswitch`. */
  function KeyAt(code: seq<byte>, p: nat, k: nat): int
    requires p + 16 + 8 * k <= |code|
  {
    Signed32(code, p + 8 + 8 * k)
  }

  function OffsetAt(code: seq<byte>, p: nat, k: nat): int
    requires p + 16 + 8 * k <= |code|
  {
    Signed32(code, p + 12 + 8 * k)
  }

  lemma {:induction false} FirstPair(pairs: seq<int>, key: int, fallback: int, k: nat)
    requires 2 * k <= |pairs| && forall j | 0 <= j < k :: pairs[2 * j] != key
    ensures PairOffset(pairs, key, fallback) == PairOffset(pairs[2 * k..], key, fallback)
    decreases k
  {
    if k == 0 {
      assert pairs[0..] == pairs;
    } else {
      assert pairs[2 * 0] != key;
      var more := pairs[2..];
      assert forall j | 0 <= j < k - 1 :: more[2 * j] == pairs[2 * (j + 1)];
      FirstPair(more, key, fallback, k - 1);
      assert more[2 * (k - 1)..] == pairs[2 * k..];
    }
  }

  /** `lookupswitch`: the first pair with the key on top gives the offset, and the one in
      front does where there is none; `k` is the number of pairs before it. */
  lemma LookupTurn(code: seq<byte>, t: Typed, room: nat) returns (pairs: nat, k: nat)
    requires Does(code, t, room, 0xab, 0xab)
    ensures |t.stack| > 0
    ensures var p, key := Operands(t.pc), t.stack[|t.stack| - 1].n;
            p + 8 + 8 * pairs <= |code| && pairs == Signed32(code, p + 4) % 0x4000_0000
            && k <= pairs && (forall j | 0 <= j < k :: KeyAt(code, p, j) != key)
            && if k < pairs then KeyAt(code, p, k) == key && Turn(code, t, room) == Next(Put(t, 1, [], t.pc + OffsetAt(code, p, k)))
               else Turn(code, t, room) == Next(Put(t, 1, [], t.pc + Signed32(code, p)))
  {
    hide Decode, Turn, Signed32, S32, Ints, Wrap, PairOffset;
    Decodes(code, t, room);
    DecodeSwitch(code, t.pc);
    var p := Operands(t.pc);
    SignedIs(code, p);
    SignedIs(code, p + 4);
    var i := Decode(code, t.pc).value.0;
    TurnIs(code, t, room, i, Decode(code, t.pc).value.1);
    var key := t.stack[|t.stack| - 1].n;
    pairs, k := |i.pairs| / 2, 0;
    PairCount(S32(code, p + 4));
    while k < pairs && i.pairs[2 * k] != key
      invariant k <= pairs && forall j | 0 <= j < k :: i.pairs[2 * j] != key
    {
      k := k + 1;
    }
    forall j | 0 <= j < pairs ensures KeyAt(code, p, j) == i.pairs[2 * j] && OffsetAt(code, p, j) == i.pairs[2 * j + 1] {
      IntsAt(code, p + 8, |i.pairs|, 2 * j);
      IntsAt(code, p + 8, |i.pairs|, 2 * j + 1);
    }
    FirstPair(i.pairs, key, i.fallback, k);
    PairHere(i.pairs[2 * k..], key, i.fallback);
  }

  lemma PairHere(pairs: seq<int>, key: int, fallback: int)
    ensures |pairs| < 2 ==> PairOffset(pairs, key, fallback) == fallback
    ensures |pairs| >= 2 && pairs[0] == key ==> PairOffset(pairs, key, fallback) == pairs[1]
  {
  }

  lemma PairCount(n: int)
    requires InKind(Int, n) && Wrap(Int, n * 2) >= 0
    ensures n % 0x4000_0000 == Wrap(Int, n * 2) / 2 && Wrap(Int, n * 2) % 2 == 0
  {
  }

  // ---------- arithmetic ----------

  /** The instructions that take two operands of a kind. */
  predicate IsBinary(opcode: byte) {
    opcode == 0x60 || opcode == 0x61 || opcode == 0x64 || opcode == 0x65 || opcode == 0x68 || opcode == 0x69
    || opcode == 0x6c || opcode == 0x6d || opcode == 0x70 || opcode == 0x71 || 0x7e <= opcode <= 0x83
  }

  lemma DecodeBinary(code: seq<byte>, pc: nat)
    requires pc < |code| && IsBinary(code[pc])
    ensures OpOf(code[pc]).Some?
    ensures Decode(code, pc) == Some((Binary(OpOf(code[pc]).value, KindAt(code[pc])), pc + 1))
  {
  }

  /** What the machine computes from two operands, and where it goes on. */
  lemma BinaryTurn(code: seq<byte>, t: Typed, room: nat)
    requires 0 <= t.pc < |code| && IsBinary(code[t.pc]) && !Turn(code, t, room).Stuck?
    ensures OpOf(code[t.pc]).Some? && |t.stack| > 1
    ensures var kind, op := KindAt(code[t.pc]), OpOf(code[t.pc]).value;
            var a, b := t.stack[|t.stack| - 2], t.stack[|t.stack| - 1];
            a.kind == b.kind == kind
            && if (op == Div || op == Rem) && b.n == 0 then Turn(code, t, room) == Throws
               else Turn(code, t, room) == Next(Put(t, 2, [Value(kind, Compute(op, kind, a.n, b.n))], t.pc + 1))
  {
    hide Decode, Turn, OpOf, Compute;
    DecodeBinary(code, t.pc);
    var kind, op := KindAt(code[t.pc]), OpOf(code[t.pc]).value;
    TurnIs(code, t, room, Binary(op, kind), t.pc + 1);
    JvmShuffle.Top2(t.stack, kind, kind);
  }

  /** `iadd`, `ladd`, `isub`, `lsub`, `imul` and `lmul`: the number of the kind that differs
      from the exact result by a multiple of two to the number of its bits. */
  lemma ArithmeticTurn(code: seq<byte>, t: Typed, room: nat) returns (r: int)
    requires Does(code, t, room, 0x60, 0x61) || Does(code, t, room, 0x64, 0x65) || Does(code, t, room, 0x68, 0x69)
    ensures |t.stack| > 1
    ensures var op, a, b := code[t.pc], t.stack[|t.stack| - 2].n, t.stack[|t.stack| - 1].n;
            var exact := if op <= 0x61 then a + b else if op <= 0x65 then a - b else a * b;
            Turn(code, t, room) == Next(Put(t, 2, [Value(KindAt(op), r)], t.pc + 1))
            && if KindAt(op) == Int then -0x8000_0000 <= r < 0x8000_0000 && (r - exact) % 0x1_0000_0000 == 0
               else -0x8000_0000_0000_0000 <= r < 0x8000_0000_0000_0000 && (r - exact) % 0x1_0000_0000_0000_0000 == 0
  {
    hide Turn, Wrap;
    BinaryTurn(code, t, room);
    var op, kind := OpOf(code[t.pc]).value, KindAt(code[t.pc]);
    var a, b := t.stack[|t.stack| - 2].n, t.stack[|t.stack| - 1].n;
    r := Compute(op, kind, a, b);
    WrapCongruent(kind, if op == Add then a + b else if op == Sub then a - b else a * b);
  }

  /** `idiv`, `ldiv`, `irem` and `lrem`: with the quotient rounded towards zero and the
      remainder that goes with it; a division by zero throws. */
  lemma DivideTurn(code: seq<byte>, t: Typed, room: nat) returns (q: int, rest: int)
    requires Does(code, t, room, 0x6c, 0x6d) || Does(code, t, room, 0x70, 0x71)
    ensures |t.stack| > 1
    ensures var op, a, b := code[t.pc], t.stack[|t.stack| - 2].n, t.stack[|t.stack| - 1].n;
            if b == 0 then Turn(code, t, room) == Throws
            else
              a == q * b + rest && Abs(rest) < Abs(b) && (rest == 0 || (rest > 0 <==> a > 0))
              && Turn(code, t, room) == Next(Put(t, 2, [Value(KindAt(op), Wrap(KindAt(op), if op <= 0x6d then q else rest))], t.pc + 1))
  {
    hide Turn, Wrap, Quotient, Remainder;
    BinaryTurn(code, t, room);
    var a, b := t.stack[|t.stack| - 2].n, t.stack[|t.stack| - 1].n;
    q, rest := 0, 0;
    if b != 0 {
      q, rest := Quotient(a, b), Remainder(a, b);
      DivisionLaw(a, b);
    }
  }

  /** Bit `k` of a number in two's complement. */
  predicate Bit(n: int, k: nat) {
    n / Pow2(k) % 2 == 1
  }

  lemma BitHalf(n: int, k: nat)
    ensures k == 0 ==> (Bit(n, k) <==> n % 2 == 1)
    ensures k > 0 ==> (Bit(n, k) <==> Bit(n / 2, k - 1))
  {
    if k > 0 {
      hide Pow2;
      Pow2Step(k);
      DivideTwice(n, Pow2(k - 1));
    }
  }

  lemma Pow2Step(k: nat)
    requires k > 0
    ensures Pow2(k) == 2 * Pow2(k - 1)
  {
  }

  lemma DivideTwice(n: int, d: int)
    requires d > 0
    ensures n / (2 * d) == n / 2 / d
  {
    var h := n / 2;
    var q, r := h / d, h % d;
    DivideLaw(h, d);
    assert q * (2 * d) == 2 * (q * d);
    DivideUnique(n, 2 * d, q, 2 * r + n % 2);
  }

  lemma {:induction false} BitwiseBits(gate: Gate, a: int, b: int, n: nat, k: nat)
    requires k < n
    ensures Bit(Bitwise(gate, a, b, n), k) <==>
            (if gate == AndGate then Bit(a, k) && Bit(b, k) else if gate == OrGate then Bit(a, k) || Bit(b, k) else Bit(a, k) != Bit(b, k))
    decreases k
  {
    hide Bit, Bitwise;
    var r := Bitwise(gate, a, b, n);
    BitHalf(r, k);
    BitHalf(a, k);
    BitHalf(b, k);
    BitwiseHalf(gate, a, b, n);
    if k > 0 {
      BitwiseBits(gate, a / 2, b / 2, n - 1, k - 1);
    }
  }

  lemma BitwiseHalf(gate: Gate, a: int, b: int, n: nat)
    requires n > 0
    ensures var r, x, y := Bitwise(gate, a, b, n), a % 2 == 1, b % 2 == 1;
            r / 2 == Bitwise(gate, a / 2, b / 2, n - 1)
            && (r % 2 == 1 <==> if gate == AndGate then x && y else if gate == OrGate then x || y else x != y)
  {
  }

  /** Wrapping a number keeps its low bits. */
  lemma WrapBits(kind: Kind, n: int, k: nat)
    requires k < Bits(kind)
    ensures Bit(Wrap(kind, n), k) <==> Bit(n, k)
  {
    hide Pow2, Wrap;
    WrapCongruent(kind, n);
    var m, p := Modulus(kind), Pow2(k);
    var w := Wrap(kind, n);
    DivideLaw(w - n, m);
    var q := (w - n) / m;
    Pow2Add(k, Bits(kind) - k);
    FullPow2();
    var e := Pow2(Bits(kind) - k);
    Pow2Step(Bits(kind) - k);
    var h := Pow2(Bits(kind) - k - 1);
    assert w == n + q * m && m == p * e && e == 2 * h;
    TimesThree(q, p, e);
    DivideSum(n, q * e, p);
    assert w / p == n / p + q * e;
    TimesTwice(h, q);
    TimesSwap(2 * h, q);
    EvenAside(n / p, h * q);
  }

  lemma TimesThree(q: int, p: int, e: int)
    ensures q * (p * e) == q * e * p
  {
    assert q * (p * e) == q * (e * p) == (q * e) * p;
  }

  lemma EvenAside(n: int, h: int)
    ensures (n + 2 * h) % 2 == n % 2
  {
  }

  /** `iand` to `lxor`: every bit of the result is that of its two bits. */
  lemma BitwiseTurn(code: seq<byte>, t: Typed, room: nat) returns (r: int)
    requires Does(code, t, room, 0x7e, 0x83)
    ensures |t.stack| > 1
    ensures var op, a, b := code[t.pc], t.stack[|t.stack| - 2].n, t.stack[|t.stack| - 1].n;
            InKind(KindAt(op), r) && Turn(code, t, room) == Next(Put(t, 2, [Value(KindAt(op), r)], t.pc + 1))
            && forall k | 0 <= k < Bits(KindAt(op)) ::
                 Bit(r, k) <==> if op <= 0x7f then Bit(a, k) && Bit(b, k) else if op <= 0x81 then Bit(a, k) || Bit(b, k) else Bit(a, k) != Bit(b, k)
  {
    hide Turn, Wrap, Bit, Bitwise;
    BinaryTurn(code, t, room);
    var op, kind := OpOf(code[t.pc]).value, KindAt(code[t.pc]);
    var a, b := t.stack[|t.stack| - 2].n, t.stack[|t.stack| - 1].n;
    r := Compute(op, kind, a, b);
    forall k | 0 <= k < Bits(kind)
      ensures var o := code[t.pc];
              Bit(r, k) <==> if o <= 0x7f then Bit(a, k) && Bit(b, k) else if o <= 0x81 then Bit(a, k) || Bit(b, k) else Bit(a, k) != Bit(b, k)
    {
      BitwiseBits(GateOf(op), a, b, Bits(kind), k);
      WrapBits(kind, Bitwise(GateOf(op), a, b, Bits(kind)), k);
    }
  }

  lemma DecodeUnary(code: seq<byte>, pc: nat)
    requires pc < |code| && (0x74 <= code[pc] <= 0x75 || 0x78 <= code[pc] <= 0x7d)
    ensures code[pc] <= 0x75 ==> Decode(code, pc) == Some((Neg(KindAt(code[pc])), pc + 1))
    ensures code[pc] >= 0x78 ==>
              Decode(code, pc) == Some((Shifting(if code[pc] <= 0x79 then Shl else if code[pc] <= 0x7b then Shr else Ushr, KindAt(code[pc])), pc + 1))
  {
  }

  /** `ineg` and `lneg` */
  lemma NegTurn(code: seq<byte>, t: Typed, room: nat) returns (r: int)
    requires Does(code, t, room, 0x74, 0x75)
    ensures |t.stack| > 0
    ensures var op, v := code[t.pc], t.stack[|t.stack| - 1].n;
            Turn(code, t, room) == Next(Put(t, 1, [Value(KindAt(op), r)], t.pc + 1))
            && InKind(KindAt(op), r) && (r + v) % Modulus(KindAt(op)) == 0
  {
    hide Decode, Turn, Wrap;
    DecodeUnary(code, t.pc);
    var kind := KindAt(code[t.pc]);
    TurnIs(code, t, room, Neg(kind), t.pc + 1);
    r := Wrap(kind, -t.stack[|t.stack| - 1].n);
    WrapCongruent(kind, -t.stack[|t.stack| - 1].n);
  }

  /** `ishl` to `lushr`: the distance is the low five or six bits of the int on top. */
  lemma ShiftTurn(code: seq<byte>, t: Typed, room: nat) returns (r: int)
    requires Does(code, t, room, 0x78, 0x7d)
    ensures |t.stack| > 1
    ensures var op, v := code[t.pc], t.stack[|t.stack| - 2].n;
            var kind := KindAt(op);
            var p := Pow2(t.stack[|t.stack| - 1].n % (if kind == Int then 32 else 64));
            Turn(code, t, room) == Next(Put(t, 2, [Value(kind, r)], t.pc + 1)) && InKind(kind, r)
            && (if op <= 0x79 then (r - v * p) % Modulus(kind) == 0
                else if op <= 0x7b then InKind(kind, v) ==> r * p <= v < r * p + p
                else (r - (if v < 0 then v + Modulus(kind) else v) / p) % Modulus(kind) == 0 || !InKind(kind, v))
  {
    hide Decode, Turn, Wrap, Pow2;
    DecodeUnary(code, t.pc);
    var op, kind := code[t.pc], KindAt(code[t.pc]);
    TurnIs(code, t, room, Decode(code, t.pc).value.0, t.pc + 1);
    var shift := if op <= 0x79 then Shl else if op <= 0x7b then Shr else Ushr;
    JvmShuffle.Top2(t.stack, kind, Int);
    var v, n := t.stack[|t.stack| - 2].n, t.stack[|t.stack| - 1].n;
    r := Shift(shift, kind, v, n);
    ShiftLaw(shift, kind, v, n);
  }

  lemma ShiftLaw(shift: ShiftOp, kind: Kind, v: int, n: int)
    ensures var r, p := Shift(shift, kind, v, n), Pow2(n % (if kind == Int then 32 else 64));
            (shift == Shl ==> (r - v * p) % Modulus(kind) == 0)
            && (shift == Shr && InKind(kind, v) ==> r * p <= v < r * p + p)
            && (shift == Ushr && InKind(kind, v) ==> (r - (if v < 0 then v + Modulus(kind) else v) / p) % Modulus(kind) == 0)
  {
    hide Pow2, Wrap;
    var p := Pow2(n % (if kind == Int then 32 else 64));
    match shift
    case Shl => WrapCongruent(kind, v * p);
    case Shr =>
      if InKind(kind, v) {
        DivideLaw(v, p);
        QuotientInKind(kind, v, p);
      }
    case Ushr =>
      WrapCongruent(kind, Unsigned(kind, v) / p);
      if InKind(kind, v) {
        UnsignedOf(kind, v);
      }
  }

  lemma UnsignedOf(kind: Kind, v: int)
    requires InKind(kind, v)
    ensures Unsigned(kind, v) == if v < 0 then v + Modulus(kind) else v
  {
  }

  lemma QuotientInKind(kind: Kind, v: int, p: int)
    requires InKind(kind, v) && p > 0
    ensures Wrap(kind, v / p) == v / p
  {
    hide Wrap;
    if v < 0 {
      ShiftRange(v, p);
    } else {
      DivideLaw(v, p);
      SmallQuotient(v, p);
    }
  }

  lemma SmallQuotient(v: int, p: int)
    requires v >= 0 && p > 0
    ensures 0 <= v / p <= v
  {
    DivideLaw(v, p);
    if v / p < 0 {
      TimesNegative(v / p + 1, p);
    } else {
      TimesPositive(v / p, p - 1);
    }
  }

  // ---------- conversions and comparison ----------

  lemma DecodeConvert(code: seq<byte>, pc: nat)
    requires pc < |code|
    ensures code[pc] == 0x85 ==> Decode(code, pc) == Some((Converting(I2L), pc + 1))
    ensures code[pc] == 0x88 ==> Decode(code, pc) == Some((Converting(L2I), pc + 1))
    ensures code[pc] == 0x91 ==> Decode(code, pc) == Some((Converting(I2B), pc + 1))
    ensures code[pc] == 0x92 ==> Decode(code, pc) == Some((Converting(I2C), pc + 1))
    ensures code[pc] == 0x93 ==> Decode(code, pc) == Some((Converting(I2S), pc + 1))
    ensures code[pc] == 0x94 ==> Decode(code, pc) == Some((Lcmp, pc + 1))
  {
  }

  /** The number of its width and sign that differs by a multiple of `m`. */
  predicate Cut(r: int, v: int, low: int, m: int)
    requires m > 0
  {
    low <= r < low + m && (r - v) % m == 0
  }

  /** `i2l`, `l2i`, `i2b`, `i2c` and `i2s` */
  lemma ConvertTurn(code: seq<byte>, t: Typed, room: nat) returns (r: int)
    requires Does(code, t, room, 0x85, 0x85) || Does(code, t, room, 0x88, 0x88) || Does(code, t, room, 0x91, 0x93)
    ensures |t.stack| > 0
    ensures var op, v := code[t.pc], t.stack[|t.stack| - 1].n;
            Turn(code, t, room) == Next(Put(t, 1, [Value(if op == 0x85 then Long else Int, r)], t.pc + 1))
            && if op == 0x85 then r == v
               else if op == 0x88 then Cut(r, v, -0x8000_0000, 0x1_0000_0000)
               else if op == 0x91 then Cut(r, v, -0x80, 0x100)
               else if op == 0x92 then Cut(r, v, 0, 0x1_0000)
               else Cut(r, v, -0x8000, 0x1_0000)
  {
    hide Decode, Turn, Convert, Cut;
    DecodeConvert(code, t.pc);
    TurnIs(code, t, room, Decode(code, t.pc).value.0, t.pc + 1);
    r := Convert(Decode(code, t.pc).value.0.conversion, t.stack[|t.stack| - 1].n);
    ConvertCuts(t.stack[|t.stack| - 1].n);
  }

  lemma ConvertCuts(v: int)
    ensures Convert(I2L, v) == v && Cut(Convert(L2I, v), v, -0x8000_0000, 0x1_0000_0000)
    ensures Cut(Convert(I2B, v), v, -0x80, 0x100) && Cut(Convert(I2C, v), v, 0, 0x1_0000) && Cut(Convert(I2S, v), v, -0x8000, 0x1_0000)
  {
    hide Wrap;
    WrapCongruent(Int, v);
    CutIs(v, 0x80, 0x100);
    CutIs(v, 0, 0x1_0000);
    CutIs(v, 0x8000, 0x1_0000);
  }

  lemma CutIs(v: int, half: int, m: int)
    requires m > 0
    ensures Cut((v + half) % m - half, v, -half, m)
  {
    DivideLaw(v + half, m);
    var q := (v + half) / m;
    assert (v + half) % m - half - v == -q * m;
    MultipleOf(-q, m);
  }

  /** `lcmp` */
  lemma LcmpTurn(code: seq<byte>, t: Typed, room: nat)
    requires Does(code, t, room, 0x94, 0x94)
    ensures |t.stack| > 1
    ensures var a, b := t.stack[|t.stack| - 2].n, t.stack[|t.stack| - 1].n;
            Turn(code, t, room) == Next(Put(t, 2, [Value(Int, if a < b then -1 else if b < a then 1 else 0)], t.pc + 1))
  {
    hide Decode, Turn;
    DecodeConvert(code, t.pc);
    TurnIs(code, t, room, Lcmp, t.pc + 1);
  }

  // ---------- constants and local variables ----------

  lemma DecodeConst(code: seq<byte>, pc: nat)
    requires pc < |code|
    ensures 0x02 <= code[pc] <= 0x08 ==> Decode(code, pc) == Some((Const(code[pc] as int - 3), pc + 1))
    ensures code[pc] == 0x10 && pc + 2 <= |code| ==> Decode(code, pc) == Some((Const(Signed8(code, pc + 1)), pc + 2))
    ensures code[pc] == 0x11 && pc + 3 <= |code| ==> Decode(code, pc) == Some((Const(Signed16(code, pc + 1)), pc + 3))
    ensures code[pc] == 0x10 && Decode(code, pc).Some? ==> pc + 2 <= |code|
    ensures code[pc] == 0x11 && Decode(code, pc).Some? ==> pc + 3 <= |code|
  {
    hide Signed, U16, Signed8, Signed16;
    SignedIs(code, pc + 1);
  }

  /** `iconst_m1` to `iconst_5`, `bipush` and `sipush` */
  lemma ConstTurn(code: seq<byte>, t: Typed, room: nat)
    requires Does(code, t, room, 0x02, 0x08) || Does(code, t, room, 0x10, 0x11)
    ensures code[t.pc] == 0x10 ==> t.pc + 2 <= |code|
    ensures code[t.pc] == 0x11 ==> t.pc + 3 <= |code|
    ensures var op := code[t.pc];
            var (v, next) := if op == 0x10 then (Signed8(code, t.pc + 1), t.pc + 2)
                             else if op == 0x11 then (Signed16(code, t.pc + 1), t.pc + 3) else (op as int - 3, t.pc + 1);
            Turn(code, t, room) == Next(Put(t, 0, [Value(Int, v)], next))
  {
    hide Decode, Turn, Signed8, Signed16;
    Decodes(code, t, room);
    DecodeConst(code, t.pc);
    TurnIs(code, t, room, Decode(code, t.pc).value.0, Decode(code, t.pc).value.1);
  }

  /** The instruction at `pc` is `op` on the local variable `index`: with a byte behind
      it, in one of the four short forms from `short` on, or in its wide form. */
  predicate OnLocal(code: seq<byte>, pc: nat, op: byte, short: byte, index: nat, next: nat) {
    pc < |code|
    && ((code[pc] == op && next == pc + 2 <= |code| && index == code[pc + 1])
        || (short <= code[pc] <= short as int + 3 && next == pc + 1 && index == code[pc] as int - short as int)
        || (code[pc] == 0xc4 && next == pc + 4 <= |code| && code[pc + 1] == op && index == 0x100 * (code[pc + 2] as int) + code[pc + 3] as int))
  }

  lemma DecodeLoad(code: seq<byte>, pc: nat, index: nat, next: nat)
    ensures OnLocal(code, pc, 0x15, 0x1a, index, next) ==> Decode(code, pc) == Some((Load(Int, index), next))
    ensures OnLocal(code, pc, 0x16, 0x1e, index, next) ==> Decode(code, pc) == Some((Load(Long, index), next))
  {
  }

  lemma DecodeStore(code: seq<byte>, pc: nat, index: nat, next: nat)
    ensures OnLocal(code, pc, 0x36, 0x3b, index, next) ==> Decode(code, pc) == Some((Store(Int, index), next))
    ensures OnLocal(code, pc, 0x37, 0x3f, index, next) ==> Decode(code, pc) == Some((Store(Long, index), next))
  {
  }

  /** `iload` and `lload` push the int, or the whole long, that the variable holds. */
  lemma LoadTurn(code: seq<byte>, t: Typed, room: nat, kind: Kind, index: nat, next: nat)
    requires t.pc >= 0 && !Turn(code, t, room).Stuck?
    requires if kind == Int then OnLocal(code, t.pc, 0x15, 0x1a, index, next) else OnLocal(code, t.pc, 0x16, 0x1e, index, next)
    ensures index < |t.locals| && (if kind == Int then t.locals[index].Whole? else t.locals[index].First?)
    ensures Turn(code, t, room) == Next(Put(t, 0, [Value(kind, t.locals[index].n)], next))
  {
    hide Decode, Turn;
    DecodeLoad(code, t.pc, index, next);
    TurnIs(code, t, room, Load(kind, index), next);
  }

  /** `istore` and `lstore`: the variable holds the value from the top; other variables
      stay, except for a long of which a half is overwritten. */
  lemma StoreTurn(code: seq<byte>, t: Typed, room: nat, kind: Kind, index: nat, next: nat) returns (locals: seq<Cell>)
    requires t.pc >= 0 && !Turn(code, t, room).Stuck?
    requires if kind == Int then OnLocal(code, t.pc, 0x36, 0x3b, index, next) else OnLocal(code, t.pc, 0x37, 0x3f, index, next)
    ensures |t.stack| > 0 && |locals| == |t.locals|
    ensures var v := t.stack[|t.stack| - 1];
            var last := if kind == Int then index else index + 1;
            v.kind == kind && last < |locals| && Turn(code, t, room) == Next(Put(t, 1, [], next).(locals := locals))
            && (if kind == Int then locals[index] == Whole(v.n) else locals[index] == First(v.n) && locals[index + 1] == Second)
            && forall k | 0 <= k < |locals| && (k < index || k > last) ::
                 locals[k] == if (k + 1 == index && t.locals[index].Second?)
                                 || (k == last + 1 && t.locals[last].First? && (kind == Int || !t.locals[index].First?)) then Unset
                              else t.locals[k]
  {
    hide Decode, Turn, Stored;
    DecodeStore(code, t.pc, index, next);
    TurnIs(code, t, room, Store(kind, index), next);
    JvmShuffle.Top1(t.stack, kind);
    locals := Stored(t.locals, index, t.stack[|t.stack| - 1]);
    StoredIs(t.locals, index, t.stack[|t.stack| - 1]);
  }

  lemma StoredIs(cells: seq<Cell>, index: nat, v: Value)
    requires index + Width(v.kind) <= |cells|
    ensures var r, last := Stored(cells, index, v), index + Width(v.kind) - 1;
            (if v.kind == Int then r[index] == Whole(v.n) else r[index] == First(v.n) && r[index + 1] == Second)
            && forall k | 0 <= k < |r| && (k < index || k > last) ::
                 r[k] == if (k + 1 == index && cells[index].Second?)
                            || (k == last + 1 && cells[last].First? && (v.kind == Int || !cells[index].First?)) then Unset
                         else cells[k]
  {
  }

  lemma DecodeIinc(code: seq<byte>, pc: nat)
    requires pc < |code| && Decode(code, pc).Some?
    ensures code[pc] == 0x84 ==> pc + 3 <= |code| && Decode(code, pc) == Some((Iinc(code[pc + 1], Signed8(code, pc + 2)), pc + 3))
    ensures code[pc] == 0xc4 && pc + 1 < |code| && code[pc + 1] == 0x84 ==>
              pc + 6 <= |code| && Decode(code, pc) == Some((Iinc(U16(code, pc + 2), Signed16(code, pc + 4)), pc + 6))
  {
    hide Signed, U16, Signed8, Signed16;
    SignedIs(code, pc + 2);
    SignedIs(code, pc + 4);
  }

  /** `iinc`, also in its wide form */
  lemma IincTurn(code: seq<byte>, t: Typed, room: nat) returns (index: nat, r: int)
    requires Does(code, t, room, 0x84, 0x84) || (Does(code, t, room, 0xc4, 0xc4) && t.pc + 1 < |code| && code[t.pc + 1] == 0x84)
    ensures var pc: nat := t.pc;
            var wide := code[pc] == 0xc4;
            (if wide then pc + 6 else pc + 3) <= |code|
            && index == (if wide then 0x100 * (code[pc + 2] as int) + code[pc + 3] as int else code[pc + 1])
            && index < |t.locals| && t.locals[index].Whole? && Cut(r, t.locals[index].n + (if wide then Signed16(code, pc + 4) else Signed8(code, pc + 2)), -0x8000_0000, 0x1_0000_0000)
            && Turn(code, t, room) == Next(t.(locals := t.locals[index := Whole(r)], pc := if wide then pc + 6 else pc + 3))
  {
    hide Decode, Turn, Signed8, Signed16, Wrap;
    Decodes(code, t, room);
    DecodeIinc(code, t.pc);
    var i := Decode(code, t.pc).value.0;
    TurnIs(code, t, room, i, Decode(code, t.pc).value.1);
    index := i.index;
    r := Wrap(Int, t.locals[index].n + i.c);
    WrapCongruent(Int, t.locals[index].n + i.c);
  }

  // ---------- the stack ----------

  lemma DecodeShuffle(code: seq<byte>, pc: nat)
    requires pc < |code| && 0x57 <= code[pc] <= 0x5f
    ensures Decode(code, pc) == Some((Shuffle(ShuffleOf(code[pc] - 0x57)), pc + 1))
  {
  }

  /** `pop`, `pop2`, `dup`, `dup_x1`, `dup_x2`, `dup2`, `dup2_x1`, `dup2_x2` and `swap`, on the
      words of the stack. */
  lemma StackTurn(code: seq<byte>, t: Typed, room: nat)
    requires Does(code, t, room, 0x57, 0x5f)
    ensures Turn(code, t, room).Next? && Turn(code, t, room).t.locals == t.locals && Turn(code, t, room).t.pc == t.pc + 1
    ensures var op, w, r := code[t.pc], JvmFrame.Flatten(t.stack), JvmFrame.Flatten(Turn(code, t, room).t.stack);
            var n := |w|;
            (op == 0x57 ==> n >= 1 && r == w[..n - 1])
            && (op == 0x58 ==> n >= 2 && r == w[..n - 2])
            && (op == 0x59 ==> n >= 1 && r == w + [w[n - 1]])
            && (op == 0x5a ==> n >= 2 && r == w[..n - 2] + [w[n - 1], w[n - 2], w[n - 1]])
            && (op == 0x5b ==> n >= 3 && r == w[..n - 3] + [w[n - 1], w[n - 3], w[n - 2], w[n - 1]])
            && (op == 0x5c ==> n >= 2 && r == w + [w[n - 2], w[n - 1]])
            && (op == 0x5d ==> n >= 3 && r == w[..n - 3] + [w[n - 2], w[n - 1], w[n - 3], w[n - 2], w[n - 1]])
            && (op == 0x5e ==> n >= 4 && r == w[..n - 4] + [w[n - 2], w[n - 1], w[n - 4], w[n - 3], w[n - 2], w[n - 1]])
            && (op == 0x5f ==> n >= 2 && r == w[..n - 2] + [w[n - 1], w[n - 2]])
  {
    hide Decode, Turn, Shuffled, JvmFrame.Flatten, JvmShuffle.Moved;
    DecodeShuffle(code, t.pc);
    var op := ShuffleOf(code[t.pc] - 0x57);
    TurnIs(code, t, room, Shuffle(op), t.pc + 1);
    JvmShuffle.ShuffleWords(op, t.stack);
    WordsMoved(JvmFrame.Flatten(t.stack), op);
  }

  lemma WordsMoved(w: seq<int>, op: StackOp)
    requires JvmShuffle.Taken(op) <= |w|
    ensures var n, r := |w|, JvmShuffle.Moved(w, op);
            match op
            case Pop => n >= 1 && r == w[..n - 1]
            case Pop2 => n >= 2 && r == w[..n - 2]
            case Dup => n >= 1 && r == w + [w[n - 1]]
            case DupX1 => n >= 2 && r == w[..n - 2] + [w[n - 1], w[n - 2], w[n - 1]]
            case DupX2 => n >= 3 && r == w[..n - 3] + [w[n - 1], w[n - 3], w[n - 2], w[n - 1]]
            case Dup2 => n >= 2 && r == w + [w[n - 2], w[n - 1]]
            case Dup2X1 => n >= 3 && r == w[..n - 3] + [w[n - 2], w[n - 1], w[n - 3], w[n - 2], w[n - 1]]
            case Dup2X2 => n >= 4 && r == w[..n - 4] + [w[n - 2], w[n - 1], w[n - 4], w[n - 3], w[n - 2], w[n - 1]]
            case Swap => n >= 2 && r == w[..n - 2] + [w[n - 1], w[n - 2]]
  {
  }
}
