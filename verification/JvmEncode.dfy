/** Writing instructions as byte code, and reading them back. */
module JvmEncode {
  import opened Integers
  import opened Optional
  import opened JvmWords
  import opened JvmCode

  // ---------- encoding ----------

  function Bytes2(n: int): (r: seq<byte>)
    ensures |r| == 2
  {
    var u := n % 0x1_0000;
    [u / 0x100, u % 0x100]
  }

  function Bytes4(n: int): (r: seq<byte>)
    ensures |r| == 4
  {
    var u := n % TWO32;
    [u / 0x100_0000, u / 0x1_0000 % 0x100, u / 0x100 % 0x100, u % 0x100]
  }

  function IntBytes(ints: seq<int>): (r: seq<byte>)
    ensures |r| == 4 * |ints|
  {
    if |ints| == 0 then [] else Bytes4(ints[0]) + IntBytes(ints[1..])
  }

  function OpCode(op: Op): byte {
    match op
    case Add => 0x60
    case Sub => 0x64
    case Mul => 0x68
    case Div => 0x6c
    case Rem => 0x70
    case And => 0x7e
    case Or => 0x80
    case Xor => 0x82
  }

  function CondCode(c: Cond): (r: byte)
    ensures r < 6
  {
    match c
    case Eq => 0
    case Ne => 1
    case Lt => 2
    case Ge => 3
    case Gt => 4
    case Le => 5
  }

  function ShuffleCode(s: StackOp): (r: byte)
    ensures r < 9
  {
    match s
    case Pop => 0
    case Pop2 => 1
    case Dup => 2
    case DupX1 => 3
    case DupX2 => 4
    case Dup2 => 5
    case Dup2X1 => 6
    case Dup2X2 => 7
    case Swap => 8
  }

  function ShiftCode(s: ShiftOp): (r: byte)
    ensures r < 3
  {
    match s
    case Shl => 0
    case Shr => 1
    case Ushr => 2
  }

  function ConversionCode(c: Conversion): byte {
    match c
    case I2L => 0x85
    case L2I => 0x88
    case I2B => 0x91
    case I2C => 0x92
    case I2S => 0x93
  }

  function Offset(kind: Kind): (r: nat)
    ensures r < 2
  {
    if kind == Int then 0 else 1
  }

  predicate IsByte(n: int) { -0x80 <= n < 0x80 }

  predicate IsShort(n: int) { -0x8000 <= n < 0x8000 }

  predicate AllInts(ints: seq<int>) {
    forall k | 0 <= k < |ints| :: InKind(Int, ints[k])
  }

  /** The operands fit the formats of JVMS section 6.5. */
  predicate Encodable(i: Instr) {
    match i
    case Const(n) => IsShort(n)
    case LConst(n) => n == 0 || n == 1
    case Load(_, index) => index < 0x1_0000
    case Store(_, index) => index < 0x1_0000
    case Iinc(index, c) => index < 0x1_0000 && IsShort(c)
    case If(_, offset) => IsShort(offset)
    case IfIcmp(_, offset) => IsShort(offset)
    case Goto(offset) => InKind(Int, offset)
    case TableSwitch(fallback, low, high, offsets) =>
      InKind(Int, fallback) && InKind(Int, low) && InKind(Int, high) && AllInts(offsets)
      && low <= high && |offsets| == high - low + 1 < TWO31
    case LookupSwitch(fallback, pairs) => InKind(Int, fallback) && AllInts(pairs) && |pairs| % 2 == 0 && |pairs| < TWO31
    case _ => true
  }

  /** A local variable access: the short form for the first four, one byte for small
      indices, and the wide form. */
  function Access(shorts: byte, plain: byte, kind: Kind, index: nat): seq<byte>
    requires index < 0x1_0000 && shorts < 0x80 && plain < 0x80
  {
    if index < 4 then [shorts + 4 * Offset(kind) + index]
    else if index < 0x100 then [plain + Offset(kind), index]
    else [0xc4, plain + Offset(kind)] + Bytes2(index)
  }

  function Padding(pc: nat): seq<byte> {
    seq(Aligned(pc) - pc, i => 0)
  }

  /** The byte code of an instruction at position `pc`. */
  function Encode(i: Instr, pc: nat): (r: seq<byte>)
    requires Encodable(i)
    ensures |r| > 0
  {
    match i
    case Nop => [0]
    case Const(n) => if -1 <= n <= 5 then [n + 3] else if IsByte(n) then [0x10, n % 0x100] else [0x11] + Bytes2(n)
    case LConst(n) => [9 + n]
    case Load(kind, index) => Access(0x1a, 0x15, kind, index)
    case Store(kind, index) => Access(0x3b, 0x36, kind, index)
    case Shuffle(s) => [0x57 + ShuffleCode(s)]
    case Binary(op, kind) => [OpCode(op) + Offset(kind)]
    case Neg(kind) => [0x74 + Offset(kind)]
    case Shifting(s, kind) => [0x78 + 2 * ShiftCode(s) + Offset(kind)]
    case Iinc(index, c) => if index < 0x100 && IsByte(c) then [0x84, index, c % 0x100] else [0xc4, 0x84] + Bytes2(index) + Bytes2(c)
    case Converting(c) => [ConversionCode(c)]
    case Lcmp => [0x94]
    case If(c, offset) => [0x99 + CondCode(c)] + Bytes2(offset)
    case IfIcmp(c, offset) => [0x9f + CondCode(c)] + Bytes2(offset)
    case Goto(offset) => if IsShort(offset) then [0xa7] + Bytes2(offset) else [0xc8] + Bytes4(offset)
    case TableSwitch(fallback, low, high, offsets) =>
      [0xaa] + Padding(pc + 1) + Bytes4(fallback) + Bytes4(low) + Bytes4(high) + IntBytes(offsets)
    case LookupSwitch(fallback, pairs) =>
      [0xab] + Padding(pc + 1) + Bytes4(fallback) + Bytes4(|pairs| / 2) + IntBytes(pairs)
  }

  // ---------- reading back ----------

  lemma Back2(n: int)
    requires -0x8000 <= n < 0x1_0000
    ensures var b := Bytes2(n); Pair(b[0], b[1]) == n % 0x1_0000 && (IsShort(n) ==> Signed(Pair(b[0], b[1]), 16) == n)
  {
  }

  lemma Back4(n: int)
    requires InKind(Int, n)
    ensures var b := Bytes4(n); Quad(b[0], b[1], b[2], b[3]) == n
  {
    hide Wrap;
    FourBytes(n % TWO32);
    WrapBack(n);
  }

  lemma WrapBack(n: int)
    requires InKind(Int, n)
    ensures Wrap(Int, n % TWO32) == n
  {
  }

  lemma FourBytes(u: nat)
    requires u < TWO32
    ensures u / 0x100_0000 * 0x100_0000 + u / 0x1_0000 % 0x100 * 0x1_0000 + u / 0x100 % 0x100 * 0x100 + u % 0x100 == u
  {
    var v := u / 0x100;
    var w := v / 0x100;
    assert u == v * 0x100 + u % 0x100;
    assert v == w * 0x100 + v % 0x100;
    assert w == w / 0x100 * 0x100 + w % 0x100;
    assert w == u / 0x1_0000 && w / 0x100 == u / 0x100_0000;
  }

  /** `part` stands in the code at `pc`. */
  predicate Stands(code: seq<byte>, pc: nat, part: seq<byte>) {
    pc + |part| <= |code| && code[pc..pc + |part|] == part
  }

  lemma StandsAt(code: seq<byte>, pc: nat, part: seq<byte>, k: nat)
    requires Stands(code, pc, part) && k < |part|
    ensures code[pc + k] == part[k]
  {
    assert code[pc..pc + |part|][k] == code[pc + k];
  }

  lemma StandsSplit(code: seq<byte>, pc: nat, a: seq<byte>, b: seq<byte>)
    requires Stands(code, pc, a + b)
    ensures Stands(code, pc, a) && Stands(code, pc + |a|, b)
  {
    var all := code[pc..pc + |a + b|];
    assert all[..|a|] == a && all[|a|..] == b;
    assert all[..|a|] == code[pc..pc + |a|] && all[|a|..] == code[pc + |a|..pc + |a| + |b|];
  }

  lemma U16Back(code: seq<byte>, pc: nat, n: int)
    requires Stands(code, pc, Bytes2(n)) && -0x8000 <= n < 0x1_0000
    ensures U16(code, pc) == n % 0x1_0000 && (IsShort(n) ==> Signed(U16(code, pc), 16) == n)
  {
    hide Bytes2;
    StandsAt(code, pc, Bytes2(n), 0);
    StandsAt(code, pc, Bytes2(n), 1);
    Back2(n);
  }

  lemma S32Back(code: seq<byte>, pc: nat, n: int)
    requires Stands(code, pc, Bytes4(n)) && InKind(Int, n)
    ensures S32(code, pc) == n
  {
    hide Bytes4, Quad;
    StandsAt(code, pc, Bytes4(n), 0);
    StandsAt(code, pc, Bytes4(n), 1);
    StandsAt(code, pc, Bytes4(n), 2);
    StandsAt(code, pc, Bytes4(n), 3);
    Back4(n);
  }

  lemma {:induction false} IntsBack(code: seq<byte>, pc: nat, ints: seq<int>)
    requires Stands(code, pc, IntBytes(ints)) && AllInts(ints)
    ensures Ints(code, pc, |ints|) == ints
    decreases ints
  {
    hide S32, Bytes4, Stands;
    StandsLength(code, pc, IntBytes(ints));
    if |ints| > 0 {
      StandsSplit(code, pc, Bytes4(ints[0]), IntBytes(ints[1..]));
      S32Back(code, pc, ints[0]);
      IntsBack(code, pc + 4, ints[1..]);
    }
  }

  lemma StandsLength(code: seq<byte>, pc: nat, part: seq<byte>)
    requires Stands(code, pc, part)
    ensures pc + |part| <= |code|
  {
  }

  /** A one-byte instruction is recognised by its opcode. */
  predicate OneByte(i: Instr) {
    match i
    case Const(n) => -1 <= n <= 5
    case Load(_, index) => index < 4
    case Store(_, index) => index < 4
    case Iinc(_, _) => false
    case If(_, _) => false
    case IfIcmp(_, _) => false
    case Goto(_) => false
    case TableSwitch(_, _, _, _) => false
    case LookupSwitch(_, _) => false
    case _ => true
  }

  lemma OpBack(op: Op, kind: Kind)
    ensures OpOf(OpCode(op) + Offset(kind)) == Some(op) && KindOf(OpCode(op) + Offset(kind)) == kind
    ensures 0x5f < OpCode(op) + Offset(kind) < 0x84
  {
  }

  lemma PlainBack(i: Instr, pc: nat)
    requires Encodable(i) && OneByte(i)
    ensures |Encode(i, pc)| == 1 && Plain(Encode(i, pc)[0]) == Some(i)
  {
    if i.Binary? {
      OpBack(i.op, i.kind);
    }
  }

  lemma PlainNot(opcode: byte)
    ensures opcode in {0x10, 0x11, 0x15, 0x16, 0x36, 0x37, 0x84, 0xa7, 0xaa, 0xab, 0xc4, 0xc8} || 0x99 <= opcode <= 0xa4 ==> Plain(opcode).None?
  {
  }

  lemma AccessBack(code: seq<byte>, pc: nat, i: Instr)
    requires Encodable(i) && (i.Load? || i.Store?) && i.index >= 4 && Stands(code, pc, Encode(i, pc))
    ensures Decode(code, pc) == Some((i, pc + |Encode(i, pc)|))
  {
    hide Plain, Stands, Bytes2, U16;
    var e := Encode(i, pc);
    StandsLength(code, pc, e);
    StandsAt(code, pc, e, 0);
    StandsAt(code, pc, e, 1);
    PlainNot(e[0]);
    if i.index >= 0x100 {
      var plain := if i.Load? then 0x15 else 0x36;
      StandsSplit(code, pc, [0xc4, plain + Offset(i.kind)], Bytes2(i.index));
      U16Back(code, pc + 2, i.index);
    }
  }

  lemma IincBack(code: seq<byte>, pc: nat, i: Instr)
    requires Encodable(i) && i.Iinc? && Stands(code, pc, Encode(i, pc))
    ensures Decode(code, pc) == Some((i, pc + |Encode(i, pc)|))
  {
    hide Plain, Stands, Bytes2, U16;
    var e := Encode(i, pc);
    StandsLength(code, pc, e);
    StandsAt(code, pc, e, 0);
    StandsAt(code, pc, e, 1);
    StandsAt(code, pc, e, 2);
    PlainNot(e[0]);
    if !(i.index < 0x100 && IsByte(i.c)) {
      StandsSplit(code, pc, [0xc4, 0x84] + Bytes2(i.index), Bytes2(i.c));
      StandsSplit(code, pc, [0xc4, 0x84], Bytes2(i.index));
      U16Back(code, pc + 2, i.index);
      U16Back(code, pc + 4, i.c);
    }
  }

  lemma BranchBack(code: seq<byte>, pc: nat, i: Instr)
    requires Encodable(i) && (i.If? || i.IfIcmp? || i.Goto?) && Stands(code, pc, Encode(i, pc))
    ensures Decode(code, pc) == Some((i, pc + |Encode(i, pc)|))
  {
    hide Plain, Stands, Bytes2, Bytes4, U16, S32;
    var e := Encode(i, pc);
    StandsLength(code, pc, e);
    StandsAt(code, pc, e, 0);
    PlainNot(e[0]);
    if i.Goto? && !IsShort(i.offset) {
      StandsSplit(code, pc, [0xc8], Bytes4(i.offset));
      S32Back(code, pc + 1, i.offset);
    } else {
      StandsSplit(code, pc, [e[0]], Bytes2(i.offset));
      U16Back(code, pc + 1, i.offset);
    }
  }

  lemma ConstBack(code: seq<byte>, pc: nat, i: Instr)
    requires Encodable(i) && i.Const? && !OneByte(i) && Stands(code, pc, Encode(i, pc))
    ensures Decode(code, pc) == Some((i, pc + |Encode(i, pc)|))
  {
    hide Plain, Stands, Bytes2, U16;
    var e := Encode(i, pc);
    StandsLength(code, pc, e);
    StandsAt(code, pc, e, 0);
    StandsAt(code, pc, e, 1);
    PlainNot(e[0]);
    if !IsByte(i.n) {
      StandsSplit(code, pc, [0x11], Bytes2(i.n));
      U16Back(code, pc + 1, i.n);
    }
  }

  lemma TableBack(code: seq<byte>, pc: nat, i: Instr)
    requires Encodable(i) && i.TableSwitch? && Stands(code, pc, Encode(i, pc))
    ensures Decode(code, pc) == Some((i, pc + |Encode(i, pc)|))
  {
    hide Plain, Stands, Bytes4, S32, IntBytes, Ints;
    var e := Encode(i, pc);
    StandsLength(code, pc, e);
    StandsAt(code, pc, e, 0);
    PlainNot(e[0]);
    var start := [0xaa] + Padding(pc + 1);
    var p := Aligned(pc + 1);
    StandsSplit(code, pc, start + Bytes4(i.fallback) + Bytes4(i.low) + Bytes4(i.high), IntBytes(i.offsets));
    StandsSplit(code, pc, start + Bytes4(i.fallback) + Bytes4(i.low), Bytes4(i.high));
    StandsSplit(code, pc, start + Bytes4(i.fallback), Bytes4(i.low));
    StandsSplit(code, pc, start, Bytes4(i.fallback));
    S32Back(code, p, i.fallback);
    S32Back(code, p + 4, i.low);
    S32Back(code, p + 8, i.high);
    IntsBack(code, p + 12, i.offsets);
  }

  lemma LookupBack(code: seq<byte>, pc: nat, i: Instr)
    requires Encodable(i) && i.LookupSwitch? && Stands(code, pc, Encode(i, pc))
    ensures Decode(code, pc) == Some((i, pc + |Encode(i, pc)|))
  {
    hide Plain, Stands, Bytes4, S32, IntBytes, Ints;
    var e := Encode(i, pc);
    StandsLength(code, pc, e);
    StandsAt(code, pc, e, 0);
    PlainNot(e[0]);
    var start := [0xab] + Padding(pc + 1);
    var p := Aligned(pc + 1);
    var n := |i.pairs| / 2;
    StandsSplit(code, pc, start + Bytes4(i.fallback) + Bytes4(n), IntBytes(i.pairs));
    StandsSplit(code, pc, start + Bytes4(i.fallback), Bytes4(n));
    StandsSplit(code, pc, start, Bytes4(i.fallback));
    S32Back(code, p, i.fallback);
    S32Back(code, p + 4, n);
    IntsBack(code, p + 8, i.pairs);
  }

  /** Whatever instruction is written into the code, at whatever position and with
      whatever around it, is read back, with all of its bytes and no more. */
  lemma DecodeEncode(code: seq<byte>, pc: nat, i: Instr)
    requires Encodable(i) && Stands(code, pc, Encode(i, pc))
    ensures Decode(code, pc) == Some((i, pc + |Encode(i, pc)|))
  {
    hide Encode, Decode, Plain, Stands;
    if OneByte(i) {
      PlainBack(i, pc);
      OneByteBack(code, pc, i);
    } else if i.Const? {
      ConstBack(code, pc, i);
    } else if i.Load? || i.Store? {
      AccessBack(code, pc, i);
    } else if i.Iinc? {
      IincBack(code, pc, i);
    } else if i.TableSwitch? {
      TableBack(code, pc, i);
    } else if i.LookupSwitch? {
      LookupBack(code, pc, i);
    } else {
      BranchBack(code, pc, i);
    }
  }

  lemma OneByteBack(code: seq<byte>, pc: nat, i: Instr)
    requires Encodable(i) && Stands(code, pc, Encode(i, pc))
    requires |Encode(i, pc)| == 1 && Plain(Encode(i, pc)[0]) == Some(i)
    ensures Decode(code, pc) == Some((i, pc + 1))
  {
    hide Encode, Plain, Stands;
    StandsAt(code, pc, Encode(i, pc), 0);
    StandsLength(code, pc, Encode(i, pc));
  }
}
