/** Instructions, their byte codes, and the byte-code reader. */
module JvmCode {
  import opened Integers
  import opened Optional
  import JvmGo
  import opened JvmWords

  type byte = n: int | 0 <= n < 256 witness 0

  datatype StackOp = Pop | Pop2 | Dup | DupX1 | DupX2 | Dup2 | Dup2X1 | Dup2X2 | Swap

  /** The instructions on ints and longs. */
  datatype Instr =
    | Nop
    | Const(n: int)
    | LConst(n: int)
    | Load(kind: Kind, index: nat)
    | Store(kind: Kind, index: nat)
    | Shuffle(shuffle: StackOp)
    | Binary(op: Op, kind: Kind)
    | Neg(kind: Kind)
    | Shifting(shift: ShiftOp, kind: Kind)
    | Iinc(index: nat, c: int)
    | Converting(conversion: Conversion)
    | Lcmp
    | If(cond: Cond, offset: int)
    | IfIcmp(cond: Cond, offset: int)
    | Goto(offset: int)
    | TableSwitch(fallback: int, low: int, high: int, offsets: seq<int>)
    | LookupSwitch(fallback: int, pairs: seq<int>)

  // ---------- reading ----------

  function Signed(n: int, bits: nat): int
    requires bits == 8 || bits == 16
  {
    var half := if bits == 8 then 0x80 else 0x8000;
    (n + half) % (2 * half) - half
  }

  /** Bytes put together, most significant first. */
  function Pair(byte1: nat, byte2: nat): nat {
    byte1 * 0x100 + byte2
  }

  function Quad(byte1: nat, byte2: nat, byte3: nat, byte4: nat): int {
    Wrap(Int, byte1 * 0x100_0000 + byte2 * 0x1_0000 + byte3 * 0x100 + byte4)
  }

  function U16(code: seq<byte>, pc: nat): nat
    requires pc + 2 <= |code|
  {
    Pair(code[pc], code[pc + 1])
  }

  function S32(code: seq<byte>, pc: nat): (r: int)
    requires pc + 4 <= |code|
    ensures InKind(Int, r)
  {
    Quad(code[pc], code[pc + 1], code[pc + 2], code[pc + 3])
  }

  function Ints(code: seq<byte>, pc: nat, n: nat): (r: seq<int>)
    requires pc + 4 * n <= |code|
    ensures |r| == n
    decreases n
  {
    if n == 0 then [] else [S32(code, pc)] + Ints(code, pc + 4, n - 1)
  }

  /** The next position divisible by four. */
  function Aligned(pc: nat): (r: nat)
    ensures pc <= r < pc + 4 && r % 4 == 0
  {
    (pc + 3) / 4 * 4
  }

  // ---------- decoding ----------

  /** The operations whose opcode stands for an int and whose next opcode for a long. */
  function OpOf(opcode: byte): Option<Op> {
    match opcode / 2
    case 0x30 => Some(Add)
    case 0x32 => Some(Sub)
    case 0x34 => Some(Mul)
    case 0x36 => Some(Div)
    case 0x38 => Some(Rem)
    case 0x3f => Some(And)
    case 0x40 => Some(Or)
    case 0x41 => Some(Xor)
    case _ => None
  }

  function KindOf(opcode: byte): Kind {
    if opcode % 2 == 0 then Int else Long
  }

  function CondOf(n: nat): Cond {
    match n
    case 0 => Eq
    case 1 => Ne
    case 2 => Lt
    case 3 => Ge
    case 4 => Gt
    case _ => Le
  }

  function ShuffleOf(n: nat): StackOp {
    match n
    case 0 => Pop
    case 1 => Pop2
    case 2 => Dup
    case 3 => DupX1
    case 4 => DupX2
    case 5 => Dup2
    case 6 => Dup2X1
    case 7 => Dup2X2
    case _ => Swap
  }

  function ShiftOf(n: nat): ShiftOp {
    match n
    case 0 => Shl
    case 1 => Shr
    case _ => Ushr
  }

  /** An instruction without operands. */
  function Plain(opcode: byte): Option<Instr> {
    if opcode == 0 then Some(Nop)
    else if 0x02 <= opcode <= 0x08 then Some(Const(opcode - 3))
    else if 0x09 <= opcode <= 0x0a then Some(LConst(opcode - 9))
    else if 0x1a <= opcode <= 0x1d then Some(Load(Int, opcode - 0x1a))
    else if 0x1e <= opcode <= 0x21 then Some(Load(Long, opcode - 0x1e))
    else if 0x3b <= opcode <= 0x3e then Some(Store(Int, opcode - 0x3b))
    else if 0x3f <= opcode <= 0x42 then Some(Store(Long, opcode - 0x3f))
    else if 0x57 <= opcode <= 0x5f then Some(Shuffle(ShuffleOf(opcode - 0x57)))
    else if OpOf(opcode).Some? then Some(Binary(OpOf(opcode).value, KindOf(opcode)))
    else if 0x74 <= opcode <= 0x75 then Some(Neg(KindOf(opcode)))
    else if 0x78 <= opcode <= 0x7d then Some(Shifting(ShiftOf((opcode - 0x78) / 2), KindOf(opcode)))
    else
      match opcode
      case 0x85 => Some(Converting(I2L))
      case 0x88 => Some(Converting(L2I))
      case 0x91 => Some(Converting(I2B))
      case 0x92 => Some(Converting(I2C))
      case 0x93 => Some(Converting(I2S))
      case 0x94 => Some(Lcmp)
      case _ => None
  }

  /** An instruction with operands of a fixed size. */
  function Short(opcode: byte, code: seq<byte>, pc: nat): Option<(Instr, nat)>
    requires pc <= |code|
  {
    var left := |code| - pc;
    if opcode == 0x10 && left >= 1 then Some((Const(Signed(code[pc], 8)), pc + 1))
    else if opcode == 0x11 && left >= 2 then Some((Const(Signed(U16(code, pc), 16)), pc + 2))
    else if 0x15 <= opcode <= 0x16 && left >= 1 then Some((Load(if opcode == 0x15 then Int else Long, code[pc]), pc + 1))
    else if 0x36 <= opcode <= 0x37 && left >= 1 then Some((Store(KindOf(opcode), code[pc]), pc + 1))
    else if opcode == 0x84 && left >= 2 then Some((Iinc(code[pc], Signed(code[pc + 1], 8)), pc + 2))
    else if 0x99 <= opcode <= 0x9e && left >= 2 then Some((If(CondOf(opcode - 0x99), Signed(U16(code, pc), 16)), pc + 2))
    else if 0x9f <= opcode <= 0xa4 && left >= 2 then Some((IfIcmp(CondOf(opcode - 0x9f), Signed(U16(code, pc), 16)), pc + 2))
    else if opcode == 0xa7 && left >= 2 then Some((Goto(Signed(U16(code, pc), 16)), pc + 2))
    else if opcode == 0xc8 && left >= 4 then Some((Goto(S32(code, pc)), pc + 4))
    else None
  }

  function Wide(code: seq<byte>, pc: nat): Option<(Instr, nat)>
    requires pc <= |code|
  {
    if |code| - pc < 3 then None
    else
      var opcode, index := code[pc], U16(code, pc + 1);
      if 0x15 <= opcode <= 0x16 then Some((Load(if opcode == 0x15 then Int else Long, index), pc + 3))
      else if 0x36 <= opcode <= 0x37 then Some((Store(KindOf(opcode), index), pc + 3))
      else if opcode == 0x84 && |code| - pc >= 5 then Some((Iinc(index, Signed(U16(code, pc + 3), 16)), pc + 5))
      else None
  }

  /** The number of jump offsets is computed in 32 bits. */
  function DecodeTable(code: seq<byte>, pc: nat): Option<(Instr, nat)> {
    var p := Aligned(pc);
    if p + 12 > |code| then None
    else
      var low, high := S32(code, p + 4), S32(code, p + 8);
      var n := Wrap(Int, high - low + 1);
      if n < 0 || p + 12 + 4 * n > |code| then None
      else Some((TableSwitch(S32(code, p), low, high, Ints(code, p + 12, n)), p + 12 + 4 * n))
  }

  function DecodeLookup(code: seq<byte>, pc: nat): Option<(Instr, nat)> {
    var p := Aligned(pc);
    if p + 8 > |code| then None
    else
      var n := Wrap(Int, S32(code, p + 4) * 2);
      if n < 0 || p + 8 + 4 * n > |code| then None
      else Some((LookupSwitch(S32(code, p), Ints(code, p + 8, n)), p + 8 + 4 * n))
  }

  /** The instruction at `pc` and the position behind it; nothing where the code ends
      too early or the opcode is not one of these. */
  function Decode(code: seq<byte>, pc: nat): (r: Option<(Instr, nat)>)
  {
    if pc >= |code| then None
    else
      var opcode := code[pc];
      if Plain(opcode).Some? then Some((Plain(opcode).value, pc + 1))
      else if opcode == 0xaa then DecodeTable(code, pc + 1)
      else if opcode == 0xab then DecodeLookup(code, pc + 1)
      else if opcode == 0xc4 then Wide(code, pc + 1)
      else Short(opcode, code, pc + 1)
  }

  // ---------- the reader as it runs ----------

  class BytecodeReader {
    var code: seq<byte>
    var pc: nat

    constructor ()
      ensures code == [] && pc == 0
    {
      code, pc := [], 0;
    }

    method Reset(newCode: seq<byte>, newPc: nat)
      modifies this
      ensures code == newCode && pc == newPc
    {
      code, pc := newCode, newPc;
    }

    /** The number of bytes that are left; reading beyond them is a panic. */
    function Remaining(): int
      reads this
    {
      |code| - pc
    }

    method ReadUint8() returns (r: byte)
      requires Remaining() >= 1
      modifies this`pc
      ensures pc == old(pc) + 1 && r == code[old(pc)]
    {
      r := code[pc];
      pc := pc + 1;
    }

    method ReadUint16() returns (r: nat)
      requires Remaining() >= 2
      modifies this`pc
      ensures pc == old(pc) + 2 && r == U16(code, old(pc))
    {
      var byte1 := ReadUint8();
      var byte2 := ReadUint8();
      r := JvmGo.ShortOf(byte1, byte2);
      JvmGo.ShortOfIs(byte1, byte2);
    }

    method ReadInt32() returns (r: int)
      requires Remaining() >= 4
      modifies this`pc
      ensures pc == old(pc) + 4 && r == S32(code, old(pc))
    {
      var byte1 := ReadUint8();
      var byte2 := ReadUint8();
      var byte3 := ReadUint8();
      var byte4 := ReadUint8();
      r := JvmGo.IntOf(byte1, byte2, byte3, byte4);
      JvmGo.IntOfIs(byte1, byte2, byte3, byte4);
    }

    method ReadInt32s(n: nat) returns (ints: seq<int>)
      requires Remaining() >= 4 * n
      modifies this`pc
      ensures pc == old(pc) + 4 * n && ints == Ints(code, old(pc), n)
    {
      hide S32;
      ints := [];
      ghost var start := pc;
      for i := 0 to n
        invariant pc == start + 4 * i && code == old(code)
        invariant ints + Ints(code, pc, n - i) == Ints(code, start, n)
      {
        var value := ReadInt32();
        ints := ints + [value];
      }
      assert ints + [] == ints;
    }

    method SkipPadding()
      requires Aligned(pc) <= |code|
      modifies this`pc
      ensures pc == Aligned(old(pc))
    {
      while pc % 4 != 0
        invariant old(pc) <= pc <= Aligned(old(pc)) && Aligned(pc) == Aligned(old(pc)) && code == old(code)
        decreases Aligned(old(pc)) - pc
      {
        var padding := ReadUint8();
      }
    }

    method FetchTable() returns (r: Option<Instr>)
      modifies this`pc
      ensures var d := DecodeTable(code, old(pc));
              if d.None? then r.None? else r == Some(d.value.0) && pc == d.value.1
    {
      hide S32, Ints;
      if Aligned(pc) + 12 > |code| {
        return None;
      }
      SkipPadding();
      var fallback := ReadInt32();
      var low := ReadInt32();
      var high := ReadInt32();
      var count := Wrap(Int, high - low + 1);
      if count < 0 || pc + 4 * count > |code| {
        return None;
      }
      var offsets := ReadInt32s(count);
      return Some(TableSwitch(fallback, low, high, offsets));
    }

    method FetchLookup() returns (r: Option<Instr>)
      modifies this`pc
      ensures var d := DecodeLookup(code, old(pc));
              if d.None? then r.None? else r == Some(d.value.0) && pc == d.value.1
    {
      hide S32, Ints;
      if Aligned(pc) + 8 > |code| {
        return None;
      }
      SkipPadding();
      var fallback := ReadInt32();
      var npairs := ReadInt32();
      var count := Wrap(Int, npairs * 2);
      if count < 0 || pc + 4 * count > |code| {
        return None;
      }
      var pairs := ReadInt32s(count);
      return Some(LookupSwitch(fallback, pairs));
    }

    method FetchWide() returns (r: Option<Instr>)
      requires pc <= |code|
      modifies this`pc
      ensures var d := Wide(code, old(pc));
              if d.None? then r.None? else r == Some(d.value.0) && pc == d.value.1
    {
      if Remaining() < 3 {
        return None;
      }
      var opcode := ReadUint8();
      var index := ReadUint16();
      if 0x15 <= opcode <= 0x16 {
        return Some(Load(if opcode == 0x15 then Int else Long, index));
      }
      if 0x36 <= opcode <= 0x37 {
        return Some(Store(KindOf(opcode), index));
      }
      if opcode == 0x84 && Remaining() >= 2 {
        var c := ReadUint16();
        return Some(Iinc(index, Signed(c, 16)));
      }
      return None;
    }

    method FetchShort(opcode: byte) returns (r: Option<Instr>)
      requires pc <= |code|
      modifies this`pc
      ensures var d := Short(opcode, code, old(pc));
              if d.None? then r.None? else r == Some(d.value.0) && pc == d.value.1
    {
      hide U16, S32, CondOf;
      if opcode == 0xc8 {
        if Remaining() < 4 {
          return None;
        }
        var offset := ReadInt32();
        return Some(Goto(offset));
      }
      if opcode == 0x10 || 0x15 <= opcode <= 0x16 || 0x36 <= opcode <= 0x37 {
        if Remaining() < 1 {
          return None;
        }
        var operand := ReadUint8();
        return Some(if opcode == 0x10 then Const(Signed(operand, 8))
                    else if opcode <= 0x16 then Load(if opcode == 0x15 then Int else Long, operand)
                    else Store(KindOf(opcode), operand));
      }
      if Remaining() < 2 {
        return None;
      }
      if opcode == 0x84 {
        var index := ReadUint8();
        var c := ReadUint8();
        return Some(Iinc(index, Signed(c, 8)));
      }
      if opcode == 0x11 || 0x99 <= opcode <= 0xa4 || opcode == 0xa7 {
        var operand := ReadUint16();
        var value := Signed(operand, 16);
        return Some(if opcode == 0x11 then Const(value)
                    else if opcode <= 0x9e then If(CondOf(opcode - 0x99), value)
                    else if opcode <= 0xa4 then IfIcmp(CondOf(opcode - 0x9f), value)
                    else Goto(value));
      }
      return None;
    }

    /** `NewInstruction` and `FetchOperands`; nothing stands for a panic. */
    method Fetch() returns (r: Option<Instr>)
      modifies this`pc
      ensures var d := Decode(code, old(pc));
              if d.None? then r.None? else r == Some(d.value.0) && pc == d.value.1
    {
      hide DecodeTable, DecodeLookup, Wide, Short, Plain;
      if Remaining() < 1 {
        return None;
      }
      var opcode := ReadUint8();
      if Plain(opcode).Some? {
        return Plain(opcode);
      }
      if opcode == 0xaa {
        r := FetchTable();
      } else if opcode == 0xab {
        r := FetchLookup();
      } else if opcode == 0xc4 {
        r := FetchWide();
      } else {
        r := FetchShort(opcode);
      }
    }
  }
}
