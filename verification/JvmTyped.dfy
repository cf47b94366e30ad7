/** The machine of the Java virtual machine specification: its stack and its local
    variables hold whole ints and longs. */
module JvmTyped {
  import opened Integers
  import opened Optional
  import opened JvmWords
  import opened JvmCode

  datatype Value = Value(kind: Kind, n: int)

  /** A local variable: an int, or the first or the second half of a long. */
  datatype Cell = Unset | Whole(n: int) | First(n: int) | Second

  datatype Typed = Typed(stack: seq<Value>, locals: seq<Cell>, pc: int)

  /** `Stuck` stands for code that is not well-typed, or that needs more stack than the
      method declares. */
  datatype Result = Next(t: Typed) | Throws | Stuck

  function Width(kind: Kind): nat {
    if kind == Int then 1 else 2
  }

  function Depth(stack: seq<Value>): nat {
    if |stack| == 0 then 0 else Depth(stack[..|stack| - 1]) + Width(stack[|stack| - 1].kind)
  }

  /** The top `|kinds|` values have these kinds. */
  predicate Tops(stack: seq<Value>, kinds: seq<Kind>) {
    |kinds| <= |stack| && forall k | 0 <= k < |kinds| :: stack[|stack| - |kinds| + k].kind == kinds[k]
  }

  // ---------- the stack ----------

  /** The forms of the stack instructions in JVMS section 6.5, for values of category 1
      (int) and category 2 (long). */
  function Shuffled(op: StackOp, s: seq<Value>): Option<seq<Value>> {
    var n := |s|;
    match op
    case Pop => if Tops(s, [Int]) then Some(s[..n - 1]) else None
    case Pop2 =>
      if Tops(s, [Long]) then Some(s[..n - 1])
      else if Tops(s, [Int, Int]) then Some(s[..n - 2])
      else None
    case Dup => if Tops(s, [Int]) then Some(s[..n - 1] + [s[n - 1], s[n - 1]]) else None
    case DupX1 => if Tops(s, [Int, Int]) then Some(s[..n - 2] + [s[n - 1], s[n - 2], s[n - 1]]) else None
    case DupX2 =>
      if Tops(s, [Int, Int, Int]) then Some(s[..n - 3] + [s[n - 1], s[n - 3], s[n - 2], s[n - 1]])
      else if Tops(s, [Long, Int]) then Some(s[..n - 2] + [s[n - 1], s[n - 2], s[n - 1]])
      else None
    case Dup2 =>
      if Tops(s, [Long]) then Some(s[..n - 1] + [s[n - 1], s[n - 1]])
      else if Tops(s, [Int, Int]) then Some(s[..n - 2] + [s[n - 2], s[n - 1], s[n - 2], s[n - 1]])
      else None
    case Dup2X1 =>
      if Tops(s, [Int, Long]) then Some(s[..n - 2] + [s[n - 1], s[n - 2], s[n - 1]])
      else if Tops(s, [Int, Int, Int]) then Some(s[..n - 3] + [s[n - 2], s[n - 1], s[n - 3], s[n - 2], s[n - 1]])
      else None
    case Dup2X2 =>
      if Tops(s, [Long, Long]) then Some(s[..n - 2] + [s[n - 1], s[n - 2], s[n - 1]])
      else if Tops(s, [Int, Int, Long]) then Some(s[..n - 3] + [s[n - 1], s[n - 3], s[n - 2], s[n - 1]])
      else if Tops(s, [Long, Int, Int]) then Some(s[..n - 3] + [s[n - 2], s[n - 1], s[n - 3], s[n - 2], s[n - 1]])
      else if Tops(s, [Int, Int, Int, Int]) then
        Some(s[..n - 4] + [s[n - 2], s[n - 1], s[n - 4], s[n - 3], s[n - 2], s[n - 1]])
      else None
    case Swap => if Tops(s, [Int, Int]) then Some(s[..n - 2] + [s[n - 1], s[n - 2]]) else None
  }

  // ---------- local variables ----------

  /** Writing to one half of a long destroys the long (JVMS section 2.6.1). */
  function Cleared(cells: seq<Cell>, i: nat): (r: seq<Cell>)
    requires i < |cells|
    ensures |r| == |cells|
  {
    if cells[i].Second? && i > 0 then cells[i := Unset][i - 1 := Unset]
    else if cells[i].First? && i + 1 < |cells| then cells[i := Unset][i + 1 := Unset]
    else cells[i := Unset]
  }

  function Stored(cells: seq<Cell>, i: nat, v: Value): (r: seq<Cell>)
    requires i + Width(v.kind) <= |cells|
    ensures |r| == |cells|
  {
    if v.kind == Int then Cleared(cells, i)[i := Whole(v.n)]
    else Cleared(Cleared(cells, i), i + 1)[i := First(v.n)][i + 1 := Second]
  }

  // ---------- instructions ----------

  /** The value that a switch looks up: the offset of the first pair with that key. */
  function PairOffset(pairs: seq<int>, key: int, fallback: int): int {
    if |pairs| < 2 then fallback
    else if pairs[0] == key then pairs[1]
    else PairOffset(pairs[2..], key, fallback)
  }

  /** The search finds the offset that belongs to the key, when the keys differ. */
  lemma {:induction false} PairOffsetIs(pairs: seq<int>, key: int, fallback: int, k: nat)
    requires 2 * k + 1 < |pairs| && pairs[2 * k] == key
    requires forall i, j | 0 <= i < j < |pairs| && i % 2 == 0 && j % 2 == 0 :: pairs[i] != pairs[j]
    ensures PairOffset(pairs, key, fallback) == pairs[2 * k + 1]
    decreases k
  {
    if k > 0 {
      var more := pairs[2..];
      assert pairs[0] != pairs[2 * k];
      assert more[2 * (k - 1)] == pairs[2 * k];
      forall i, j | 0 <= i < j < |more| && i % 2 == 0 && j % 2 == 0 ensures more[i] != more[j] {
        assert more[i] == pairs[i + 2] && more[j] == pairs[j + 2];
      }
      PairOffsetIs(more, key, fallback, k - 1);
    }
  }

  lemma {:induction false} PairOffsetElse(pairs: seq<int>, key: int, fallback: int)
    requires |pairs| % 2 == 0 && forall i | 0 <= i < |pairs| && i % 2 == 0 :: pairs[i] != key
    ensures PairOffset(pairs, key, fallback) == fallback
    decreases pairs
  {
    if |pairs| >= 2 {
      forall i | 0 <= i < |pairs[2..]| && i % 2 == 0 ensures pairs[2..][i] != key {
        assert pairs[2..][i] == pairs[i + 2];
      }
      PairOffsetElse(pairs[2..], key, fallback);
    }
  }

  /** The stack replaced from the `k`-th value below the top on. */
  function Replaced(t: Typed, k: nat, values: seq<Value>): Typed
    requires k <= |t.stack|
  {
    t.(stack := t.stack[..|t.stack| - k] + values)
  }

  function Branched(t: Typed, k: nat, taken: bool, pc: nat, offset: int): Typed
    requires k <= |t.stack|
  {
    var u := Replaced(t, k, []);
    if taken then u.(pc := pc + offset) else u
  }

  /** One instruction at `pc`; the program counter of `t` is already behind it. */
  function Exec(i: Instr, t: Typed, pc: nat): Result {
    var s, n := t.stack, |t.stack|;
    match i
    case Nop => Next(t)
    case Const(v) => Next(Replaced(t, 0, [Value(Int, v)]))
    case LConst(v) => Next(Replaced(t, 0, [Value(Long, v)]))
    case Load(kind, index) =>
      if index >= |t.locals| then Stuck
      else if kind == Int && t.locals[index].Whole? then Next(Replaced(t, 0, [Value(Int, t.locals[index].n)]))
      else if kind == Long && t.locals[index].First? then Next(Replaced(t, 0, [Value(Long, t.locals[index].n)]))
      else Stuck
    case Store(kind, index) =>
      if !Tops(s, [kind]) || index + Width(kind) > |t.locals| then Stuck
      else Next(Replaced(t, 1, []).(locals := Stored(t.locals, index, Value(kind, s[n - 1].n))))
    case Shuffle(op) =>
      var r := Shuffled(op, s);
      if r.None? then Stuck else Next(t.(stack := r.value))
    case Binary(op, kind) =>
      if !Tops(s, [kind, kind]) then Stuck
      else if (op == Div || op == Rem) && s[n - 1].n == 0 then Throws
      else Next(Replaced(t, 2, [Value(kind, Compute(op, kind, s[n - 2].n, s[n - 1].n))]))
    case Neg(kind) =>
      if !Tops(s, [kind]) then Stuck else Next(Replaced(t, 1, [Value(kind, Wrap(kind, -s[n - 1].n))]))
    case Shifting(op, kind) =>
      if !Tops(s, [kind, Int]) then Stuck
      else Next(Replaced(t, 2, [Value(kind, Shift(op, kind, s[n - 2].n, s[n - 1].n))]))
    case Iinc(index, c) =>
      if index >= |t.locals| || !t.locals[index].Whole? then Stuck
      else Next(t.(locals := t.locals[index := Whole(Wrap(Int, t.locals[index].n + c))]))
    case Converting(c) =>
      var from, to := if c == L2I then Long else Int, if c == I2L then Long else Int;
      if !Tops(s, [from]) then Stuck else Next(Replaced(t, 1, [Value(to, Convert(c, s[n - 1].n))]))
    case Lcmp =>
      if !Tops(s, [Long, Long]) then Stuck else Next(Replaced(t, 2, [Value(Int, Compare(s[n - 2].n, s[n - 1].n))]))
    case If(c, offset) =>
      if !Tops(s, [Int]) then Stuck else Next(Branched(t, 1, Holds(c, s[n - 1].n, 0), pc, offset))
    case IfIcmp(c, offset) =>
      if !Tops(s, [Int, Int]) then Stuck else Next(Branched(t, 2, Holds(c, s[n - 2].n, s[n - 1].n), pc, offset))
    case Goto(offset) => Next(Branched(t, 0, true, pc, offset))
    case TableSwitch(fallback, low, high, offsets) =>
      if !Tops(s, [Int]) || |offsets| != high - low + 1 then Stuck
      else
        var key := s[n - 1].n;
        Next(Branched(t, 1, true, pc, if low <= key <= high then offsets[key - low] else fallback))
    case LookupSwitch(fallback, pairs) =>
      if !Tops(s, [Int]) || |pairs| % 2 != 0 then Stuck
      else Next(Branched(t, 1, true, pc, PairOffset(pairs, s[n - 1].n, fallback)))
  }

  /** One turn of the machine: fetch, decode, execute. The long constants are left
      out: see LongConstants. */
  function Turn(code: seq<byte>, t: Typed, maxStack: nat): Result {
    if t.pc < 0 || t.pc >= |code| then Stuck
    else
      var d := Decode(code, t.pc);
      if d.None? || d.value.0.LConst? then Stuck
      else
        var r := Exec(d.value.0, t.(pc := d.value.1), t.pc);
        if r.Next? && Depth(r.t.stack) > maxStack then Stuck else r
  }

  function Run(code: seq<byte>, t: Typed, maxStack: nat, steps: nat): Result
    decreases steps
  {
    if steps == 0 then Next(t)
    else
      var r := Turn(code, t, maxStack);
      if r.Next? then Run(code, r.t, maxStack, steps - 1) else r
  }
}
