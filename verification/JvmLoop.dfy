/** The interpreter loop on slots, proved against the typed machine. */
module JvmLoop {
  import opened Integers
  import opened Optional
  import JvmBits
  import JvmGo
  import opened JvmWords
  import opened JvmCode
  import opened JvmTyped
  import opened JvmFrame
  import opened JvmShuffle

  class Thread {
    var pc: int

    constructor ()
      ensures pc == 0
    {
      pc := 0;
    }
  }

  class Frame {
    const localVars: LocalVars
    const operandStack: OperandStack
    const thread: Thread
    var nextPc: int

    ghost predicate Valid()
      reads this, operandStack
    {
      operandStack.Valid() && operandStack.slots != localVars.slots
    }

    constructor (maxLocals: nat, maxStack: nat)
      ensures Valid() && fresh(localVars.slots) && fresh(operandStack) && fresh(operandStack.slots) && fresh(thread)
      ensures nextPc == 0 && operandStack.Nums() == [] && operandStack.slots.Length == maxStack
      ensures localVars.slots.Length == maxLocals
    {
      localVars := new LocalVars(maxLocals);
      operandStack := new OperandStack(maxStack);
      thread := new Thread();
      nextPc := 0;
    }

    ghost function Parts(): set<object> {
      {this, operandStack, operandStack.slots, localVars.slots}
    }

    /** The slots, the variables and the program counter hold a typed state. */
    ghost predicate Represents(t: Typed)
      reads this, operandStack, operandStack.slots, localVars, localVars.slots
    {
      Valid() && operandStack.Holds(t.stack) && localVars.Holds(t.locals) && nextPc == t.pc
    }

    /** A fresh frame is the empty typed state. */
    lemma StartsEmpty(t: Typed)
      requires Valid() && operandStack.Nums() == [] && nextPc == 0
      requires t == Typed([], seq(localVars.slots.Length, i => Unset), 0)
      ensures Represents(t)
    {
    }

    /** `Branch`: the offset counts from the start of the instruction. */
    method Branch(offset: int)
      modifies this
      ensures nextPc == thread.pc + offset
    {
      nextPc := thread.pc + offset;
    }

    // ---------- instructions ----------

    method ExecuteLoad(kind: Kind, index: nat, ghost t: Typed)
      requires Represents(t) && Exec(Load(kind, index), t, 0).Next?
      requires Depth(t.stack) + Width(kind) <= operandStack.slots.Length
      modifies Parts()
      ensures Represents(Exec(Load(kind, index), t, 0).t)
    {
      hide Flatten, CellsOk, Join;
      var val := localVars.Get(kind, index, t.locals);
      operandStack.Push(kind, val, t.stack);
      assert t.stack[..|t.stack|] == t.stack;
    }

    method ExecuteStore(kind: Kind, index: nat, ghost t: Typed)
      requires Represents(t) && Exec(Store(kind, index), t, 0).Next?
      modifies Parts()
      ensures Represents(Exec(Store(kind, index), t, 0).t)
    {
      hide Flatten, Stored, Join;
      Top1(t.stack, kind);
      assert InRange(t.stack[|t.stack| - 1]);
      var val := operandStack.Pop(kind, t.stack);
      localVars.Set(kind, index, val, t.locals);
      assert t.stack[..|t.stack| - 1] + [] == t.stack[..|t.stack| - 1];
    }

    method ExecuteIinc(index: nat, c: int, ghost t: Typed)
      requires Represents(t) && Exec(Iinc(index, c), t, 0).Next?
      modifies Parts()
      ensures Represents(Exec(Iinc(index, c), t, 0).t)
    {
      hide Flatten, Low, High;
      var val := localVars.Get(Int, index, t.locals);
      val := Wrap(Int, val + c);
      ghost var words, cells := localVars.Nums()[index := val], t.locals[index := Whole(val)];
      forall k | 0 <= k < |cells| ensures CellOk(words, cells, k) {
        assert CellOk(localVars.Nums(), t.locals, k);
      }
      localVars.SetInt(index, val);
    }

    /** The slots of a stack instruction: popped one by one and pushed back in order. */
    method ExecuteShuffle(op: StackOp, ghost t: Typed)
      requires Represents(t) && Exec(Shuffle(op), t, 0).Next?
      requires Depth(Exec(Shuffle(op), t, 0).t.stack) <= operandStack.slots.Length
      modifies Parts()
      ensures Represents(Exec(Shuffle(op), t, 0).t)
    {
      hide Flatten, Shuffled, Moved, CellsOk;
      ShuffleWords(op, t.stack);
      ShuffledRange(op, t.stack);
      MoveSlots(op);
    }

    method ExecuteConst(val: int, ghost t: Typed)
      requires Represents(t) && InKind(Int, val) && Depth(t.stack) + 1 <= operandStack.slots.Length
      modifies Parts()
      ensures Represents(Exec(Const(val), t, 0).t)
    {
      hide Flatten, CellsOk;
      operandStack.Push(Int, val, t.stack);
      assert t.stack[..|t.stack|] == t.stack;
    }

    /** The topmost value. */
    method PopOne(kind: Kind, ghost s: seq<Value>) returns (val: int)
      requires Valid() && operandStack.Holds(s) && Tops(s, [kind])
      modifies operandStack`size
      ensures |s| >= 1 && Valid() && operandStack.Holds(s[..|s| - 1]) && val == s[|s| - 1].n && InKind(kind, val)
      ensures Depth(s) == Depth(s[..|s| - 1]) + Width(kind) <= operandStack.slots.Length
    {
      hide Flatten, Depth;
      Top1(s, kind);
      PopRoom(s);
      assert InRange(s[|s| - 1]);
      val := operandStack.Pop(kind, s);
    }

    /** The two topmost values, the upper one of kind `second`. */
    method PopTwo(first: Kind, second: Kind, ghost s: seq<Value>) returns (v1: int, v2: int)
      requires Valid() && operandStack.Holds(s) && Tops(s, [first, second])
      modifies operandStack`size
      ensures |s| >= 2 && Valid() && operandStack.Holds(s[..|s| - 2]) && v1 == s[|s| - 2].n && v2 == s[|s| - 1].n
      ensures Depth(s) == Depth(s[..|s| - 2]) + Width(first) + Width(second) <= operandStack.slots.Length
      ensures InKind(first, v1) && InKind(second, v2)
    {
      hide Flatten, Depth;
      Top2(s, first, second);
      ghost var n := |s|;
      assert s[..n - 1][..n - 2] == s[..n - 2];
      PopRoom(s);
      PopRoom(s[..n - 1]);
      assert InRange(s[n - 1]) && InRange(s[n - 2]);
      v2 := operandStack.Pop(second, s);
      v1 := operandStack.Pop(first, s[..n - 1]);
    }

    /** The arithmetic instructions; `/ by zero` is an exception. */
    method ExecuteBinary(op: Op, kind: Kind, ghost t: Typed) returns (thrown: bool)
      requires Represents(t) && !Exec(Binary(op, kind), t, 0).Stuck?
      modifies Parts()
      ensures thrown <==> Exec(Binary(op, kind), t, 0).Throws?
      ensures !thrown ==> Represents(Exec(Binary(op, kind), t, 0).t)
    {
      hide Flatten, CellsOk, Compute, Depth;
      ghost var s, n := t.stack, |t.stack|;
      var v1, v2 := PopTwo(kind, kind, s);
      if (op == Div || op == Rem) && v2 == 0 {
        return true;
      }
      JvmBits.ComputedIs(op, kind, v1, v2);
      operandStack.Push(kind, JvmBits.Computed(op, kind, v1, v2), s[..n - 2]);
      return false;
    }

    method ExecuteShift(op: ShiftOp, kind: Kind, ghost t: Typed)
      requires Represents(t) && Exec(Shifting(op, kind), t, 0).Next?
      modifies Parts()
      ensures Represents(Exec(Shifting(op, kind), t, 0).t)
    {
      hide Flatten, CellsOk, Shift, Depth;
      ghost var s, n := t.stack, |t.stack|;
      var v1, v2 := PopTwo(kind, Int, s);
      var distance := JvmGo.Masked(kind, v2);
      JvmGo.ShiftedIs(op, kind, v1, v2);
      operandStack.Push(kind, JvmGo.Shifted(op, kind, v1, distance), s[..n - 2]);
    }

    method ExecuteNeg(kind: Kind, ghost t: Typed)
      requires Represents(t) && Exec(Neg(kind), t, 0).Next?
      modifies Parts()
      ensures Represents(Exec(Neg(kind), t, 0).t)
    {
      hide Flatten, CellsOk, Wrap, Depth;
      ghost var s, n := t.stack, |t.stack|;
      var val := PopOne(kind, s);
      JvmBits.NegatedIs(kind, val);
      operandStack.Push(kind, JvmBits.Negated(kind, val), s[..n - 1]);
    }

    method ExecuteConvert(c: Conversion, ghost t: Typed)
      requires Represents(t) && Exec(Converting(c), t, 0).Next?
      requires Depth(Exec(Converting(c), t, 0).t.stack) <= operandStack.slots.Length
      modifies Parts()
      ensures Represents(Exec(Converting(c), t, 0).t)
    {
      hide Flatten, CellsOk, Convert, JvmBits.Converted, Depth, Exec;
      ConvertExec(c, t);
      var from, to := if c == L2I then Long else Int, if c == I2L then Long else Int;
      ghost var s, n := t.stack, |t.stack|;
      var val := PopOne(from, s);
      ConvertRange(c, val);
      FlattenPush(s[..n - 1], Value(to, Convert(c, val)));
      JvmBits.ConvertedIs(c, val);
      operandStack.Push(to, JvmBits.Converted(c, val), s[..n - 1]);
    }

    method ExecuteLcmp(ghost t: Typed)
      requires Represents(t) && Exec(Lcmp, t, 0).Next?
      modifies Parts()
      ensures Represents(Exec(Lcmp, t, 0).t)
    {
      hide Flatten, CellsOk, Depth;
      ghost var s, n := t.stack, |t.stack|;
      var v1, v2 := PopTwo(Long, Long, s);
      operandStack.Push(Int, if v1 > v2 then 1 else if v1 == v2 then 0 else -1, s[..n - 2]);
    }

    // ---------- jumps ----------

    method ExecuteIf(c: Cond, offset: int, ghost t: Typed, ghost pc: nat)
      requires Represents(t) && thread.pc == pc && Exec(If(c, offset), t, pc).Next?
      modifies Parts()
      ensures Represents(Exec(If(c, offset), t, pc).t)
    {
      hide Flatten, CellsOk;
      Top1(t.stack, Int);
      ghost var s, n := t.stack, |t.stack|;
      var val := operandStack.Pop(Int, s);
      assert s[..n - 1] + [] == s[..n - 1];
      if Holds(c, val, 0) {
        Branch(offset);
      }
    }

    method ExecuteIfIcmp(c: Cond, offset: int, ghost t: Typed, ghost pc: nat)
      requires Represents(t) && thread.pc == pc && Exec(IfIcmp(c, offset), t, pc).Next?
      modifies Parts()
      ensures Represents(Exec(IfIcmp(c, offset), t, pc).t)
    {
      hide Flatten, CellsOk, Depth;
      ghost var s, n := t.stack, |t.stack|;
      var v1, v2 := PopTwo(Int, Int, s);
      assert s[..n - 2] + [] == s[..n - 2];
      if Holds(c, v1, v2) {
        Branch(offset);
      }
    }

    method ExecuteGoto(offset: int, ghost t: Typed, ghost pc: nat)
      requires Represents(t) && thread.pc == pc
      modifies Parts()
      ensures Represents(Exec(Goto(offset), t, pc).t)
    {
      assert t.stack[..|t.stack|] + [] == t.stack;
      Branch(offset);
    }

    method ExecuteTableSwitch(fallback: int, low: int, high: int, offsets: seq<int>, ghost t: Typed, ghost pc: nat)
      requires Represents(t) && thread.pc == pc && Exec(TableSwitch(fallback, low, high, offsets), t, pc).Next?
      modifies Parts()
      ensures Represents(Exec(TableSwitch(fallback, low, high, offsets), t, pc).t)
    {
      hide Flatten, CellsOk;
      Top1(t.stack, Int);
      ghost var s, n := t.stack, |t.stack|;
      var index := operandStack.Pop(Int, s);
      assert s[..n - 1] + [] == s[..n - 1];
      var offset := if index >= low && index <= high then offsets[index - low] else fallback;
      Branch(offset);
    }

    /** The linear search through the pairs. */
    method ExecuteLookupSwitch(fallback: int, pairs: seq<int>, ghost t: Typed, ghost pc: nat)
      requires Represents(t) && thread.pc == pc && Exec(LookupSwitch(fallback, pairs), t, pc).Next?
      modifies Parts()
      ensures Represents(Exec(LookupSwitch(fallback, pairs), t, pc).t)
    {
      hide Flatten, CellsOk;
      Top1(t.stack, Int);
      ghost var s, n := t.stack, |t.stack|;
      var key := operandStack.Pop(Int, s);
      assert s[..n - 1] + [] == s[..n - 1];
      var i := 0;
      while i < |pairs|
        invariant i <= |pairs| && i % 2 == 0 && unchanged(this)
        invariant operandStack.Holds(s[..n - 1]) && localVars.Holds(t.locals)
        invariant PairOffset(pairs, key, fallback) == PairOffset(pairs[i..], key, fallback)
      {
        PairStep(pairs, i, key, fallback);
        if pairs[i] == key {
          Branch(pairs[i + 1]);
          return;
        }
        i := i + 2;
      }
      Branch(fallback);
    }

    // ---------- the loop ----------

    /** The operands of an int constant, and that it is not one of the long constants. */
    ghost predicate Usual(i: Instr) {
      !i.LConst? && (i.Const? ==> InKind(Int, i.n))
    }

    method ExecuteJump(inst: Instr, ghost t: Typed, ghost pc: nat)
      requires Represents(t) && thread.pc == pc && Jumps(inst) && Exec(inst, t, pc).Next?
      modifies Parts()
      ensures Represents(Exec(inst, t, pc).t)
    {
      hide Exec, Represents;
      match inst
      case If(c, offset) => ExecuteIf(c, offset, t, pc);
      case IfIcmp(c, offset) => ExecuteIfIcmp(c, offset, t, pc);
      case Goto(offset) => ExecuteGoto(offset, t, pc);
      case TableSwitch(fallback, low, high, offsets) => ExecuteTableSwitch(fallback, low, high, offsets, t, pc);
      case LookupSwitch(fallback, pairs) => ExecuteLookupSwitch(fallback, pairs, t, pc);
    }

    /** An instruction does to the slots what it does to the typed state. */
    method Execute(inst: Instr, ghost t: Typed, ghost pc: nat) returns (thrown: bool)
      requires Represents(t) && thread.pc == pc && Usual(inst) && !Exec(inst, t, pc).Stuck?
      requires Exec(inst, t, pc).Next? ==> Depth(Exec(inst, t, pc).t.stack) <= operandStack.slots.Length
      modifies Parts()
      ensures thrown <==> Exec(inst, t, pc).Throws?
      ensures !thrown ==> Represents(Exec(inst, t, pc).t)
    {
      hide Exec, Represents, Depth, Width;
      ExecFacts(inst, t, pc);
      thrown := false;
      match inst
      case Nop =>
      case LConst(_) =>
      case Const(val) => ExecuteConst(val, t);
      case Load(kind, index) => ExecuteLoad(kind, index, t);
      case Store(kind, index) => ExecuteStore(kind, index, t);
      case Shuffle(op) => ExecuteShuffle(op, t);
      case Binary(op, kind) => thrown := ExecuteBinary(op, kind, t);
      case Neg(kind) => ExecuteNeg(kind, t);
      case Shifting(op, kind) => ExecuteShift(op, kind, t);
      case Iinc(index, c) => ExecuteIinc(index, c, t);
      case Converting(c) => ExecuteConvert(c, t);
      case Lcmp => ExecuteLcmp(t);
      case _ => ExecuteJump(inst, t, pc);
    }

    /** One turn of `loop`: fetch, decode, set the next program counter, execute. */
    method LoopTurn(reader: BytecodeReader, code: seq<byte>, ghost t: Typed) returns (thrown: bool)
      requires Represents(t) && !Turn(code, t, operandStack.slots.Length).Stuck?
      modifies Parts(), thread, reader
      ensures thrown <==> Turn(code, t, operandStack.slots.Length).Throws?
      ensures !thrown ==> Represents(Turn(code, t, operandStack.slots.Length).t)
    {
      hide Flatten, CellsOk, Exec, Decode;
      var pc := nextPc;
      thread.pc := pc;
      reader.Reset(code, pc);
      var inst := reader.Fetch();
      nextPc := reader.pc;
      DecodedUsual(code, pc);
      thrown := Execute(inst.value, t.(pc := reader.pc), pc);
    }

    /** `loop`, for any number of turns: whatever a well-typed run of the abstract machine
        does, the interpreter does on its slots, exceptions included. */
    method Loop(code: seq<byte>, turns: nat, ghost t: Typed) returns (thrown: bool)
      requires Represents(t) && !Run(code, t, operandStack.slots.Length, turns).Stuck?
      modifies Parts(), thread
      ensures thrown <==> Run(code, t, operandStack.slots.Length, turns).Throws?
      ensures !thrown ==> Represents(Run(code, t, operandStack.slots.Length, turns).t)
    {
      hide Flatten, CellsOk, Turn;
      var reader := new BytecodeReader();
      ghost var u := t;
      for i := 0 to turns
        invariant fresh(reader) && Represents(u)
        invariant Run(code, t, operandStack.slots.Length, turns) == Run(code, u, operandStack.slots.Length, turns - i)
      {
        ghost var next := Turn(code, u, operandStack.slots.Length);
        thrown := LoopTurn(reader, code, u);
        if thrown {
          return;
        }
        u := next.t;
      }
      thrown := false;
    }

    // ---------- slots ----------

    method MoveSlots(op: StackOp)
      requires Valid() && Taken(op) <= operandStack.size
      requires operandStack.size - Taken(op) + |Back(op)| <= operandStack.slots.Length
      modifies operandStack`size, operandStack.slots
      ensures Valid() && operandStack.Nums() == Moved(old(operandStack.Nums()), op)
    {
      hide Moved;
      match op
      case Pop => MoveOne(op);
      case Dup => MoveOne(op);
      case DupX2 => MoveThree(op);
      case Dup2X1 => MoveThree(op);
      case Dup2X2 => MoveFour();
      case _ => MoveTwo(op);
    }

    method MoveOne(op: StackOp)
      requires Valid() && (op == Pop || op == Dup) && operandStack.size >= 1
      requires operandStack.size - 1 + |Back(op)| <= operandStack.slots.Length
      modifies operandStack`size, operandStack.slots
      ensures Valid() && operandStack.Nums() == Moved(old(operandStack.Nums()), op)
    {
      hide Moved;
      var stack := operandStack;
      MovedOne(stack.Nums());
      var slot := stack.PopSlot();
      if op == Dup {
        stack.PushSlot(slot);
        stack.PushSlot(slot);
      }
    }

    method MoveTwo(op: StackOp)
      requires Valid() && (op == Pop2 || op == Swap || op == DupX1 || op == Dup2) && operandStack.size >= 2
      requires operandStack.size - 2 + |Back(op)| <= operandStack.slots.Length
      modifies operandStack`size, operandStack.slots
      ensures Valid() && operandStack.Nums() == Moved(old(operandStack.Nums()), op)
    {
      hide Moved;
      var stack := operandStack;
      ghost var w := stack.Nums();
      MovedTwo(w);
      var slot1 := stack.PopSlot();
      var slot2 := stack.PopSlot();
      ghost var base := w[..|w| - 2];
      assert stack.Nums() == base && slot1.num == w[|w| - 1] && slot2.num == w[|w| - 2];
      if op == Dup2 {
        stack.PushSlot(slot2);
        stack.PushSlot(slot1);
        stack.PushSlot(slot2);
        stack.PushSlot(slot1);
      } else if op != Pop2 {
        stack.PushSlot(slot1);
        stack.PushSlot(slot2);
        if op == DupX1 {
          stack.PushSlot(slot1);
        }
      }
    }

    method MoveThree(op: StackOp)
      requires Valid() && (op == DupX2 || op == Dup2X1) && operandStack.size >= 3
      requires operandStack.size - 3 + |Back(op)| <= operandStack.slots.Length
      modifies operandStack`size, operandStack.slots
      ensures Valid() && operandStack.Nums() == Moved(old(operandStack.Nums()), op)
    {
      hide Moved;
      var stack := operandStack;
      ghost var w := stack.Nums();
      MovedThree(w);
      Shorter(w);
      hide Back;
      var slot1 := stack.PopSlot();
      var slot2 := stack.PopSlot();
      var slot3 := stack.PopSlot();
      if op == Dup2X1 {
        stack.PushSlot(slot2);
      }
      stack.PushSlot(slot1);
      stack.PushSlot(slot3);
      stack.PushSlot(slot2);
      stack.PushSlot(slot1);
    }

    method MoveFour()
      requires Valid() && operandStack.size >= 4 && operandStack.size + 2 <= operandStack.slots.Length
      modifies operandStack`size, operandStack.slots
      ensures Valid() && operandStack.Nums() == Moved(old(operandStack.Nums()), Dup2X2)
    {
      hide Moved;
      var stack := operandStack;
      ghost var w := stack.Nums();
      MovedFour(w);
      var slot1 := stack.PopSlot();
      var slot2 := stack.PopSlot();
      var slot3 := stack.PopSlot();
      var slot4 := stack.PopSlot();
      ghost var base := w[..|w| - 4];
      assert stack.Nums() == base && slot1.num == w[|w| - 1] && slot2.num == w[|w| - 2];
      assert slot3.num == w[|w| - 3] && slot4.num == w[|w| - 4];
      stack.PushSlot(slot2);
      stack.PushSlot(slot1);
      stack.PushSlot(slot4);
      stack.PushSlot(slot3);
      stack.PushSlot(slot2);
      stack.PushSlot(slot1);
    }
  }

  /** The words of each instruction, pushed one after the other. */
  lemma MovedOne(w: seq<int>)
    requires |w| >= 1
    ensures Moved(w, Pop) == w[..|w| - 1]
    ensures Moved(w, Dup) == w[..|w| - 1] + [w[|w| - 1]] + [w[|w| - 1]]
  {
  }

  lemma MovedTwo(w: seq<int>)
    requires |w| >= 2
    ensures Moved(w, Pop2) == w[..|w| - 2]
    ensures Moved(w, Swap) == w[..|w| - 2] + [w[|w| - 1]] + [w[|w| - 2]]
    ensures Moved(w, DupX1) == w[..|w| - 2] + [w[|w| - 1]] + [w[|w| - 2]] + [w[|w| - 1]]
    ensures Moved(w, Dup2) == w[..|w| - 2] + [w[|w| - 2]] + [w[|w| - 1]] + [w[|w| - 2]] + [w[|w| - 1]]
  {
  }

  lemma Shorter(w: seq<int>)
    requires |w| >= 3
    ensures w[..|w| - 1][..|w| - 2] == w[..|w| - 2] && w[..|w| - 2][..|w| - 3] == w[..|w| - 3]
  {
  }

  lemma MovedThree(w: seq<int>)
    requires |w| >= 3
    ensures Moved(w, DupX2) == w[..|w| - 3] + [w[|w| - 1]] + [w[|w| - 3]] + [w[|w| - 2]] + [w[|w| - 1]]
    ensures Moved(w, Dup2X1) == w[..|w| - 3] + [w[|w| - 2]] + [w[|w| - 1]] + [w[|w| - 3]] + [w[|w| - 2]] + [w[|w| - 1]]
  {
  }

  lemma MovedFour(w: seq<int>)
    requires |w| >= 4
    ensures Moved(w, Dup2X2) ==
      w[..|w| - 4] + [w[|w| - 2]] + [w[|w| - 1]] + [w[|w| - 4]] + [w[|w| - 3]] + [w[|w| - 2]] + [w[|w| - 1]]
  {
  }

  lemma ShuffledRange(op: StackOp, s: seq<Value>)
    requires AllInRange(s) && Shuffled(op, s).Some?
    ensures AllInRange(Shuffled(op, s).value)
  {
    hide InRange;
    var r := Shuffled(op, s).value;
    assert forall k | 0 <= k < |r| :: r[k] in s;
  }

  /** Values leave room for values of the same width. */
  lemma PopRoom(s: seq<Value>)
    requires |s| > 0
    ensures Depth(s) == Depth(s[..|s| - 1]) + Width(s[|s| - 1].kind)
  {
  }

  lemma ConvertExec(c: Conversion, t: Typed)
    requires Exec(Converting(c), t, 0).Next?
    ensures var from, to := if c == L2I then Long else Int, if c == I2L then Long else Int;
            var s, n := t.stack, |t.stack|;
            Tops(s, [from]) && n > 0
            && Exec(Converting(c), t, 0).t == t.(stack := s[..n - 1] + [Value(to, Convert(c, s[n - 1].n))])
  {
    hide Convert;
    Top1(t.stack, if c == L2I then Long else Int);
  }

  lemma ConvertRange(c: Conversion, n: int)
    requires InKind(if c == L2I then Long else Int, n)
    ensures InKind(if c == I2L then Long else Int, Convert(c, n))
  {
  }

  lemma PairStep(pairs: seq<int>, i: nat, key: int, fallback: int)
    requires i + 1 < |pairs|
    ensures PairOffset(pairs[i..], key, fallback) ==
      if pairs[i] == key then pairs[i + 1] else PairOffset(pairs[i + 2..], key, fallback)
  {
    assert pairs[i..][0] == pairs[i] && pairs[i..][1] == pairs[i + 1] && pairs[i..][2..] == pairs[i + 2..];
  }

  predicate Jumps(i: Instr) {
    i.If? || i.IfIcmp? || i.Goto? || i.TableSwitch? || i.LookupSwitch?
  }

  /** Only arithmetic throws, only jumps look at where the instruction starts, and a push
      needs its room. */
  lemma ExecFacts(i: Instr, t: Typed, pc: nat)
    ensures !i.Binary? ==> !Exec(i, t, pc).Throws?
    ensures !Jumps(i) ==> Exec(i, t, pc) == Exec(i, t, 0)
    ensures i.Nop? ==> Exec(i, t, pc) == Next(t)
    ensures i.Const? ==> Exec(i, t, pc).Next? && Depth(Exec(i, t, pc).t.stack) == Depth(t.stack) + 1
    ensures i.Load? && Exec(i, t, pc).Next? ==> Depth(Exec(i, t, pc).t.stack) == Depth(t.stack) + Width(i.kind)
  {
    hide Shuffled, Stored, Compute, Shift, Convert, PairOffset, Tops, Depth, Holds;
    assert t.stack[..|t.stack|] == t.stack;
    if i.Const? {
      FlattenPush(t.stack, Value(Int, i.n));
    } else if i.Load? && i.index < |t.locals| {
      var cell := t.locals[i.index];
      if cell.Whole? || cell.First? {
        FlattenPush(t.stack, Value(i.kind, cell.n));
      }
    }
  }

  lemma DecodedUsual(code: seq<byte>, pc: nat)
    ensures var d := Decode(code, pc); d.Some? && d.value.0.Const? ==> InKind(Int, d.value.0.n)
  {
    hide S32, Ints;
  }

  /** The long constants are left out for a reason: they push one slot (as an int), while
      a long takes two. No further value makes the slots hold the long. */
  lemma LongConstants(s: seq<Value>, n: int)
    requires n == 0 || n == 1
    ensures Flatten(s + [Value(Int, n)]) != Flatten(s + [Value(Long, n)])
    ensures Depth(s + [Value(Int, n)]) + 1 == Depth(s + [Value(Long, n)])
  {
    FlattenPush(s, Value(Int, n));
    FlattenPush(s, Value(Long, n));
  }
}
