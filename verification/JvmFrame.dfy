/** The interpreter's frame: operand stack and local variables as 32-bit slots. */
module JvmFrame {
  import opened Integers
  import JvmGo
  import opened JvmWords
  import opened JvmTyped

  /** A slot holds a number and a reference; ints and longs leave the reference alone. */
  datatype Slot = Slot(num: int, ref: nat)

  // ---------- typed values in slots ----------

  /** The words of a value, the lower half of a long first. */
  function Words(v: Value): (r: seq<int>)
    ensures |r| == Width(v.kind)
  {
    if v.kind == Int then [v.n] else [Low(v.n), High(v.n)]
  }

  function Flatten(stack: seq<Value>): (r: seq<int>)
    ensures |r| == Depth(stack)
  {
    if |stack| == 0 then [] else Flatten(stack[..|stack| - 1]) + Words(stack[|stack| - 1])
  }

  lemma FlattenPush(stack: seq<Value>, v: Value)
    ensures Flatten(stack + [v]) == Flatten(stack) + Words(v) && Depth(stack + [v]) == Depth(stack) + Width(v.kind)
  {
    assert (stack + [v])[..|stack|] == stack;
  }

  lemma FlattenPop(stack: seq<Value>)
    requires |stack| > 0
    ensures Flatten(stack) == Flatten(stack[..|stack| - 1]) + Words(stack[|stack| - 1])
    ensures Depth(stack) == Depth(stack[..|stack| - 1]) + Width(stack[|stack| - 1].kind)
  {
  }

  predicate InRange(v: Value) {
    InKind(v.kind, v.n)
  }

  predicate AllInRange(stack: seq<Value>) {
    forall k | 0 <= k < |stack| :: InRange(stack[k])
  }

  // ---------- the operand stack ----------

  class OperandStack {
    var size: nat
    const slots: array<Slot>

    ghost predicate Valid()
      reads this
    {
      size <= slots.Length
    }

    /** The numbers on the stack, the top last. */
    ghost function Nums(): (r: seq<int>)
      requires Valid()
      reads this, slots
      ensures |r| == size
    {
      seq(size, i requires 0 <= i < size && size <= slots.Length reads this, slots => slots[i].num)
    }

    constructor (maxStack: nat)
      ensures Valid() && Nums() == [] && fresh(slots) && slots.Length == maxStack
    {
      size := 0;
      slots := new Slot[maxStack](i => Slot(0, 0));
    }

    method PushInt(val: int)
      requires Valid() && size < slots.Length
      modifies this`size, slots
      ensures Valid() && Nums() == old(Nums()) + [val]
    {
      slots[size] := slots[size].(num := val);
      size := size + 1;
    }

    method PopInt() returns (val: int)
      requires Valid() && size > 0
      modifies this`size
      ensures Valid() && val == old(Nums())[old(size) - 1] && Nums() == old(Nums())[..old(size) - 1]
    {
      size := size - 1;
      val := slots[size].num;
    }

    method PushLong(val: int)
      requires Valid() && size + 2 <= slots.Length
      modifies this`size, slots
      ensures Valid() && Nums() == old(Nums()) + [Low(val), High(val)]
    {
      PushInt(Wrap(Int, val));
      PushInt(Wrap(Int, val / TWO32));
    }

    method PopLong() returns (val: int)
      requires Valid() && size >= 2
      modifies this`size
      ensures Valid() && Nums() == old(Nums())[..old(size) - 2]
      ensures val == Join(old(Nums())[old(size) - 1], old(Nums())[old(size) - 2])
    {
      var high := PopInt();
      var low := PopInt();
      val := JvmGo.LongOf(high, low);
      JvmGo.LongOfIs(high, low);
    }

    method PushSlot(slot: Slot)
      requires Valid() && size < slots.Length
      modifies this`size, slots
      ensures Valid() && Nums() == old(Nums()) + [slot.num]
    {
      slots[size] := slot;
      size := size + 1;
    }

    method PopSlot() returns (slot: Slot)
      requires Valid() && size > 0
      modifies this`size
      ensures Valid() && slot.num == old(Nums())[old(size) - 1] && Nums() == old(Nums())[..old(size) - 1]
    {
      size := size - 1;
      slot := slots[size];
    }

    /** The slots hold exactly these typed values. */
    ghost predicate Holds(stack: seq<Value>)
      reads this, slots
    {
      Valid() && Nums() == Flatten(stack) && AllInRange(stack)
    }

    /** Popping a typed value. */
    method Pop(kind: Kind, ghost stack: seq<Value>) returns (n: int)
      requires Holds(stack) && |stack| > 0 && stack[|stack| - 1].kind == kind
      modifies this`size
      ensures Holds(stack[..|stack| - 1]) && n == stack[|stack| - 1].n
    {
      hide Low, High, Join;
      FlattenPop(stack);
      ghost var v := stack[|stack| - 1];
      assert InRange(v);
      if kind == Int {
        n := PopInt();
      } else {
        JoinSplit(v.n);
        n := PopLong();
      }
    }

    /** Pushing a typed value. */
    method Push(kind: Kind, n: int, ghost stack: seq<Value>)
      requires Holds(stack) && InKind(kind, n) && Depth(stack) + Width(kind) <= slots.Length
      modifies this`size, slots
      ensures Holds(stack + [Value(kind, n)])
    {
      hide Low, High;
      FlattenPush(stack, Value(kind, n));
      if kind == Int {
        PushInt(n);
      } else {
        PushLong(n);
      }
    }
  }

  // ---------- local variables ----------

  predicate CellOk(nums: seq<int>, cells: seq<Cell>, k: nat)
    requires k < |cells| == |nums|
  {
    match cells[k]
    case Unset => true
    case Whole(n) => nums[k] == n && InKind(Int, n)
    case First(n) => k + 1 < |cells| && cells[k + 1].Second? && nums[k] == Low(n) && nums[k + 1] == High(n) && InKind(Long, n)
    case Second => k > 0 && cells[k - 1].First?
  }

  /** The words hold what the cells say. */
  predicate CellsOk(nums: seq<int>, cells: seq<Cell>) {
    |cells| == |nums| && forall k | 0 <= k < |cells| :: CellOk(nums, cells, k)
  }

  class LocalVars {
    const slots: array<Slot>

    ghost function Nums(): (r: seq<int>)
      reads slots
      ensures |r| == slots.Length
    {
      seq(slots.Length, i requires 0 <= i < slots.Length reads slots => slots[i].num)
    }

    constructor (maxLocals: nat)
      ensures fresh(slots) && slots.Length == maxLocals
    {
      slots := new Slot[maxLocals](i => Slot(0, 0));
    }

    method SetInt(index: nat, val: int)
      requires index < slots.Length
      modifies slots
      ensures Nums() == old(Nums())[index := val]
    {
      slots[index] := slots[index].(num := val);
    }

    method GetInt(index: nat) returns (val: int)
      requires index < slots.Length
      ensures val == Nums()[index]
    {
      val := slots[index].num;
    }

    method SetLong(index: nat, val: int)
      requires index + 1 < slots.Length
      modifies slots
      ensures Nums() == old(Nums())[index := Low(val)][index + 1 := High(val)]
    {
      slots[index] := slots[index].(num := Wrap(Int, val));
      slots[index + 1] := slots[index + 1].(num := Wrap(Int, val / TWO32));
    }

    method GetLong(index: nat) returns (val: int)
      requires index + 1 < slots.Length
      ensures val == Join(Nums()[index + 1], Nums()[index])
    {
      var low := slots[index].num;
      var high := slots[index + 1].num;
      val := JvmGo.LongOf(high, low);
      JvmGo.LongOfIs(high, low);
    }

    ghost predicate Holds(cells: seq<Cell>)
      reads this, slots
    {
      CellsOk(Nums(), cells)
    }

    /** Reading a typed variable. */
    method Get(kind: Kind, index: nat, ghost cells: seq<Cell>) returns (n: int)
      requires Holds(cells) && index < |cells|
      requires if kind == Int then cells[index].Whole? else cells[index].First?
      ensures InKind(kind, n) && n == cells[index].n
    {
      hide Low, High, Join;
      assert CellOk(Nums(), cells, index);
      if kind == Int {
        n := GetInt(index);
      } else {
        JoinSplit(cells[index].n);
        n := GetLong(index);
      }
    }

    /** Writing a typed variable. */
    method Set(kind: Kind, index: nat, n: int, ghost cells: seq<Cell>)
      requires Holds(cells) && InKind(kind, n) && index + Width(kind) <= |cells|
      modifies slots
      ensures Holds(Stored(cells, index, Value(kind, n)))
    {
      StoredOk(Nums(), cells, index, Value(kind, n));
      if kind == Int {
        SetInt(index, n);
      } else {
        SetLong(index, n);
      }
    }
  }

  lemma ClearedOk(nums: seq<int>, cells: seq<Cell>, i: nat)
    requires CellsOk(nums, cells) && i < |cells|
    ensures CellsOk(nums, Cleared(cells, i)) && Cleared(cells, i)[i].Unset?
    ensures forall k | 0 <= k < |cells| && cells[k].Unset? :: Cleared(cells, i)[k].Unset?
  {
    hide Low, High;
    var cleared := Cleared(cells, i);
    assert CellOk(nums, cells, i);
    forall k | 0 <= k < |cells| ensures CellOk(nums, cleared, k) {
      assert CellOk(nums, cells, k);
    }
  }

  /** Overwriting a variable that is not part of a long any more. */
  lemma StoredOk(nums: seq<int>, cells: seq<Cell>, i: nat, v: Value)
    requires CellsOk(nums, cells) && InKind(v.kind, v.n) && i + Width(v.kind) <= |cells|
    ensures CellsOk(if v.kind == Int then nums[i := v.n] else nums[i := Low(v.n)][i + 1 := High(v.n)], Stored(cells, i, v))
  {
    hide Low, High, Cleared;
    ClearedOk(nums, cells, i);
    var once := Cleared(cells, i);
    if v.kind == Int {
      WholeOk(nums, once, i, v.n);
    } else {
      ClearedOk(nums, once, i + 1);
      LongOk(nums, Cleared(once, i + 1), i, v.n);
    }
  }

  lemma WholeOk(nums: seq<int>, cells: seq<Cell>, i: nat, n: int)
    requires CellsOk(nums, cells) && i < |cells| && cells[i].Unset? && InKind(Int, n)
    ensures CellsOk(nums[i := n], cells[i := Whole(n)])
  {
    hide Low, High;
    var words, after := nums[i := n], cells[i := Whole(n)];
    forall k | 0 <= k < |cells| ensures CellOk(words, after, k) {
      assert CellOk(nums, cells, k);
    }
  }

  lemma LongOk(nums: seq<int>, cells: seq<Cell>, i: nat, n: int)
    requires CellsOk(nums, cells) && i + 1 < |cells| && cells[i].Unset? && cells[i + 1].Unset? && InKind(Long, n)
    ensures CellsOk(nums[i := Low(n)][i + 1 := High(n)], cells[i := First(n)][i + 1 := Second])
  {
    hide Low, High;
    var words, after := nums[i := Low(n)][i + 1 := High(n)], cells[i := First(n)][i + 1 := Second];
    forall k | 0 <= k < |cells| ensures CellOk(words, after, k) {
      assert CellOk(nums, cells, k);
    }
  }
}
