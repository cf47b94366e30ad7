/** The stack instructions on slots, and why they are right for ints and longs alike. */
module JvmShuffle {
  import opened Integers
  import opened Optional
  import opened JvmWords
  import opened JvmCode
  import opened JvmTyped
  import opened JvmFrame

  /** How many slots an instruction takes, and which of them, counted from the top, it
      puts back, the lowest first. */
  function Taken(op: StackOp): nat {
    match op
    case Pop => 1
    case Pop2 => 2
    case Dup => 1
    case DupX1 => 2
    case DupX2 => 3
    case Dup2 => 2
    case Dup2X1 => 3
    case Dup2X2 => 4
    case Swap => 2
  }

  function Back(op: StackOp): (r: seq<nat>)
    ensures forall k | 0 <= k < |r| :: 0 < r[k] <= Taken(op)
  {
    match op
    case Pop => []
    case Pop2 => []
    case Dup => [1, 1]
    case DupX1 => [1, 2, 1]
    case DupX2 => [1, 3, 2, 1]
    case Dup2 => [2, 1, 2, 1]
    case Dup2X1 => [2, 1, 3, 2, 1]
    case Dup2X2 => [2, 1, 4, 3, 2, 1]
    case Swap => [1, 2]
  }

  /** The words after the instruction. */
  function Moved(words: seq<int>, op: StackOp): (r: seq<int>)
    requires Taken(op) <= |words|
    ensures |r| == |words| - Taken(op) + |Back(op)|
  {
    var n, back := |words|, Back(op);
    words[..n - Taken(op)] + seq(|back|, k requires 0 <= k < |back| => words[n - back[k]])
  }

  // ---------- words of a few values ----------

  /** The words of values, the first of them first. */
  function Flat(values: seq<Value>): seq<int> {
    if |values| == 0 then [] else Words(values[0]) + Flat(values[1..])
  }

  lemma {:induction false} FlattenList(base: seq<Value>, values: seq<Value>)
    ensures Flatten(base + values) == Flatten(base) + Flat(values)
    decreases values
  {
    hide Words, Flatten, Depth;
    if |values| == 0 {
      assert base + values == base;
    } else {
      FlattenPush(base, values[0]);
      FlattenList(base + [values[0]], values[1..]);
      assert base + values == base + [values[0]] + values[1..];
    }
  }

  function Part(values: seq<Value>, k: nat): seq<int> {
    if k < |values| then Words(values[k]) else []
  }

  lemma FlatStep(values: seq<Value>, k: nat)
    requires k <= |values|
    ensures Flat(values[k..]) == Part(values, k) + if k < |values| then Flat(values[k + 1..]) else []
  {
    hide Words;
    if k < |values| {
      assert values[k..][0] == values[k] && values[k..][1..] == values[k + 1..];
    }
  }

  lemma Flat1(a: Value)
    ensures Flat([a]) == Words(a)
  {
    FlatStep([a], 0);
    FlatStep([a], 1);
  }

  lemma Flat2(a: Value, b: Value)
    ensures Flat([a, b]) == Words(a) + Words(b)
  {
    hide Words;
    assert [a, b][1..] == [b];
    Flat1(b);
  }

  lemma Flat3(a: Value, b: Value, c: Value)
    ensures Flat([a, b, c]) == Words(a) + Words(b) + Words(c)
  {
    hide Words;
    assert [a, b, c][1..] == [b, c];
    Flat2(b, c);
  }

  lemma Flat4(a: Value, b: Value, c: Value, d: Value)
    ensures Flat([a, b, c, d]) == Words(a) + Words(b) + Words(c) + Words(d)
  {
    hide Words;
    assert [a, b, c, d][1..] == [b, c, d];
    Flat3(b, c, d);
  }

  lemma Flat5(a: Value, b: Value, c: Value, d: Value, e: Value)
    ensures Flat([a, b, c, d, e]) == Words(a) + Words(b) + Words(c) + Words(d) + Words(e)
  {
    hide Words;
    assert [a, b, c, d, e][1..] == [b, c, d, e];
    Flat4(b, c, d, e);
  }

  lemma Flat6(a: Value, b: Value, c: Value, d: Value, e: Value, f: Value)
    ensures Flat([a, b, c, d, e, f]) == Words(a) + Words(b) + Words(c) + Words(d) + Words(e) + Words(f)
  {
    hide Words;
    assert [a, b, c, d, e, f][1..] == [b, c, d, e, f];
    Flat5(b, c, d, e, f);
  }

  // ---------- one form each ----------

  /** Replacing values by others moves the words as the slots move. */
  predicate Fits(op: StackOp, before: seq<Value>, after: seq<Value>) {
    Taken(op) <= |Flat(before)| && Moved(Flat(before), op) == Flat(after)
  }

  lemma MovedBelow(w: seq<int>, f: seq<int>, op: StackOp)
    requires Taken(op) <= |f|
    ensures Moved(w + f, op) == w + Moved(f, op)
  {
    hide Back, Taken;
    var l, r := Moved(w + f, op), w + Moved(f, op);
    forall i | 0 <= i < |l| ensures l[i] == r[i] {
      if i >= |w| + |f| - Taken(op) {
        var k := i - (|w| + |f| - Taken(op));
        assert Moved(f, op)[|f| - Taken(op) + k] == f[|f| - Back(op)[k]];
      }
    }
  }

  /** ... below whatever else is on the stack. */
  lemma FitsBelow(op: StackOp, base: seq<Value>, before: seq<Value>, after: seq<Value>)
    requires Fits(op, before, after)
    ensures Taken(op) <= |Flatten(base + before)| && Moved(Flatten(base + before), op) == Flatten(base + after)
  {
    hide Flat, Flatten, Back, Moved;
    FlattenList(base, before);
    FlattenList(base, after);
    MovedBelow(Flatten(base), Flat(before), op);
  }

  lemma OneInt(a: Value)
    requires a.kind == Int
    ensures Fits(Pop, [a], [])
    ensures Fits(Dup, [a], [a, a])
  {
    hide Flat;
    Flat1(a);
    Flat2(a, a);
    NoWords();
  }

  lemma NoWords()
    ensures Flat([]) == []
  {
  }

  lemma OneLong(a: Value)
    requires a.kind == Long
    ensures Fits(Pop2, [a], [])
    ensures Fits(Dup2, [a], [a, a])
  {
    hide Flat, Low, High;
    Flat1(a);
    Flat2(a, a);
    NoWords();
  }

  lemma TwoInts(a: Value, b: Value)
    requires a.kind == Int && b.kind == Int
    ensures Fits(Pop2, [b, a], [])
    ensures Fits(DupX1, [b, a], [a, b, a])
    ensures Fits(Dup2, [b, a], [b, a, b, a])
    ensures Fits(Swap, [b, a], [a, b])
  {
    hide Flat;
    NoWords();
    Flat2(b, a);
    Flat2(a, b);
    Flat3(a, b, a);
    Flat4(b, a, b, a);
  }

  lemma IntOverLong(a: Value, b: Value)
    requires a.kind == Int && b.kind == Long
    ensures Fits(DupX2, [b, a], [a, b, a])
  {
    hide Flat, Low, High;
    Flat2(b, a);
    Flat3(a, b, a);
  }

  lemma LongOverInt(a: Value, b: Value)
    requires a.kind == Long && b.kind == Int
    ensures Fits(Dup2X1, [b, a], [a, b, a])
  {
    hide Flat, Low, High;
    Flat2(b, a);
    Flat3(a, b, a);
  }

  lemma TwoLongs(a: Value, b: Value)
    requires a.kind == Long && b.kind == Long
    ensures Fits(Dup2X2, [b, a], [a, b, a])
  {
    hide Flat, Low, High;
    Flat2(b, a);
    Flat3(a, b, a);
  }

  lemma ThreeInts(a: Value, b: Value, c: Value)
    requires a.kind == Int && b.kind == Int && c.kind == Int
    ensures Fits(DupX2, [c, b, a], [a, c, b, a])
    ensures Fits(Dup2X1, [c, b, a], [b, a, c, b, a])
  {
    hide Flat;
    Flat3(c, b, a);
    Flat4(a, c, b, a);
    Flat5(b, a, c, b, a);
  }

  lemma LongOverInts(a: Value, b: Value, c: Value)
    requires a.kind == Long && b.kind == Int && c.kind == Int
    ensures Fits(Dup2X2, [c, b, a], [a, c, b, a])
  {
    hide Flat, Low, High;
    Flat3(c, b, a);
    Flat4(a, c, b, a);
  }

  lemma IntsOverLong(a: Value, b: Value, c: Value)
    requires a.kind == Int && b.kind == Int && c.kind == Long
    ensures Fits(Dup2X2, [c, b, a], [b, a, c, b, a])
  {
    hide Flat, Low, High;
    Flat3(c, b, a);
    Flat5(b, a, c, b, a);
  }

  lemma FourInts(a: Value, b: Value, c: Value, d: Value)
    requires a.kind == Int && b.kind == Int && c.kind == Int && d.kind == Int
    ensures Fits(Dup2X2, [d, c, b, a], [b, a, d, c, b, a])
  {
    hide Flat;
    Flat4(d, c, b, a);
    Flat6(b, a, d, c, b, a);
  }

  lemma Apply(op: StackOp, s: seq<Value>, before: seq<Value>, after: seq<Value>, r: seq<Value>)
    requires |before| <= |s| && s[|s| - |before|..] == before && r == s[..|s| - |before|] + after
    requires Fits(op, before, after)
    ensures Taken(op) <= |Flatten(s)| && Moved(Flatten(s), op) == Flatten(r)
  {
    hide Flatten, Fits, Moved, Taken;
    FitsBelow(op, s[..|s| - |before|], before, after);
    assert s[..|s| - |before|] + s[|s| - |before|..] == s;
  }

  lemma Top1(s: seq<Value>, x: Kind)
    requires Tops(s, [x])
    ensures |s| >= 1 && s[|s| - 1].kind == x && s[|s| - 1..] == [s[|s| - 1]]
  {
    assert s[|s| - 1 + 0].kind == [x][0];
  }

  lemma Top2(s: seq<Value>, x: Kind, y: Kind)
    requires Tops(s, [x, y])
    ensures |s| >= 2 && s[|s| - 2].kind == x && s[|s| - 1].kind == y && s[|s| - 2..] == [s[|s| - 2], s[|s| - 1]]
  {
    var n := |s|;
    assert s[n - 2 + 0].kind == [x, y][0] && s[n - 2 + 1].kind == [x, y][1];
  }

  lemma Top3(s: seq<Value>, x: Kind, y: Kind, z: Kind)
    requires Tops(s, [x, y, z])
    ensures |s| >= 3 && s[|s| - 3].kind == x && s[|s| - 2].kind == y && s[|s| - 1].kind == z
    ensures s[|s| - 3..] == [s[|s| - 3], s[|s| - 2], s[|s| - 1]]
  {
    var n := |s|;
    assert s[n - 3 + 0].kind == [x, y, z][0] && s[n - 3 + 1].kind == [x, y, z][1] && s[n - 3 + 2].kind == [x, y, z][2];
  }

  lemma Top4(s: seq<Value>)
    requires Tops(s, [Int, Int, Int, Int])
    ensures |s| >= 4 && s[|s| - 4].kind == Int && s[|s| - 3].kind == Int && s[|s| - 2].kind == Int && s[|s| - 1].kind == Int
    ensures s[|s| - 4..] == [s[|s| - 4], s[|s| - 3], s[|s| - 2], s[|s| - 1]]
  {
    var n := |s|;
    var kinds := [Int, Int, Int, Int];
    assert s[n - 4 + 0].kind == kinds[0] && s[n - 4 + 1].kind == kinds[1];
    assert s[n - 4 + 2].kind == kinds[2] && s[n - 4 + 3].kind == kinds[3];
  }

  lemma Pop2Words(s: seq<Value>)
    requires Shuffled(Pop2, s).Some?
    ensures Taken(Pop2) <= |Flatten(s)| && Moved(Flatten(s), Pop2) == Flatten(Shuffled(Pop2, s).value)
  {
    hide Flatten, Fits, Moved, Taken, Tops;
    var n := |s|;
    if Tops(s, [Long]) {
      Top1(s, Long);
      OneLong(s[n - 1]);
      Apply(Pop2, s, [s[n - 1]], [], Shuffled(Pop2, s).value);
    } else {
      Top2(s, Int, Int);
      TwoInts(s[n - 1], s[n - 2]);
      Apply(Pop2, s, [s[n - 2], s[n - 1]], [], Shuffled(Pop2, s).value);
    }
  }

  lemma DupX2Words(s: seq<Value>)
    requires Shuffled(DupX2, s).Some?
    ensures Taken(DupX2) <= |Flatten(s)| && Moved(Flatten(s), DupX2) == Flatten(Shuffled(DupX2, s).value)
  {
    hide Flatten, Fits, Moved, Taken, Tops;
    var n, r := |s|, Shuffled(DupX2, s).value;
    if Tops(s, [Int, Int, Int]) {
      Top3(s, Int, Int, Int);
      var a, b, c := s[n - 1], s[n - 2], s[n - 3];
      ThreeInts(a, b, c);
      Apply(DupX2, s, [c, b, a], [a, c, b, a], r);
    } else {
      Top2(s, Long, Int);
      var a, b := s[n - 1], s[n - 2];
      IntOverLong(a, b);
      Apply(DupX2, s, [b, a], [a, b, a], r);
    }
  }

  lemma Dup2Words(s: seq<Value>)
    requires Shuffled(Dup2, s).Some?
    ensures Taken(Dup2) <= |Flatten(s)| && Moved(Flatten(s), Dup2) == Flatten(Shuffled(Dup2, s).value)
  {
    hide Flatten, Fits, Moved, Taken, Tops;
    var n, r := |s|, Shuffled(Dup2, s).value;
    if Tops(s, [Long]) {
      Top1(s, Long);
      OneLong(s[n - 1]);
      Apply(Dup2, s, [s[n - 1]], [s[n - 1], s[n - 1]], r);
    } else {
      Top2(s, Int, Int);
      var a, b := s[n - 1], s[n - 2];
      TwoInts(a, b);
      Apply(Dup2, s, [b, a], [b, a, b, a], r);
    }
  }

  lemma Dup2X1Words(s: seq<Value>)
    requires Shuffled(Dup2X1, s).Some?
    ensures Taken(Dup2X1) <= |Flatten(s)| && Moved(Flatten(s), Dup2X1) == Flatten(Shuffled(Dup2X1, s).value)
  {
    hide Flatten, Fits, Moved, Taken, Tops;
    var n, r := |s|, Shuffled(Dup2X1, s).value;
    if Tops(s, [Int, Long]) {
      Top2(s, Int, Long);
      var a, b := s[n - 1], s[n - 2];
      LongOverInt(a, b);
      Apply(Dup2X1, s, [b, a], [a, b, a], r);
    } else {
      Top3(s, Int, Int, Int);
      var a, b, c := s[n - 1], s[n - 2], s[n - 3];
      ThreeInts(a, b, c);
      Apply(Dup2X1, s, [c, b, a], [b, a, c, b, a], r);
    }
  }

  lemma Dup2X2Words(s: seq<Value>)
    requires Shuffled(Dup2X2, s).Some?
    ensures Taken(Dup2X2) <= |Flatten(s)| && Moved(Flatten(s), Dup2X2) == Flatten(Shuffled(Dup2X2, s).value)
  {
    hide Flatten, Fits, Moved, Taken, Tops;
    var n, r := |s|, Shuffled(Dup2X2, s).value;
    if Tops(s, [Long, Long]) {
      Top2(s, Long, Long);
      var a, b := s[n - 1], s[n - 2];
      TwoLongs(a, b);
      Apply(Dup2X2, s, [b, a], [a, b, a], r);
    } else if Tops(s, [Int, Int, Long]) {
      Top3(s, Int, Int, Long);
      var a, b, c := s[n - 1], s[n - 2], s[n - 3];
      LongOverInts(a, b, c);
      Apply(Dup2X2, s, [c, b, a], [a, c, b, a], r);
    } else if Tops(s, [Long, Int, Int]) {
      Top3(s, Long, Int, Int);
      var a, b, c := s[n - 1], s[n - 2], s[n - 3];
      IntsOverLong(a, b, c);
      Apply(Dup2X2, s, [c, b, a], [b, a, c, b, a], r);
    } else {
      Top4(s);
      var a, b, c, d := s[n - 1], s[n - 2], s[n - 3], s[n - 4];
      FourInts(a, b, c, d);
      Apply(Dup2X2, s, [d, c, b, a], [b, a, d, c, b, a], r);
    }
  }

  lemma SingleFormWords(op: StackOp, s: seq<Value>)
    requires (op == Pop || op == Dup || op == DupX1 || op == Swap) && Shuffled(op, s).Some?
    ensures Taken(op) <= |Flatten(s)| && Moved(Flatten(s), op) == Flatten(Shuffled(op, s).value)
  {
    hide Flatten, Fits, Moved, Taken, Tops;
    var n, r := |s|, Shuffled(op, s).value;
    if op == Pop || op == Dup {
      Top1(s, Int);
      OneInt(s[n - 1]);
      Apply(op, s, [s[n - 1]], if op == Pop then [] else [s[n - 1], s[n - 1]], r);
    } else {
      Top2(s, Int, Int);
      var a, b := s[n - 1], s[n - 2];
      TwoInts(a, b);
      Apply(op, s, [b, a], if op == DupX1 then [a, b, a] else [a, b], r);
    }
  }

  /** Moving slots does to the words what every form of the instruction does to the
      values, ints and longs alike. */
  lemma ShuffleWords(op: StackOp, s: seq<Value>)
    requires Shuffled(op, s).Some?
    ensures Taken(op) <= |Flatten(s)| && Moved(Flatten(s), op) == Flatten(Shuffled(op, s).value)
  {
    hide Flatten, Moved, Taken, Shuffled;
    match op
    case Pop2 => Pop2Words(s);
    case DupX2 => DupX2Words(s);
    case Dup2 => Dup2Words(s);
    case Dup2X1 => Dup2X1Words(s);
    case Dup2X2 => Dup2X2Words(s);
    case _ => SingleFormWords(op, s);
  }
}
