/** What becomes of a saga after a failure it does not survive. */
module SagaHarm {
  import opened SagaServices
  import opened SagaProtocol

  /** The outcome of a saga agrees with its order and its reservation. */
  predicate OutcomeOk(t: Tables, id: nat) {
    (StatusOf(t, id) == Finished ==> OrderNormal(t, id) && StockNormal(t, id))
    && (StatusOf(t, id) == Canceled ==> !OrderNormal(t, id) && !StockNormal(t, id))
  }

  // ---------- putting runs together ----------

  lemma One(s: System, a: Action)
    requires Fair(s, a)
    ensures AllFair(s, [a]) && Run(s, [a]) == Happen(s, a)
  {
    hide Happen, Fair;
    assert Run(Happen(s, a), []) == Happen(s, a);
    assert AllFair(Happen(s, a), []);
    assert [a][1..] == [];
  }

  lemma {:induction false} Join(s: System, a: seq<Action>, b: seq<Action>)
    requires AllFair(s, a) && AllFair(Run(s, a), b)
    ensures AllFair(s, a + b) && Run(s, a + b) == Run(Run(s, a), b)
    decreases a
  {
    hide Happen, Fair;
    if |a| == 0 {
      assert a + b == b;
    } else {
      assert (a + b)[1..] == a[1..] + b;
      Join(Happen(s, a[0]), a[1..], b);
    }
  }

  /** A worker that takes an event and dies loses it and changes nothing else. */
  lemma LoseOne(s: System, who: nat) returns (more: seq<Action>)
    requires who < |s.workers| && s.workers[who].Idle? && |s.tables.queue| > 0
    ensures AllFair(s, more) && Run(s, more) == System(s.tables.(queue := s.tables.queue[1..]), s.workers)
  {
    hide Run, AllFair;
    var r := Happen(s, Take(who));
    One(s, Take(who));
    One(r, Act(who, DieBefore));
    Join(s, [Take(who)], [Act(who, DieBefore)]);
    more := [Take(who)] + [Act(who, DieBefore)];
    assert Happen(r, Act(who, DieBefore)).workers == s.workers;
  }

  lemma {:induction false} Drain(s: System, who: nat, n: nat) returns (more: seq<Action>)
    requires who < |s.workers| && s.workers[who].Idle? && n <= |s.tables.queue|
    ensures AllFair(s, more) && Run(s, more) == System(s.tables.(queue := s.tables.queue[n..]), s.workers)
    decreases n
  {
    hide Run, AllFair;
    if n == 0 {
      more := [];
      Nothing(s);
    } else {
      var first := LoseOne(s, who);
      var r := Run(s, first);
      var rest := Drain(r, who, n - 1);
      assert s.tables.queue[1..][n - 1..] == s.tables.queue[n..];
      Join(s, first, rest);
      more := first + rest;
    }
  }

  lemma Nothing(s: System)
    ensures AllFair(s, []) && Run(s, []) == s && s.tables.queue[0..] == s.tables.queue
    ensures s == System(s.tables.(queue := s.tables.queue[0..]), s.workers)
  {
  }

  // ---------- what a worker does next ----------

  /** The worker takes the first event. */
  lemma TakeOne(s: System, who: nat, e: Event) returns (r: System)
    requires who < |s.workers| && s.workers[who].Idle? && |s.tables.queue| > 0 && s.tables.queue[0] == e
    ensures AllFair(s, [Take(who)]) && Run(s, [Take(who)]) == r
    ensures r == System(s.tables.(queue := s.tables.queue[1..]), s.workers[who := Accept(e)])
  {
    r := Happen(s, Take(who));
    One(s, Take(who));
  }

  /** A step of a worker without a failure. */
  lemma StepOne(s: System, who: nat) returns (r: System)
    requires who < |s.workers| && s.workers[who].Busy?
    ensures AllFair(s, [Act(who, NoFault)]) && Run(s, [Act(who, NoFault)]) == r
    ensures var (u, w) := Work(s.tables, s.workers[who], NoFault); r == System(u, s.workers[who := w])
  {
    hide Work;
    r := Happen(s, Act(who, NoFault));
    One(s, Act(who, NoFault));
  }

  lemma Join3(s: System, a: Action, b: Action, c: Action, p: System, q: System, r: System)
    requires AllFair(s, [a]) && Run(s, [a]) == p && AllFair(p, [b]) && Run(p, [b]) == q && AllFair(q, [c]) && Run(q, [c]) == r
    ensures AllFair(s, [a, b, c]) && Run(s, [a, b, c]) == r
  {
    hide Run, AllFair;
    Join(s, [a], [b]);
    Join(s, [a] + [b], [c]);
    assert [a] + [b] + [c] == [a, b, c];
  }

  /** A failed event of a saga without a log: it is canceled, and its order stays. */
  lemma CancelsUnlogged(s: System, who: nat, e: Event) returns (more: seq<Action>)
    requires who < |s.workers| && s.workers[who].Idle? && |s.tables.queue| > 0 && s.tables.queue[0] == e && !e.succeed
    requires |LogOf(s.tables, e.id)| == 0 && OrderNormal(s.tables, e.id) && e.id in s.tables.status && s.tables.status[e.id] == Init
    ensures AllFair(s, more) && var t := Run(s, more).tables; StatusOf(t, e.id) == Canceled && OrderNormal(t, e.id)
  {
    hide Run, AllFair;
    var p := TakeOne(s, who, e);
    var q := StepOne(p, who);
    assert |q.workers[who].todo| == 0;
    var r := StepOne(q, who);
    var u := StepOne(r, who);
    Join3(s, Take(who), Act(who, NoFault), Act(who, NoFault), p, q, r);
    Join(s, [Take(who), Act(who, NoFault), Act(who, NoFault)], [Act(who, NoFault)]);
    more := [Take(who), Act(who, NoFault), Act(who, NoFault)] + [Act(who, NoFault)];
  }

  /** The rows of a saga are the same in both; its status may differ. */
  predicate SameOrders(t: Tables, u: Tables) {
    u.orders == t.orders && u.reserves == t.reserves && u.stock == t.stock
  }

  /** A success of the deduction: the saga is finished. */
  lemma FinishesSaga(s: System, who: nat, e: Event) returns (more: seq<Action>)
    requires who < |s.workers| && s.workers[who].Idle? && |s.tables.queue| > 0 && s.tables.queue[0] == e
    requires e.succeed && e.phase == DeductingStock && e.id in s.tables.status && s.tables.status[e.id] == Init
    requires forall k | 0 <= k < |LogOf(s.tables, e.id)| :: LogOf(s.tables, e.id)[k].status != Undone
    ensures AllFair(s, more) && var r := Run(s, more);
            StatusOf(r.tables, e.id) == Finished && SameOrders(s.tables, r.tables) && r.tables.queue == s.tables.queue[1..]
            && r.workers == s.workers && |LogOf(r.tables, e.id)| == |LogOf(s.tables, e.id)|
            && forall k | 0 <= k < |LogOf(r.tables, e.id)| ::
                 LogOf(r.tables, e.id)[k].status != Undone && LogOf(r.tables, e.id)[k].phase == LogOf(s.tables, e.id)[k].phase
  {
    hide Run, AllFair;
    var p := TakeOne(s, who, e);
    var q := StepOne(p, who);
    var r := StepOne(q, who);
    Join3(s, Take(who), Act(who, NoFault), Act(who, NoFault), p, q, r);
    more := [Take(who), Act(who, NoFault), Act(who, NoFault)];
    assert r.workers == s.workers;
  }

  /** A failed event of a saga with a log: the last entry is compensated first. */
  lemma UndoesLast(s: System, who: nat, e: Event) returns (more: seq<Action>)
    requires who < |s.workers| && s.workers[who].Idle? && |s.tables.queue| > 0 && s.tables.queue[0] == e && !e.succeed
    requires |LogOf(s.tables, e.id)| > 0 && LogOf(s.tables, e.id)[|LogOf(s.tables, e.id)| - 1].status != Undone
    requires OrderNormal(s.tables, e.id) && StockNormal(s.tables, e.id) && e.item in s.tables.stock
    ensures AllFair(s, more) && var t := Run(s, more).tables;
            StatusOf(t, e.id) == StatusOf(s.tables, e.id) && !(OrderNormal(t, e.id) && StockNormal(t, e.id))
  {
    hide Run, AllFair;
    var p := TakeOne(s, who, e);
    var q := StepOne(p, who);
    assert |q.workers[who].todo| > 0 && q.workers[who].todo[0] == LogOf(s.tables, e.id)[|LogOf(s.tables, e.id)| - 1];
    var r := StepOne(q, who);
    Join3(s, Take(who), Act(who, NoFault), Act(who, NoFault), p, q, r);
    more := [Take(who), Act(who, NoFault), Act(who, NoFault)];
  }

  // ---------- the two failures ----------

  /** The order's log row is lost: its creation can still fail behind its effect, and then
      the saga ends canceled with a normal order. */
  lemma LostLogBreaks(s: System, who: nat, fault: Fault) returns (more: seq<Action>)
    requires Invariant(s) && who < |s.workers| && s.workers[who].Busy? && s.workers[who].pc == Inserting
    requires Harmful(s.tables, s.workers[who], fault)
    ensures var r := Happen(s, Act(who, fault));
            var id := s.workers[who].event.id;
            AllFair(r, more) && StatusOf(Run(r, more).tables, id) == Canceled && OrderNormal(Run(r, more).tables, id)
  {
    hide Run, AllFair, SagaOk, Single, Invariant;
    var e := s.workers[who].event;
    UnloggedSaga(s, who);
    var r := Happen(s, Act(who, fault));
    assert r.tables == s.tables && r.workers[who] == Busy(e, Creating, s.workers[who].todo);
    One(r, Act(who, FailAfter));
    var p := Happen(r, Act(who, FailAfter));
    var failed := Event(e.id, CreatingOrder, e.item, e.count, false);
    assert p.tables.queue == s.tables.queue + [failed] && p.workers[who] == Idle;
    var lost := Drain(p, who, |s.tables.queue|);
    var q := Run(p, lost);
    assert q.tables.queue == [failed];
    var last := CancelsUnlogged(q, who, failed);
    Join(p, lost, last);
    Join(r, [Act(who, FailAfter)], lost + last);
    more := [Act(who, FailAfter)] + (lost + last);
  }

  lemma UnloggedSaga(s: System, who: nat)
    requires Invariant(s) && who < |s.workers| && s.workers[who].Busy? && s.workers[who].pc == Inserting
    ensures var e := s.workers[who].event;
            e.phase == Starting ==>
              |LogOf(s.tables, e.id)| == 0 && e.id !in s.tables.orders && e.id in s.tables.status && s.tables.status[e.id] == Init
  {
    assert WorkerOk(s.tables, s.workers[who]);
  }

  lemma DeductedSaga(s: System, who: nat)
    requires Invariant(s) && who < |s.workers| && s.workers[who].Busy? && s.workers[who].pc == Deducting
    ensures var e := s.workers[who].event;
            Fresh(s.tables, e.id) && |LogOf(s.tables, e.id)| > 0 && OrderNormal(s.tables, e.id) && e.id !in s.tables.reserves
  {
    assert WorkerOk(s.tables, s.workers[who]);
  }

  /** The commit of a deduction fails behind its event, alone or with its rollback: the
      saga can end finished although its stock has never been deducted, or has been given
      back, or its order has been withdrawn. */
  lemma LateCommitBreaks(s: System, who: nat, fault: Fault) returns (more: seq<Action>)
    requires Invariant(s) && who < |s.workers| && s.workers[who].Busy? && s.workers[who].pc == Deducting
    requires Harmful(s.tables, s.workers[who], fault)
    ensures var r := Happen(s, Act(who, fault));
            var id := s.workers[who].event.id;
            AllFair(r, more) && StatusOf(Run(r, more).tables, id) == Finished
            && !(OrderNormal(Run(r, more).tables, id) && StockNormal(Run(r, more).tables, id))
  {
    hide Run, AllFair, SagaOk, Single, Invariant;
    var e := s.workers[who].event;
    DeductedSaga(s, who);
    var r := Happen(s, Act(who, fault));
    var done := Event(e.id, DeductingStock, e.item, e.count, true);
    var failed := done.(succeed := false);
    var ends := if fault == RollbackLost then [done] else [done, failed];
    assert r.tables.queue == s.tables.queue + ends && r.workers[who] == Idle;
    var lost := Drain(r, who, |s.tables.queue|);
    var q := Run(r, lost);
    assert q.tables.queue == ends;
    var finish := FinishesSaga(q, who, done);
    Join(r, lost, finish);
    if fault != FailAfter {
      more := lost + finish;
    } else {
      var undo := UndoesLast(Run(q, finish), who, failed);
      Join(r, lost + finish, undo);
      more := lost + finish + undo;
    }
  }

  lemma StepOutcome(s: System, a: Action)
    requires Invariant(s)
    ensures (forall more, id | AllFair(Happen(s, a), more) :: OutcomeOk(Run(Happen(s, a), more).tables, id)) <==> Fair(s, a)
  {
    hide Run, AllFair, Invariant, OutcomeOk;
    var r := Happen(s, a);
    if Fair(s, a) {
      HappenKeeps(s, a);
      forall more, id | AllFair(r, more) ensures OutcomeOk(Run(r, more).tables, id) {
        RunKeeps(r, more);
        KeptOutcome(Run(r, more), id);
      }
    } else {
      var more := Breaks(s, a);
      assert AllFair(r, more) && !OutcomeOk(Run(r, more).tables, s.workers[a.who].event.id);
    }
  }

  lemma Breaks(s: System, a: Action) returns (more: seq<Action>)
    requires Invariant(s) && !Fair(s, a)
    ensures a.Act? && a.who < |s.workers| && s.workers[a.who].Busy?
    ensures AllFair(Happen(s, a), more) && !OutcomeOk(Run(Happen(s, a), more).tables, s.workers[a.who].event.id)
  {
    hide Run, AllFair, Invariant;
    if s.workers[a.who].pc == Inserting {
      more := LostLogBreaks(s, a.who, a.fault);
    } else {
      more := LateCommitBreaks(s, a.who, a.fault);
    }
  }

  /** From every state that is reached without a harmful failure, a step leaves every
      outcome right, in every run that goes on without one, if and only if it is not
      harmful itself. */
  lemma OutcomeExactly(stock: map<nat, int>, before: seq<Action>, a: Action)
    requires AllFair(Begin(stock), before)
    ensures var s := Run(Begin(stock), before);
            (forall more, id | AllFair(Happen(s, a), more) :: OutcomeOk(Run(Happen(s, a), more).tables, id)) <==> Fair(s, a)
  {
    hide Run, AllFair, Invariant, OutcomeOk, Fair;
    BeginsRight(stock);
    RunKeeps(Begin(stock), before);
    StepOutcome(Run(Begin(stock), before), a);
  }

  lemma KeptOutcome(s: System, id: nat)
    requires Invariant(s)
    ensures OutcomeOk(s.tables, id)
  {
    assert SagaOk(s.tables, id);
  }
}
