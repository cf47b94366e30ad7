/** How sagas end. */
module SagaOutcome {
  import opened SagaServices
  import opened SagaProtocol

  // ---------- outcomes ----------

  /** In every run in which no order's log row is lost and no deduction that finds its
      stock commits too late: a finished saga has its order and its stock, a canceled one
      has neither, however many workers interleave and whatever else fails. */
  lemma Outcome(stock: map<nat, int>, actions: seq<Action>, id: nat)
    requires AllFair(Begin(stock), actions)
    ensures var t := Run(Begin(stock), actions).tables;
            (StatusOf(t, id) == Finished ==> OrderNormal(t, id) && StockNormal(t, id))
            && (StatusOf(t, id) == Canceled ==> !OrderNormal(t, id) && !StockNormal(t, id))
  {
    hide Run, AllFair;
    BeginsRight(stock);
    RunKeeps(Begin(stock), actions);
    assert SagaOk(Run(Begin(stock), actions).tables, id);
  }

  /** At most one event of a saga is outstanding, queued or with a worker. */
  lemma OneEvent(stock: map<nat, int>, actions: seq<Action>)
    requires AllFair(Begin(stock), actions)
    ensures Single(Run(Begin(stock), actions))
  {
    hide Run, AllFair, Single, SagaOk, WorkerOk;
    BeginsRight(stock);
    RunKeeps(Begin(stock), actions);
  }

  /** Compensation runs backwards: once the deduction is logged, the order is withdrawn
      only after the stock has been. */
  lemma BackwardOrder(stock: map<nat, int>, actions: seq<Action>, id: nat)
    requires AllFair(Begin(stock), actions)
    ensures var t := Run(Begin(stock), actions).tables;
            id in t.orders && t.orders[id].status == Withdrawn && Find(LogOf(t, id), DeductingStock) < |LogOf(t, id)| ==>
              id in t.reserves && t.reserves[id].status == Withdrawn
  {
    hide Run, AllFair;
    BeginsRight(stock);
    RunKeeps(Begin(stock), actions);
    assert SagaOk(Run(Begin(stock), actions).tables, id);
  }

  /** The outcome of a saga stays, and no saga is started. */
  predicate StatusKept(t: Tables, u: Tables, id: nat) {
    (StatusOf(t, id) != Init ==> StatusOf(u, id) == StatusOf(t, id)) && u.status.Keys == t.status.Keys && u.nextId == t.nextId
  }

  lemma SameStatus(t: Tables, u: Tables, id: nat)
    requires u.status == t.status && u.nextId == t.nextId
    ensures StatusKept(t, u, id)
  {
  }

  lemma InvokeStatus(fault: Fault, t: Tables, done: (Tables, bool), id: nat)
    requires StatusKept(t, done.0, id)
    ensures StatusKept(t, Invoke(fault, t, done).0, id)
  {
    hide StatusOf;
  }

  lemma UpdateStatus(t: Tables, saga: nat, phase: Phase, status: LogStatus, fault: Fault, id: nat)
    ensures StatusKept(t, Invoke(fault, t, UpdateLog(t, saga, phase, status)).0, id)
  {
    hide Find, StatusKept, Invoke;
    SameStatus(t, UpdateLog(t, saga, phase, status).0, id);
    InvokeStatus(fault, t, UpdateLog(t, saga, phase, status), id);
  }

  lemma InsertStatus(t: Tables, saga: nat, phase: Phase, fault: Fault, id: nat)
    ensures StatusKept(t, Invoke(fault, t, InsertLog(t, saga, phase)).0, id)
  {
    hide StatusKept, Invoke;
    SameStatus(t, InsertLog(t, saga, phase).0, id);
    InvokeStatus(fault, t, InsertLog(t, saga, phase), id);
  }

  lemma SetsStatus(t: Tables, saga: nat, status: SagaStatus, fault: Fault, id: nat)
    ensures StatusKept(t, Invoke(fault, t, SetStatus(t, saga, status)).0, id)
  {
    hide Invoke;
    InvokeStatus(fault, t, SetStatus(t, saga, status), id);
  }

  lemma CancelStatus(t: Tables, saga: nat, item: nat, fault: Fault, id: nat)
    ensures StatusKept(t, Invoke(fault, t, CancelDeduct(t, saga, item)).0, id)
    ensures StatusKept(t, Invoke(fault, t, CancelOrder(t, saga)).0, id)
  {
    hide StatusKept, Invoke;
    SameStatus(t, CancelDeduct(t, saga, item).0, id);
    SameStatus(t, CancelOrder(t, saga).0, id);
    InvokeStatus(fault, t, CancelDeduct(t, saga, item), id);
    InvokeStatus(fault, t, CancelOrder(t, saga), id);
  }

  lemma WorkStatus(t: Tables, w: Worker, fault: Fault, id: nat)
    requires w.Busy?
    ensures StatusKept(t, Work(t, w, fault).0, id)
  {
    hide CreateOrder, DeductStock, UpdateLog, InsertLog, CancelDeduct, CancelOrder, SetStatus, Invoke, StatusKept, Reversed;
    var e := w.event;
    SameStatus(t, t, id);
    match w.pc
    case MarkSucceeded => UpdateStatus(t, e.id, e.phase, Succeeded, fault, id);
    case Inserting => InsertStatus(t, e.id, Next(e.phase), fault, id);
    case Creating =>
      CreateElsewhere(t, e, fault, e.id + 1);
      SameStatus(t, CreateOrder(t, e, fault), id);
    case Deducting =>
      DeductElsewhere(t, e, fault, e.id + 1);
      SameStatus(t, DeductStock(t, e, fault), id);
    case SettingFinished => SetsStatus(t, e.id, Finished, fault, id);
    case Reading =>
    case Undoing => CancelStatus(t, e.id, e.item, fault, id);
    case MarkUndone => if |w.todo| > 0 { UpdateStatus(t, e.id, w.todo[0].phase, Undone, fault, id); }
    case SettingCanceled => SetsStatus(t, e.id, Canceled, fault, id);
  }

  /** Only sagas that have been started have a status. */
  ghost predicate Started(t: Tables) {
    forall id: nat :: id in t.status ==> id < t.nextId
  }

  lemma StatusOnce(s: System, a: Action, id: nat)
    requires Started(s.tables)
    ensures Started(Happen(s, a).tables)
    ensures StatusOf(s.tables, id) != Init ==> StatusOf(Happen(s, a).tables, id) == StatusOf(s.tables, id)
  {
    hide Work;
    match a
    case Place(_, _) =>
    case Take(_) =>
    case Act(who, fault) =>
      if who < |s.workers| && s.workers[who].Busy? {
        WorkStatus(s.tables, s.workers[who], fault, id);
      }
  }

  lemma {:induction false} StatusStays(s: System, actions: seq<Action>, id: nat)
    requires Started(s.tables)
    ensures Started(Run(s, actions).tables)
    ensures StatusOf(s.tables, id) != Init ==> StatusOf(Run(s, actions).tables, id) == StatusOf(s.tables, id)
    decreases actions
  {
    hide Started, Happen, StatusOf;
    if |actions| > 0 {
      StatusOnce(s, actions[0], id);
      StatusStays(Happen(s, actions[0]), actions[1..], id);
    }
  }

  /** The outcome of a saga is final, in every run and whatever fails. */
  lemma OutcomeFinal(stock: map<nat, int>, before: seq<Action>, actions: seq<Action>, id: nat)
    requires StatusOf(Run(Begin(stock), before).tables, id) != Init
    ensures var s := Run(Begin(stock), before); StatusOf(Run(s, actions).tables, id) == StatusOf(s.tables, id)
  {
    hide Run, StatusOf;
    StatusStays(Begin(stock), before, id);
    StatusStays(Run(Begin(stock), before), actions, id);
  }

  // ---------- the two failures that are not survived ----------

  /** Deducting leaves at most one event outstanding exactly when it emits no negative
      event behind the positive one: its commit succeeds, or its rollback fails too. */
  lemma SingleAfterDeduct(s: System, who: nat, fault: Fault)
    requires Invariant(s) && who < |s.workers| && s.workers[who].Busy? && s.workers[who].pc == Deducting
    ensures var e := s.workers[who].event;
            Single(Happen(s, Act(who, fault)))
            <==> !(e.item in s.tables.stock && s.tables.stock[e.item] >= e.count && (fault == FailAfter || fault == CommitLost))
  {
    hide SagaOk;
    var w := s.workers[who];
    var r := Happen(s, Act(who, fault));
    var n := |s.tables.queue|;
    assert WorkerOk(s.tables, w);
    if !Harmful(s.tables, w, fault) {
      ActQueue(s, who, fault);
    } else if fault == RollbackLost {
      ActQueue(s, who, NoFault);
      assert r.tables.queue == Happen(s, Act(who, NoFault)).tables.queue;
    } else {
      assert r.tables.queue[n].id == r.tables.queue[n + 1].id == w.event.id;
    }
  }

  /** The order has been created, its log row and its answer have been lost. */
  predicate Unlogged(s: System) {
    s.tables.queue == [Event(0, CreatingOrder, 1, 1, false)] && s.workers == [Idle]
    && OrderNormal(s.tables, 0) && LogOf(s.tables, 0) == [] && 0 in s.tables.status && s.tables.status[0] == Init
  }

  lemma LosesLog(s: System)
    requires s == Begin(map[1 := 5])
    ensures Unlogged(Happen(Happen(Happen(Happen(s, Place(1, 1)), Take(0)), Act(0, FailBefore)), Act(0, FailAfter)))
  {
    var s1 := Happen(s, Place(1, 1));
    var s2 := Happen(s1, Take(0));
    assert s2.workers == [Busy(Event(0, Starting, 1, 1, true), Inserting, [])];
    var s3 := Happen(s2, Act(0, FailBefore));
    assert s3.workers == [Busy(Event(0, Starting, 1, 1, true), Creating, [])] && s3.tables == s2.tables;
  }

  lemma CancelsNothing(s: System)
    requires Unlogged(s)
    ensures var t := Happen(Happen(Happen(Happen(s, Take(0)), Act(0, NoFault)), Act(0, NoFault)), Act(0, NoFault)).tables;
            StatusOf(t, 0) == Canceled && OrderNormal(t, 0)
  {
    var s5 := Happen(s, Take(0));
    assert s5.workers == [Busy(Event(0, CreatingOrder, 1, 1, false), Reading, [])];
    var s6 := Happen(s5, Act(0, NoFault));
    assert s6.workers[0].todo == [] && s6.tables == s5.tables;
  }

  /** A log insertion that fails silently: the order is never withdrawn, although the
      saga ends as canceled. */
  lemma LostLog()
    ensures exists actions :: var t := Run(Begin(map[1 := 5]), actions).tables;
              StatusOf(t, 0) == Canceled && OrderNormal(t, 0)
  {
    hide Happen, Run, Begin, Unlogged;
    var actions := [Place(1, 1), Take(0), Act(0, FailBefore), Act(0, FailAfter), Take(0), Act(0, NoFault), Act(0, NoFault), Act(0, NoFault)];
    var s := Begin(map[1 := 5]);
    LosesLog(s);
    CancelsNothing(Happen(Happen(Happen(Happen(s, actions[0]), actions[1]), actions[2]), actions[3]));
    Steps8(s, actions);
    var t := Run(s, actions).tables;
    assert StatusOf(t, 0) == Canceled && OrderNormal(t, 0);
  }

  /** A run of eight actions, one by one. */
  lemma Steps8(s: System, a: seq<Action>)
    requires |a| == 8
    ensures Run(s, a) ==
      Happen(Happen(Happen(Happen(Happen(Happen(Happen(Happen(s, a[0]), a[1]), a[2]), a[3]), a[4]), a[5]), a[6]), a[7])
  {
    hide Happen;
    var s1 := Happen(s, a[0]);
    var s2 := Happen(s1, a[1]);
    var s3 := Happen(s2, a[2]);
    var s4 := Happen(s3, a[3]);
    var s5 := Happen(s4, a[4]);
    var s6 := Happen(s5, a[5]);
    var s7 := Happen(s6, a[6]);
    Step(s, a, 0);
    Step(s1, a, 1);
    Step(s2, a, 2);
    Step(s3, a, 3);
    Step(s4, a, 4);
    Step(s5, a, 5);
    Step(s6, a, 6);
    Step(s7, a, 7);
    assert a[8..] == [] && a[0..] == a;
  }

  lemma Step(s: System, a: seq<Action>, k: nat)
    requires k < |a|
    ensures Run(s, a[k..]) == Run(Happen(s, a[k]), a[k + 1..])
  {
    hide Happen;
    assert a[k..][0] == a[k] && a[k..][1..] == a[k + 1..];
  }
}
