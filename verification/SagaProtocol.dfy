/** Saga events, any number of workers that process them, and the outcome of a saga. */
module SagaProtocol {
  import opened SagaServices

  /** The next step of `processEvent`. */
  datatype Pc =
    | MarkSucceeded
    | Inserting
    | Creating
    | Deducting
    | SettingFinished
    | Reading
    | Undoing
    | MarkUndone
    | SettingCanceled

  /** A worker thread: idle, or busy with an event. `todo` is what remains of the
      reversed log it read. */
  datatype Worker = Idle | Busy(event: Event, pc: Pc, todo: seq<Log>)

  /** A worker takes an event. */
  function Accept(e: Event): Worker {
    if !e.succeed then Busy(e, Reading, [])
    else if e.phase == Starting then Busy(e, Inserting, [])
    else Busy(e, MarkSucceeded, [])
  }

  /** The phase that follows, as `ORDER_TRANSIT_FORWARD` says. */
  function Next(phase: Phase): Phase {
    if phase == Starting then CreatingOrder else DeductingStock
  }

  function Reversed(log: seq<Log>): (r: seq<Log>)
    ensures |r| == |log|
    ensures forall k | 0 <= k < |r| :: r[k] == log[|log| - 1 - k]
  {
    if |log| == 0 then [] else Reversed(log[1..]) + [log[0]]
  }

  predicate Dies(fault: Fault) {
    fault == DieBefore || fault == DieAfter || fault == RollbackLost
  }

  /** One step of a busy worker: the tables after it, and how the worker goes on. */
  function Work(t: Tables, w: Worker, fault: Fault): (Tables, Worker)
    requires w.Busy?
  {
    var e := w.event;
    match w.pc
    case MarkSucceeded =>
      (Invoke(fault, t, UpdateLog(t, e.id, e.phase, Succeeded)).0,
       if Dies(fault) then Idle else w.(pc := if e.phase == CreatingOrder then Inserting else SettingFinished))
    case Inserting =>
      (Invoke(fault, t, InsertLog(t, e.id, Next(e.phase))).0,
       if Dies(fault) then Idle else w.(pc := if e.phase == Starting then Creating else Deducting))
    case Creating => (CreateOrder(t, e, fault), Idle)
    case Deducting => (DeductStock(t, e, fault), Idle)
    case SettingFinished => (Invoke(fault, t, SetStatus(t, e.id, Finished)).0, Idle)
    case Reading => (t, if Dies(fault) then Idle else w.(pc := Undoing, todo := Reversed(LogOf(t, e.id))))
    case Undoing =>
      if |w.todo| == 0 then (t, w.(pc := SettingCanceled))
      else if w.todo[0].status == Undone then (t, w.(todo := w.todo[1..]))
      else
        var (u, ok) := Invoke(fault, t, if w.todo[0].phase == DeductingStock then CancelDeduct(t, e.id, e.item) else CancelOrder(t, e.id));
        (u, if ok then w.(pc := MarkUndone) else Idle)
    case MarkUndone =>
      if |w.todo| == 0 then (t, Idle)
      else
        (Invoke(fault, t, UpdateLog(t, e.id, w.todo[0].phase, Undone)).0,
         if Dies(fault) then Idle else w.(pc := Undoing, todo := w.todo[1..]))
    case SettingCanceled => (Invoke(fault, t, SetStatus(t, e.id, Canceled)).0, Idle)
  }

  // ---------- the system ----------

  /** Every order that is placed starts another worker. */
  datatype System = System(tables: Tables, workers: seq<Worker>)

  datatype Action = Place(item: nat, count: int) | Take(who: nat) | Act(who: nat, fault: Fault)

  function Happen(s: System, a: Action): System {
    match a
    case Place(item, count) => System(StartSaga(s.tables, item, count), s.workers + [Idle])
    case Take(who) =>
      if who >= |s.workers| || s.workers[who].Busy? || |s.tables.queue| == 0 then s
      else
        System(s.tables.(queue := s.tables.queue[1..]), s.workers[who := Accept(s.tables.queue[0])])
    case Act(who, fault) =>
      if who >= |s.workers| || s.workers[who].Idle? then s
      else
        var (u, w) := Work(s.tables, s.workers[who], fault);
        System(u, s.workers[who := w])
  }

  function Run(s: System, actions: seq<Action>): System
    decreases actions
  {
    if |actions| == 0 then s else Run(Happen(s, actions[0]), actions[1..])
  }

  function Begin(stock: map<nat, int>): System {
    System(Tables(0, map[], map[], map[], map[], stock, []), [])
  }

  /** The failures that a saga does not survive: the log row of its order is lost
      although the worker goes on to create the order, and a deduction that finds its
      stock commits too late or not at all behind the event it has emitted. */
  predicate Harmful(t: Tables, w: Worker, fault: Fault)
    requires w.Busy?
  {
    (w.pc == Inserting && w.event.phase == Starting && (fault == FailBefore || fault == CommitLost))
    || (w.pc == Deducting && w.event.item in t.stock && t.stock[w.event.item] >= w.event.count
        && (fault == FailAfter || fault == CommitLost || fault == RollbackLost))
  }

  predicate Fair(s: System, a: Action) {
    a.Act? && a.who < |s.workers| && s.workers[a.who].Busy? ==> !Harmful(s.tables, s.workers[a.who], a.fault)
  }

  predicate AllFair(s: System, actions: seq<Action>)
    decreases actions
  {
    |actions| > 0 ==> Fair(s, actions[0]) && AllFair(Happen(s, actions[0]), actions[1..])
  }

  // ---------- what every state satisfies ----------

  function StatusOf(t: Tables, id: nat): SagaStatus {
    if id in t.status then t.status[id] else Init
  }

  predicate OrderNormal(t: Tables, id: nat) {
    id in t.orders && t.orders[id].status == Normal
  }

  predicate StockNormal(t: Tables, id: nat) {
    id in t.reserves && t.reserves[id].status == Normal
  }

  predicate StockWithdrawn(t: Tables, id: nat) {
    id in t.reserves && t.reserves[id].status == Withdrawn
  }

  /** A saga: its log has its phases in order, what is done is logged, compensation runs
      backwards, and the status tells the outcome. */
  predicate SagaOk(t: Tables, id: nat) {
    var log := LogOf(t, id);
    (id in t.status <==> id < t.nextId)
    && (id !in t.status ==> |log| == 0 && id !in t.orders && id !in t.reserves)
    && |log| <= 2 && (|log| > 0 ==> log[0].phase == CreatingOrder) && (|log| > 1 ==> log[1].phase == DeductingStock)
    && (id in t.orders ==> |log| > 0) && (id in t.reserves ==> |log| > 0)
    && (id in t.orders && t.orders[id].status == Withdrawn && |log| > 1 ==> StockWithdrawn(t, id))
    && (StatusOf(t, id) == Finished ==> OrderNormal(t, id) && StockNormal(t, id))
    && (StatusOf(t, id) == Canceled ==> !OrderNormal(t, id) && !StockNormal(t, id))
  }

  /** Nothing has been undone yet. */
  predicate Fresh(t: Tables, id: nat) {
    id in t.status && t.status[id] == Init && forall k | 0 <= k < |LogOf(t, id)| :: LogOf(t, id)[k].status != Undone
  }

  predicate Ended(t: Tables, id: nat, phase: Phase, succeed: bool) {
    Fresh(t, id)
    && match phase
       case Starting => succeed && |LogOf(t, id)| == 0 && id !in t.orders && id !in t.reserves
       case CreatingOrder =>
         |LogOf(t, id)| == 1 && id !in t.reserves && (id in t.orders ==> OrderNormal(t, id)) && (succeed ==> OrderNormal(t, id))
       case DeductingStock =>
         1 <= |LogOf(t, id)| <= 2 && OrderNormal(t, id) && (id in t.reserves ==> StockNormal(t, id)) && (succeed ==> StockNormal(t, id))
         && (!succeed && |LogOf(t, id)| == 1 ==> id !in t.reserves)
  }

  /** How much is left to undo, and what has been undone. */
  predicate Undoes(t: Tables, id: nat, todo: seq<Log>) {
    var log := LogOf(t, id);
    id in t.status && t.status[id] == Init && |todo| <= |log| && |log| > 0
    && (|todo| > 0 ==> todo[|todo| - 1].phase == CreatingOrder)
    && (|todo| > 1 ==> todo[0].phase == DeductingStock)
    && (forall k | 0 <= k < |todo| :: todo[k].status != Undone)
    && (|log| == 2 ==> if |todo| == 2 then OrderNormal(t, id) else StockWithdrawn(t, id))
    && (|log| == 1 ==> id !in t.reserves)
    && (|todo| == 0 ==> !OrderNormal(t, id))
    && (|todo| > 0 ==> id in t.orders ==> OrderNormal(t, id))
  }

  predicate WorkerOk(t: Tables, w: Worker) {
    w.Busy? ==>
      var id, e := w.event.id, w.event;
      match w.pc
      case MarkSucceeded => e.succeed && e.phase != Starting && Ended(t, id, e.phase, true)
      case Inserting => e.succeed && e.phase != DeductingStock && Ended(t, id, e.phase, true)
      case Creating => e.succeed && Fresh(t, id) && |LogOf(t, id)| == 1 && id !in t.orders && id !in t.reserves
      case Deducting => e.succeed && Fresh(t, id) && 1 <= |LogOf(t, id)| <= 2 && OrderNormal(t, id) && id !in t.reserves
      case SettingFinished => Ended(t, id, DeductingStock, true)
      case Reading => !e.succeed && Ended(t, id, e.phase, false)
      case Undoing => Undoes(t, id, w.todo)
      case MarkUndone => |w.todo| > 0 && Marks(t, id, w.todo)
      case SettingCanceled => Undoes(t, id, [])
  }

  /** The first of `todo` has been undone but not yet marked. */
  predicate Marks(t: Tables, id: nat, todo: seq<Log>)
    requires |todo| > 0
  {
    Undoes(t, id, todo[1..])
  }

  /** The saga a worker is busy with. */
  predicate WorksOn(w: Worker, id: nat) {
    w.Busy? && w.event.id == id
  }

  /** At most one event is outstanding for a saga: in the queue or with a worker. */
  predicate Single(s: System) {
    (forall i, j | 0 <= i < j < |s.tables.queue| :: s.tables.queue[i].id != s.tables.queue[j].id)
    && (forall i, w | 0 <= i < |s.tables.queue| && 0 <= w < |s.workers| :: !WorksOn(s.workers[w], s.tables.queue[i].id))
    && forall v, w | 0 <= v < w < |s.workers| && s.workers[v].Busy? :: !WorksOn(s.workers[w], s.workers[v].event.id)
  }

  ghost predicate Invariant(s: System) {
    (forall id: nat :: SagaOk(s.tables, id))
    && (forall i | 0 <= i < |s.tables.queue| :: var e := s.tables.queue[i]; Ended(s.tables, e.id, e.phase, e.succeed))
    && (forall w | 0 <= w < |s.workers| :: WorkerOk(s.tables, s.workers[w]))
    && Single(s)
  }

  // ---------- one step ----------

  predicate SameSaga(t: Tables, u: Tables, id: nat) {
    (id in t.status <==> id in u.status) && (id in t.status ==> t.status[id] == u.status[id])
    && LogOf(t, id) == LogOf(u, id)
    && (id in t.orders <==> id in u.orders) && (id in t.orders ==> t.orders[id] == u.orders[id])
    && (id in t.reserves <==> id in u.reserves) && (id in t.reserves ==> t.reserves[id] == u.reserves[id])
  }

  lemma CreateElsewhere(t: Tables, e: Event, fault: Fault, id: nat)
    requires id != e.id
    ensures var u := CreateOrder(t, e, fault); SameSaga(t, u, id) && u.nextId == t.nextId && u.status == t.status
  {
  }

  lemma DeductFound(t: Tables, e: Event, fault: Fault)
    requires e.item in t.stock
    ensures var u := Deduct(t, e, fault).(queue := t.queue); u == t || u == Deducted(t, e)
  {
  }

  /** A deduction changes stock and reservations as one that takes place, or not at all. */
  lemma DeductEffect(t: Tables, e: Event, fault: Fault)
    ensures var u := DeductStock(t, e, fault).(queue := t.queue);
            u == t || (e.item in t.stock && t.stock[e.item] >= e.count && e.id !in t.reserves && u == Deducted(t, e))
  {
    hide Deduct, Deducted;
    if e.item in t.stock {
      DeductFound(t, e, fault);
    }
  }

  /** The events a deduction emits: none, one, or a positive and a negative one. */
  lemma DeductQueue(t: Tables, e: Event, fault: Fault)
    ensures var u := DeductStock(t, e, fault);
            var done := Event(e.id, DeductingStock, e.item, e.count, true);
            u.queue == t.queue || u.queue == t.queue + [done] || u.queue == t.queue + [done.(succeed := false)]
            || u.queue == t.queue + [done, done.(succeed := false)]
  {
    var done := Event(e.id, DeductingStock, e.item, e.count, true);
    assert t.queue + [done] + [done.(succeed := false)] == t.queue + [done, done.(succeed := false)];
  }

  lemma DeductElsewhere(t: Tables, e: Event, fault: Fault, id: nat)
    requires id != e.id
    ensures var u := DeductStock(t, e, fault); SameSaga(t, u, id) && u.nextId == t.nextId && u.status == t.status
  {
    hide DeductStock;
    DeductEffect(t, e, fault);
  }

  lemma CancelDeductElsewhere(t: Tables, saga: nat, item: nat, id: nat)
    requires id != saga
    ensures var u := CancelDeduct(t, saga, item).0; SameSaga(t, u, id) && u.nextId == t.nextId && u.status == t.status
  {
  }

  lemma CancelOrderElsewhere(t: Tables, saga: nat, id: nat)
    requires id != saga
    ensures var u := CancelOrder(t, saga).0; SameSaga(t, u, id) && u.nextId == t.nextId && u.status == t.status
  {
  }

  lemma BackwardElsewhere(t: Tables, w: Worker, fault: Fault, id: nat)
    requires w.Busy? && id != w.event.id && w.pc == Undoing
    ensures SameSaga(t, Work(t, w, fault).0, id) && Work(t, w, fault).0.nextId == t.nextId
  {
    hide CancelDeduct, CancelOrder, SameSaga;
    CancelDeductElsewhere(t, w.event.id, w.event.item, id);
    CancelOrderElsewhere(t, w.event.id, id);
    Unchanged(t, id);
  }

  lemma Unchanged(t: Tables, id: nat)
    ensures SameSaga(t, t, id)
  {
  }

  lemma UpdateElsewhere(t: Tables, saga: nat, phase: Phase, status: LogStatus, id: nat)
    requires id != saga
    ensures var u := UpdateLog(t, saga, phase, status).0; SameSaga(t, u, id) && u.nextId == t.nextId
  {
    hide Find;
  }

  lemma InsertElsewhere(t: Tables, saga: nat, phase: Phase, status: SagaStatus, id: nat)
    requires id != saga
    ensures var u := InsertLog(t, saga, phase).0; SameSaga(t, u, id) && u.nextId == t.nextId
    ensures var u := SetStatus(t, saga, status).0; SameSaga(t, u, id) && u.nextId == t.nextId
  {
  }

  lemma LogElsewhere(t: Tables, w: Worker, fault: Fault, id: nat)
    requires w.Busy? && id != w.event.id && w.pc != Creating && w.pc != Deducting && w.pc != Undoing
    ensures SameSaga(t, Work(t, w, fault).0, id) && Work(t, w, fault).0.nextId == t.nextId
  {
    hide UpdateLog, InsertLog, SetStatus, SameSaga, Reversed;
    var e := w.event;
    Unchanged(t, id);
    UpdateElsewhere(t, e.id, e.phase, Succeeded, id);
    if |w.todo| > 0 {
      UpdateElsewhere(t, e.id, w.todo[0].phase, Undone, id);
    }
    InsertElsewhere(t, e.id, Next(e.phase), Finished, id);
    InsertElsewhere(t, e.id, Next(e.phase), Canceled, id);
  }

  /** A step changes the rows of its own saga only. */
  lemma WorkElsewhere(t: Tables, w: Worker, fault: Fault, id: nat)
    requires w.Busy? && id != w.event.id
    ensures SameSaga(t, Work(t, w, fault).0, id) && Work(t, w, fault).0.nextId == t.nextId
  {
    hide SameSaga, CreateOrder, DeductStock, UpdateLog, InsertLog, SetStatus, CancelDeduct, CancelOrder;
    if w.pc == Creating {
      CreateElsewhere(t, w.event, fault, id);
    } else if w.pc == Deducting {
      DeductElsewhere(t, w.event, fault, id);
    } else if w.pc == Undoing {
      BackwardElsewhere(t, w, fault, id);
    } else {
      LogElsewhere(t, w, fault, id);
    }
  }

  /** The events a step emits: none or one, about its own saga; and then it is over. */
  predicate Emits(t: Tables, u: Tables, w: Worker, next: Worker)
    requires w.Busy?
  {
    u.queue == t.queue
    || (next.Idle? && |u.queue| == |t.queue| + 1 && u.queue[..|t.queue|] == t.queue
        && var e := u.queue[|t.queue|]; e.id == w.event.id && Ended(u, e.id, e.phase, e.succeed))
  }

  /** A step leaves its saga in order. */
  predicate Keeps(t: Tables, w: Worker, u: Tables, next: Worker)
    requires w.Busy?
  {
    SagaOk(u, w.event.id) && WorkerOk(u, next) && Emits(t, u, w, next) && (next.Busy? ==> next.event == w.event)
  }

  /** A log row that is marked: phases and rows stay, and no row changes otherwise. */
  lemma MarkedLog(t: Tables, id: nat, phase: Phase, status: LogStatus)
    ensures var u := UpdateLog(t, id, phase, status).0;
            u.(log := t.log) == t && |LogOf(u, id)| == |LogOf(t, id)|
            && forall k | 0 <= k < |LogOf(t, id)| ::
                 LogOf(u, id)[k].phase == LogOf(t, id)[k].phase
                 && (LogOf(u, id)[k].status == LogOf(t, id)[k].status || LogOf(u, id)[k].status == status)
  {
    hide Find;
  }

  /** The rows of a saga are as many, with the same phases; everything else is the same. */
  predicate Relogged(t: Tables, u: Tables, id: nat) {
    u.status == t.status && u.nextId == t.nextId && u.orders == t.orders && u.reserves == t.reserves && u.queue == t.queue
    && |LogOf(u, id)| == |LogOf(t, id)| && forall k | 0 <= k < |LogOf(t, id)| :: LogOf(u, id)[k].phase == LogOf(t, id)[k].phase
  }

  lemma ReloggedKeeps(t: Tables, u: Tables, id: nat)
    requires Relogged(t, u, id) && SagaOk(t, id)
    ensures SagaOk(u, id)
  {
  }

  lemma ReloggedUndoes(t: Tables, u: Tables, id: nat, todo: seq<Log>)
    requires Relogged(t, u, id) && Undoes(t, id, todo)
    ensures Undoes(u, id, todo)
  {
  }

  lemma ReloggedEnded(t: Tables, u: Tables, id: nat, phase: Phase)
    requires Relogged(t, u, id) && Ended(t, id, phase, true)
    requires forall k | 0 <= k < |LogOf(u, id)| :: LogOf(u, id)[k].status != Undone
    ensures Ended(u, id, phase, true)
  {
  }

  lemma EndedFresh(t: Tables, id: nat, phase: Phase)
    requires Ended(t, id, phase, true)
    ensures forall k | 0 <= k < |LogOf(t, id)| :: LogOf(t, id)[k].status != Undone
  {
  }

  lemma MarkKeeps(t: Tables, w: Worker, fault: Fault)
    requires w.Busy? && w.pc == MarkSucceeded && SagaOk(t, w.event.id) && WorkerOk(t, w)
    ensures Keeps(t, w, Work(t, w, fault).0, Work(t, w, fault).1)
  {
    hide UpdateLog, LogOf, SagaOk, Ended;
    var e := w.event;
    MarkedLog(t, e.id, e.phase, Succeeded);
    EndedFresh(t, e.id, e.phase);
    var u := UpdateLog(t, e.id, e.phase, Succeeded).0;
    ReloggedKeeps(t, u, e.id);
    ReloggedEnded(t, u, e.id, e.phase);
  }

  lemma InsertedLog(t: Tables, id: nat, phase: Phase)
    ensures var u := InsertLog(t, id, phase).0;
            u.(log := t.log) == t && LogOf(u, id) == LogOf(t, id) + [Log(phase, Open)]
  {
  }

  lemma InsertKeeps(t: Tables, w: Worker, fault: Fault)
    requires w.Busy? && w.pc == Inserting && SagaOk(t, w.event.id) && WorkerOk(t, w) && !Harmful(t, w, fault)
    ensures Keeps(t, w, Work(t, w, fault).0, Work(t, w, fault).1)
  {
    hide InsertLog, LogOf;
    InsertedLog(t, w.event.id, Next(w.event.phase));
  }

  lemma CreateKeeps(t: Tables, w: Worker, fault: Fault)
    requires w.Busy? && w.pc == Creating && SagaOk(t, w.event.id) && WorkerOk(t, w)
    ensures Keeps(t, w, Work(t, w, fault).0, Work(t, w, fault).1)
  {
  }

  lemma DeductKeeps(t: Tables, w: Worker, fault: Fault)
    requires w.Busy? && w.pc == Deducting && SagaOk(t, w.event.id) && WorkerOk(t, w) && !Harmful(t, w, fault)
    ensures Keeps(t, w, Work(t, w, fault).0, Work(t, w, fault).1)
  {
  }

  lemma StatusKeeps(t: Tables, w: Worker, fault: Fault)
    requires w.Busy? && (w.pc == SettingFinished || w.pc == SettingCanceled) && SagaOk(t, w.event.id) && WorkerOk(t, w)
    ensures Keeps(t, w, Work(t, w, fault).0, Work(t, w, fault).1)
  {
  }

  lemma ReadKeeps(t: Tables, w: Worker, fault: Fault)
    requires w.Busy? && w.pc == Reading && SagaOk(t, w.event.id) && WorkerOk(t, w)
    ensures Keeps(t, w, Work(t, w, fault).0, Work(t, w, fault).1)
  {
  }

  /** The deduction is undone first; and then the order is left. */
  lemma StockUndone(t: Tables, id: nat, item: nat, todo: seq<Log>)
    requires SagaOk(t, id) && Undoes(t, id, todo) && |todo| > 0 && todo[0].phase == DeductingStock
    ensures var (u, ok) := CancelDeduct(t, id, item);
            SagaOk(u, id) && u.queue == t.queue && (ok ==> Undoes(u, id, todo[1..]))
  {
    assert |todo| == 2;
  }

  lemma OrderUndone(t: Tables, id: nat, todo: seq<Log>)
    requires SagaOk(t, id) && Undoes(t, id, todo) && |todo| > 0 && todo[0].phase != DeductingStock
    ensures var (u, ok) := CancelOrder(t, id);
            SagaOk(u, id) && u.queue == t.queue && (ok ==> Undoes(u, id, todo[1..]))
  {
    assert |todo| == 1;
  }

  lemma NothingUndone(t: Tables, id: nat, todo: seq<Log>)
    requires Undoes(t, id, todo)
    ensures |todo| == 0 ==> todo == []
    ensures |todo| > 0 ==> todo[0].status != Undone
  {
  }

  lemma UndoKeeps(t: Tables, w: Worker, fault: Fault)
    requires w.Busy? && w.pc == Undoing && SagaOk(t, w.event.id) && WorkerOk(t, w)
    ensures Keeps(t, w, Work(t, w, fault).0, Work(t, w, fault).1)
  {
    hide SagaOk, Undoes, CancelDeduct, CancelOrder, Ended, LogOf;
    var e := w.event;
    NothingUndone(t, e.id, w.todo);
    if |w.todo| > 0 {
      if w.todo[0].phase == DeductingStock {
        StockUndone(t, e.id, e.item, w.todo);
      } else {
        OrderUndone(t, e.id, w.todo);
      }
    }
  }

  lemma MarkUndoneKeeps(t: Tables, w: Worker, fault: Fault)
    requires w.Busy? && w.pc == MarkUndone && SagaOk(t, w.event.id) && WorkerOk(t, w)
    ensures Keeps(t, w, Work(t, w, fault).0, Work(t, w, fault).1)
  {
    hide UpdateLog, LogOf, SagaOk, Ended, Undoes;
    var id, phase := w.event.id, w.todo[0].phase;
    MarkedLog(t, id, phase, Undone);
    var u := UpdateLog(t, id, phase, Undone).0;
    ReloggedKeeps(t, u, id);
    ReloggedUndoes(t, u, id, w.todo[1..]);
  }

  lemma WorkKeeps(t: Tables, w: Worker, fault: Fault)
    requires w.Busy? && SagaOk(t, w.event.id) && WorkerOk(t, w) && !Harmful(t, w, fault)
    ensures Keeps(t, w, Work(t, w, fault).0, Work(t, w, fault).1)
  {
    hide Work, Keeps, SagaOk, WorkerOk;
    match w.pc
    case MarkSucceeded => MarkKeeps(t, w, fault);
    case Inserting => InsertKeeps(t, w, fault);
    case Creating => CreateKeeps(t, w, fault);
    case Deducting => DeductKeeps(t, w, fault);
    case SettingFinished => StatusKeeps(t, w, fault);
    case Reading => ReadKeeps(t, w, fault);
    case Undoing => UndoKeeps(t, w, fault);
    case MarkUndone => MarkUndoneKeeps(t, w, fault);
    case SettingCanceled => StatusKeeps(t, w, fault);
  }

  /** What is known about a saga stays true while others change. */
  lemma SameSagaKeeps(t: Tables, u: Tables, id: nat)
    requires SameSaga(t, u, id) && (u.nextId == t.nextId || (u.nextId == t.nextId + 1 && id != t.nextId))
    ensures SagaOk(t, id) ==> SagaOk(u, id)
  {
  }

  lemma SameSagaWorks(t: Tables, u: Tables, w: Worker)
    requires w.Busy? ==> SameSaga(t, u, w.event.id)
    ensures WorkerOk(t, w) ==> WorkerOk(u, w)
  {
  }

  lemma SameSagaEnded(t: Tables, u: Tables, e: Event)
    requires SameSaga(t, u, e.id)
    ensures Ended(t, e.id, e.phase, e.succeed) ==> Ended(u, e.id, e.phase, e.succeed)
  {
  }

  lemma ActTables(s: System, who: nat, fault: Fault)
    requires Invariant(s) && who < |s.workers| && s.workers[who].Busy? && !Harmful(s.tables, s.workers[who], fault)
    ensures var r := Happen(s, Act(who, fault));
            (forall id: nat :: SagaOk(r.tables, id)) && forall w | 0 <= w < |r.workers| :: WorkerOk(r.tables, r.workers[w])
  {
    hide SagaOk, WorkerOk, SameSaga, Work, Ended, Emits;
    var t, w := s.tables, s.workers[who];
    var (u, next) := Work(t, w, fault);
    WorkKeeps(t, w, fault);
    forall id: nat ensures SagaOk(u, id) {
      if id != w.event.id {
        WorkElsewhere(t, w, fault, id);
        SameSagaKeeps(t, u, id);
      }
    }
    forall v | 0 <= v < |s.workers| && v != who ensures WorkerOk(u, s.workers[v]) {
      if s.workers[v].Busy? {
        OtherSaga(s, who, v);
        WorkElsewhere(t, w, fault, s.workers[v].event.id);
      }
      SameSagaWorks(t, u, s.workers[v]);
    }
  }

  lemma OtherSaga(s: System, who: nat, v: nat)
    requires Single(s) && who < |s.workers| && v < |s.workers| && v != who && s.workers[who].Busy? && s.workers[v].Busy?
    ensures s.workers[v].event.id != s.workers[who].event.id
  {
    if v < who {
      assert !WorksOn(s.workers[who], s.workers[v].event.id);
    } else {
      assert !WorksOn(s.workers[v], s.workers[who].event.id);
    }
  }

  lemma ActQueue(s: System, who: nat, fault: Fault)
    requires Invariant(s) && who < |s.workers| && s.workers[who].Busy? && !Harmful(s.tables, s.workers[who], fault)
    ensures var r := Happen(s, Act(who, fault));
            Single(r) && forall i | 0 <= i < |r.tables.queue| :: var e := r.tables.queue[i]; Ended(r.tables, e.id, e.phase, e.succeed)
  {
    hide SagaOk, WorkerOk, SameSaga, Work, Ended;
    var t, w := s.tables, s.workers[who];
    var (u, next) := Work(t, w, fault);
    var r := Happen(s, Act(who, fault));
    WorkKeeps(t, w, fault);
    forall i | 0 <= i < |t.queue| ensures u.queue[i] == t.queue[i] && u.queue[i].id != w.event.id {
      assert !WorksOn(w, t.queue[i].id);
      if u.queue != t.queue {
        assert u.queue[..|t.queue|][i] == t.queue[i];
      }
    }
    forall i | 0 <= i < |u.queue| ensures var e := u.queue[i]; Ended(u, e.id, e.phase, e.succeed) {
      if i < |t.queue| {
        WorkElsewhere(t, w, fault, t.queue[i].id);
        SameSagaEnded(t, u, t.queue[i]);
      }
    }
    forall v | 0 <= v < |s.workers| && v != who && s.workers[v].Busy? ensures s.workers[v].event.id != w.event.id {
      OtherSaga(s, who, v);
    }
  }

  lemma TakeKeeps(s: System, who: nat)
    requires Invariant(s)
    ensures Invariant(Happen(s, Take(who)))
  {
    hide SagaOk, WorkerOk, Ended, LogOf;
    if who < |s.workers| && s.workers[who].Idle? && |s.tables.queue| > 0 {
      var r := Happen(s, Take(who));
      var e := s.tables.queue[0];
      AcceptOk(s.tables, e);
      forall id: nat ensures SagaOk(r.tables, id) {
        QueueAside(s.tables, r.tables.queue, id, Idle, e);
      }
      forall w | 0 <= w < |r.workers| ensures WorkerOk(r.tables, r.workers[w]) {
        QueueAside(s.tables, r.tables.queue, 0, r.workers[w], e);
      }
      forall i | 0 <= i < |r.tables.queue| ensures var f := r.tables.queue[i]; Ended(r.tables, f.id, f.phase, f.succeed) {
        assert r.tables.queue[i] == s.tables.queue[i + 1];
        QueueAside(s.tables, r.tables.queue, 0, Idle, r.tables.queue[i]);
      }
      TakeSingle(s, who);
    }
  }

  lemma AcceptOk(t: Tables, e: Event)
    requires Ended(t, e.id, e.phase, e.succeed)
    ensures WorkerOk(t, Accept(e))
  {
  }

  /** The queue does not matter to what is known. */
  lemma QueueAside(t: Tables, queue: seq<Event>, id: nat, w: Worker, e: Event)
    ensures var u := t.(queue := queue);
            (SagaOk(t, id) ==> SagaOk(u, id)) && (WorkerOk(t, w) ==> WorkerOk(u, w))
            && (Ended(t, e.id, e.phase, e.succeed) ==> Ended(u, e.id, e.phase, e.succeed))
  {
    var u := t.(queue := queue);
    SameSagaKeeps(t, u, id);
    SameSagaWorks(t, u, w);
    SameSagaEnded(t, u, e);
  }

  lemma TakeSingle(s: System, who: nat)
    requires Single(s) && who < |s.workers| && s.workers[who].Idle? && |s.tables.queue| > 0
    ensures Single(Happen(s, Take(who)))
  {
    var r := Happen(s, Take(who));
    var e := s.tables.queue[0];
    forall i | 0 <= i < |r.tables.queue| ensures r.tables.queue[i] == s.tables.queue[i + 1] && r.tables.queue[i].id != e.id {
    }
    forall v | 0 <= v < |s.workers| ensures !WorksOn(s.workers[v], e.id) {
    }
  }

  lemma PlaceKeeps(s: System, item: nat, count: int)
    requires Invariant(s)
    ensures Invariant(Happen(s, Place(item, count)))
  {
    hide WorkerOk, SagaOk, Ended, StartSaga;
    var t := s.tables;
    var u := StartSaga(t, item, count);
    var e := Event(t.nextId, Starting, item, count, true);
    assert SagaOk(t, t.nextId);
    StartEnded(t, item, count);
    forall id: nat ensures SagaOk(u, id) {
      StartOk(t, item, count, id);
    }
    forall w | 0 <= w < |s.workers| ensures WorkerOk(u, s.workers[w]) && !WorksOn(s.workers[w], t.nextId) {
      StartElsewhere(s, w, item, count);
    }
    forall i | 0 <= i < |t.queue| ensures var e := t.queue[i]; e.id != t.nextId && Ended(u, e.id, e.phase, e.succeed) {
      assert SagaOk(t, t.queue[i].id);
      StartOther(t, item, count, t.queue[i]);
    }
    IdleOk(u);
  }

  lemma StartEnded(t: Tables, item: nat, count: int)
    requires SagaOk(t, t.nextId)
    ensures var u := StartSaga(t, item, count);
            u.queue == t.queue + [Event(t.nextId, Starting, item, count, true)] && Ended(u, t.nextId, Starting, true)
  {
  }

  lemma StartOk(t: Tables, item: nat, count: int, id: nat)
    requires SagaOk(t, id) && SagaOk(t, t.nextId)
    ensures SagaOk(StartSaga(t, item, count), id)
  {
  }

  lemma StartOther(t: Tables, item: nat, count: int, e: Event)
    requires SagaOk(t, e.id) && Ended(t, e.id, e.phase, e.succeed)
    ensures e.id != t.nextId && Ended(StartSaga(t, item, count), e.id, e.phase, e.succeed)
  {
  }

  lemma IdleOk(t: Tables)
    ensures WorkerOk(t, Idle)
  {
  }

  lemma StartElsewhere(s: System, w: nat, item: nat, count: int)
    requires Invariant(s) && w < |s.workers|
    ensures WorkerOk(StartSaga(s.tables, item, count), s.workers[w]) && !WorksOn(s.workers[w], s.tables.nextId)
  {
    hide SagaOk;
    var t := s.tables;
    var u := StartSaga(t, item, count);
    assert WorkerOk(t, s.workers[w]);
    if s.workers[w].Busy? {
      var id := s.workers[w].event.id;
      KnownSaga(t, s.workers[w]);
      assert id != t.nextId;
      SameSagaWorks(t, u, s.workers[w]);
    }
  }

  lemma KnownSaga(t: Tables, w: Worker)
    requires w.Busy? && WorkerOk(t, w) && SagaOk(t, w.event.id)
    ensures w.event.id < t.nextId
  {
  }

  lemma HappenKeeps(s: System, a: Action)
    requires Invariant(s) && Fair(s, a)
    ensures Invariant(Happen(s, a))
  {
    hide SagaOk, WorkerOk, Ended, Single, Work;
    match a
    case Place(item, count) => PlaceKeeps(s, item, count);
    case Take(who) => TakeKeeps(s, who);
    case Act(who, fault) =>
      if who < |s.workers| && s.workers[who].Busy? {
        ActTables(s, who, fault);
        ActQueue(s, who, fault);
      }
  }

  lemma {:induction false} RunKeeps(s: System, actions: seq<Action>)
    requires Invariant(s) && AllFair(s, actions)
    ensures Invariant(Run(s, actions))
    decreases actions
  {
    hide Invariant, Happen, Fair;
    if |actions| > 0 {
      HappenKeeps(s, actions[0]);
      RunKeeps(Happen(s, actions[0]), actions[1..]);
    }
  }

  lemma BeginsRight(stock: map<nat, int>)
    ensures Invariant(Begin(stock))
  {
  }
}
