/** Which sagas come to an end: every step either goes on or loses its saga for good. */
module SagaEnds {
  import opened SagaServices
  import opened SagaProtocol
  import opened SagaStock
  import SagaOutcome

  // ---------- steps that go on ----------

  /** Something about the saga is queued or with a worker. */
  predicate Outstanding(s: System, id: nat) {
    (exists i | 0 <= i < |s.tables.queue| :: s.tables.queue[i].id == id)
    || exists w | 0 <= w < |s.workers| :: WorksOn(s.workers[w], id)
  }

  /** The saga has an outcome, or somebody still has to do something about it. */
  predicate Accounted(s: System, id: nat) {
    StatusOf(s.tables, id) != Init || Outstanding(s, id)
  }

  /** A phase can be undone: the item exists, or the order is not withdrawn yet. */
  predicate Undoable(t: Tables, e: Event, phase: Phase) {
    if phase == DeductingStock then e.item in t.stock else e.id in t.orders ==> t.orders[e.id].status == Normal
  }

  /** The step does not leave its saga without a worker, an event or an outcome. */
  predicate Proceeds(t: Tables, w: Worker, fault: Fault)
    requires w.Busy?
  {
    var e := w.event;
    match w.pc
    case MarkSucceeded => !Dies(fault)
    case Inserting => !Dies(fault)
    case Reading => !Dies(fault)
    case Creating => fault == FailBefore || (e.id !in t.orders && (fault == NoFault || fault == FailAfter || fault == CommitLost))
    case Deducting => fault != DieBefore && (fault == RollbackLost ==> e.item in t.stock && t.stock[e.item] >= e.count)
    case SettingFinished => !Effectless(fault)
    case SettingCanceled => !Effectless(fault)
    case Undoing => |w.todo| == 0 || w.todo[0].status == Undone || (fault == NoFault && Undoable(t, e, w.todo[0].phase))
    case MarkUndone => |w.todo| > 0 && !Dies(fault)
  }

  /** What a step leaves of its saga: a worker with the same event, events about it behind
      those of others, or an outcome; exactly when it proceeds. */
  predicate LeftBy(t: Tables, w: Worker, fault: Fault, u: Tables, next: Worker)
    requires w.Busy?
  {
    (next.Busy? ==> next.event == w.event)
    && t.queue <= u.queue && (forall i | |t.queue| <= i < |u.queue| :: u.queue[i].id == w.event.id)
    && (Proceeds(t, w, fault) <==> next.Busy? || |u.queue| > |t.queue| || StatusOf(u, w.event.id) != Init)
  }

  predicate OpenSaga(t: Tables, id: nat) {
    id in t.status && t.status[id] == Init
  }

  lemma LogProceeds(t: Tables, w: Worker, fault: Fault)
    requires w.Busy? && OpenSaga(t, w.event.id)
    requires w.pc == MarkSucceeded || w.pc == Inserting || w.pc == Reading || w.pc == MarkUndone
    ensures LeftBy(t, w, fault, Work(t, w, fault).0, Work(t, w, fault).1)
  {
    hide Find, LogOf, Reversed;
  }

  lemma StatusProceeds(t: Tables, w: Worker, fault: Fault)
    requires w.Busy? && OpenSaga(t, w.event.id) && (w.pc == SettingFinished || w.pc == SettingCanceled)
    ensures LeftBy(t, w, fault, Work(t, w, fault).0, Work(t, w, fault).1)
  {
  }

  lemma CreateProceeds(t: Tables, w: Worker, fault: Fault)
    requires w.Busy? && OpenSaga(t, w.event.id) && w.pc == Creating
    ensures LeftBy(t, w, fault, Work(t, w, fault).0, Work(t, w, fault).1)
  {
  }

  lemma DeductProceeds(t: Tables, w: Worker, fault: Fault)
    requires w.Busy? && OpenSaga(t, w.event.id) && w.pc == Deducting
    ensures LeftBy(t, w, fault, Work(t, w, fault).0, Work(t, w, fault).1)
  {
    hide Deduct, Deducted, StatusOf;
    DeductElsewhere(t, w.event, fault, w.event.id + 1);
    OpenIs(t, DeductStock(t, w.event, fault), w.event.id);
    if w.event.item in t.stock {
      DeductEmits(t, w.event, fault);
    }
  }

  lemma OpenIs(t: Tables, u: Tables, id: nat)
    requires OpenSaga(t, id) && u.status == t.status
    ensures StatusOf(u, id) == Init
  {
  }

  lemma DeductEmits(t: Tables, e: Event, fault: Fault)
    requires e.item in t.stock
    ensures var u := Deduct(t, e, fault);
            t.queue < u.queue && forall i | |t.queue| <= i < |u.queue| :: u.queue[i].id == e.id
  {
  }

  lemma UndoProceeds(t: Tables, w: Worker, fault: Fault)
    requires w.Busy? && OpenSaga(t, w.event.id) && w.pc == Undoing
    ensures LeftBy(t, w, fault, Work(t, w, fault).0, Work(t, w, fault).1)
  {
    hide CancelDeduct, CancelOrder;
    CancelsIf(t, w.event);
  }

  lemma CancelsIf(t: Tables, e: Event)
    ensures var (u, ok) := CancelDeduct(t, e.id, e.item);
            u.queue == t.queue && u.status == t.status && (ok <==> Undoable(t, e, DeductingStock))
    ensures var (u, ok) := CancelOrder(t, e.id);
            u.queue == t.queue && u.status == t.status && (ok <==> Undoable(t, e, CreatingOrder)) && Undoable(t, e, Starting) == Undoable(t, e, CreatingOrder)
  {
  }

  lemma WorkProceeds(t: Tables, w: Worker, fault: Fault)
    requires w.Busy? && OpenSaga(t, w.event.id)
    ensures LeftBy(t, w, fault, Work(t, w, fault).0, Work(t, w, fault).1)
  {
    hide LeftBy, Work;
    match w.pc
    case Creating => CreateProceeds(t, w, fault);
    case Deducting => DeductProceeds(t, w, fault);
    case Undoing => UndoProceeds(t, w, fault);
    case SettingFinished => StatusProceeds(t, w, fault);
    case SettingCanceled => StatusProceeds(t, w, fault);
    case _ => LogProceeds(t, w, fault);
  }

  // ---------- runs ----------

  /** A step about this saga goes on. */
  predicate Goes(s: System, a: Action, id: nat) {
    a.Act? && a.who < |s.workers| && WorksOn(s.workers[a.who], id) && StatusOf(s.tables, id) == Init ==>
      Proceeds(s.tables, s.workers[a.who], a.fault)
  }

  predicate AllGo(s: System, actions: seq<Action>, id: nat)
    decreases actions
  {
    |actions| > 0 ==> Goes(s, actions[0], id) && AllGo(Happen(s, actions[0]), actions[1..], id)
  }

  /** Exactly the sagas that were placed have a status. */
  ghost predicate AllKnown(s: System) {
    forall id: nat :: id in s.tables.status <==> id < s.tables.nextId
  }

  lemma HappenKnown(s: System, a: Action)
    requires AllKnown(s)
    ensures AllKnown(Happen(s, a)) && Happen(s, a).tables.nextId >= s.tables.nextId
  {
    hide Work;
    if a.Act? && a.who < |s.workers| && s.workers[a.who].Busy? {
      SagaOutcome.WorkStatus(s.tables, s.workers[a.who], a.fault, 0);
    }
  }

  /** The queue only grows at its end, and shrinks at its front by an event that is taken. */
  lemma StillQueued(s: System, a: Action, i: nat)
    requires i < |s.tables.queue| && (a.Act? ==> a.who < |s.workers| && s.workers[a.who].Busy?)
    requires a.Act? ==> s.tables.queue <= Work(s.tables, s.workers[a.who], a.fault).0.queue
    ensures Outstanding(Happen(s, a), s.tables.queue[i].id)
  {
    hide Work;
    var r, e := Happen(s, a), s.tables.queue[i];
    match a
    case Place(_, _) => assert r.tables.queue[i] == e;
    case Take(who) =>
      if who < |s.workers| && s.workers[who].Idle? {
        if i == 0 {
          assert WorksOn(r.workers[who], e.id);
        } else {
          assert r.tables.queue[i - 1] == e;
        }
      } else {
        assert r.tables.queue[i] == e;
      }
    case Act(who, fault) => assert r.tables.queue[i] == e;
  }

  lemma StillWorking(s: System, a: Action, w: nat, id: nat)
    requires w < |s.workers| && WorksOn(s.workers[w], id) && (a.Act? ==> a.who != w)
    ensures Outstanding(Happen(s, a), id)
  {
    hide Work;
    assert Happen(s, a).workers[w] == s.workers[w];
  }

  /** The worker's own saga: what the step leaves of it. */
  lemma OwnAccounted(s: System, who: nat, fault: Fault)
    requires who < |s.workers| && s.workers[who].Busy? && OpenSaga(s.tables, s.workers[who].event.id)
    ensures var id, r := s.workers[who].event.id, Happen(s, Act(who, fault));
            Proceeds(s.tables, s.workers[who], fault) ==> Accounted(r, id)
  {
    hide Work, Proceeds, StatusOf;
    var t, w := s.tables, s.workers[who];
    WorkProceeds(t, w, fault);
    var (u, next) := Work(t, w, fault);
    var r := Happen(s, Act(who, fault));
    if next.Busy? {
      assert WorksOn(r.workers[who], w.event.id);
    } else if |u.queue| > |t.queue| {
      assert r.tables.queue[|t.queue|].id == w.event.id;
    }
  }

  lemma HappenAccounts(s: System, placed: seq<Action>, a: Action, id: nat)
    requires AllKnown(s) && Carried(s, placed) && id < s.tables.nextId && Accounted(s, id) && Goes(s, a, id)
    ensures Accounted(Happen(s, a), id)
  {
    hide Work, Proceeds, RowsAre;
    if StatusOf(s.tables, id) != Init {
      AllKnownStarted(s);
      SagaOutcome.StatusOnce(s, a, id);
    } else if a.Act? && a.who < |s.workers| && WorksOn(s.workers[a.who], id) {
      OwnAccounted(s, a.who, a.fault);
    } else if a.Act? && (a.who >= |s.workers| || s.workers[a.who].Idle?) {
      assert Happen(s, a) == s;
    } else {
      if a.Act? {
        QueueGrows(s.tables, s.workers[a.who], a.fault, placed);
      }
      if i :| 0 <= i < |s.tables.queue| && s.tables.queue[i].id == id {
        StillQueued(s, a, i);
      } else {
        var w :| 0 <= w < |s.workers| && WorksOn(s.workers[w], id);
        StillWorking(s, a, w, id);
      }
    }
  }

  lemma QueueGrows(t: Tables, w: Worker, fault: Fault, placed: seq<Action>)
    requires w.Busy? && About(placed, w.event) && RowsAre(t, placed)
    ensures t.queue <= Work(t, w, fault).0.queue
  {
    hide Work, RowsAre;
    WorkCarries(t, w, fault, placed);
  }

  lemma AllKnownStarted(s: System)
    requires AllKnown(s)
    ensures SagaOutcome.Started(s.tables)
  {
  }

  /** A saga that is placed is outstanding. */
  lemma PlacedAccounted(s: System, a: Action)
    requires a.Place?
    ensures Accounted(Happen(s, a), s.tables.nextId) && Happen(s, a).tables.nextId == s.tables.nextId + 1
  {
    assert Happen(s, a).tables.queue[|s.tables.queue|].id == s.tables.nextId;
  }

  lemma {:induction false} RunAccounts(s: System, placed: seq<Action>, actions: seq<Action>, id: nat)
    requires AllKnown(s) && Carried(s, placed) && AllGo(s, actions, id)
    requires id < s.tables.nextId ==> Accounted(s, id)
    ensures id < Run(s, actions).tables.nextId ==> Accounted(Run(s, actions), id)
    decreases actions
  {
    hide AllKnown, Carried, Accounted, Goes, Happen;
    if |actions| > 0 {
      var a, r := actions[0], Happen(s, actions[0]);
      HappenKnown(s, a);
      HappenCarries(s, placed, a);
      if id < s.tables.nextId {
        HappenAccounts(s, placed, a, id);
      } else if id < r.tables.nextId {
        NextSaga(s, a, id);
      }
      RunAccounts(r, PlacedBy(placed, a), actions[1..], id);
    }
  }

  lemma NextSaga(s: System, a: Action, id: nat)
    requires s.tables.nextId <= id < Happen(s, a).tables.nextId
    ensures Accounted(Happen(s, a), id)
  {
    hide Work, Accounted;
    if a.Place? {
      PlacedAccounted(s, a);
    } else if a.Act? && a.who < |s.workers| && s.workers[a.who].Busy? {
      SagaOutcome.WorkStatus(s.tables, s.workers[a.who], a.fault, 0);
    }
  }

  /** Nothing is left to do. */
  predicate Quiet(s: System) {
    |s.tables.queue| == 0 && forall w | 0 <= w < |s.workers| :: s.workers[w].Idle?
  }

  /** In every run in which the steps about a saga go on it is never lost; and when nothing
      is left to do it has an outcome. */
  lemma EndsWhenQuiet(stock: map<nat, int>, actions: seq<Action>, id: nat)
    requires id < |Places(actions)| && AllGo(Begin(stock), actions, id)
    ensures var s := Run(Begin(stock), actions);
            Accounted(s, id) && (Quiet(s) ==> StatusOf(s.tables, id) != Init)
  {
    hide Run, Accounted, AllGo;
    BeginsCarried(stock);
    RunCarries(Begin(stock), [], actions);
    assert [] + Places(actions) == Places(actions);
    RunAccounts(Begin(stock), [], actions, id);
    QuietMeans(Run(Begin(stock), actions), id);
  }

  lemma QuietMeans(s: System, id: nat)
    ensures Quiet(s) && Accounted(s, id) ==> StatusOf(s.tables, id) != Init
  {
  }

  // ---------- a saga that is lost ----------

  predicate Lost(s: System, id: nat) {
    id < s.tables.nextId && StatusOf(s.tables, id) == Init && !Outstanding(s, id)
  }

  lemma LostStays(s: System, placed: seq<Action>, a: Action, id: nat)
    requires AllKnown(s) && Carried(s, placed) && Lost(s, id)
    ensures Lost(Happen(s, a), id)
  {
    hide Work, RowsAre, SameSaga;
    var r := Happen(s, a);
    match a
    case Place(_, _) =>
    case Take(who) =>
    case Act(who, fault) =>
      if who < |s.workers| && s.workers[who].Busy? {
        var t, w := s.tables, s.workers[who];
        assert !WorksOn(w, id);
        WorkElsewhere(t, w, fault, id);
        SameStatusOf(t, Work(t, w, fault).0, id);
        EmitsOwn(t, w, fault);
      }
  }

  lemma SameStatusOf(t: Tables, u: Tables, id: nat)
    requires SameSaga(t, u, id)
    ensures StatusOf(u, id) == StatusOf(t, id)
  {
  }

  /** A worker emits events about its own saga only, and keeps its event. */
  lemma EmitsOwn(t: Tables, w: Worker, fault: Fault)
    requires w.Busy?
    ensures var (u, next) := Work(t, w, fault);
            (next.Busy? ==> next.event == w.event)
            && t.queue <= u.queue && forall i | |t.queue| <= i < |u.queue| :: u.queue[i].id == w.event.id
  {
    hide UpdateLog, InsertLog, SetStatus, CreateOrder, DeductStock, CancelDeduct, CancelOrder, LogOf, Reversed;
    if w.pc == Creating {
      CreateEmits(t, w.event, fault);
    } else if w.pc == Deducting {
      DeductQueue(t, w.event, fault);
    } else if w.pc == Undoing {
      CancelsQuietly(t, w.event.id, w.event.item);
    } else {
      LogStock(t, w, fault);
    }
  }

  lemma CreateEmits(t: Tables, e: Event, fault: Fault)
    ensures var u := CreateOrder(t, e, fault);
            t.queue <= u.queue && (forall i | |t.queue| <= i < |u.queue| :: u.queue[i].id == e.id) && u.stock == t.stock
  {
  }

  lemma CancelsQuietly(t: Tables, id: nat, item: nat)
    ensures CancelDeduct(t, id, item).0.queue == t.queue && CancelOrder(t, id).0.queue == t.queue
    ensures CancelDeduct(t, id, item).0.stock.Keys == t.stock.Keys && CancelOrder(t, id).0.stock == t.stock
  {
  }

  lemma {:induction false} LostForever(s: System, placed: seq<Action>, actions: seq<Action>, id: nat)
    requires AllKnown(s) && Carried(s, placed) && Lost(s, id)
    ensures Lost(Run(s, actions), id)
    decreases actions
  {
    hide AllKnown, Carried, Lost, Happen;
    if |actions| > 0 {
      HappenKnown(s, actions[0]);
      HappenCarries(s, placed, actions[0]);
      LostStays(s, placed, actions[0], id);
      LostForever(Happen(s, actions[0]), PlacedBy(placed, actions[0]), actions[1..], id);
    }
  }

  /** A step that does not go on leaves nothing of its saga, when nobody else has it. */
  lemma StepLoses(s: System, who: nat, fault: Fault)
    requires who < |s.workers| && s.workers[who].Busy? && Single(s)
    requires OpenSaga(s.tables, s.workers[who].event.id) && s.workers[who].event.id < s.tables.nextId
    ensures !Proceeds(s.tables, s.workers[who], fault) ==> Lost(Happen(s, Act(who, fault)), s.workers[who].event.id)
  {
    hide Work, Proceeds;
    var t, w, r := s.tables, s.workers[who], Happen(s, Act(who, fault));
    var id := w.event.id;
    WorkProceeds(t, w, fault);
    SagaOutcome.WorkStatus(t, w, fault, id);
    if !Proceeds(t, w, fault) {
      var (u, next) := Work(t, w, fault);
      assert u.queue == t.queue;
      NobodyElse(s, who);
      assert forall v | 0 <= v < |r.workers| && v != who :: r.workers[v] == s.workers[v];
    }
  }

  lemma InvariantKnown(s: System)
    requires Invariant(s)
    ensures AllKnown(s) && Single(s)
  {
    hide WorkerOk, Ended, Single;
    forall id: nat ensures id in s.tables.status <==> id < s.tables.nextId {
      assert SagaOk(s.tables, id);
    }
  }

  lemma CarriedWorker(s: System, placed: seq<Action>, who: nat)
    requires Carried(s, placed) && who < |s.workers| && s.workers[who].Busy?
    ensures About(placed, s.workers[who].event) && s.workers[who].event.id < s.tables.nextId
  {
  }

  /** From every state reached without the two harmful failures: a step leaves its saga
      accounted for if and only if it goes on; otherwise the saga is lost, and has no outcome
      in any continuation, whatever is done. */
  lemma StepExactly(stock: map<nat, int>, before: seq<Action>, who: nat, fault: Fault, more: seq<Action>)
    requires AllFair(Begin(stock), before)
    requires who < |Run(Begin(stock), before).workers| && Run(Begin(stock), before).workers[who].Busy?
    requires StatusOf(Run(Begin(stock), before).tables, Run(Begin(stock), before).workers[who].event.id) == Init
    ensures var s := Run(Begin(stock), before);
            var id, after := s.workers[who].event.id, Happen(s, Act(who, fault));
            (Proceeds(s.tables, s.workers[who], fault) <==> Accounted(after, id))
            && (!Proceeds(s.tables, s.workers[who], fault) ==> StatusOf(Run(after, more).tables, id) == Init)
  {
    hide Run, AllFair, Invariant, Happen, Proceeds, RowsAre;
    var s, placed := Run(Begin(stock), before), Places(before);
    BeginsRight(stock);
    RunKeeps(Begin(stock), before);
    InvariantKnown(s);
    BeginsCarried(stock);
    RunCarries(Begin(stock), [], before);
    assert [] + placed == placed;
    CarriedWorker(s, placed, who);
    OwnAccounted(s, who, fault);
    StepLoses(s, who, fault);
    if !Proceeds(s.tables, s.workers[who], fault) {
      HappenKnown(s, Act(who, fault));
      HappenCarries(s, placed, Act(who, fault));
      LostForever(Happen(s, Act(who, fault)), placed, more, s.workers[who].event.id);
    }
  }

  // ---------- runs without failures ----------

  predicate NoFaults(actions: seq<Action>) {
    forall k | 0 <= k < |actions| :: actions[k].Act? ==> actions[k].fault == NoFault
  }

  lemma {:induction false} NoFaultsFair(s: System, actions: seq<Action>)
    requires NoFaults(actions)
    ensures AllFair(s, actions)
    decreases actions
  {
    hide Happen;
    if |actions| > 0 {
      NoFaultsFair(Happen(s, actions[0]), actions[1..]);
    }
  }

  /** Without failures a step of an order for an item that exists goes on. */
  lemma ItemGoes(t: Tables, w: Worker)
    requires w.Busy? && SagaOk(t, w.event.id) && WorkerOk(t, w) && w.event.item in t.stock
    ensures Proceeds(t, w, NoFault)
  {
    hide SagaOk;
    if w.pc == Undoing {
      NothingUndone(t, w.event.id, w.todo);
      UndoableNext(t, w.event, w.todo);
    }
  }

  lemma UndoableNext(t: Tables, e: Event, todo: seq<Log>)
    requires Undoes(t, e.id, todo) && e.item in t.stock
    ensures |todo| > 0 ==> Undoable(t, e, todo[0].phase)
  {
  }

  lemma SameItems(s: System, a: Action)
    ensures Happen(s, a).tables.stock.Keys == s.tables.stock.Keys
  {
    hide Work;
    if a.Act? && a.who < |s.workers| && s.workers[a.who].Busy? {
      WorkItems(s.tables, s.workers[a.who], a.fault);
    }
  }

  lemma WorkItems(t: Tables, w: Worker, fault: Fault)
    requires w.Busy?
    ensures Work(t, w, fault).0.stock.Keys == t.stock.Keys
  {
    hide UpdateLog, InsertLog, SetStatus, CreateOrder, DeductStock, CancelDeduct, CancelOrder, LogOf, Reversed;
    if w.pc == Creating {
      CreateEmits(t, w.event, fault);
    } else if w.pc == Deducting {
      DeductEffect(t, w.event, fault);
    } else if w.pc == Undoing {
      CancelsQuietly(t, w.event.id, w.event.item);
    } else {
      LogStock(t, w, fault);
    }
  }

  /** Where the order of a saga stands whose item does not exist. */
  predicate Hopeless(s: System, id: nat) {
    var t := s.tables;
    StatusOf(t, id) == Init && id !in t.reserves && (id in t.orders ==> t.orders[id].status == Normal)
    && (forall i | 0 <= i < |t.queue| && t.queue[i].id == id :: HopelessEvent(t, t.queue[i]))
    && (forall w | 0 <= w < |s.workers| && WorksOn(s.workers[w], id) :: HopelessWorker(t, s.workers[w]))
    && (Outstanding(s, id) || OrderNormal(t, id))
  }

  predicate HopelessEvent(t: Tables, e: Event) {
    if e.phase == DeductingStock then !e.succeed && |LogOf(t, e.id)| == 2 else e.succeed
  }

  predicate HopelessWorker(t: Tables, w: Worker)
    requires w.Busy?
  {
    match w.pc
    case MarkSucceeded => w.event.phase == CreatingOrder
    case Inserting => w.event.phase != DeductingStock
    case Creating => true
    case Deducting => |LogOf(t, w.event.id)| == 2
    case Reading => |LogOf(t, w.event.id)| == 2
    case Undoing => |w.todo| == 2
    case _ => false
  }

  /** One step of a worker on such a saga. */
  lemma HopelessWork(t: Tables, w: Worker)
    requires w.Busy? && SagaOk(t, w.event.id) && WorkerOk(t, w) && HopelessWorker(t, w) && w.event.item !in t.stock
    requires StatusOf(t, w.event.id) == Init && w.event.id !in t.reserves
    requires w.event.id in t.orders ==> t.orders[w.event.id].status == Normal
    ensures var id, (u, next) := w.event.id, Work(t, w, NoFault);
            StatusOf(u, id) == Init && id !in u.reserves && (id in u.orders ==> u.orders[id].status == Normal)
            && (next.Busy? ==> next.event == w.event && HopelessWorker(u, next))
            && t.queue <= u.queue && (forall i | |t.queue| <= i < |u.queue| :: u.queue[i].id == id && HopelessEvent(u, u.queue[i]))
            && (next.Busy? || |u.queue| > |t.queue| || OrderNormal(u, id))
  {
  }

  lemma HopelessPlace(s: System, a: Action, id: nat)
    requires Hopeless(s, id) && a.Place? && id < s.tables.nextId
    ensures Hopeless(Happen(s, a), id)
  {
    var r := Happen(s, a);
    HopelessOthers(s.tables, r.tables, id);
    if i :| 0 <= i < |s.tables.queue| && s.tables.queue[i].id == id {
      StillQueued(s, a, i);
    } else if w :| 0 <= w < |s.workers| && WorksOn(s.workers[w], id) {
      StillWorking(s, a, w, id);
    }
  }

  /** What is known stays true while others change. */
  lemma HopelessOthers(t: Tables, u: Tables, id: nat)
    requires LogOf(u, id) == LogOf(t, id)
    ensures forall e: Event :: e.id == id && HopelessEvent(t, e) ==> HopelessEvent(u, e)
    ensures forall w: Worker :: WorksOn(w, id) && HopelessWorker(t, w) ==> HopelessWorker(u, w)
  {
  }

  lemma HopelessTake(s: System, a: Action, id: nat)
    requires Hopeless(s, id) && a.Take?
    ensures Hopeless(Happen(s, a), id)
  {
    var r := Happen(s, a);
    HopelessOthers(s.tables, r.tables, id);
    if i :| 0 <= i < |s.tables.queue| && s.tables.queue[i].id == id {
      StillQueued(s, a, i);
    } else if w :| 0 <= w < |s.workers| && WorksOn(s.workers[w], id) {
      StillWorking(s, a, w, id);
    }
  }

  lemma HopelessElsewhere(s: System, a: Action, id: nat)
    requires Hopeless(s, id) && a.Act? && a.who < |s.workers| && s.workers[a.who].Busy? && s.workers[a.who].event.id != id
    ensures Hopeless(Happen(s, a), id)
  {
    hide Work, HopelessEvent, HopelessWorker, LogOf;
    var t, w, r := s.tables, s.workers[a.who], Happen(s, a);
    WorkElsewhere(t, w, a.fault, id);
    EmitsOwn(t, w, a.fault);
    HopelessOthers(t, r.tables, id);
    if i :| 0 <= i < |t.queue| && t.queue[i].id == id {
      StillQueued(s, a, i);
    } else if v :| 0 <= v < |s.workers| && WorksOn(s.workers[v], id) {
      StillWorking(s, a, v, id);
    }
  }

  lemma HopelessOwn(s: System, a: Action, id: nat)
    requires Invariant(s) && Hopeless(s, id) && a.Act? && a.fault == NoFault
    requires a.who < |s.workers| && WorksOn(s.workers[a.who], id) && s.workers[a.who].event.item !in s.tables.stock
    ensures Hopeless(Happen(s, a), id)
  {
    hide Work, HopelessEvent, HopelessWorker, SagaOk, WorkerOk, LogOf, Ended;
    var t, w, r := s.tables, s.workers[a.who], Happen(s, a);
    assert SagaOk(t, id) && WorkerOk(t, w);
    HopelessWork(t, w);
    NobodyElse(s, a.who);
    var (u, next) := Work(t, w, NoFault);
    assert forall i | 0 <= i < |t.queue| :: u.queue[i] == t.queue[i];
    assert forall v | 0 <= v < |r.workers| && v != a.who :: r.workers[v] == s.workers[v];
    if next.Busy? {
      assert WorksOn(r.workers[a.who], id);
    } else if |u.queue| > |t.queue| {
      assert r.tables.queue[|t.queue|].id == id;
    }
  }

  lemma NobodyElse(s: System, who: nat)
    requires Single(s) && who < |s.workers| && s.workers[who].Busy?
    ensures forall i | 0 <= i < |s.tables.queue| :: s.tables.queue[i].id != s.workers[who].event.id
    ensures forall v | 0 <= v < |s.workers| && v != who :: !WorksOn(s.workers[v], s.workers[who].event.id)
  {
    forall i | 0 <= i < |s.tables.queue| ensures s.tables.queue[i].id != s.workers[who].event.id {
      assert !WorksOn(s.workers[who], s.tables.queue[i].id);
    }
    forall v | 0 <= v < |s.workers| && v != who ensures !WorksOn(s.workers[v], s.workers[who].event.id) {
      if s.workers[v].Busy? {
        OtherSaga(s, who, v);
      }
    }
  }

  /** What the saga has been placed for. */
  predicate Missing(s: System, placed: seq<Action>, id: nat) {
    id < |placed| && placed[id].Place? && placed[id].item !in s.tables.stock
  }

  lemma HappenHopeless(s: System, placed: seq<Action>, a: Action, id: nat)
    requires Invariant(s) && Carried(s, placed) && Missing(s, placed, id) && Hopeless(s, id) && (a.Act? ==> a.fault == NoFault)
    ensures Hopeless(Happen(s, a), id)
  {
    hide Hopeless, Invariant, Happen, RowsAre;
    if a.Place? {
      NextIdIs(s, placed);
      HopelessPlace(s, a, id);
    } else if a.Take? {
      HopelessTake(s, a, id);
    } else if a.who < |s.workers| && s.workers[a.who].Busy? {
      if s.workers[a.who].event.id == id {
        CarriedWorker(s, placed, a.who);
        HopelessOwn(s, a, id);
      } else {
        HopelessElsewhere(s, a, id);
      }
    } else {
      IdleStep(s, a);
    }
  }

  lemma NextIdIs(s: System, placed: seq<Action>)
    requires Carried(s, placed)
    ensures s.tables.nextId == |placed|
  {
  }

  lemma IdleStep(s: System, a: Action)
    requires a.Act? && (a.who >= |s.workers| || s.workers[a.who].Idle?)
    ensures Happen(s, a) == s
  {
  }

  /** A saga starts out that way. */
  lemma StartsHopeless(s: System, placed: seq<Action>, a: Action)
    requires Invariant(s) && Carried(s, placed) && a.Place?
    ensures Hopeless(Happen(s, a), |placed|)
  {
    hide WorkerOk, Ended;
    assert SagaOk(s.tables, s.tables.nextId);
    PlacedAccounted(s, a);
    forall w | 0 <= w < |s.workers| && s.workers[w].Busy? ensures s.workers[w].event.id < |placed| {
      CarriedWorker(s, placed, w);
    }
  }

  lemma {:induction false} RunHopeless(s: System, placed: seq<Action>, actions: seq<Action>, id: nat)
    requires Invariant(s) && Carried(s, placed) && NoFaults(actions)
    requires id < |placed| ==> Missing(s, placed, id) && Hopeless(s, id)
    requires id < |placed + Places(actions)| && (placed + Places(actions))[id].Place? && (placed + Places(actions))[id].item !in s.tables.stock
    ensures Hopeless(Run(s, actions), id)
    decreases actions
  {
    hide Invariant, Carried, Happen, Hopeless;
    if |actions| == 0 {
      assert placed + [] == placed;
    } else {
      var a, r := actions[0], Happen(s, actions[0]);
      NoFaultsFair(s, actions);
      HappenKeeps(s, a);
      HappenCarries(s, placed, a);
      SameItems(s, a);
      assert PlacedBy(placed, a) + Places(actions[1..]) == placed + Places(actions);
      if id < |placed| {
        HappenHopeless(s, placed, a, id);
      } else if a.Place? && id == |placed| {
        StartsHopeless(s, placed, a);
      }
      RunHopeless(r, PlacedBy(placed, a), actions[1..], id);
    }
  }

  lemma {:induction false} RunGoes(s: System, placed: seq<Action>, actions: seq<Action>, id: nat)
    requires Invariant(s) && Carried(s, placed) && NoFaults(actions)
    requires id < |placed + Places(actions)| && (placed + Places(actions))[id].Place? && (placed + Places(actions))[id].item in s.tables.stock
    ensures AllGo(s, actions, id)
    decreases actions
  {
    hide Invariant, Carried, Happen, Proceeds;
    if |actions| > 0 {
      var a := actions[0];
      NoFaultsFair(s, actions);
      HappenKeeps(s, a);
      HappenCarries(s, placed, a);
      SameItems(s, a);
      assert PlacedBy(placed, a) + Places(actions[1..]) == placed + Places(actions);
      StepGoes(s, placed, a, (placed + Places(actions))[id].item, id);
      RunGoes(Happen(s, a), PlacedBy(placed, a), actions[1..], id);
    }
  }

  lemma StepGoes(s: System, placed: seq<Action>, a: Action, item: nat, id: nat)
    requires Invariant(s) && Carried(s, placed) && (a.Act? ==> a.fault == NoFault)
    requires item in s.tables.stock && (id < |placed| ==> placed[id].Place? && placed[id].item == item)
    ensures Goes(s, a, id)
  {
    hide Work, Proceeds, SagaOk, WorkerOk, RowsAre, Ended, Single;
    if a.Act? && a.who < |s.workers| && WorksOn(s.workers[a.who], id) {
      CarriedWorker(s, placed, a.who);
      assert SagaOk(s.tables, id) && WorkerOk(s.tables, s.workers[a.who]);
      ItemGoes(s.tables, s.workers[a.who]);
    }
  }

  /** In every run in which nothing fails, when nothing is left to do: a saga has an outcome
      if and only if its item exists. An order for any other item stays in its table as a
      normal one, with a saga that never ends. */
  lemma EndsExactly(stock: map<nat, int>, actions: seq<Action>, id: nat)
    requires NoFaults(actions) && id < |Places(actions)|
    ensures var s := Run(Begin(stock), actions);
            (Quiet(s) ==> (StatusOf(s.tables, id) != Init <==> Places(actions)[id].item in stock))
            && (Quiet(s) && Places(actions)[id].item !in stock ==> OrderNormal(s.tables, id) && id !in s.tables.reserves)
  {
    hide Run, Invariant, AllGo, Hopeless, Carried;
    var s, placed := Run(Begin(stock), actions), Places(actions);
    BeginsRight(stock);
    BeginsCarried(stock);
    assert [] + placed == placed;
    if placed[id].item in stock {
      RunGoes(Begin(stock), [], actions, id);
      EndsWhenQuiet(stock, actions, id);
    } else {
      RunHopeless(Begin(stock), [], actions, id);
      QuietHopeless(s, id);
    }
  }

  lemma QuietHopeless(s: System, id: nat)
    requires Hopeless(s, id)
    ensures StatusOf(s.tables, id) == Init && id !in s.tables.reserves && (Quiet(s) ==> OrderNormal(s.tables, id))
  {
  }
}
