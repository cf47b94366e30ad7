/** Every run of sagas stops, whatever fails. */
module SagaStops {
  import opened SagaServices
  import opened SagaProtocol

  // ---------- what every run keeps ----------

  /** How many log rows an event, or a worker, can still cause to be inserted. */
  function EventInserts(e: Event): nat {
    if !e.succeed then 0
    else
      match e.phase
      case Starting => 2
      case CreatingOrder => 1
      case DeductingStock => 0
  }

  function WorkerInserts(w: Worker): nat {
    if w.Idle? then 0
    else
      match w.pc
      case Inserting => if w.event.phase == Starting then 2 else 1
      case Creating => 1
      case MarkSucceeded => if w.event.phase == CreatingOrder then 1 else 0
      case _ => 0
  }

  /** A log never has more than two rows, counting those still to come. */
  predicate EventFits(t: Tables, e: Event) {
    e.id < t.nextId && |LogOf(t, e.id)| + EventInserts(e) <= 2
  }

  predicate WorkerFits(t: Tables, w: Worker) {
    w.Busy? ==>
      w.event.id < t.nextId && |LogOf(t, w.event.id)| + WorkerInserts(w) <= 2
      && match w.pc
         case MarkSucceeded => w.event.phase != Starting
         case Inserting => w.event.phase != DeductingStock
         case Undoing => |w.todo| <= 2
         case MarkUndone => 0 < |w.todo| <= 2
         case _ => true
  }

  /** At most one event or worker inserts rows for a saga. */
  predicate OneInserter(s: System) {
    (forall i, j | 0 <= i < j < |s.tables.queue| && EventInserts(s.tables.queue[i]) > 0 && EventInserts(s.tables.queue[j]) > 0 ::
       s.tables.queue[i].id != s.tables.queue[j].id)
    && (forall i, w | 0 <= i < |s.tables.queue| && 0 <= w < |s.workers| && EventInserts(s.tables.queue[i]) > 0 && WorkerInserts(s.workers[w]) > 0 ::
          !WorksOn(s.workers[w], s.tables.queue[i].id))
    && forall v, w | 0 <= v < w < |s.workers| && WorkerInserts(s.workers[v]) > 0 && WorkerInserts(s.workers[w]) > 0 ::
         !WorksOn(s.workers[w], s.workers[v].event.id)
  }

  ghost predicate Orderly(s: System) {
    (forall id: nat :: |LogOf(s.tables, id)| <= if id < s.tables.nextId then 2 else 0)
    && (forall i | 0 <= i < |s.tables.queue| :: EventFits(s.tables, s.tables.queue[i]))
    && (forall w | 0 <= w < |s.workers| :: WorkerFits(s.tables, s.workers[w]))
    && OneInserter(s)
  }

  /** What one step of a worker does to its log and to the queue: it emits no event and
      goes on, or one event, or two that insert nothing. */
  ghost predicate Steps(t: Tables, w: Worker, u: Tables, next: Worker)
    requires w.Busy?
  {
    var id, n := w.event.id, |t.queue|;
    u.nextId == t.nextId && (forall other: nat | other != id :: LogOf(u, other) == LogOf(t, other))
    && |LogOf(u, id)| <= 2 && (WorkerInserts(w) == 0 ==> |LogOf(u, id)| == |LogOf(t, id)|)
    && WorkerFits(u, next) && (next.Busy? ==> next.event == w.event) && WorkerInserts(next) <= WorkerInserts(w)
    && n <= |u.queue| <= n + 2 && u.queue[..n] == t.queue && (n < |u.queue| ==> next.Idle?)
    && (forall k | n <= k < |u.queue| :: u.queue[k].id == id && EventFits(u, u.queue[k]) && EventInserts(u.queue[k]) <= WorkerInserts(w))
    && (|u.queue| == n + 2 ==> WorkerInserts(w) == 0)
  }

  lemma MarkSteps(t: Tables, w: Worker, fault: Fault)
    requires w.Busy? && WorkerFits(t, w) && |LogOf(t, w.event.id)| <= 2 && (w.pc == MarkSucceeded || w.pc == MarkUndone)
    ensures Steps(t, w, Work(t, w, fault).0, Work(t, w, fault).1)
  {
    hide UpdateLog, LogOf;
    var e := w.event;
    UpdatedLog(t, e.id, e.phase, Succeeded);
    if w.pc == MarkUndone {
      UpdatedLog(t, e.id, w.todo[0].phase, Undone);
    }
  }

  lemma UpdatedLog(t: Tables, id: nat, phase: Phase, status: LogStatus)
    ensures var u := UpdateLog(t, id, phase, status).0;
            u.nextId == t.nextId && u.queue == t.queue && |LogOf(u, id)| == |LogOf(t, id)|
            && forall other: nat | other != id :: LogOf(u, other) == LogOf(t, other)
  {
    hide Find;
  }

  lemma InsertSteps(t: Tables, w: Worker, fault: Fault)
    requires w.Busy? && WorkerFits(t, w) && |LogOf(t, w.event.id)| <= 2 && (w.pc == Inserting)
    ensures Steps(t, w, Work(t, w, fault).0, Work(t, w, fault).1)
  {
    hide Find;
  }

  lemma CreateSteps(t: Tables, w: Worker, fault: Fault)
    requires w.Busy? && WorkerFits(t, w) && |LogOf(t, w.event.id)| <= 2 && (w.pc == Creating)
    ensures Steps(t, w, Work(t, w, fault).0, Work(t, w, fault).1)
  {
    hide Find;
  }

  lemma DeductSteps(t: Tables, w: Worker, fault: Fault)
    requires w.Busy? && WorkerFits(t, w) && |LogOf(t, w.event.id)| <= 2 && (w.pc == Deducting)
    ensures Steps(t, w, Work(t, w, fault).0, Work(t, w, fault).1)
  {
    hide DeductStock;
    DeductQueue(t, w.event, fault);
    DeductEffect(t, w.event, fault);
  }

  lemma StatusSteps(t: Tables, w: Worker, fault: Fault)
    requires w.Busy? && WorkerFits(t, w) && |LogOf(t, w.event.id)| <= 2 && (w.pc == SettingFinished || w.pc == SettingCanceled)
    ensures Steps(t, w, Work(t, w, fault).0, Work(t, w, fault).1)
  {
    hide Find;
  }

  lemma ReadSteps(t: Tables, w: Worker, fault: Fault)
    requires w.Busy? && WorkerFits(t, w) && |LogOf(t, w.event.id)| <= 2 && (w.pc == Reading)
    ensures Steps(t, w, Work(t, w, fault).0, Work(t, w, fault).1)
  {
    hide Find;
  }

  lemma UndoSteps(t: Tables, w: Worker, fault: Fault)
    requires w.Busy? && WorkerFits(t, w) && |LogOf(t, w.event.id)| <= 2 && (w.pc == Undoing)
    ensures Steps(t, w, Work(t, w, fault).0, Work(t, w, fault).1)
  {
    hide CancelDeduct, CancelOrder;
    CancelLog(t, w.event.id, w.event.item);
  }

  lemma CancelLog(t: Tables, id: nat, item: nat)
    ensures var u := CancelDeduct(t, id, item).0; u.log == t.log && u.nextId == t.nextId && u.queue == t.queue
    ensures var u := CancelOrder(t, id).0; u.log == t.log && u.nextId == t.nextId && u.queue == t.queue
  {
  }

  lemma WorkSteps(t: Tables, w: Worker, fault: Fault)
    requires w.Busy? && WorkerFits(t, w) && |LogOf(t, w.event.id)| <= 2
    ensures Steps(t, w, Work(t, w, fault).0, Work(t, w, fault).1)
  {
    hide Work, Steps, WorkerFits;
    match w.pc
    case MarkSucceeded => MarkSteps(t, w, fault);
    case Inserting => InsertSteps(t, w, fault);
    case Creating => CreateSteps(t, w, fault);
    case Deducting => DeductSteps(t, w, fault);
    case SettingFinished => StatusSteps(t, w, fault);
    case Reading => ReadSteps(t, w, fault);
    case Undoing => UndoSteps(t, w, fault);
    case MarkUndone => MarkSteps(t, w, fault);
    case SettingCanceled => StatusSteps(t, w, fault);
  }

  /** No event or worker inserts rows for a saga while this worker can. */
  lemma Alone(s: System, who: nat)
    requires OneInserter(s) && who < |s.workers| && WorkerInserts(s.workers[who]) > 0
    ensures forall i | 0 <= i < |s.tables.queue| && EventInserts(s.tables.queue[i]) > 0 :: s.tables.queue[i].id != s.workers[who].event.id
    ensures forall v | 0 <= v < |s.workers| && v != who && WorkerInserts(s.workers[v]) > 0 ::
              s.workers[v].event.id != s.workers[who].event.id
  {
    hide EventInserts;
    var w := s.workers[who];
    forall i | 0 <= i < |s.tables.queue| && EventInserts(s.tables.queue[i]) > 0 ensures s.tables.queue[i].id != w.event.id {
      assert !WorksOn(w, s.tables.queue[i].id);
    }
    forall v | 0 <= v < |s.workers| && v != who && WorkerInserts(s.workers[v]) > 0 ensures s.workers[v].event.id != w.event.id {
      assert v < who ==> !WorksOn(w, s.workers[v].event.id);
      assert who < v ==> !WorksOn(s.workers[v], w.event.id);
    }
  }

  /** An event in the queue, and another worker, fit after a step too. */
  lemma OldEvent(s: System, who: nat, u: Tables, next: Worker, i: nat)
    requires Orderly(s) && who < |s.workers| && s.workers[who].Busy? && i < |s.tables.queue|
    requires Steps(s.tables, s.workers[who], u, next)
    ensures EventFits(u, s.tables.queue[i])
  {
    hide WorkerInserts, WorkerFits, OneInserter, LogOf;
    assert EventFits(s.tables, s.tables.queue[i]);
    if WorkerInserts(s.workers[who]) > 0 {
      Alone(s, who);
    }
  }

  lemma OtherWorker(s: System, who: nat, u: Tables, next: Worker, v: nat)
    requires Orderly(s) && who < |s.workers| && s.workers[who].Busy? && v < |s.workers| && v != who
    requires Steps(s.tables, s.workers[who], u, next)
    ensures WorkerFits(u, s.workers[v])
  {
    hide WorkerInserts, EventFits, OneInserter, LogOf;
    assert WorkerFits(s.tables, s.workers[v]);
    if WorkerInserts(s.workers[who]) > 0 {
      Alone(s, who);
    }
  }

  lemma StillOne(s: System, who: nat, u: Tables, next: Worker)
    requires OneInserter(s) && who < |s.workers| && s.workers[who].Busy?
    requires Steps(s.tables, s.workers[who], u, next)
    ensures OneInserter(System(u, s.workers[who := next]))
  {
    hide EventInserts, WorkerInserts, EventFits, WorkerFits, LogOf;
    var w, n := s.workers[who], |s.tables.queue|;
    var r := System(u, s.workers[who := next]);
    if WorkerInserts(w) > 0 {
      Alone(s, who);
    }
    IdleInserts(next);
    assert forall i | 0 <= i < n :: u.queue[i] == s.tables.queue[i];
    forall i, j | 0 <= i < j < |u.queue| && EventInserts(u.queue[i]) > 0 && EventInserts(u.queue[j]) > 0
      ensures u.queue[i].id != u.queue[j].id
    {
    }
    forall i, v | 0 <= i < |u.queue| && 0 <= v < |r.workers| && EventInserts(u.queue[i]) > 0 && WorkerInserts(r.workers[v]) > 0
      ensures !WorksOn(r.workers[v], u.queue[i].id)
    {
      if i < n && v != who {
        assert !WorksOn(s.workers[v], s.tables.queue[i].id);
      }
    }
    forall v, x | 0 <= v < x < |r.workers| && WorkerInserts(r.workers[v]) > 0 && WorkerInserts(r.workers[x]) > 0
      ensures r.workers[v].Busy? && !WorksOn(r.workers[x], r.workers[v].event.id)
    {
      IdleInserts(r.workers[v]);
    }
  }

  lemma IdleInserts(w: Worker)
    ensures w.Idle? ==> WorkerInserts(w) == 0
  {
  }

  lemma ActOrderly(s: System, who: nat, fault: Fault)
    requires Orderly(s) && who < |s.workers| && s.workers[who].Busy?
    ensures Orderly(Happen(s, Act(who, fault)))
  {
    hide Work, EventInserts, WorkerInserts, OneInserter, LogOf;
    var t, w := s.tables, s.workers[who];
    var (u, next) := Work(t, w, fault);
    assert WorkerFits(t, w);
    WorkSteps(t, w, fault);
    forall i | 0 <= i < |u.queue| ensures EventFits(u, u.queue[i]) {
      if i < |t.queue| {
        OldEvent(s, who, u, next, i);
        assert u.queue[i] == t.queue[i];
      }
    }
    forall v | 0 <= v < |s.workers| && v != who ensures WorkerFits(u, s.workers[v]) {
      OtherWorker(s, who, u, next, v);
    }
    StillOne(s, who, u, next);
  }

  lemma TakeOrderly(s: System, who: nat)
    requires Orderly(s) && who < |s.workers| && s.workers[who].Idle? && |s.tables.queue| > 0
    ensures Orderly(Happen(s, Take(who)))
  {
    hide EventInserts, WorkerInserts, OneInserter, EventFits, WorkerFits;
    var r := Happen(s, Take(who));
    var e, w := s.tables.queue[0], Accept(s.tables.queue[0]);
    AcceptFits(s.tables, e);
    forall i | 0 <= i < |r.tables.queue| ensures EventFits(r.tables, r.tables.queue[i]) {
      assert EventFits(s.tables, s.tables.queue[i + 1]);
      QueueAside(s.tables, r.tables.queue, s.tables.queue[i + 1], Idle);
    }
    forall v | 0 <= v < |r.workers| ensures WorkerFits(r.tables, r.workers[v]) {
      QueueAside(s.tables, r.tables.queue, e, r.workers[v]);
    }
    forall id: nat ensures |LogOf(r.tables, id)| <= if id < r.tables.nextId then 2 else 0 {
      assert LogOf(r.tables, id) == LogOf(s.tables, id);
    }
    TakeOne(s, who);
  }

  lemma AcceptFits(t: Tables, e: Event)
    ensures EventFits(t, e) ==> WorkerFits(t, Accept(e))
    ensures WorkerInserts(Accept(e)) == EventInserts(e) && Accept(e).Busy? && Accept(e).event == e
  {
  }

  lemma QueueAside(t: Tables, queue: seq<Event>, e: Event, w: Worker)
    ensures EventFits(t, e) ==> EventFits(t.(queue := queue), e)
    ensures WorkerFits(t, w) ==> WorkerFits(t.(queue := queue), w)
  {
  }

  lemma TakeOne(s: System, who: nat)
    requires OneInserter(s) && who < |s.workers| && s.workers[who].Idle? && |s.tables.queue| > 0
    ensures OneInserter(Happen(s, Take(who)))
  {
    hide EventInserts, WorkerInserts;
    var r := Happen(s, Take(who));
    var e := s.tables.queue[0];
    AcceptFits(s.tables, e);
    forall i, v | 0 <= i < |r.tables.queue| && 0 <= v < |r.workers| && EventInserts(r.tables.queue[i]) > 0 && WorkerInserts(r.workers[v]) > 0
      ensures !WorksOn(r.workers[v], r.tables.queue[i].id)
    {
      assert r.tables.queue[i] == s.tables.queue[i + 1];
      if v != who {
        assert !WorksOn(s.workers[v], s.tables.queue[i + 1].id);
      }
    }
    forall v, x | 0 <= v < x < |r.workers| && WorkerInserts(r.workers[v]) > 0 && WorkerInserts(r.workers[x]) > 0
      ensures r.workers[v].Busy? && !WorksOn(r.workers[x], r.workers[v].event.id)
    {
      IdleInserts(r.workers[v]);
      IdleInserts(r.workers[x]);
      if v == who {
        assert !WorksOn(s.workers[x], e.id);
      } else if x == who {
        assert !WorksOn(s.workers[v], e.id);
      }
    }
  }

  lemma PlaceOrderly(s: System, item: nat, count: int)
    requires Orderly(s)
    ensures Orderly(Happen(s, Place(item, count)))
  {
    hide EventInserts, WorkerInserts, StartSaga, LogOf;
    var r := Happen(s, Place(item, count));
    var id, n := s.tables.nextId, |s.tables.queue|;
    StartInserts(s.tables, item, count);
    IdleInserts(Idle);
    forall i | 0 <= i < n ensures EventFits(r.tables, s.tables.queue[i]) && s.tables.queue[i].id < id && r.tables.queue[i] == s.tables.queue[i] {
      assert EventFits(s.tables, s.tables.queue[i]);
    }
    forall v | 0 <= v < |s.workers| ensures WorkerFits(r.tables, s.workers[v]) && !WorksOn(s.workers[v], id) && r.workers[v] == s.workers[v] {
      assert WorkerFits(s.tables, s.workers[v]);
    }
    assert |LogOf(r.tables, id)| == 0 && r.tables.queue[n].id == id;
    forall i | 0 <= i < |r.tables.queue| ensures EventFits(r.tables, r.tables.queue[i]) {
      assert i == n || r.tables.queue[i] == s.tables.queue[i];
    }
    PlacedOne(s, r);
  }

  lemma PlacedOne(s: System, r: System)
    requires OneInserter(s) && |r.tables.queue| == |s.tables.queue| + 1 && r.workers == s.workers + [Idle]
    requires forall i | 0 <= i < |s.tables.queue| :: r.tables.queue[i] == s.tables.queue[i] && s.tables.queue[i].id != r.tables.queue[|s.tables.queue|].id
    requires forall v | 0 <= v < |s.workers| :: !WorksOn(s.workers[v], r.tables.queue[|s.tables.queue|].id)
    ensures OneInserter(r)
  {
    hide EventInserts, WorkerInserts;
    IdleInserts(Idle);
    var n := |s.tables.queue|;
    forall i, v | 0 <= i < |r.tables.queue| && 0 <= v < |r.workers| && EventInserts(r.tables.queue[i]) > 0 && WorkerInserts(r.workers[v]) > 0
      ensures !WorksOn(r.workers[v], r.tables.queue[i].id)
    {
      assert v < |s.workers| && r.workers[v] == s.workers[v];
      if i < n {
        assert !WorksOn(s.workers[v], s.tables.queue[i].id);
      }
    }
    forall v, x | 0 <= v < x < |r.workers| && WorkerInserts(r.workers[v]) > 0 && WorkerInserts(r.workers[x]) > 0
      ensures r.workers[v].Busy? && !WorksOn(r.workers[x], r.workers[v].event.id)
    {
      IdleInserts(r.workers[v]);
      assert r.workers[v] == s.workers[v] && r.workers[x] == s.workers[x];
    }
  }

  lemma StartInserts(t: Tables, item: nat, count: int)
    ensures var u := StartSaga(t, item, count);
            u.queue == t.queue + [Event(t.nextId, Starting, item, count, true)] && u.nextId == t.nextId + 1
            && (forall id: nat :: LogOf(u, id) == if id == t.nextId then [] else LogOf(t, id))
            && EventInserts(Event(t.nextId, Starting, item, count, true)) == 2
  {
  }

  lemma HappenOrderly(s: System, a: Action)
    requires Orderly(s)
    ensures Orderly(Happen(s, a))
  {
    hide Orderly, Work;
    match a
    case Place(item, count) => PlaceOrderly(s, item, count);
    case Take(who) =>
      if who < |s.workers| && s.workers[who].Idle? && |s.tables.queue| > 0 {
        TakeOrderly(s, who);
      }
    case Act(who, fault) =>
      if who < |s.workers| && s.workers[who].Busy? {
        ActOrderly(s, who, fault);
      }
  }

  lemma {:induction false} RunOrderly(s: System, actions: seq<Action>)
    requires Orderly(s)
    ensures Orderly(Run(s, actions))
    decreases actions
  {
    hide Orderly, Happen;
    if |actions| > 0 {
      HappenOrderly(s, actions[0]);
      RunOrderly(Happen(s, actions[0]), actions[1..]);
    }
  }

  // ---------- every run stops ----------

  /** How many steps an event can still cause. */
  function EventRank(e: Event): nat {
    if !e.succeed then 8
    else
      match e.phase
      case Starting => 18
      case CreatingOrder => 15
      case DeductingStock => 3
  }

  function WorkerRank(w: Worker): nat {
    if w.Idle? then 0
    else
      match w.pc
      case MarkSucceeded => if w.event.phase == CreatingOrder then 14 else 2
      case Inserting => if w.event.phase == Starting then 17 else 13
      case Creating => 16
      case Deducting => 12
      case SettingFinished => 1
      case Reading => 7
      case Undoing => 2 * |w.todo| + 2
      case MarkUndone => 2 * |w.todo| + 1
      case SettingCanceled => 1
  }

  function EventRanks(queue: seq<Event>): nat {
    if |queue| == 0 then 0 else EventRank(queue[0]) + EventRanks(queue[1..])
  }

  function WorkerRanks(workers: seq<Worker>): nat {
    if |workers| == 0 then 0 else WorkerRank(workers[0]) + WorkerRanks(workers[1..])
  }

  function Rank(s: System): nat {
    EventRanks(s.tables.queue) + WorkerRanks(s.workers)
  }

  lemma {:induction false} RanksAppend(queue: seq<Event>, e: Event)
    ensures EventRanks(queue + [e]) == EventRanks(queue) + EventRank(e)
    decreases queue
  {
    hide EventRank;
    if |queue| == 0 {
      assert (queue + [e])[1..] == [];
    } else {
      RanksAppend(queue[1..], e);
      assert (queue + [e])[1..] == queue[1..] + [e];
    }
  }

  lemma {:induction false} RanksUpdate(workers: seq<Worker>, k: nat, w: Worker)
    requires k < |workers|
    ensures WorkerRanks(workers[k := w]) == WorkerRanks(workers) - WorkerRank(workers[k]) + WorkerRank(w)
    decreases k
  {
    hide WorkerRank;
    if k == 0 {
      assert workers[k := w][1..] == workers[1..];
    } else {
      RanksUpdate(workers[1..], k - 1, w);
      assert workers[k := w][1..] == workers[1..][k - 1 := w];
    }
  }

  /** An action that a worker can take. */
  predicate Enabled(s: System, a: Action) {
    match a
    case Place(_, _) => false
    case Take(who) => who < |s.workers| && s.workers[who].Idle? && |s.tables.queue| > 0
    case Act(who, _) => who < |s.workers| && s.workers[who].Busy?
  }

  /** A step lowers its worker's rank by more than the events that it emits add. */
  predicate Lowers(t: Tables, w: Worker, u: Tables, next: Worker) {
    WorkerRank(next) < WorkerRank(w)
    && (u.queue == t.queue
        || (|u.queue| == |t.queue| + 1 && u.queue[..|t.queue|] == t.queue
            && WorkerRank(next) + EventRank(u.queue[|t.queue|]) < WorkerRank(w))
        || (|u.queue| == |t.queue| + 2 && u.queue[..|t.queue|] == t.queue
            && WorkerRank(next) + EventRank(u.queue[|t.queue|]) + EventRank(u.queue[|t.queue| + 1]) < WorkerRank(w)))
  }

  lemma DeductLowers(t: Tables, w: Worker, fault: Fault)
    requires w.Busy? && w.pc == Deducting
    ensures Lowers(t, w, Work(t, w, fault).0, Work(t, w, fault).1)
  {
    hide DeductStock;
    DeductQueue(t, w.event, fault);
  }

  lemma UndoLowers(t: Tables, w: Worker, fault: Fault)
    requires w.Busy? && WorkerFits(t, w) && (w.pc == Undoing || w.pc == MarkUndone || w.pc == Reading) && |LogOf(t, w.event.id)| <= 2
    ensures Lowers(t, w, Work(t, w, fault).0, Work(t, w, fault).1)
  {
    hide Find;
  }

  lemma ForwardLowers(t: Tables, w: Worker, fault: Fault)
    requires w.Busy? && WorkerFits(t, w) && w.pc != Deducting && w.pc != Undoing && w.pc != MarkUndone && w.pc != Reading
    ensures Lowers(t, w, Work(t, w, fault).0, Work(t, w, fault).1)
  {
    hide Find;
  }

  lemma WorkLowers(t: Tables, w: Worker, fault: Fault)
    requires w.Busy? && WorkerFits(t, w) && |LogOf(t, w.event.id)| <= 2
    ensures Lowers(t, w, Work(t, w, fault).0, Work(t, w, fault).1)
  {
    hide Work, Lowers, WorkerFits, LogOf;
    match w.pc
    case Deducting => DeductLowers(t, w, fault);
    case Undoing => UndoLowers(t, w, fault);
    case MarkUndone => UndoLowers(t, w, fault);
    case Reading => UndoLowers(t, w, fault);
    case _ => ForwardLowers(t, w, fault);
  }

  lemma ActRank(s: System, who: nat, fault: Fault)
    requires Orderly(s) && Enabled(s, Act(who, fault))
    ensures Rank(Happen(s, Act(who, fault))) < Rank(s)
  {
    hide WorkerFits, Work, WorkerRank, EventRank, OneInserter, EventFits, LogOf;
    var t, w := s.tables, s.workers[who];
    var (u, next) := Work(t, w, fault);
    assert WorkerFits(t, w);
    WorkLowers(t, w, fault);
    RanksUpdate(s.workers, who, next);
    var n := |t.queue|;
    if u.queue != t.queue {
      RanksAppend(t.queue, u.queue[n]);
      if |u.queue| == n + 1 {
        assert u.queue == t.queue + [u.queue[n]];
      } else {
        RanksAppend(t.queue + [u.queue[n]], u.queue[n + 1]);
        assert u.queue == t.queue + [u.queue[n]] + [u.queue[n + 1]];
      }
    }
  }

  lemma TakeRank(s: System, who: nat)
    requires Enabled(s, Take(who))
    ensures Rank(Happen(s, Take(who))) < Rank(s)
  {
    RanksUpdate(s.workers, who, Accept(s.tables.queue[0]));
  }

  predicate AllEnabled(s: System, actions: seq<Action>)
    decreases actions
  {
    |actions| > 0 ==> Enabled(s, actions[0]) && AllEnabled(Happen(s, actions[0]), actions[1..])
  }

  lemma {:induction false} RankFalls(s: System, actions: seq<Action>)
    requires Orderly(s) && AllEnabled(s, actions)
    ensures |actions| + Rank(Run(s, actions)) <= Rank(s)
    decreases actions
  {
    hide Orderly, Happen, Rank, Enabled;
    if |actions| > 0 {
      StepRank(s, actions[0]);
      HappenOrderly(s, actions[0]);
      RankFalls(Happen(s, actions[0]), actions[1..]);
    }
  }

  lemma StepRank(s: System, a: Action)
    requires Orderly(s) && Enabled(s, a)
    ensures Rank(Happen(s, a)) < Rank(s)
  {
    hide Orderly, Happen, Rank;
    match a
    case Take(who) => TakeRank(s, who);
    case Act(who, fault) => ActRank(s, who, fault);
  }

  lemma BeginsOrderly(stock: map<nat, int>)
    ensures Orderly(Begin(stock))
  {
  }

  /** Every run stops: from every state that can be reached, whatever has failed and
      whatever fails, the workers make at most as many steps as its rank says until new
      orders are placed. */
  lemma RunsStop(stock: map<nat, int>, before: seq<Action>, actions: seq<Action>)
    requires AllEnabled(Run(Begin(stock), before), actions)
    ensures var s := Run(Begin(stock), before); |actions| + Rank(Run(s, actions)) <= Rank(s)
  {
    hide Orderly, Run, Rank, AllEnabled;
    BeginsOrderly(stock);
    RunOrderly(Begin(stock), before);
    RankFalls(Run(Begin(stock), before), actions);
  }
}
