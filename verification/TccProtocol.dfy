/** The TCC coordinator, any number of them interleaved, and what they agree on. */
module TccProtocol {
  import opened TccServices

  /** The next call of `placeOrder`. */
  datatype Pc =
    | InsertingTcc
    | LookingUp
    | TryingOrder
    | TryingStock
    | DecidingConfirm
    | ConfirmingStock
    | ConfirmingOrder
    | FinishingConfirm
    | DecidingCancel
    | CancelingStock
    | CancelingOrder
    | FinishingCancel
    | Done

  /** A coordinator: its order, its transaction id once it has one, its next call, and
      the answers it still needs. */
  datatype Coordinator = Coordinator(item: nat, count: int, id: nat, pc: Pc, ordered: bool, stocked: bool)

  /** The call a coordinator makes next, as a transaction. */
  function Call(t: Tables, c: Coordinator): (Tables, bool) {
    match c.pc
    case InsertingTcc => InsertTcc(t)
    case LookingUp => FindItem(t, c.item)
    case TryingOrder => TryOrder(t, c.id, c.item, c.count)
    case TryingStock => TryReserve(t, c.id, c.item, c.count)
    case DecidingConfirm => Decide(t, c.id, ToConfirm)
    case ConfirmingStock => ConfirmReserve(t, c.id)
    case ConfirmingOrder => ConfirmOrder(t, c.id)
    case FinishingConfirm => Finish(t, c.id)
    case DecidingCancel => Decide(t, c.id, ToCancel)
    case CancelingStock => CancelReserve(t, c.id, c.item)
    case CancelingOrder => CancelOrder(t, c.id)
    case FinishingCancel => Finish(t, c.id)
    case Done => (t, true)
  }

  /** Where `placeOrder` goes on after an answer. */
  function Continue(c: Coordinator, id: nat, ok: bool): Coordinator {
    match c.pc
    case InsertingTcc => if ok then c.(id := id, pc := LookingUp) else c.(pc := Done)
    case LookingUp => c.(pc := if ok then TryingOrder else Done)
    case TryingOrder => c.(ordered := ok, pc := TryingStock)
    case TryingStock => c.(stocked := ok, pc := if ok && c.ordered then DecidingConfirm else DecidingCancel)
    case DecidingConfirm => c.(pc := if ok then ConfirmingStock else Done)
    case ConfirmingStock => c.(stocked := ok, pc := ConfirmingOrder)
    case ConfirmingOrder => c.(pc := if ok && c.stocked then FinishingConfirm else Done)
    case FinishingConfirm => c.(pc := Done)
    case DecidingCancel => c.(pc := if ok then CancelingStock else Done)
    case CancelingStock => c.(stocked := ok, pc := CancelingOrder)
    case CancelingOrder => c.(pc := if ok && c.stocked then FinishingCancel else Done)
    case FinishingCancel => c.(pc := Done)
    case Done => c
  }

  /** One call of a coordinator; an exception ends it. */
  function Turn(t: Tables, c: Coordinator, fault: Fault): (Tables, Coordinator) {
    var (after, reply) := Invoke(fault, t, Call(t, c));
    (after, if reply.Thrown? then c.(pc := Done) else Continue(c, t.nextId, reply.ok))
  }

  /** A coordinator by itself, from its `k`-th call on; the faults say how each call fails. */
  function Alone(t: Tables, c: Coordinator, faults: seq<Fault>, k: nat): (Tables, Coordinator)
    requires k <= |faults|
    decreases |faults| - k
  {
    if k == |faults| then (t, c)
    else
      var (after, next) := Turn(t, c, faults[k]);
      Alone(after, next, faults, k + 1)
  }

  /** A call that ends in `reply`, and what the coordinator does with the answer. */
  lemma AloneStep(t: Tables, c: Coordinator, faults: seq<Fault>, k: nat, u: Tables, reply: Reply)
    requires k < |faults| && (u, reply) == Invoke(faults[k], t, Call(t, c))
    ensures reply.Thrown? ==> Alone(t, c, faults, k) == (u, c.(pc := Done))
    ensures reply.Returned? ==> Alone(t, c, faults, k) == Alone(u, Continue(c, t.nextId, reply.ok), faults, k + 1)
    ensures reply.Returned? && Continue(c, t.nextId, reply.ok).pc == Done ==>
              Alone(t, c, faults, k) == (u, Continue(c, t.nextId, reply.ok))
  {
    hide Invoke, Call, Continue;
    AloneDone(u, c.(pc := Done), faults, k + 1);
    if reply.Returned? && Continue(c, t.nextId, reply.ok).pc == Done {
      AloneDone(u, Continue(c, t.nextId, reply.ok), faults, k + 1);
    }
  }

  lemma {:induction false} AloneDone(t: Tables, c: Coordinator, faults: seq<Fault>, k: nat)
    requires c.pc == Done && k <= |faults|
    ensures Alone(t, c, faults, k) == (t, c)
    decreases |faults| - k
  {
    if k < |faults| {
      AloneDone(t, c, faults, k + 1);
    }
  }

  // ---------- the coordinator as it runs ----------

  /** How many calls `placeOrder` makes at most. */
  const CALLS := 8

  /** Both sides are confirmed, and the transaction is finished. */
  method ConfirmBoth(db: Databases, tccId: nat, ghost c: Coordinator, faults: seq<Fault>)
    requires |faults| == CALLS && c.pc == ConfirmingStock && c.id == tccId
    modifies db
    ensures db.Contents() == Alone(old(db.Contents()), c, faults, 5).0
    ensures Alone(old(db.Contents()), c, faults, 5).1.pc == Done
  {
    hide Alone, Invoke, ConfirmReserve, ConfirmOrder, Finish;
    ghost var t0 := db.Contents();
    var stock := db.ConfirmReserveStock(tccId, faults[5]);
    ghost var t1 := db.Contents();
    AloneStep(t0, c, faults, 5, t1, stock);
    if stock.Thrown? {
      return;
    }
    ghost var c1 := Continue(c, t0.nextId, stock.ok);
    var order := db.ConfirmCreateOrder(tccId, faults[6]);
    ghost var t2 := db.Contents();
    AloneStep(t1, c1, faults, 6, t2, order);
    if order.Thrown? || !order.ok || !stock.ok {
      return;
    }
    ghost var c2 := Continue(c1, t1.nextId, order.ok);
    var finished := db.UpdateTccToFinished(tccId, faults[7]);
    AloneStep(t2, c2, faults, 7, db.Contents(), finished);
  }

  /** Both sides are canceled, and the transaction is finished. */
  method CancelBoth(db: Databases, tccId: nat, itemId: nat, ghost c: Coordinator, faults: seq<Fault>)
    requires |faults| == CALLS && c.pc == CancelingStock && c.id == tccId && c.item == itemId
    modifies db
    ensures db.Contents() == Alone(old(db.Contents()), c, faults, 5).0
    ensures Alone(old(db.Contents()), c, faults, 5).1.pc == Done
  {
    hide Alone, Invoke, CancelReserve, CancelOrder, Finish;
    ghost var t0 := db.Contents();
    var stock := db.CancelReserveStock(tccId, itemId, faults[5]);
    ghost var t1 := db.Contents();
    AloneStep(t0, c, faults, 5, t1, stock);
    if stock.Thrown? {
      return;
    }
    ghost var c1 := Continue(c, t0.nextId, stock.ok);
    var order := db.CancelCreateOrder(tccId, faults[6]);
    ghost var t2 := db.Contents();
    AloneStep(t1, c1, faults, 6, t2, order);
    if order.Thrown? || !order.ok || !stock.ok {
      return;
    }
    ghost var c2 := Continue(c1, t1.nextId, order.ok);
    var finished := db.UpdateTccToFinished(tccId, faults[7]);
    AloneStep(t2, c2, faults, 7, db.Contents(), finished);
  }

  /** Deciding, and what follows from the decision. */
  method Settle(db: Databases, tccId: nat, itemId: nat, ghost c: Coordinator, success: bool, faults: seq<Fault>)
    requires |faults| == CALLS && c.pc == (if success then DecidingConfirm else DecidingCancel)
    requires c.id == tccId && c.item == itemId
    modifies db
    ensures db.Contents() == Alone(old(db.Contents()), c, faults, 4).0
    ensures Alone(old(db.Contents()), c, faults, 4).1.pc == Done
  {
    hide Alone, Invoke, Decide;
    ghost var t0 := db.Contents();
    var updated := db.UpdateTccFromInit(tccId, if success then ToConfirm else ToCancel, faults[4]);
    AloneStep(t0, c, faults, 4, db.Contents(), updated);
    if updated.Thrown? || !updated.ok {
      return;
    }
    if success {
      ConfirmBoth(db, tccId, Continue(c, t0.nextId, true), faults);
    } else {
      CancelBoth(db, tccId, itemId, Continue(c, t0.nextId, true), faults);
    }
  }

  function NewCoordinator(item: nat, count: int): Coordinator {
    Coordinator(item, count, 0, InsertingTcc, false, false)
  }

  /** `placeOrder` by itself makes the calls of the state machine, in the same order. */
  method PlaceOrder(db: Databases, itemId: nat, count: int, faults: seq<Fault>)
    requires |faults| == CALLS
    modifies db
    ensures db.Contents() == Alone(old(db.Contents()), NewCoordinator(itemId, count), faults, 0).0
    ensures Alone(old(db.Contents()), NewCoordinator(itemId, count), faults, 0).1.pc == Done
  {
    hide Alone, Invoke, InsertTcc, TryOrder, TryReserve;
    ghost var t0, c0 := db.Contents(), NewCoordinator(itemId, count);
    var inserted, tccId := db.InsertTccRow(faults[0]);
    ghost var t1 := db.Contents();
    AloneStep(t0, c0, faults, 0, t1, inserted);
    if inserted.Thrown? || !inserted.ok {
      return;
    }
    ghost var c1 := Continue(c0, t0.nextId, true);
    var found := db.GetItemById(itemId, faults[1]);
    AloneStep(t1, c1, faults, 1, db.Contents(), found);
    if found.Thrown? || !found.ok {
      return;
    }
    ghost var c2 := Continue(c1, t1.nextId, true);
    var order := db.TryCreateOrder(tccId, itemId, count, faults[2]);
    ghost var t2 := db.Contents();
    AloneStep(t1, c2, faults, 2, t2, order);
    if order.Thrown? {
      return;
    }
    ghost var c3 := Continue(c2, t1.nextId, order.ok);
    var stock := db.TryReserveStock(tccId, itemId, count, faults[3]);
    ghost var t3 := db.Contents();
    AloneStep(t2, c3, faults, 3, t3, stock);
    if stock.Thrown? {
      return;
    }
    Settle(db, tccId, itemId, Continue(c3, t2.nextId, stock.ok), stock.ok && order.ok, faults);
  }

  // ---------- any number of coordinators ----------

  /** The tables, the coordinators, and which way each transaction was decided. */
  datatype System = System(tables: Tables, coordinators: seq<Coordinator>, decision: map<nat, bool>)

  /** A new order arrives, or a coordinator makes its next call. */
  datatype Event = Arrive(item: nat, count: int) | Act(who: nat, fault: Fault)

  function Happen(s: System, e: Event): System {
    match e
    case Arrive(item, count) => s.(coordinators := s.coordinators + [NewCoordinator(item, count)])
    case Act(who, fault) =>
      if who >= |s.coordinators| then s
      else
        var c := s.coordinators[who];
        var (after, next) := Turn(s.tables, c, fault);
        var decides := (c.pc == DecidingConfirm || c.pc == DecidingCancel) && after.tcc != s.tables.tcc;
        System(after, s.coordinators[who := next], if decides then s.decision[c.id := c.pc == DecidingConfirm] else s.decision)
  }

  function Run(s: System, events: seq<Event>): System
    decreases events
  {
    if |events| == 0 then s else Run(Happen(s, events[0]), events[1..])
  }

  function Begin(stock: map<nat, int>): System {
    System(Tables(0, map[], stock, map[], map[]), [], map[])
  }

  // ---------- what every state satisfies ----------

  /** A transaction: its rows agree with its decision, and a finished one carries it out. */
  predicate RowsOk(t: Tables, decision: map<nat, bool>, id: nat) {
    (id in t.tcc <==> id < t.nextId)
    && (id !in t.tcc ==> id !in t.reserves && id !in t.orders)
    && (id in decision <==> id in t.tcc && t.tcc[id] != Init)
    && (id in t.tcc && t.tcc[id] == ToConfirm ==> decision[id])
    && (id in t.tcc && t.tcc[id] == ToCancel ==> !decision[id])
    && (id in t.reserves ==>
          (t.reserves[id].status == Confirmed ==> id in decision && decision[id])
          && (t.reserves[id].status == Released ==> id in decision && !decision[id]))
    && (id in t.orders ==>
          (t.orders[id].status == Normal ==> id in decision && decision[id])
          && (t.orders[id].status == Canceled ==> id in decision && !decision[id]))
    && (id in decision && decision[id] ==> id in t.reserves && id in t.orders)
    && (id in t.tcc && t.tcc[id] == Finished ==>
          if decision[id] then t.reserves[id].status == Confirmed && t.orders[id].status == Normal
          else id in t.reserves && t.reserves[id].status == Released && OrderGone(t, id))
  }

  /** The order is canceled, or there is none: a missing order leaves no row behind. */
  predicate OrderGone(t: Tables, id: nat) {
    id in t.orders ==> t.orders[id].status == Canceled
  }

  predicate HasId(c: Coordinator) {
    c.pc != InsertingTcc && c.pc != Done
  }

  /** What a coordinator knows at its next call. */
  predicate KnowsOk(t: Tables, decision: map<nat, bool>, c: Coordinator) {
    HasId(c) ==>
      c.id in t.tcc
      && match c.pc
         case LookingUp => t.tcc[c.id] == Init
         case TryingOrder => t.tcc[c.id] == Init
         case TryingStock => t.tcc[c.id] == Init && (c.ordered ==> c.id in t.orders)
         case DecidingConfirm => t.tcc[c.id] == Init && c.id in t.orders && c.id in t.reserves
         case DecidingCancel => t.tcc[c.id] == Init
         case ConfirmingStock => t.tcc[c.id] == ToConfirm
         case ConfirmingOrder => t.tcc[c.id] == ToConfirm && (c.stocked ==> c.id in t.reserves && t.reserves[c.id].status == Confirmed)
         case FinishingConfirm =>
           t.tcc[c.id] == ToConfirm && c.id in t.reserves && t.reserves[c.id].status == Confirmed
           && c.id in t.orders && t.orders[c.id].status == Normal
         case CancelingStock => t.tcc[c.id] == ToCancel
         case CancelingOrder => t.tcc[c.id] == ToCancel && (c.stocked ==> c.id in t.reserves && t.reserves[c.id].status == Released)
         case FinishingCancel =>
           t.tcc[c.id] == ToCancel && c.id in t.reserves && t.reserves[c.id].status == Released && OrderGone(t, c.id)
         case _ => true
  }

  ghost predicate Invariant(s: System) {
    (forall id: nat :: RowsOk(s.tables, s.decision, id))
    && (forall i | 0 <= i < |s.coordinators| :: KnowsOk(s.tables, s.decision, s.coordinators[i]))
    && forall i, j | 0 <= i < j < |s.coordinators| && HasId(s.coordinators[i]) && HasId(s.coordinators[j]) ::
         s.coordinators[i].id != s.coordinators[j].id
  }

  /** The rows of a transaction are the same in both. */
  predicate SameRows(t: Tables, u: Tables, decision: map<nat, bool>, after: map<nat, bool>, id: nat) {
    (id in t.tcc <==> id in u.tcc) && (id in t.tcc ==> t.tcc[id] == u.tcc[id])
    && (id in t.reserves <==> id in u.reserves) && (id in t.reserves ==> t.reserves[id] == u.reserves[id])
    && (id in t.orders <==> id in u.orders) && (id in t.orders ==> t.orders[id] == u.orders[id])
    && (id in decision <==> id in after) && (id in decision ==> decision[id] == after[id])
  }

  function Decided(t: Tables, u: Tables, c: Coordinator, decision: map<nat, bool>): map<nat, bool> {
    if (c.pc == DecidingConfirm || c.pc == DecidingCancel) && u.tcc != t.tcc then decision[c.id := c.pc == DecidingConfirm] else decision
  }

  /** The transaction a call works on. */
  function Subject(t: Tables, c: Coordinator): nat {
    if c.pc == InsertingTcc then t.nextId else c.id
  }

  lemma ReserveElsewhere(t: Tables, c: Coordinator, decision: map<nat, bool>, id: nat)
    requires id != c.id && (c.pc == TryingStock || c.pc == ConfirmingStock || c.pc == CancelingStock)
    ensures var u := Call(t, c).0; SameRows(t, u, decision, decision, id) && u.nextId == t.nextId && u.tcc == t.tcc
  {
  }

  lemma OrderElsewhere(t: Tables, c: Coordinator, decision: map<nat, bool>, id: nat)
    requires id != c.id && (c.pc == LookingUp || c.pc == TryingOrder || c.pc == ConfirmingOrder || c.pc == CancelingOrder || c.pc == Done)
    ensures var u := Call(t, c).0; SameRows(t, u, decision, decision, id) && u.nextId == t.nextId && u.tcc == t.tcc
  {
  }

  lemma TccElsewhere(t: Tables, c: Coordinator, decision: map<nat, bool>, id: nat)
    requires id != Subject(t, c)
    requires c.pc == InsertingTcc || c.pc == DecidingConfirm || c.pc == DecidingCancel || c.pc == FinishingConfirm || c.pc == FinishingCancel
    ensures var u := Call(t, c).0; SameRows(t, u, decision, Decided(t, u, c, decision), id)
    ensures var u := Call(t, c).0; u.nextId == if c.pc == InsertingTcc then t.nextId + 1 else t.nextId
  {
  }

  /** A call changes the rows of its own transaction only. */
  lemma CallElsewhere(t: Tables, c: Coordinator, decision: map<nat, bool>, id: nat)
    requires id != Subject(t, c)
    ensures var u := Call(t, c).0; SameRows(t, u, decision, Decided(t, u, c, decision), id)
    ensures var u := Call(t, c).0; u.nextId == if c.pc == InsertingTcc then t.nextId + 1 else t.nextId
  {
    hide Call, SameRows;
    if c.pc == TryingStock || c.pc == ConfirmingStock || c.pc == CancelingStock {
      ReserveElsewhere(t, c, decision, id);
    } else if c.pc == LookingUp || c.pc == TryingOrder || c.pc == ConfirmingOrder || c.pc == CancelingOrder || c.pc == Done {
      OrderElsewhere(t, c, decision, id);
    } else {
      TccElsewhere(t, c, decision, id);
    }
  }

  lemma TurnElsewhere(t: Tables, c: Coordinator, fault: Fault, decision: map<nat, bool>, id: nat)
    requires id != Subject(t, c)
    ensures var u := Turn(t, c, fault).0;
            SameRows(t, u, decision, Decided(t, u, c, decision), id)
            && (u.nextId == t.nextId || (c.pc == InsertingTcc && u.nextId == t.nextId + 1))
  {
    hide Call, Continue, SameRows, Decided, Subject;
    CallElsewhere(t, c, decision, id);
    NothingElsewhere(t, c, decision, id);
  }

  lemma NothingElsewhere(t: Tables, c: Coordinator, decision: map<nat, bool>, id: nat)
    ensures SameRows(t, t, decision, Decided(t, t, c, decision), id) && Decided(t, t, c, decision) == decision
  {
  }

  /** A call of `c` leaves its own transaction in order, and `next` knows what happened. */
  predicate Keeps(t: Tables, decision: map<nat, bool>, c: Coordinator, u: Tables, next: Coordinator) {
    RowsOk(u, Decided(t, u, c, decision), Subject(t, c)) && KnowsOk(u, Decided(t, u, c, decision), next)
    && (HasId(next) ==> next.id == Subject(t, c))
  }

  lemma TryKeeps(t: Tables, c: Coordinator, decision: map<nat, bool>)
    requires RowsOk(t, decision, Subject(t, c)) && KnowsOk(t, decision, c)
    requires c.pc == InsertingTcc || c.pc == LookingUp || c.pc == TryingOrder || c.pc == TryingStock
    ensures Call(t, c).1 ==> Keeps(t, decision, c, Call(t, c).0, Continue(c, t.nextId, true))
    ensures Keeps(t, decision, c, Call(t, c).0, Continue(c, t.nextId, false))
    ensures Keeps(t, decision, c, t, Continue(c, t.nextId, false))
  {
  }

  lemma DecideKeeps(t: Tables, c: Coordinator, decision: map<nat, bool>)
    requires RowsOk(t, decision, Subject(t, c)) && KnowsOk(t, decision, c)
    requires c.pc == DecidingConfirm || c.pc == DecidingCancel
    ensures Call(t, c).1 ==> Keeps(t, decision, c, Call(t, c).0, Continue(c, t.nextId, true))
    ensures Keeps(t, decision, c, Call(t, c).0, Continue(c, t.nextId, false))
    ensures Keeps(t, decision, c, t, Continue(c, t.nextId, false))
  {
  }

  lemma ConfirmKeeps(t: Tables, c: Coordinator, decision: map<nat, bool>)
    requires RowsOk(t, decision, Subject(t, c)) && KnowsOk(t, decision, c)
    requires c.pc == ConfirmingStock || c.pc == ConfirmingOrder || c.pc == FinishingConfirm
    ensures Call(t, c).1 ==> Keeps(t, decision, c, Call(t, c).0, Continue(c, t.nextId, true))
    ensures Keeps(t, decision, c, Call(t, c).0, Continue(c, t.nextId, false))
    ensures Keeps(t, decision, c, t, Continue(c, t.nextId, false))
  {
  }

  lemma CancelKeeps(t: Tables, c: Coordinator, decision: map<nat, bool>)
    requires RowsOk(t, decision, Subject(t, c)) && KnowsOk(t, decision, c)
    requires c.pc == CancelingStock || c.pc == CancelingOrder || c.pc == FinishingCancel
    ensures Call(t, c).1 ==> Keeps(t, decision, c, Call(t, c).0, Continue(c, t.nextId, true))
    ensures Keeps(t, decision, c, Call(t, c).0, Continue(c, t.nextId, false))
    ensures Keeps(t, decision, c, t, Continue(c, t.nextId, false))
  {
  }

  lemma TurnKeeps(t: Tables, c: Coordinator, fault: Fault, decision: map<nat, bool>)
    requires RowsOk(t, decision, Subject(t, c)) && KnowsOk(t, decision, c) && c.pc != Done
    ensures Keeps(t, decision, c, Turn(t, c, fault).0, Turn(t, c, fault).1)
  {
    hide Call, Continue, RowsOk, Decided, Subject;
    if c.pc == InsertingTcc || c.pc == LookingUp || c.pc == TryingOrder || c.pc == TryingStock {
      TryKeeps(t, c, decision);
    } else if c.pc == DecidingConfirm || c.pc == DecidingCancel {
      DecideKeeps(t, c, decision);
    } else if c.pc == ConfirmingStock || c.pc == ConfirmingOrder || c.pc == FinishingConfirm {
      ConfirmKeeps(t, c, decision);
    } else {
      CancelKeeps(t, c, decision);
    }
  }

  /** Rows and knowledge of a transaction survive what happens to others. */
  lemma SameRowsKeep(t: Tables, u: Tables, decision: map<nat, bool>, after: map<nat, bool>, id: nat)
    requires SameRows(t, u, decision, after, id)
    requires u.nextId == t.nextId || (u.nextId == t.nextId + 1 && id != t.nextId)
    ensures RowsOk(t, decision, id) ==> RowsOk(u, after, id)
  {
  }

  lemma SameRowsKnow(t: Tables, u: Tables, decision: map<nat, bool>, after: map<nat, bool>, c: Coordinator)
    requires HasId(c) ==> SameRows(t, u, decision, after, c.id)
    ensures KnowsOk(t, decision, c) ==> KnowsOk(u, after, c)
  {
  }

  lemma DoneIdles(t: Tables, c: Coordinator, fault: Fault)
    requires c.pc == Done
    ensures Turn(t, c, fault) == (t, c)
  {
  }

  lemma ActKeeps(s: System, who: nat, fault: Fault)
    requires Invariant(s) && who < |s.coordinators| && s.coordinators[who].pc != Done
    ensures Invariant(Happen(s, Act(who, fault)))
  {
    hide RowsOk, KnowsOk, SameRows, Turn;
    var t, c, decision := s.tables, s.coordinators[who], s.decision;
    var (u, next) := Turn(t, c, fault);
    var after := Decided(t, u, c, decision);
    var r := Happen(s, Act(who, fault));
    TurnKeeps(t, c, fault, decision);
    forall id: nat ensures RowsOk(u, after, id) {
      if id != Subject(t, c) {
        TurnElsewhere(t, c, fault, decision, id);
        SameRowsKeep(t, u, decision, after, id);
      }
    }
    forall i | 0 <= i < |r.coordinators| && i != who ensures KnowsOk(u, after, r.coordinators[i])
    {
      OtherSubject(s, who, i);
      if HasId(r.coordinators[i]) {
        TurnElsewhere(t, c, fault, decision, r.coordinators[i].id);
      }
      SameRowsKnow(t, u, decision, after, r.coordinators[i]);
    }
    forall i, j | 0 <= i < j < |r.coordinators| && HasId(r.coordinators[i]) && HasId(r.coordinators[j])
      ensures r.coordinators[i].id != r.coordinators[j].id
    {
      if i == who {
        OtherSubject(s, who, j);
      } else if j == who {
        OtherSubject(s, who, i);
      }
    }
  }

  /** No two coordinators work on one transaction. */
  lemma OtherSubject(s: System, who: nat, i: nat)
    requires Invariant(s) && who < |s.coordinators| && i < |s.coordinators| && i != who && s.coordinators[who].pc != Done
    ensures HasId(s.coordinators[i]) ==> s.coordinators[i].id != Subject(s.tables, s.coordinators[who])
  {
    var c := s.coordinators[i];
    assert RowsOk(s.tables, s.decision, c.id);
    assert KnowsOk(s.tables, s.decision, c);
  }

  lemma HappenKeeps(s: System, e: Event)
    requires Invariant(s)
    ensures Invariant(Happen(s, e))
  {
    hide RowsOk, KnowsOk;
    match e
    case Arrive(item, count) => NewKnows(s.tables, s.decision, NewCoordinator(item, count));
    case Act(who, fault) =>
      if who < |s.coordinators| {
        if s.coordinators[who].pc == Done {
          DoneIdles(s.tables, s.coordinators[who], fault);
          assert Happen(s, e) == s;
        } else {
          ActKeeps(s, who, fault);
        }
      }
  }

  lemma NewKnows(t: Tables, decision: map<nat, bool>, c: Coordinator)
    requires c.pc == InsertingTcc
    ensures KnowsOk(t, decision, c)
  {
  }

  lemma {:induction false} RunKeeps(s: System, events: seq<Event>)
    requires Invariant(s)
    ensures Invariant(Run(s, events))
    decreases events
  {
    hide Invariant, Happen;
    if |events| > 0 {
      HappenKeeps(s, events[0]);
      RunKeeps(Happen(s, events[0]), events[1..]);
    }
  }

  lemma BeginsRight(stock: map<nat, int>)
    ensures Invariant(Begin(stock))
  {
  }

  // ---------- agreement ----------

  /** Agreement: however many coordinators interleave, whatever calls fail and in
      whatever way, no transaction has its stock confirmed and its order canceled, or
      the other way round. */
  lemma Agreement(stock: map<nat, int>, events: seq<Event>, id: nat)
    ensures var t := Run(Begin(stock), events).tables;
            id in t.reserves && id in t.orders ==>
              !(t.reserves[id].status == Confirmed && t.orders[id].status == Canceled)
              && !(t.reserves[id].status == Released && t.orders[id].status == Normal)
  {
    hide Run;
    BeginsRight(stock);
    RunKeeps(Begin(stock), events);
    var s := Run(Begin(stock), events);
    assert RowsOk(s.tables, s.decision, id);
  }

  /** A recorded decision to confirm can be carried out: both rows are there and
      neither has been canceled, so the stock service never refuses it. */
  lemma Confirmable(stock: map<nat, int>, events: seq<Event>, id: nat)
    ensures var t := Run(Begin(stock), events).tables;
            id in t.tcc && t.tcc[id] == ToConfirm ==>
              id in t.reserves && t.reserves[id].status != Released
              && id in t.orders && t.orders[id].status != Canceled
              && ConfirmReserve(t, id).1
  {
    hide Run;
    BeginsRight(stock);
    RunKeeps(Begin(stock), events);
    var s := Run(Begin(stock), events);
    assert RowsOk(s.tables, s.decision, id);
  }

  /** A finished transaction has carried out its decision on both sides, except that a
      canceled order may be missing: the row that should block it is never committed. */
  lemma FinishedCarriedOut(stock: map<nat, int>, events: seq<Event>, id: nat)
    ensures var s := Run(Begin(stock), events);
            var t := s.tables;
            id in t.tcc && t.tcc[id] == Finished ==>
              id in s.decision && id in t.reserves
              && if s.decision[id] then t.reserves[id].status == Confirmed && id in t.orders && t.orders[id].status == Normal
                 else t.reserves[id].status == Released && (id !in t.orders || t.orders[id].status == Canceled)
  {
    hide Run;
    BeginsRight(stock);
    RunKeeps(Begin(stock), events);
    var s := Run(Begin(stock), events);
    assert RowsOk(s.tables, s.decision, id);
  }

  lemma DecidedOnce(s: System, e: Event, id: nat)
    requires Invariant(s) && id in s.decision
    ensures var r := Happen(s, e); id in r.decision && r.decision[id] == s.decision[id]
  {
    hide KnowsOk;
    assert RowsOk(s.tables, s.decision, id);
  }

  /** A decision is final. */
  lemma {:induction false} DecisionFinal(s: System, events: seq<Event>, id: nat)
    requires Invariant(s) && id in s.decision
    ensures var r := Run(s, events); id in r.decision && r.decision[id] == s.decision[id]
    decreases events
  {
    hide Invariant, Happen;
    if |events| > 0 {
      DecidedOnce(s, events[0], id);
      HappenKeeps(s, events[0]);
      DecisionFinal(Happen(s, events[0]), events[1..], id);
    }
  }
}
