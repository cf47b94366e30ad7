/** The stock over whole runs of sagas, and what the rows of a saga carry. */
module SagaStock {
  import opened Ledger
  import opened SagaServices
  import opened SagaProtocol
  import SagaOutcome

  // ---------- conservation ----------

  /** What a reservation holds of an item. */
  function Holds(item: nat): Reserve -> int {
    (r: Reserve) => if r.item == item && r.status == Normal then r.count else 0
  }

  /** Every item is on stock, held by a reservation, or was not there from the start. */
  predicate Conserved(t: Tables, initial: map<nat, int>, limit: nat) {
    t.stock.Keys == initial.Keys
    && forall item | item in initial :: t.stock[item] + Sum(t.reserves, Holds(item), limit) == initial[item]
  }

  predicate NotOversold(t: Tables) {
    (forall item | item in t.stock :: t.stock[item] >= 0) && forall id | id in t.reserves :: t.reserves[id].count >= 0
  }

  /** What happens to the stock is one of these. */
  lemma StockUpdate(t: Tables, initial: map<nat, int>, limit: nat, id: nat, row: Reserve, item: nat, change: int)
    requires Conserved(t, initial, limit) && id < limit && item in t.stock
    requires row.item == item && change == Entry(t.reserves, Holds(item), id) - Holds(item)(row)
    requires id in t.reserves ==> t.reserves[id].item == item
    ensures Conserved(t.(reserves := t.reserves[id := row], stock := t.stock[item := t.stock[item] + change]), initial, limit)
  {
    var u := t.(reserves := t.reserves[id := row], stock := t.stock[item := t.stock[item] + change]);
    forall other | other in initial ensures u.stock[other] + Sum(u.reserves, Holds(other), limit) == initial[other] {
      SumUpdate(t.reserves, Holds(other), id, row, limit);
    }
  }

  lemma SameStock(t: Tables, u: Tables, initial: map<nat, int>, limit: nat)
    requires u.stock == t.stock && u.reserves == t.reserves
    ensures Conserved(t, initial, limit) ==> Conserved(u, initial, limit)
    ensures NotOversold(t) ==> NotOversold(u)
  {
  }

  /** The calls of the stock service, repeated or lost as may be, conserve the stock: a
      deduction, and a cancellation that names the reserved item. */
  lemma DeductConserves(t: Tables, initial: map<nat, int>, limit: nat, e: Event, fault: Fault)
    requires Conserved(t, initial, limit) && e.id < limit
    ensures Conserved(DeductStock(t, e, fault), initial, limit)
    ensures NotOversold(t) && e.count >= 0 ==> NotOversold(DeductStock(t, e, fault))
  {
    hide Conserved, DeductStock;
    var u := DeductStock(t, e, fault);
    DeductEffect(t, e, fault);
    if u.(queue := t.queue) == t {
      SameStock(t, u, initial, limit);
    } else {
      StockUpdate(t, initial, limit, e.id, Reserve(e.item, e.count, Normal), e.item, -e.count);
      assert t.stock[e.item] + -e.count == t.stock[e.item] - e.count;
      SameStock(Deducted(t, e), u, initial, limit);
    }
  }

  lemma CancelConserves(t: Tables, initial: map<nat, int>, limit: nat, id: nat, item: nat)
    requires Conserved(t, initial, limit) && id < limit && (id in t.reserves ==> t.reserves[id].item == item)
    ensures Conserved(CancelDeduct(t, id, item).0, initial, limit)
    ensures NotOversold(t) ==> NotOversold(CancelDeduct(t, id, item).0)
  {
    if item in t.stock {
      if id !in t.reserves {
        StockUpdate(t, initial, limit, id, Reserve(item, 0, Withdrawn), item, 0);
        assert t.stock[item := t.stock[item] + 0] == t.stock;
      } else if t.reserves[id].status == Normal {
        StockUpdate(t, initial, limit, id, t.reserves[id].(status := Withdrawn), item, t.reserves[id].count);
      }
    }
  }

  /** A call of the stock service that comes again changes no row: a deduction is announced
      once more as it was, a cancellation is answered alike. */
  lemma Repeated(t: Tables, e: Event)
    ensures var u := DeductStock(t, e, NoFault);
            e.item in u.stock && u.stock[e.item] >= e.count && e.id in u.reserves ==>
              DeductStock(u, e, NoFault) == Put(u, Event(e.id, DeductingStock, e.item, e.count, true))
    ensures var (u, ok) := CancelDeduct(t, e.id, e.item); CancelDeduct(u, e.id, e.item) == (u, ok)
  {
  }

  /** An order is neither created twice, nor announced twice, nor withdrawn twice. */
  lemma OrderedOnce(t: Tables, e: Event)
    ensures var u := CreateOrder(t, e, NoFault); CreateOrder(u, e, NoFault) == u
    ensures var u := CancelOrder(t, e.id).0; CancelOrder(u, e.id) == (u, e.id !in t.orders)
  {
  }

  // ---------- what events and rows carry ----------

  /** The orders that are placed, one for each saga. */
  function Places(actions: seq<Action>): (r: seq<Action>)
    ensures forall k | 0 <= k < |r| :: r[k].Place?
  {
    if |actions| == 0 then []
    else if actions[0].Place? then [actions[0]] + Places(actions[1..])
    else Places(actions[1..])
  }

  predicate IsOf(placed: seq<Action>, id: nat, item: nat, count: int) {
    id < |placed| && placed[id] == Place(item, count)
  }

  predicate About(placed: seq<Action>, e: Event) {
    IsOf(placed, e.id, e.item, e.count)
  }

  /** The order and the reservation of a saga are of what was placed; a row that only
      blocks a reservation is of its item. */
  predicate RowsAre(t: Tables, placed: seq<Action>) {
    t.nextId == |placed|
    && (forall id | id in t.orders :: IsOf(placed, id, t.orders[id].item, t.orders[id].count))
    && forall id | id in t.reserves ::
         id < |placed| && placed[id].Place? && t.reserves[id].item == placed[id].item
         && (t.reserves[id].status == Normal ==> t.reserves[id].count == placed[id].count)
  }

  predicate Carried(s: System, placed: seq<Action>) {
    RowsAre(s.tables, placed)
    && (forall i | 0 <= i < |s.tables.queue| :: About(placed, s.tables.queue[i]))
    && forall w | 0 <= w < |s.workers| && s.workers[w].Busy? :: About(placed, s.workers[w].event)
  }

  /** The rows are right, and so are the events that are new. */
  predicate Carries(t: Tables, u: Tables, placed: seq<Action>) {
    RowsAre(u, placed) && t.queue <= u.queue && forall i | |t.queue| <= i < |u.queue| :: About(placed, u.queue[i])
  }

  lemma CreateCarries(t: Tables, e: Event, fault: Fault, placed: seq<Action>)
    requires About(placed, e) && RowsAre(t, placed)
    ensures var u := CreateOrder(t, e, fault); Carries(t, u, placed) && u.stock == t.stock && u.reserves == t.reserves
  {
    hide CreateOrder;
    CreateEffect(t, e, fault);
  }

  /** An order is created or not, and announced or not. */
  lemma CreateEffect(t: Tables, e: Event, fault: Fault)
    ensures var u := CreateOrder(t, e, fault);
            u.(queue := t.queue, orders := t.orders) == t
            && (u.orders == t.orders || u.orders == t.orders[e.id := Order(e.item, e.count, Normal)])
            && (u.queue == t.queue || exists ok: bool :: u.queue == t.queue + [Event(e.id, CreatingOrder, e.item, e.count, ok)])
  {
    var ok := fault == NoFault;
    var ended := Event(e.id, CreatingOrder, e.item, e.count, ok);
    assert CreateOrder(t, e, fault).queue == t.queue || CreateOrder(t, e, fault).queue == t.queue + [ended];
  }

  lemma DeductCarries(t: Tables, e: Event, fault: Fault, placed: seq<Action>)
    requires About(placed, e) && RowsAre(t, placed)
    ensures Carries(t, DeductStock(t, e, fault), placed)
  {
    hide DeductStock;
    DeductQueue(t, e, fault);
    DeductEffect(t, e, fault);
  }

  lemma CancelCarries(t: Tables, e: Event, placed: seq<Action>)
    requires About(placed, e) && RowsAre(t, placed)
    ensures Carries(t, CancelDeduct(t, e.id, e.item).0, placed)
  {
  }

  lemma CancelOrderCarries(t: Tables, id: nat, placed: seq<Action>)
    requires RowsAre(t, placed)
    ensures var u := CancelOrder(t, id).0; Carries(t, u, placed) && u.stock == t.stock && u.reserves == t.reserves
  {
  }

  lemma LogCarries(t: Tables, w: Worker, fault: Fault, placed: seq<Action>)
    requires w.Busy? && w.pc != Creating && w.pc != Deducting && w.pc != Undoing && RowsAre(t, placed)
    ensures var u := Work(t, w, fault).0; Carries(t, u, placed) && u.stock == t.stock && u.reserves == t.reserves
  {
    hide Work;
    LogStock(t, w, fault);
  }

  lemma LogStock(t: Tables, w: Worker, fault: Fault)
    requires w.Busy? && w.pc != Creating && w.pc != Deducting && w.pc != Undoing
    ensures var u := Work(t, w, fault).0;
            u.stock == t.stock && u.orders == t.orders && u.reserves == t.reserves && u.queue == t.queue && u.nextId == t.nextId
  {
    hide Invoke, UpdateLog, InsertLog, SetStatus, LogOf, Reversed;
    var e := w.event;
    match w.pc
    case MarkSucceeded => UpdateStock(t, e.id, e.phase, Succeeded, fault);
    case Inserting => InsertStock(t, e.id, Next(e.phase), fault);
    case SettingFinished => SetStock(t, e.id, Finished, fault);
    case SettingCanceled => SetStock(t, e.id, Canceled, fault);
    case MarkUndone => if |w.todo| > 0 { UpdateStock(t, e.id, w.todo[0].phase, Undone, fault); }
    case _ =>
  }

  predicate SameShop(t: Tables, u: Tables) {
    u.stock == t.stock && u.orders == t.orders && u.reserves == t.reserves && u.queue == t.queue && u.nextId == t.nextId
  }

  lemma UpdateStock(t: Tables, id: nat, phase: Phase, status: LogStatus, fault: Fault)
    ensures SameShop(t, Invoke(fault, t, UpdateLog(t, id, phase, status)).0)
  {
    hide Find;
  }

  lemma InsertStock(t: Tables, id: nat, phase: Phase, fault: Fault)
    ensures SameShop(t, Invoke(fault, t, InsertLog(t, id, phase)).0)
  {
  }

  lemma SetStock(t: Tables, id: nat, status: SagaStatus, fault: Fault)
    ensures SameShop(t, Invoke(fault, t, SetStatus(t, id, status)).0)
  {
  }

  lemma WorkCarries(t: Tables, w: Worker, fault: Fault, placed: seq<Action>)
    requires w.Busy? && About(placed, w.event) && RowsAre(t, placed)
    ensures Carries(t, Work(t, w, fault).0, placed)
    ensures var next := Work(t, w, fault).1; next.Busy? ==> next.event == w.event
  {
    hide About, RowsAre, UpdateLog, InsertLog, SetStatus, CreateOrder, DeductStock, CancelDeduct, CancelOrder, Reversed;
    if w.pc == Creating {
      CreateCarries(t, w.event, fault, placed);
    } else if w.pc == Deducting {
      DeductCarries(t, w.event, fault, placed);
    } else if w.pc == Undoing {
      CancelCarries(t, w.event, placed);
      CancelOrderCarries(t, w.event.id, placed);
    } else {
      LogCarries(t, w, fault, placed);
    }
  }

  /** The orders placed after an action. */
  function PlacedBy(placed: seq<Action>, a: Action): seq<Action> {
    if a.Place? then placed + [a] else placed
  }

  lemma PlaceCarries(s: System, placed: seq<Action>, a: Action)
    requires Carried(s, placed) && a.Place?
    ensures Carried(Happen(s, a), placed + [a])
  {
  }

  lemma HappenCarries(s: System, placed: seq<Action>, a: Action)
    requires Carried(s, placed)
    ensures Carried(Happen(s, a), PlacedBy(placed, a))
  {
    hide Work, About;
    match a
    case Place(item, count) => PlaceCarries(s, placed, a);
    case Take(who) =>
    case Act(who, fault) =>
      if who < |s.workers| && s.workers[who].Busy? {
        WorkCarries(s.tables, s.workers[who], fault, placed);
      }
  }

  lemma {:induction false} RunCarries(s: System, placed: seq<Action>, actions: seq<Action>)
    requires Carried(s, placed)
    ensures Carried(Run(s, actions), placed + Places(actions))
    decreases actions
  {
    hide Carried, Happen;
    if |actions| == 0 {
      assert placed + [] == placed;
    } else {
      HappenCarries(s, placed, actions[0]);
      RunCarries(Happen(s, actions[0]), PlacedBy(placed, actions[0]), actions[1..]);
      assert PlacedBy(placed, actions[0]) + Places(actions[1..]) == placed + Places(actions);
    }
  }

  lemma BeginsCarried(stock: map<nat, int>)
    ensures Carried(Begin(stock), [])
  {
  }

  /** In every run, whatever fails and however many workers interleave: there is a saga for
      each order that was placed; its order, and its reservation as long as it is not
      withdrawn, carry the item and the count that were placed. */
  lemma SagasCarry(stock: map<nat, int>, actions: seq<Action>, id: nat)
    ensures var t, placed := Run(Begin(stock), actions).tables, Places(actions);
            t.nextId == |placed|
            && (id in t.orders ==> id < |placed| && t.orders[id].item == placed[id].item && t.orders[id].count == placed[id].count)
            && (id in t.reserves && t.reserves[id].status == Normal ==>
                  id < |placed| && t.reserves[id].item == placed[id].item && t.reserves[id].count == placed[id].count)
  {
    hide Run;
    BeginsCarried(stock);
    RunCarries(Begin(stock), [], actions);
    assert [] + Places(actions) == Places(actions);
  }

  // ---------- runs ----------

  predicate Sensible(actions: seq<Action>) {
    forall k | 0 <= k < |actions| :: actions[k].Place? ==> actions[k].count >= 0
  }

  lemma OfReserve(t: Tables, placed: seq<Action>, e: Event)
    requires About(placed, e) && RowsAre(t, placed)
    ensures e.id < |placed| && (e.id in t.reserves ==> t.reserves[e.id].item == e.item)
    ensures Sensible(placed) ==> e.count >= 0
  {
  }

  /** A step conserves the stock. */
  lemma WorkStock(t: Tables, w: Worker, fault: Fault, initial: map<nat, int>, placed: seq<Action>, limit: nat)
    requires w.Busy? && About(placed, w.event) && RowsAre(t, placed) && |placed| <= limit && Conserved(t, initial, limit)
    ensures Conserved(Work(t, w, fault).0, initial, limit)
    ensures NotOversold(t) && Sensible(placed) ==> NotOversold(Work(t, w, fault).0)
  {
    hide Conserved, NotOversold, RowsAre, About, Sensible;
    hide UpdateLog, InsertLog, SetStatus, CreateOrder, DeductStock, CancelDeduct, CancelOrder;
    var e := w.event;
    OfReserve(t, placed, e);
    if w.pc == Creating {
      CreateCarries(t, e, fault, placed);
      SameStock(t, CreateOrder(t, e, fault), initial, limit);
    } else if w.pc == Deducting {
      DeductConserves(t, initial, limit, e, fault);
    } else if w.pc == Undoing {
      CancelOrderCarries(t, e.id, placed);
      CancelConserves(t, initial, limit, e.id, e.item);
      SameStock(t, CancelOrder(t, e.id).0, initial, limit);
    } else {
      LogCarries(t, w, fault, placed);
      SameStock(t, Work(t, w, fault).0, initial, limit);
    }
  }

  lemma HappenStock(s: System, initial: map<nat, int>, placed: seq<Action>, limit: nat, a: Action)
    requires Carried(s, placed) && |placed| <= limit && Conserved(s.tables, initial, limit)
    ensures Conserved(Happen(s, a).tables, initial, limit)
    ensures NotOversold(s.tables) && Sensible(placed) ==> NotOversold(Happen(s, a).tables)
  {
    hide Conserved, NotOversold, Sensible, RowsAre, About, Work;
    if a.Act? && a.who < |s.workers| && s.workers[a.who].Busy? {
      WorkStock(s.tables, s.workers[a.who], a.fault, initial, placed, limit);
    } else {
      SameStock(s.tables, Happen(s, a).tables, initial, limit);
    }
  }

  lemma {:induction false} RunStock(s: System, initial: map<nat, int>, placed: seq<Action>, limit: nat, actions: seq<Action>)
    requires Carried(s, placed) && |placed| + |actions| <= limit && Conserved(s.tables, initial, limit)
    ensures Conserved(Run(s, actions).tables, initial, limit)
    ensures NotOversold(s.tables) && Sensible(placed) && Sensible(actions) ==> NotOversold(Run(s, actions).tables)
    decreases actions
  {
    hide Conserved, NotOversold, Happen, Carried;
    if |actions| > 0 {
      HappenStock(s, initial, placed, limit, actions[0]);
      HappenCarries(s, placed, actions[0]);
      RunStock(Happen(s, actions[0]), initial, PlacedBy(placed, actions[0]), limit, actions[1..]);
    }
  }

  /** In every run, whatever fails and however often, each item is on stock or held by
      a reservation that was not withdrawn; and stock never becomes negative, when nobody
      orders less than nothing. */
  lemma SagasConserve(stock: map<nat, int>, actions: seq<Action>)
    ensures var t := Run(Begin(stock), actions).tables;
            Conserved(t, stock, |actions|)
            && (Sensible(actions) && (forall item | item in stock :: stock[item] >= 0) ==> NotOversold(t))
  {
    hide Run;
    forall item | item in stock ensures Sum(map[], Holds(item), |actions|) == 0 {
      SumNone(Holds(item), |actions|);
    }
    BeginsCarried(stock);
    RunStock(Begin(stock), stock, [], |actions|, actions);
  }

  // ---------- sums over the orders ----------

  /** How much of an item is ordered. */
  function OfItem(item: nat): Action -> int {
    (a: Action) => if a.Place? && a.item == item then a.count else 0
  }

  /** The sagas with a reservation that is not withdrawn. */
  function Reserving(t: Tables): set<nat> {
    set id | id in t.reserves && t.reserves[id].status == Normal
  }

  function FinishedSagas(t: Tables): set<nat> {
    set id | id in t.status && t.status[id] == Finished
  }

  lemma EntryOf(t: Tables, placed: seq<Action>, id: nat, item: nat)
    requires RowsAre(t, placed) && id < |placed|
    ensures Entry(t.reserves, Holds(item), id) == if id in Reserving(t) then OfItem(item)(placed[id]) else 0
  {
  }

  lemma {:induction false} PlacesFew(actions: seq<Action>)
    ensures |Places(actions)| <= |actions|
    ensures Sensible(actions) ==> Sensible(Places(actions))
    decreases actions
  {
    if |actions| > 0 {
      PlacesFew(actions[1..]);
    }
  }

  /** In every run what is left of an item and what was ordered by the sagas whose
      reservation is not withdrawn add up to the initial stock. */
  lemma StockAccounted(stock: map<nat, int>, actions: seq<Action>, item: nat)
    requires item in stock
    ensures var t := Run(Begin(stock), actions).tables;
            item in t.stock && t.stock[item] + Total(Places(actions), OfItem(item), Reserving(t)) == stock[item]
  {
    hide Run, Sum, Total, Places;
    var t, placed := Run(Begin(stock), actions).tables, Places(actions);
    BeginsCarried(stock);
    RunCarries(Begin(stock), [], actions);
    assert [] + placed == placed;
    forall k | 0 <= k < |placed|
      ensures Entry(t.reserves, Holds(item), k) == if k in Reserving(t) then OfItem(item)(placed[k]) else 0
    {
      EntryOf(t, placed, k, item);
    }
    SagasConserve(stock, actions);
    PlacesFew(actions);
    SumNoMore(t.reserves, Holds(item), |placed|, |actions|);
    SumIsTotal(t.reserves, Holds(item), placed, OfItem(item), Reserving(t), |placed|);
    assert placed[..|placed|] == placed;
  }

  /** No item is sold more often than it was there, in every run without the two harmful
      failures: what the finished sagas ordered is covered by the initial stock. */
  lemma SoldFromStock(stock: map<nat, int>, actions: seq<Action>, item: nat)
    requires AllFair(Begin(stock), actions)
    requires Sensible(actions) && item in stock && forall other | other in stock :: stock[other] >= 0
    ensures Total(Places(actions), OfItem(item), FinishedSagas(Run(Begin(stock), actions).tables)) <= stock[item]
  {
    hide Run, Total, Places, AllFair;
    var t, placed := Run(Begin(stock), actions).tables, Places(actions);
    PlacesFew(actions);
    forall id | id in FinishedSagas(t) ensures id in Reserving(t) {
      SagaOutcome.Outcome(stock, actions, id);
    }
    TotalOfFewer(placed, OfItem(item), FinishedSagas(t), Reserving(t));
    StockAccounted(stock, actions, item);
    SagasConserve(stock, actions);
  }
}
