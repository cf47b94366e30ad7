/** What the rows of a transaction carry, and what that makes of the stock: everything
    said of the orders as they arrived. */
module TccRows {
  import opened Ledger
  import opened TccServices
  import opened TccProtocol
  import opened TccFinish
  import TccOrders
  import opened TccStock

  // ---------- the rows of one transaction ----------

  /** The order and the unreleased reservation are of that item and count. */
  predicate Carry(t: Tables, id: nat, item: nat, count: int) {
    (id in t.orders ==> t.orders[id].item == item && t.orders[id].count == count)
    && (Holding(t, id) ==> t.reserves[id].item == item && t.reserves[id].count == count)
  }

  predicate Holding(t: Tables, id: nat) {
    id in t.reserves && t.reserves[id].status != Released
  }

  /** No other coordinator works on the transaction. */
  predicate Owns(s: System, who: nat, id: nat) {
    who < |s.coordinators| && id < s.tables.nextId
    && forall i | 0 <= i < |s.coordinators| && HasId(s.coordinators[i]) && s.coordinators[i].id == id :: i == who
  }

  lemma CallCarries(t: Tables, c: Coordinator)
    requires HasId(c) && Carry(t, c.id, c.item, c.count)
    ensures Carry(Call(t, c).0, c.id, c.item, c.count)
  {
  }

  lemma SameCarry(t: Tables, u: Tables, decision: map<nat, bool>, after: map<nat, bool>, id: nat, item: nat, count: int)
    requires SameRows(t, u, decision, after, id) && Carry(t, id, item, count)
    ensures Carry(u, id, item, count)
  {
  }

  /** The coordinators stay, with their items and counts. */
  lemma HappenPlaces(s: System, e: Event)
    ensures var r := Happen(s, e);
            |r.coordinators| == |s.coordinators| + (if e.Arrive? then 1 else 0)
            && (forall i | 0 <= i < |s.coordinators| ::
                  r.coordinators[i].item == s.coordinators[i].item && r.coordinators[i].count == s.coordinators[i].count)
            && (e.Arrive? ==> r.coordinators[|s.coordinators|].item == e.item && r.coordinators[|s.coordinators|].count == e.count)
  {
    hide Turn;
    if e.Act? && e.who < |s.coordinators| {
      NextOf(s.tables, s.coordinators[e.who], e.fault);
    }
  }

  lemma OwnedStep(s: System, e: Event, who: nat, id: nat)
    requires Owns(s, who, id) && Carry(s.tables, id, s.coordinators[who].item, s.coordinators[who].count)
    ensures var r := Happen(s, e); Owns(r, who, id) && Carry(r.tables, id, s.coordinators[who].item, s.coordinators[who].count)
  {
    hide Turn, Call, Carry, SameRows;
    if e.Act? && e.who < |s.coordinators| {
      var t, c, r := s.tables, s.coordinators[e.who], Happen(s, e);
      if HasId(c) && c.id == id {
        CallCarries(t, c);
        NextOf(t, c, e.fault);
        NextIdGrows(t, c, e.fault);
      } else {
        ActElsewhere(s, e.who, e.fault, id);
        SameCarry(t, r.tables, s.decision, r.decision, id, s.coordinators[who].item, s.coordinators[who].count);
      }
    }
  }

  lemma {:induction false} OwnedRun(s: System, events: seq<Event>, who: nat, id: nat)
    requires Owns(s, who, id) && Carry(s.tables, id, s.coordinators[who].item, s.coordinators[who].count)
    ensures Carry(Run(s, events).tables, id, s.coordinators[who].item, s.coordinators[who].count)
    decreases events
  {
    hide Happen, Carry;
    if |events| > 0 {
      OwnedStep(s, events[0], who, id);
      HappenPlaces(s, events[0]);
      OwnedRun(Happen(s, events[0]), events[1..], who, id);
    }
  }

  // ---------- orders as they arrive ----------

  /** The orders that arrive, one for each coordinator. */
  function Arrivals(events: seq<Event>): (r: seq<Event>)
    ensures forall k | 0 <= k < |r| :: r[k].Arrive?
  {
    if |events| == 0 then []
    else if events[0].Arrive? then [events[0]] + Arrivals(events[1..])
    else Arrivals(events[1..])
  }

  lemma {:induction false} ArrivalsCoordinate(s: System, events: seq<Event>)
    ensures var r, n := Run(s, events), |s.coordinators|;
            |r.coordinators| == n + |Arrivals(events)|
            && (forall i | 0 <= i < n :: r.coordinators[i].item == s.coordinators[i].item && r.coordinators[i].count == s.coordinators[i].count)
            && forall i | n <= i < |r.coordinators| ::
                 r.coordinators[i].item == Arrivals(events)[i - n].item && r.coordinators[i].count == Arrivals(events)[i - n].count
    decreases events
  {
    hide Happen;
    if |events| > 0 {
      HappenPlaces(s, events[0]);
      ArrivalsCoordinate(Happen(s, events[0]), events[1..]);
    }
  }

  /** The transaction carries what its coordinator was to order. */
  lemma {:induction false} CarriedFrom(s: System, events: seq<Event>, id: nat)
    requires Invariant(s) && s.tables.nextId <= id < Run(s, events).tables.nextId
    ensures var k, r := Inserted(s, events, id), Run(s, events);
            k < |events| && events[k].Act? && events[k].who < |r.coordinators|
            && Carry(r.tables, id, r.coordinators[events[k].who].item, r.coordinators[events[k].who].count)
    decreases events
  {
    hide Invariant, Happen, Carry, Owns;
    var e, r := events[0], Happen(s, events[0]);
    HappenKeeps(s, e);
    if r.tables.nextId > id {
      InsertsOwned(s, e, id);
      OwnedRun(r, events[1..], e.who, id);
      ArrivalsCoordinate(r, events[1..]);
    } else {
      CarriedFrom(r, events[1..], id);
    }
  }

  lemma InsertsOwned(s: System, e: Event, id: nat)
    requires Invariant(s) && s.tables.nextId <= id < Happen(s, e).tables.nextId
    ensures e.Act?
    ensures var r := Happen(s, e);
            e.who < |r.coordinators| && Owns(r, e.who, id) && Carry(r.tables, id, r.coordinators[e.who].item, r.coordinators[e.who].count)
  {
    hide Invariant, Happen, Open, RowsOk, KnowsOk;
    HappenKeeps(s, e);
    InsertsNow(s, e, id);
    TccOrders.InsertsBare(s, e, id);
    HappenPlaces(s, e);
    var r := Happen(s, e);
    if e.fault.NoFault? {
      Known(r, e.who, id);
    }
  }

  /** What was ordered by the coordinator that inserted the transaction. */
  function Placed(stock: map<nat, int>, events: seq<Event>, id: nat): (a: Event)
    ensures a.Arrive?
  {
    var k := Inserted(Begin(stock), events, id);
    if k < |events| && events[k].Act? && events[k].who < |Arrivals(events)| then Arrivals(events)[events[k].who] else Arrive(0, 0)
  }

  /** In every run, however many coordinators interleave: the order of a transaction, and
      its reservation as long as it is not released, carry the item and the count that
      arrived with the coordinator which inserted the transaction. */
  lemma RowsCarry(stock: map<nat, int>, events: seq<Event>, id: nat)
    requires id < Run(Begin(stock), events).tables.nextId
    ensures var t, k := Run(Begin(stock), events).tables, Inserted(Begin(stock), events, id);
            k < |events| && events[k].Act? && events[k].who < |Arrivals(events)|
            && var a := Arrivals(events)[events[k].who];
               Placed(stock, events, id) == a
               && (id in t.orders ==> t.orders[id].item == a.item && t.orders[id].count == a.count)
               && (id in t.reserves && t.reserves[id].status != Released ==> t.reserves[id].item == a.item && t.reserves[id].count == a.count)
  {
    hide Run, Inserted;
    BeginsRight(stock);
    CarriedFrom(Begin(stock), events, id);
    ArrivalsCoordinate(Begin(stock), events);
  }

  // ---------- sums over the orders ----------

  /** The orders of the transactions, by their ids. */
  function Orders(stock: map<nat, int>, events: seq<Event>): (r: seq<Event>)
    ensures forall k | 0 <= k < |r| :: r[k].Arrive?
  {
    seq(Run(Begin(stock), events).tables.nextId, id requires id >= 0 => Placed(stock, events, id))
  }

  /** How much of an item is ordered. */
  function OfItem(item: nat): Event -> int {
    (a: Event) => if a.Arrive? && a.item == item then a.count else 0
  }

  /** The transactions with a reservation that is not released. */
  function Reserving(t: Tables): set<nat> {
    set id | id in t.reserves && t.reserves[id].status != Released
  }

  /** The transactions with a confirmed order. */
  function Ordered(t: Tables): set<nat> {
    set id | id in t.orders && t.orders[id].status == Normal
  }

  lemma {:induction false} IdsAreFew(s: System, events: seq<Event>)
    ensures Run(s, events).tables.nextId <= s.tables.nextId + |events|
    decreases events
  {
    hide Happen;
    if |events| > 0 {
      IdGrowth(s, events[0]);
      IdsAreFew(Happen(s, events[0]), events[1..]);
    }
  }

  lemma IdGrowth(s: System, e: Event)
    ensures Happen(s, e).tables.nextId <= s.tables.nextId + 1
  {
    hide Turn;
    if e.Act? && e.who < |s.coordinators| {
      NextId(s.tables, s.coordinators[e.who], e.fault);
    }
  }

  /** In every run what is left of an item and what was ordered by the transactions whose
      reservation is not released add up to the initial stock. */
  lemma StockAccounted(stock: map<nat, int>, events: seq<Event>, item: nat)
    requires item in stock
    ensures var t := Run(Begin(stock), events).tables;
            item in t.stock && t.stock[item] + Total(Orders(stock, events), OfItem(item), Reserving(t)) == stock[item]
  {
    hide Run, Placed, Sum, Total, Carry;
    var s, orders := Run(Begin(stock), events), Orders(stock, events);
    var t := s.tables;
    forall k | 0 <= k < |orders|
      ensures Entry(t.reserves, Holds(item), k) == if k in Reserving(t) then OfItem(item)(orders[k]) else 0
    {
      Carried(stock, events, k);
      EntryOf(t, k, orders[k], item);
    }
    BeginsRight(stock);
    RunKeeps(Begin(stock), events);
    KnownReserves(s);
    InterleavingsConserve(stock, events);
    IdsAreFew(Begin(stock), events);
    SumNoMore(t.reserves, Holds(item), t.nextId, |events|);
    SumIsTotal(t.reserves, Holds(item), orders, OfItem(item), Reserving(t), t.nextId);
    assert orders[..t.nextId] == orders;
  }

  lemma EntryOf(t: Tables, id: nat, a: Event, item: nat)
    requires a.Arrive? && Carry(t, id, a.item, a.count)
    ensures Entry(t.reserves, Holds(item), id) == if id in Reserving(t) then OfItem(item)(a) else 0
  {
  }

  lemma Carried(stock: map<nat, int>, events: seq<Event>, id: nat)
    requires id < Run(Begin(stock), events).tables.nextId
    ensures var a := Placed(stock, events, id); Carry(Run(Begin(stock), events).tables, id, a.item, a.count)
  {
    hide Run, Placed, Inserted;
    RowsCarry(stock, events, id);
  }

  lemma KnownReserves(s: System)
    requires Invariant(s)
    ensures forall id | id in s.tables.reserves :: id < s.tables.nextId
    ensures Ordered(s.tables) <= Reserving(s.tables)
  {
    hide KnowsOk;
    forall id | id in s.tables.reserves || id in Ordered(s.tables)
      ensures id < s.tables.nextId && (id in Ordered(s.tables) ==> id in Reserving(s.tables))
    {
      assert RowsOk(s.tables, s.decision, id);
    }
  }

  lemma {:induction false} ArrivalsSensible(events: seq<Event>)
    requires Sensible(events)
    ensures forall k | 0 <= k < |Arrivals(events)| :: Arrivals(events)[k].count >= 0
    decreases events
  {
    if |events| > 0 {
      ArrivalsSensible(events[1..]);
    }
  }

  /** No item is sold more often than it was there: what the transactions with a confirmed
      order ordered is covered by the initial stock. */
  lemma SoldFromStock(stock: map<nat, int>, events: seq<Event>, item: nat)
    requires Sensible(events) && item in stock && forall other | other in stock :: stock[other] >= 0
    ensures Total(Orders(stock, events), OfItem(item), Ordered(Run(Begin(stock), events).tables)) <= stock[item]
  {
    hide Run, Total, Inserted;
    var s, orders := Run(Begin(stock), events), Orders(stock, events);
    ArrivalsSensible(events);
    assert forall k | 0 <= k < |orders| :: orders[k].count >= 0;
    BeginsRight(stock);
    RunKeeps(Begin(stock), events);
    KnownReserves(s);
    TotalOfFewer(orders, OfItem(item), Ordered(s.tables), Reserving(s.tables));
    StockAccounted(stock, events, item);
    InterleavingsOversellNot(stock, events);
  }
}
