/** Stock conservation under any sequence of service calls. */
module TccStock {
  import opened Ledger
  import opened TccServices
  import opened TccProtocol

  /** What a reservation holds of an item. */
  function Holds(item: nat): Reserve -> int {
    (r: Reserve) => if r.item == item && r.status != Released then r.count else 0
  }

  /** What the reservations with ids below `limit` hold of an item. */
  function Held(reserves: map<nat, Reserve>, item: nat, limit: nat): int {
    Sum(reserves, Holds(item), limit)
  }

  lemma HeldUpdate(reserves: map<nat, Reserve>, item: nat, id: nat, row: Reserve, limit: nat)
    ensures Held(reserves[id := row], item, limit) ==
      Held(reserves, item, limit) + if id < limit then Holds(item)(row) - Share(reserves, item, id) else 0
  {
    SumUpdate(reserves, Holds(item), id, row, limit);
  }

  function Share(reserves: map<nat, Reserve>, item: nat, id: nat): int {
    Entry(reserves, Holds(item), id)
  }

  /** Every item is on stock, held by a reservation, or was not there from the start. */
  predicate Conserved(t: Tables, initial: map<nat, int>, limit: nat) {
    t.stock.Keys == initial.Keys
    && forall item | item in initial :: t.stock[item] + Held(t.reserves, item, limit) == initial[item]
  }

  predicate NotOversold(t: Tables) {
    (forall item | item in t.stock :: t.stock[item] >= 0)
    && forall id | id in t.reserves :: t.reserves[id].count >= 0 && t.reserves[id].item in t.stock
  }

  /** The calls of the stock service. */
  datatype Request =
    | TryCall(id: nat, item: nat, count: int)
    | ConfirmCall(id: nat)
    | CancelCall(id: nat, item: nat)

  function Perform(t: Tables, q: Request): (Tables, bool) {
    match q
    case TryCall(id, item, count) => TryReserve(t, id, item, count)
    case ConfirmCall(id) => ConfirmReserve(t, id)
    case CancelCall(id, item) => CancelReserve(t, id, item)
  }

  /** A cancel puts back what it releases: the row it releases is of the item it names. */
  predicate NamesItem(t: Tables, q: Request) {
    q.CancelCall? && q.id in t.reserves && q.item in t.stock && t.reserves[q.id].status == Reserved ==>
      t.reserves[q.id].item == q.item || t.reserves[q.id].count == 0
  }

  lemma TryConserves(t: Tables, initial: map<nat, int>, limit: nat, id: nat, item: nat, count: int)
    requires Conserved(t, initial, limit) && id < limit
    ensures Conserved(TryReserve(t, id, item, count).0, initial, limit)
  {
    var u := TryReserve(t, id, item, count).0;
    forall other | other in initial ensures u.stock[other] + Held(u.reserves, other, limit) == initial[other] {
      HeldUpdate(t.reserves, other, id, Reserve(item, count, Reserved), limit);
    }
  }

  lemma ConfirmConserves(t: Tables, initial: map<nat, int>, limit: nat, id: nat)
    requires Conserved(t, initial, limit)
    ensures Conserved(ConfirmReserve(t, id).0, initial, limit)
  {
    var u := ConfirmReserve(t, id).0;
    if id in t.reserves {
      forall other | other in initial ensures u.stock[other] + Held(u.reserves, other, limit) == initial[other] {
        HeldUpdate(t.reserves, other, id, t.reserves[id].(status := Confirmed), limit);
      }
    }
  }

  /** A cancel conserves stock exactly when it names the reserved item. */
  lemma CancelConserves(t: Tables, initial: map<nat, int>, limit: nat, id: nat, item: nat)
    requires Conserved(t, initial, limit) && id < limit
    ensures Conserved(CancelReserve(t, id, item).0, initial, limit) <==> NamesItem(t, CancelCall(id, item))
  {
    var u := CancelReserve(t, id, item).0;
    if id in t.reserves {
      forall other | other in initial
        ensures u.reserves == t.reserves[id := t.reserves[id].(status := Released)] ==>
                  Held(u.reserves, other, limit) == Held(t.reserves, other, limit) - Share(t.reserves, other, id)
      {
        HeldUpdate(t.reserves, other, id, t.reserves[id].(status := Released), limit);
      }
      if item in t.stock && t.reserves[id].status == Reserved && t.reserves[id].item != item {
        assert u.stock[item] == t.stock[item] + t.reserves[id].count;
        assert Share(t.reserves, item, id) == 0;
      }
    } else {
      forall other | other in initial
        ensures u.reserves == t.reserves[id := Reserve(item, 0, Released)] ==> Held(u.reserves, other, limit) == Held(t.reserves, other, limit)
      {
        HeldUpdate(t.reserves, other, id, Reserve(item, 0, Released), limit);
      }
    }
  }

  /** A call that is repeated changes nothing more and has the same answer; a try has it as
      long as there is stock to try. */
  lemma Repeated(t: Tables, q: Request)
    ensures var (u, ok) := Perform(t, q);
            Perform(u, q).0 == u && (Perform(u, q).1 ==> ok)
            && (ok && (q.TryCall? ==> u.stock[q.item] >= q.count) ==> Perform(u, q).1)
  {
  }

  // ---------- runs of calls ----------

  /** One delivery of a call, which may fail before or after its effect. */
  datatype Delivery = Delivery(request: Request, fault: Fault)

  function Deliver(t: Tables, d: Delivery): Tables {
    Invoke(d.fault, t, Perform(t, d.request)).0
  }

  function DeliverAll(t: Tables, ds: seq<Delivery>): Tables
    decreases ds
  {
    if |ds| == 0 then t else DeliverAll(Deliver(t, ds[0]), ds[1..])
  }

  /** Counts are not negative, ids stay below the limit, and cancels name the reserved item. */
  predicate Honest(t: Tables, ds: seq<Delivery>, limit: nat)
    decreases ds
  {
    |ds| > 0 ==>
      ds[0].request.id < limit && NamesItem(t, ds[0].request) && (ds[0].request.TryCall? ==> ds[0].request.count >= 0)
      && Honest(Deliver(t, ds[0]), ds[1..], limit)
  }

  lemma DeliverConserves(t: Tables, initial: map<nat, int>, limit: nat, d: Delivery)
    requires Conserved(t, initial, limit) && d.request.id < limit && NamesItem(t, d.request)
    ensures Conserved(Deliver(t, d), initial, limit)
  {
    hide Conserved, TryReserve, ConfirmReserve, CancelReserve, NamesItem;
    match d.request
    case TryCall(id, item, count) => TryConserves(t, initial, limit, id, item, count);
    case ConfirmCall(id) => ConfirmConserves(t, initial, limit, id);
    case CancelCall(id, item) => CancelConserves(t, initial, limit, id, item);
  }

  lemma DeliverOversellsNot(t: Tables, d: Delivery)
    requires NotOversold(t) && (d.request.TryCall? ==> d.request.count >= 0)
    ensures NotOversold(Deliver(t, d))
  {
  }

  /** Whatever calls are delivered, repeated or lost: stock plus what is reserved or
      sold stays the initial stock, and no item is ever oversold. */
  lemma {:induction false} StockConserved(t: Tables, initial: map<nat, int>, ds: seq<Delivery>, limit: nat)
    requires Conserved(t, initial, limit) && NotOversold(t) && Honest(t, ds, limit)
    ensures Conserved(DeliverAll(t, ds), initial, limit) && NotOversold(DeliverAll(t, ds))
    decreases ds
  {
    hide Conserved, NotOversold, Deliver, NamesItem;
    if |ds| > 0 {
      DeliverConserves(t, initial, limit, ds[0]);
      DeliverOversellsNot(t, ds[0]);
      StockConserved(Deliver(t, ds[0]), initial, ds[1..], limit);
    }
  }

  // ---------- coordinators ----------

  /** A coordinator cancels the item it reserved. */
  predicate OwnItem(s: System, limit: nat) {
    forall i | 0 <= i < |s.coordinators| ::
      var c := s.coordinators[i];
      HasId(c) ==> c.id < limit && (c.id in s.tables.reserves ==> s.tables.reserves[c.id].item == c.item)
  }

  predicate StockOk(s: System, initial: map<nat, int>, limit: nat) {
    Conserved(s.tables, initial, limit) && OwnItem(s, limit)
  }

  /** Nobody orders less than nothing, and nothing is oversold. */
  predicate CountsOk(s: System) {
    NotOversold(s.tables) && forall i | 0 <= i < |s.coordinators| :: s.coordinators[i].count >= 0
  }

  /** The reservations are of the same items, with one more at most. */
  predicate SameItems(t: Tables, u: Tables, id: nat, item: nat) {
    (forall r | r in u.reserves :: r in t.reserves || (r == id && u.reserves[r].item == item))
    && forall r | r in t.reserves :: r in u.reserves && u.reserves[r].item == t.reserves[r].item
  }

  lemma TryItems(t: Tables, id: nat, item: nat, count: int)
    ensures SameItems(t, TryReserve(t, id, item, count).0, id, item)
  {
  }

  lemma ConfirmItems(t: Tables, id: nat, item: nat)
    ensures SameItems(t, ConfirmReserve(t, id).0, id, item)
  {
  }

  lemma CancelItems(t: Tables, id: nat, item: nat)
    ensures SameItems(t, CancelReserve(t, id, item).0, id, item)
  {
  }

  lemma OtherCall(t: Tables, c: Coordinator)
    requires c.pc != TryingStock && c.pc != ConfirmingStock && c.pc != CancelingStock
    ensures Call(t, c).0.stock == t.stock && Call(t, c).0.reserves == t.reserves
  {
  }

  /** The call of a coordinator, as far as the stock service is concerned. */
  lemma CallOnStock(t: Tables, c: Coordinator, initial: map<nat, int>, limit: nat)
    requires Conserved(t, initial, limit)
    requires HasId(c) ==> c.id < limit && (c.id in t.reserves ==> t.reserves[c.id].item == c.item)
    ensures Conserved(Call(t, c).0, initial, limit)
    ensures forall id | id in Call(t, c).0.reserves :: id in t.reserves || (id == c.id && HasId(c) && Call(t, c).0.reserves[id].item == c.item)
    ensures forall id | id in t.reserves :: id in Call(t, c).0.reserves && Call(t, c).0.reserves[id].item == t.reserves[id].item
  {
    hide Conserved, TryReserve, ConfirmReserve, CancelReserve;
    match c.pc
    case TryingStock =>
      TryItems(t, c.id, c.item, c.count);
      TryConserves(t, initial, limit, c.id, c.item, c.count);
    case ConfirmingStock =>
      ConfirmItems(t, c.id, c.item);
      ConfirmConserves(t, initial, limit, c.id);
    case CancelingStock =>
      CancelItems(t, c.id, c.item);
      CancelConserves(t, initial, limit, c.id, c.item);
    case _ =>
      OtherCall(t, c);
      SameStock(t, Call(t, c).0, initial, limit);
  }

  lemma CallOversellsNot(t: Tables, c: Coordinator)
    requires NotOversold(t) && c.count >= 0
    ensures NotOversold(Call(t, c).0)
  {
    hide NotOversold, TryReserve, ConfirmReserve, CancelReserve;
    match c.pc
    case TryingStock => DeliverOversellsNot(t, Delivery(TryCall(c.id, c.item, c.count), NoFault));
    case ConfirmingStock => DeliverOversellsNot(t, Delivery(ConfirmCall(c.id), NoFault));
    case CancelingStock => DeliverOversellsNot(t, Delivery(CancelCall(c.id, c.item), NoFault));
    case _ =>
      OtherCall(t, c);
      SameStock(t, Call(t, c).0, map[], 0);
  }

  lemma SameStock(t: Tables, u: Tables, initial: map<nat, int>, limit: nat)
    requires u.stock == t.stock && u.reserves == t.reserves
    ensures Conserved(t, initial, limit) ==> Conserved(u, initial, limit)
    ensures NotOversold(t) ==> NotOversold(u)
  {
  }

  predicate Sensible(events: seq<Event>) {
    forall k | 0 <= k < |events| :: events[k].Arrive? ==> events[k].count >= 0
  }

  lemma ActStock(s: System, initial: map<nat, int>, limit: nat, who: nat, fault: Fault)
    requires Invariant(s) && StockOk(s, initial, limit) && s.tables.nextId < limit && who < |s.coordinators|
    ensures StockOk(Happen(s, Act(who, fault)), initial, limit)
  {
    hide Conserved, Call, Continue, RowsOk, KnowsOk;
    var t, c := s.tables, s.coordinators[who];
    CallOnStock(t, c, initial, limit);
    var r := Happen(s, Act(who, fault));
    var u := r.tables;
    NextOf(t, c, fault);
    forall i | 0 <= i < |r.coordinators|
      ensures var d := r.coordinators[i];
              HasId(d) ==> d.id < limit && (d.id in u.reserves ==> u.reserves[d.id].item == d.item)
    {
      var d := r.coordinators[i];
      if i != who {
        if c.pc != Done {
          OtherSubject(s, who, i);
        }
      } else if c.pc == InsertingTcc {
        assert RowsOk(s.tables, s.decision, s.tables.nextId);
        NewRowFree(s);
      }
    }
  }

  lemma NewRowFree(s: System)
    requires RowsOk(s.tables, s.decision, s.tables.nextId)
    ensures s.tables.nextId !in s.tables.reserves
  {
  }

  lemma NextOf(t: Tables, c: Coordinator, fault: Fault)
    ensures var (u, next) := Turn(t, c, fault);
            next.item == c.item && next.count == c.count && (u == t || u == Call(t, c).0)
            && (HasId(next) ==> next.id == if c.pc == InsertingTcc then t.nextId else c.id)
            && (HasId(next) && c.pc != InsertingTcc ==> HasId(c))
  {
    hide Call;
  }

  lemma HappenStock(s: System, initial: map<nat, int>, limit: nat, e: Event)
    requires Invariant(s) && StockOk(s, initial, limit) && s.tables.nextId < limit
    ensures StockOk(Happen(s, e), initial, limit) && Happen(s, e).tables.nextId <= s.tables.nextId + 1
  {
    hide Invariant, Conserved;
    match e
    case Arrive(item, count) =>
    case Act(who, fault) =>
      if who < |s.coordinators| {
        ActStock(s, initial, limit, who, fault);
        NextId(s.tables, s.coordinators[who], fault);
      }
  }

  lemma NextId(t: Tables, c: Coordinator, fault: Fault)
    ensures Turn(t, c, fault).0.nextId <= t.nextId + 1
  {
  }

  lemma {:induction false} RunStock(s: System, initial: map<nat, int>, limit: nat, events: seq<Event>)
    requires Invariant(s) && StockOk(s, initial, limit) && s.tables.nextId + |events| <= limit
    ensures StockOk(Run(s, events), initial, limit)
    decreases events
  {
    hide Invariant, StockOk, Happen;
    if |events| > 0 {
      HappenStock(s, initial, limit, events[0]);
      HappenKeeps(s, events[0]);
      RunStock(Happen(s, events[0]), initial, limit, events[1..]);
    }
  }

  lemma HappenCounts(s: System, e: Event)
    requires CountsOk(s) && (e.Arrive? ==> e.count >= 0)
    ensures CountsOk(Happen(s, e))
  {
    hide NotOversold, Call, Continue;
    if e.Act? && e.who < |s.coordinators| {
      CallOversellsNot(s.tables, s.coordinators[e.who]);
      NextOf(s.tables, s.coordinators[e.who], e.fault);
    }
  }

  lemma {:induction false} RunCounts(s: System, events: seq<Event>)
    requires CountsOk(s) && Sensible(events)
    ensures CountsOk(Run(s, events))
    decreases events
  {
    hide CountsOk, Happen;
    if |events| > 0 {
      HappenCounts(s, events[0]);
      RunCounts(Happen(s, events[0]), events[1..]);
    }
  }

  /** In every interleaving of coordinators, with any calls failing in any way, every
      item is either on stock or held by a reservation that was not released. */
  lemma InterleavingsConserve(stock: map<nat, int>, events: seq<Event>)
    ensures Conserved(Run(Begin(stock), events).tables, stock, |events|)
  {
    hide Run;
    forall item | item in stock ensures Held(map[], item, |events|) == 0 {
      SumNone(Holds(item), |events|);
    }
    BeginsRight(stock);
    RunStock(Begin(stock), stock, |events|, events);
  }

  /** And stock never becomes negative, when nobody orders less than nothing. */
  lemma InterleavingsOversellNot(stock: map<nat, int>, events: seq<Event>)
    requires Sensible(events) && forall item | item in stock :: stock[item] >= 0
    ensures NotOversold(Run(Begin(stock), events).tables)
  {
    hide Run;
    RunCounts(Begin(stock), events);
  }
}
