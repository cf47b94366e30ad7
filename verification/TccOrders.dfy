/** When a transaction has an order: exactly, in every interleaving. */
module TccOrders {
  import opened TccServices
  import opened TccProtocol
  import opened TccFinish

  /** From a stage on, the coordinator gets as far as its order, and the try takes effect;
      `there` says whether its item can be looked up. */
  predicate Tried(stage: nat, there: bool, faults: seq<Fault>) {
    match stage
    case 0 => there && |faults| > 2 && faults[0].NoFault? && faults[1].NoFault? && !faults[2].Before?
    case 1 => there && |faults| > 1 && faults[0].NoFault? && !faults[1].Before?
    case 2 => |faults| > 0 && !faults[0].Before?
    case _ => false
  }

  /** Only the try inserts an order, and nothing removes one. */
  lemma CallOrders(t: Tables, c: Coordinator)
    requires HasId(c)
    ensures c.id in Call(t, c).0.orders <==> c.id in t.orders || c.pc == TryingOrder
    ensures c.pc == LookingUp ==> Call(t, c).1 == (c.item in t.stock)
  {
  }

  /** An order is confirmed once and canceled once, and nothing else is done to it then. */
  lemma SettledOnce(t: Tables, id: nat)
    ensures ConfirmOrder(t, id).1 ==> var u := ConfirmOrder(t, id).0; ConfirmOrder(u, id) == (u, false) && CancelOrder(u, id) == (u, false)
    ensures CancelOrder(t, id).1 && id in t.orders ==>
              var u := CancelOrder(t, id).0; CancelOrder(u, id) == (u, false) && ConfirmOrder(u, id) == (u, false)
  {
  }

  lemma TurnOrders(t: Tables, c: Coordinator, fault: Fault)
    requires HasId(c)
    ensures var (u, next) := Turn(t, c, fault);
            (c.id in u.orders <==> c.id in t.orders || (c.pc == TryingOrder && !fault.Before?))
            && (c.pc == LookingUp ==> (next.pc != Done <==> c.item in t.stock && fault.NoFault?))
            && u.stock.Keys == t.stock.Keys && next.item == c.item
  {
    hide Call;
    CallOrders(t, c);
    CallKeeps(t, c);
  }

  lemma LeftOrder(s: System, e: Event, id: nat)
    requires Left(s, id)
    ensures Left(Happen(s, e), id) && (id in Happen(s, e).tables.orders <==> id in s.tables.orders)
  {
    hide Turn;
    LeftStays(s, e, id);
    if e.Act? && e.who < |s.coordinators| {
      ActElsewhere(s, e.who, e.fault, id);
    }
  }

  lemma {:induction false} LeftOrders(s: System, events: seq<Event>, id: nat)
    requires Left(s, id)
    ensures id in Run(s, events).tables.orders <==> id in s.tables.orders
    decreases events
  {
    hide Left, Happen;
    if |events| > 0 {
      LeftOrder(s, events[0], id);
      LeftOrders(Happen(s, events[0]), events[1..], id);
    }
  }

  lemma OwnOrder(s: System, who: nat, fault: Fault, id: nat)
    requires Invariant(s) && WorksOn(s, who, id)
    ensures var r := Happen(s, Act(who, fault));
            var c := s.coordinators[who];
            who < |r.coordinators|
            && (id in r.tables.orders <==> id in s.tables.orders || (c.pc == TryingOrder && !fault.Before?))
            && (c.pc == LookingUp ==> (r.coordinators[who].pc != Done <==> c.item in s.tables.stock && fault.NoFault?))
  {
    hide Turn, Open, Invariant;
    TurnOrders(s.tables, s.coordinators[who], fault);
  }

  lemma OtherOrder(s: System, e: Event, who: nat, id: nat)
    requires Invariant(s) && WorksOn(s, who, id) && (e.Act? ==> e.who != who)
    ensures var r := Happen(s, e);
            (id in r.tables.orders <==> id in s.tables.orders)
            && (s.coordinators[who].item in r.tables.stock <==> s.coordinators[who].item in s.tables.stock)
  {
    hide Turn, RowsOk, KnowsOk, Invariant;
    Known(s, who, id);
    if e.Act? && e.who < |s.coordinators| {
      ActElsewhere(s, e.who, e.fault, id);
    }
  }

  /** One call fewer to go: what is left to happen after the first of the faults. */
  lemma TriedStep(stage: nat, there: bool, fault: Fault, rest: seq<Fault>)
    requires stage > 0
    ensures Tried(stage, there, [fault] + rest) <==>
              (stage == 2 && !fault.Before?) || (stage == 1 && there && fault.NoFault? && Tried(2, there, rest))
  {
    assert ([fault] + rest)[1..] == rest;
  }

  lemma {:induction false} RunOrders(s: System, events: seq<Event>, who: nat, id: nat)
    requires Invariant(s) && WorksOn(s, who, id)
    ensures var c := s.coordinators[who];
            id in Run(s, events).tables.orders
            <==> id in s.tables.orders || Tried(Stage(c.pc), c.item in s.tables.stock, FaultsOf(events, who))
    decreases events
  {
    hide Invariant, Happen, Left, Tried;
    var c := s.coordinators[who];
    if |events| == 0 {
      NeverTried(Stage(c.pc), c.item in s.tables.stock);
    } else {
      var r := Happen(s, events[0]);
      HappenKeeps(s, events[0]);
      if events[0].Act? && events[0].who == who {
        OwnStep(s, who, events[0].fault, id);
        OwnOrder(s, who, events[0].fault, id);
        TriedStep(Stage(c.pc), c.item in s.tables.stock, events[0].fault, FaultsOf(events[1..], who));
        HappenItems(s, events[0]);
        if r.coordinators[who].pc == Done {
          LeftOrders(r, events[1..], id);
        } else {
          RunOrders(r, events[1..], who, id);
          LaterTried(Stage(r.coordinators[who].pc), c.item in s.tables.stock, FaultsOf(events[1..], who));
        }
      } else {
        OtherStep(s, events[0], who, id);
        OtherOrder(s, events[0], who, id);
        RunOrders(r, events[1..], who, id);
      }
    }
  }

  lemma NeverTried(stage: nat, there: bool)
    ensures !Tried(stage, there, [])
  {
  }

  lemma LaterTried(stage: nat, there: bool, faults: seq<Fault>)
    ensures stage > 2 ==> !Tried(stage, there, faults)
  {
  }

  lemma {:induction false} OrderedFrom(s: System, events: seq<Event>, id: nat)
    requires Invariant(s) && s.tables.nextId <= id < Run(s, events).tables.nextId
    ensures var k := Inserted(s, events, id);
            k < |events| && events[k].Act? && events[k].who < |Run(s, events).coordinators|
            && (id in Run(s, events).tables.orders
                <==> Tried(0, Run(s, events).coordinators[events[k].who].item in s.tables.stock, FaultsOf(events[k..], events[k].who)))
    decreases events
  {
    hide Invariant, FaultsOf, Happen, Left, Open, Tried;
    var e, r := events[0], Happen(s, events[0]);
    HappenKeeps(s, e);
    HappenItems(s, e);
    if r.tables.nextId > id {
      InsertsNow(s, e, id);
      InsertsBare(s, e, id);
      ItemStays(r, events[1..], e.who);
      assert events[0..] == events;
      FirstFault(events, e.who);
      FirstTried(r.coordinators[e.who].item in s.tables.stock, e.fault, FaultsOf(events[1..], e.who));
      if e.fault.NoFault? {
        RunOrders(r, events[1..], e.who, id);
      } else {
        LeftOrders(r, events[1..], id);
      }
    } else {
      var k := Inserted(r, events[1..], id);
      OrderedFrom(r, events[1..], id);
      assert events[1 + k..] == events[1..][k..];
    }
  }

  lemma FirstTried(there: bool, fault: Fault, rest: seq<Fault>)
    ensures Tried(0, there, [fault] + rest) <==> fault.NoFault? && Tried(1, there, rest)
  {
  }

  /** A transaction has no rows when it is inserted. */
  lemma InsertsBare(s: System, e: Event, id: nat)
    requires Invariant(s) && s.tables.nextId <= id < Happen(s, e).tables.nextId
    ensures id !in Happen(s, e).tables.orders && id !in Happen(s, e).tables.reserves
  {
    hide KnowsOk;
    assert RowsOk(s.tables, s.decision, id);
    if e.Act? && e.who < |s.coordinators| {
      InsertsId(s.tables, s.coordinators[e.who], e.fault);
    }
  }

  /** In every run, however many coordinators interleave: a transaction has an order if and
      only if its coordinator gets past the lookup and the try of the order takes effect,
      whatever it answers. */
  lemma OrderedExactly(stock: map<nat, int>, events: seq<Event>, id: nat)
    requires id < Run(Begin(stock), events).tables.nextId
    ensures var k := Inserted(Begin(stock), events, id);
            var r := Run(Begin(stock), events);
            k < |events| && events[k].Act? && events[k].who < |r.coordinators|
            && (id in r.tables.orders
                <==> Tried(0, r.coordinators[events[k].who].item in stock, FaultsOf(events[k..], events[k].who)))
  {
    hide Run, Inserted, Tried;
    BeginsRight(stock);
    OrderedFrom(Begin(stock), events, id);
  }

  /** A finished transaction lacks its order exactly when the try of the order had no
      effect; it has been canceled then. */
  lemma OrderMissing(stock: map<nat, int>, events: seq<Event>, id: nat)
    requires IsFinished(Run(Begin(stock), events).tables, id)
    ensures var k := Inserted(Begin(stock), events, id);
            var s := Run(Begin(stock), events);
            k < |events| && events[k].Act?
            && var faults := FaultsOf(events[k..], events[k].who);
               |faults| >= CALLS && (id !in s.tables.orders <==> faults[2].Before?)
               && (faults[2].Before? ==> id in s.decision && !s.decision[id])
  {
    hide Run, Inserted, FaultsOf;
    BeginsRight(stock);
    RunKeeps(Begin(stock), events);
    assert RowsOk(Run(Begin(stock), events).tables, Run(Begin(stock), events).decision, id);
    FinishedExactly(stock, events, id);
    OrderedExactly(stock, events, id);
    FinishedCarriedOut(stock, events, id);
    var k := Inserted(Begin(stock), events, id);
    var faults := FaultsOf(events[k..], events[k].who);
    assert Survives(0, faults[0]) && Survives(1, faults[1]);
  }
}
