/** When a transaction is finished: exactly, for a coordinator by itself and in every
    interleaving. */
module TccFinish {
  import opened TccServices
  import opened TccProtocol

  predicate Throws(fault: Fault) {
    !fault.NoFault? && fault.throws
  }

  /** Which failures the calls survive: the two tries any negative answer, the last call
      whatever happens behind its effect, all others none. */
  predicate Survives(call: nat, fault: Fault) {
    match call
    case 2 => !Throws(fault)
    case 3 => !Throws(fault)
    case 7 => !fault.Before?
    case _ => fault.NoFault?
  }

  /** All calls are made, and each one survives. */
  predicate Carries(faults: seq<Fault>) {
    |faults| >= CALLS && forall k | 0 <= k < CALLS :: Survives(k, faults[k])
  }

  // ---------- one coordinator ----------

  /** The position of a call in `placeOrder`. */
  function Stage(pc: Pc): nat {
    match pc
    case InsertingTcc => 0
    case LookingUp => 1
    case TryingOrder => 2
    case TryingStock => 3
    case DecidingConfirm => 4
    case DecidingCancel => 4
    case ConfirmingStock => 5
    case CancelingStock => 5
    case ConfirmingOrder => 6
    case CancelingOrder => 6
    case FinishingConfirm => 7
    case FinishingCancel => 7
    case Done => CALLS
  }

  /** The calls from a stage on survive the faults. */
  predicate AllSurvive(stage: nat, faults: seq<Fault>)
    decreases |faults|
  {
    stage < CALLS ==> |faults| > 0 && Survives(stage, faults[0]) && AllSurvive(stage + 1, faults[1..])
  }

  /** The item is there to be looked up, and neither side has failed to carry out the decision. */
  predicate CanFinish(t: Tables, c: Coordinator) {
    (c.pc == LookingUp ==> c.item in t.stock) && (Stage(c.pc) == 6 ==> c.stocked)
  }

  /** What a coordinator finds behind the lookup: the item, and until the last call an
      order that is as it was tried. */
  predicate Open(t: Tables, c: Coordinator) {
    (2 <= Stage(c.pc) < CALLS ==> c.item in t.stock)
    && (Stage(c.pc) < 7 && HasId(c) && c.id in t.orders ==> t.orders[c.id].status == Draft)
  }

  predicate IsFinished(t: Tables, id: nat) {
    id in t.tcc && t.tcc[id] == Finished
  }

  /** One call: the transaction can be finished afterwards exactly when it could be
      before and the call survives; the last call finishes it. */
  predicate Advances(t: Tables, c: Coordinator, fault: Fault, u: Tables, next: Coordinator) {
    next.item == c.item && next.pc != InsertingTcc && (HasId(next) ==> next.id == c.id && Open(u, next) && Stage(next.pc) == Stage(c.pc) + 1)
    && if Stage(c.pc) == 7 then next.pc == Done && (IsFinished(u, c.id) <==> Survives(7, fault))
       else !IsFinished(u, c.id)
            && (next.pc != Done && CanFinish(u, next) <==> CanFinish(t, c) && Survives(Stage(c.pc), fault))
  }

  lemma LookupAdvances(t: Tables, c: Coordinator, fault: Fault, decision: map<nat, bool>)
    requires Stage(c.pc) == 1 && RowsOk(t, decision, c.id) && KnowsOk(t, decision, c) && Open(t, c)
    ensures Advances(t, c, fault, Turn(t, c, fault).0, Turn(t, c, fault).1)
  {
  }

  lemma TryOrderAdvances(t: Tables, c: Coordinator, fault: Fault, decision: map<nat, bool>)
    requires Stage(c.pc) == 2 && RowsOk(t, decision, c.id) && KnowsOk(t, decision, c) && Open(t, c)
    ensures Advances(t, c, fault, Turn(t, c, fault).0, Turn(t, c, fault).1)
  {
  }

  lemma TryStockAdvances(t: Tables, c: Coordinator, fault: Fault, decision: map<nat, bool>)
    requires Stage(c.pc) == 3 && RowsOk(t, decision, c.id) && KnowsOk(t, decision, c) && Open(t, c)
    ensures Advances(t, c, fault, Turn(t, c, fault).0, Turn(t, c, fault).1)
  {
  }

  lemma DecideAdvances(t: Tables, c: Coordinator, fault: Fault, decision: map<nat, bool>)
    requires Stage(c.pc) == 4 && RowsOk(t, decision, c.id) && KnowsOk(t, decision, c) && Open(t, c)
    ensures Advances(t, c, fault, Turn(t, c, fault).0, Turn(t, c, fault).1)
  {
  }

  lemma ConfirmAdvances(t: Tables, c: Coordinator, fault: Fault, decision: map<nat, bool>)
    requires c.pc == ConfirmingStock && RowsOk(t, decision, c.id) && KnowsOk(t, decision, c) && Open(t, c)
    ensures Advances(t, c, fault, Turn(t, c, fault).0, Turn(t, c, fault).1)
  {
  }

  lemma CancelAdvances(t: Tables, c: Coordinator, fault: Fault, decision: map<nat, bool>)
    requires c.pc == CancelingStock && RowsOk(t, decision, c.id) && KnowsOk(t, decision, c) && Open(t, c)
    ensures Advances(t, c, fault, Turn(t, c, fault).0, Turn(t, c, fault).1)
  {
  }

  lemma OrderAdvances(t: Tables, c: Coordinator, fault: Fault, decision: map<nat, bool>)
    requires Stage(c.pc) == 6 && RowsOk(t, decision, c.id) && KnowsOk(t, decision, c) && Open(t, c)
    ensures Advances(t, c, fault, Turn(t, c, fault).0, Turn(t, c, fault).1)
  {
  }

  lemma FinishAdvances(t: Tables, c: Coordinator, fault: Fault, decision: map<nat, bool>)
    requires Stage(c.pc) == 7 && RowsOk(t, decision, c.id) && KnowsOk(t, decision, c)
    ensures Advances(t, c, fault, Turn(t, c, fault).0, Turn(t, c, fault).1)
  {
  }

  lemma TurnAdvances(t: Tables, c: Coordinator, fault: Fault, decision: map<nat, bool>)
    requires HasId(c) && RowsOk(t, decision, c.id) && KnowsOk(t, decision, c) && Open(t, c)
    ensures Advances(t, c, fault, Turn(t, c, fault).0, Turn(t, c, fault).1)
  {
    hide Turn, RowsOk, KnowsOk, Open, Advances;
    match Stage(c.pc)
    case 1 => LookupAdvances(t, c, fault, decision);
    case 2 => TryOrderAdvances(t, c, fault, decision);
    case 3 => TryStockAdvances(t, c, fault, decision);
    case 4 => DecideAdvances(t, c, fault, decision);
    case 5 => if c.pc == ConfirmingStock { ConfirmAdvances(t, c, fault, decision); } else { CancelAdvances(t, c, fault, decision); }
    case 6 => OrderAdvances(t, c, fault, decision);
    case 7 => FinishAdvances(t, c, fault, decision);
  }

  lemma CarriesAll(faults: seq<Fault>)
    ensures Carries(faults) <==> AllSurvive(0, faults)
  {
    hide Survives;
    if |faults| >= CALLS {
      AllSurviveStep(faults, 0);
      AllSurviveStep(faults, 1);
      AllSurviveStep(faults, 2);
      AllSurviveStep(faults, 3);
      AllSurviveStep(faults, 4);
      AllSurviveStep(faults, 5);
      AllSurviveStep(faults, 6);
      AllSurviveStep(faults, 7);
    } else {
      TooFew(faults, 0);
    }
  }

  lemma AllSurviveStep(faults: seq<Fault>, k: nat)
    requires k < CALLS <= |faults|
    ensures AllSurvive(k, faults[k..]) <==> Survives(k, faults[k]) && AllSurvive(k + 1, faults[k + 1..])
    ensures faults[0..] == faults && AllSurvive(CALLS, faults[CALLS..])
  {
    hide Survives;
    assert faults[k..][1..] == faults[k + 1..];
  }

  lemma {:induction false} TooFew(faults: seq<Fault>, stage: nat)
    requires |faults| + stage < CALLS
    ensures !AllSurvive(stage, faults)
    decreases faults
  {
    hide Survives;
    if |faults| > 0 {
      TooFew(faults[1..], stage + 1);
    }
  }

  // ---------- by itself ----------

  lemma {:induction false} AloneFinishes(t: Tables, c: Coordinator, faults: seq<Fault>, k: nat, decision: map<nat, bool>)
    requires HasId(c) && RowsOk(t, decision, c.id) && KnowsOk(t, decision, c) && Open(t, c)
    requires k == Stage(c.pc) && |faults| == CALLS
    ensures IsFinished(Alone(t, c, faults, k).0, c.id) <==> CanFinish(t, c) && AllSurvive(k, faults[k..])
    decreases CALLS - k
  {
    hide Turn, RowsOk, KnowsOk, Open, Survives, IsFinished;
    var (u, next) := Turn(t, c, faults[k]);
    assert faults[k..][1..] == faults[k + 1..];
    TurnKeeps(t, c, faults[k], decision);
    TurnAdvances(t, c, faults[k], decision);
    if next.pc == Done {
      AloneDone(u, next, faults, k + 1);
    } else {
      AloneFinishes(u, next, faults, k + 1, Decided(t, u, c, decision));
    }
  }

  /** A coordinator by itself finishes its transaction if and only if the item exists and
      every call survives its failure. */
  lemma FinishesExactly(t: Tables, item: nat, count: int, faults: seq<Fault>)
    requires |faults| == CALLS && t.nextId !in t.tcc && t.nextId !in t.reserves && t.nextId !in t.orders
    ensures IsFinished(Alone(t, NewCoordinator(item, count), faults, 0).0, t.nextId) <==> item in t.stock && Carries(faults)
  {
    hide Survives, Alone, Carries;
    var c := NewCoordinator(item, count);
    var (u, next) := Turn(t, c, faults[0]);
    assert Alone(t, c, faults, 0) == Alone(u, next, faults, 1) by { AloneTurn(t, c, faults, 0); }
    CarriesAll(faults);
    AllSurviveStep(faults, 0);
    FirstCall(faults[0]);
    if faults[0].NoFault? {
      AloneFinishes(u, next, faults, 1, map[]);
    } else {
      AloneDone(u, next, faults, 1);
    }
  }

  lemma AloneTurn(t: Tables, c: Coordinator, faults: seq<Fault>, k: nat)
    requires k < |faults|
    ensures Alone(t, c, faults, k) == Alone(Turn(t, c, faults[k]).0, Turn(t, c, faults[k]).1, faults, k + 1)
  {
  }

  lemma FirstCall(fault: Fault)
    ensures Survives(0, fault) <==> fault.NoFault?
  {
  }

  // ---------- in every interleaving ----------

  /** How the calls of one coordinator fail in a run. */
  function FaultsOf(events: seq<Event>, who: nat): seq<Fault> {
    if |events| == 0 then []
    else if events[0].Act? && events[0].who == who then [events[0].fault] + FaultsOf(events[1..], who)
    else FaultsOf(events[1..], who)
  }

  /** Nobody works on the transaction. */
  predicate Left(s: System, id: nat) {
    id < s.tables.nextId && forall i | 0 <= i < |s.coordinators| && HasId(s.coordinators[i]) :: s.coordinators[i].id != id
  }

  /** The coordinator works on the transaction. */
  predicate WorksOn(s: System, who: nat, id: nat) {
    who < |s.coordinators| && HasId(s.coordinators[who]) && s.coordinators[who].id == id && Open(s.tables, s.coordinators[who])
  }

  /** The status of a transaction is the same in both. */
  predicate SameStatus(t: Tables, u: Tables, id: nat) {
    (id in t.tcc <==> id in u.tcc) && (id in t.tcc ==> t.tcc[id] == u.tcc[id])
  }

  /** The call of a coordinator leaves the transactions of others alone. */
  lemma ActElsewhere(s: System, who: nat, fault: Fault, id: nat)
    requires who < |s.coordinators| && id < s.tables.nextId
    requires HasId(s.coordinators[who]) ==> s.coordinators[who].id != id
    ensures var r := Happen(s, Act(who, fault));
            SameRows(s.tables, r.tables, s.decision, r.decision, id) && SameStatus(s.tables, r.tables, id)
            && r.tables.nextId >= s.tables.nextId && r.tables.stock.Keys == s.tables.stock.Keys
            && (HasId(r.coordinators[who]) ==> r.coordinators[who].id != id)
  {
    hide Turn, Call;
    var t, c := s.tables, s.coordinators[who];
    if c.pc == Done {
      DoneIdles(t, c, fault);
    } else {
      CallKeeps(t, c);
      TurnElsewhere(t, c, fault, s.decision, id);
      TurnIds(t, c, fault);
    }
  }

  lemma CallKeeps(t: Tables, c: Coordinator)
    ensures Call(t, c).0.stock.Keys == t.stock.Keys && Call(t, c).0.nextId >= t.nextId
  {
  }

  lemma TurnIds(t: Tables, c: Coordinator, fault: Fault)
    ensures var (u, next) := Turn(t, c, fault);
            u.stock.Keys == t.stock.Keys && (HasId(next) ==> next.id == Subject(t, c)) && next.pc != InsertingTcc
  {
    hide Call;
    CallKeeps(t, c);
  }

  /** A transaction that nobody works on stays as it is. */
  lemma LeftStays(s: System, e: Event, id: nat)
    requires Left(s, id)
    ensures Left(Happen(s, e), id) && SameStatus(s.tables, Happen(s, e).tables, id)
  {
    hide Turn;
    if e.Act? && e.who < |s.coordinators| {
      ActElsewhere(s, e.who, e.fault, id);
    }
  }

  lemma {:induction false} LeftForever(s: System, events: seq<Event>, id: nat)
    requires Left(s, id)
    ensures SameStatus(s.tables, Run(s, events).tables, id)
    decreases events
  {
    hide Left, Happen;
    if |events| > 0 {
      LeftStays(s, events[0], id);
      LeftForever(Happen(s, events[0]), events[1..], id);
    }
  }

  lemma Known(s: System, who: nat, id: nat)
    requires Invariant(s) && WorksOn(s, who, id)
    ensures id < s.tables.nextId && !IsFinished(s.tables, id)
    ensures RowsOk(s.tables, s.decision, id) && KnowsOk(s.tables, s.decision, s.coordinators[who])
    ensures forall i | 0 <= i < |s.coordinators| && i != who && HasId(s.coordinators[i]) :: s.coordinators[i].id != id
  {
    hide Open;
    assert RowsOk(s.tables, s.decision, id);
    assert KnowsOk(s.tables, s.decision, s.coordinators[who]);
  }

  lemma OwnStep(s: System, who: nat, fault: Fault, id: nat)
    requires Invariant(s) && WorksOn(s, who, id)
    ensures var r := Happen(s, Act(who, fault));
            who < |r.coordinators| && Advances(s.tables, s.coordinators[who], fault, r.tables, r.coordinators[who])
            && if r.coordinators[who].pc == Done then Left(r, id) else WorksOn(r, who, id)
  {
    hide Turn, RowsOk, KnowsOk, Open, CanFinish, Survives, IsFinished;
    Known(s, who, id);
    var t, c := s.tables, s.coordinators[who];
    TurnAdvances(t, c, fault, s.decision);
    NextIdGrows(t, c, fault);
  }

  lemma NextIdGrows(t: Tables, c: Coordinator, fault: Fault)
    ensures Turn(t, c, fault).0.nextId >= t.nextId
  {
    hide Call;
    CallKeeps(t, c);
  }

  lemma OtherStep(s: System, e: Event, who: nat, id: nat)
    requires Invariant(s) && WorksOn(s, who, id) && (e.Act? ==> e.who != who)
    ensures var r := Happen(s, e);
            WorksOn(r, who, id) && r.coordinators[who] == s.coordinators[who]
            && (CanFinish(r.tables, r.coordinators[who]) <==> CanFinish(s.tables, s.coordinators[who]))
  {
    hide Turn, RowsOk, KnowsOk, Invariant;
    Known(s, who, id);
    if e.Act? && e.who < |s.coordinators| {
      ActElsewhere(s, e.who, e.fault, id);
    }
  }

  lemma {:induction false} RunFinishes(s: System, events: seq<Event>, who: nat, id: nat)
    requires Invariant(s) && WorksOn(s, who, id)
    ensures var c := s.coordinators[who];
            IsFinished(Run(s, events).tables, id) <==> CanFinish(s.tables, c) && AllSurvive(Stage(c.pc), FaultsOf(events, who))
    decreases events
  {
    hide Invariant, Happen, CanFinish, Survives, Left, IsFinished;
    Known(s, who, id);
    if |events| > 0 {
      var r := Happen(s, events[0]);
      HappenKeeps(s, events[0]);
      if events[0].Act? && events[0].who == who {
        OwnStep(s, who, events[0].fault, id);
        assert FaultsOf(events, who)[1..] == FaultsOf(events[1..], who);
        if r.coordinators[who].pc == Done {
          LeftForever(r, events[1..], id);
          SameFinished(r.tables, Run(s, events).tables, id);
          LastStage(s.tables, s.coordinators[who]);
        } else {
          RunFinishes(r, events[1..], who, id);
        }
      } else {
        OtherStep(s, events[0], who, id);
        RunFinishes(r, events[1..], who, id);
      }
    }
  }

  lemma SameFinished(t: Tables, u: Tables, id: nat)
    requires SameStatus(t, u, id)
    ensures IsFinished(t, id) <==> IsFinished(u, id)
  {
  }

  lemma LastStage(t: Tables, c: Coordinator)
    ensures Stage(c.pc) == 7 ==> CanFinish(t, c)
  {
  }

  // ---------- whole runs ----------

  /** The position of the call that inserts the transaction. */
  function Inserted(s: System, events: seq<Event>, id: nat): (k: nat)
    ensures k <= |events|
    decreases events
  {
    if |events| == 0 || Happen(s, events[0]).tables.nextId > id then 0 else 1 + Inserted(Happen(s, events[0]), events[1..], id)
  }

  lemma HappenItems(s: System, e: Event)
    ensures Happen(s, e).tables.stock.Keys == s.tables.stock.Keys && Happen(s, e).tables.nextId >= s.tables.nextId
    ensures |Happen(s, e).coordinators| >= |s.coordinators|
    ensures forall i | 0 <= i < |s.coordinators| :: Happen(s, e).coordinators[i].item == s.coordinators[i].item
  {
    hide Turn;
    if e.Act? && e.who < |s.coordinators| {
      TurnItem(s.tables, s.coordinators[e.who], e.fault);
      TurnIds(s.tables, s.coordinators[e.who], e.fault);
      NextIdGrows(s.tables, s.coordinators[e.who], e.fault);
    }
  }

  lemma TurnItem(t: Tables, c: Coordinator, fault: Fault)
    ensures Turn(t, c, fault).1.item == c.item
  {
    hide Call;
  }

  lemma {:induction false} ItemStays(s: System, events: seq<Event>, who: nat)
    requires who < |s.coordinators|
    ensures who < |Run(s, events).coordinators| && Run(s, events).coordinators[who].item == s.coordinators[who].item
    decreases events
  {
    hide Happen;
    if |events| > 0 {
      HappenItems(s, events[0]);
      ItemStays(Happen(s, events[0]), events[1..], who);
    }
  }

  /** The event that makes the next transaction id larger than `id`. */
  lemma InsertsNow(s: System, e: Event, id: nat)
    requires Invariant(s) && s.tables.nextId <= id < Happen(s, e).tables.nextId
    ensures e.Act? && e.who < |s.coordinators|
    ensures var r := Happen(s, e);
            if e.fault.NoFault? then WorksOn(r, e.who, id) && r.coordinators[e.who].pc == LookingUp
            else Left(r, id) && !IsFinished(r.tables, id)
  {
    assert RowsOk(s.tables, s.decision, s.tables.nextId);
    var c := s.coordinators[e.who];
    InsertsId(s.tables, c, e.fault);
    forall i | 0 <= i < |s.coordinators| && HasId(s.coordinators[i]) ensures s.coordinators[i].id < s.tables.nextId {
      assert RowsOk(s.tables, s.decision, s.coordinators[i].id);
      assert KnowsOk(s.tables, s.decision, s.coordinators[i]);
    }
  }

  lemma InsertsId(t: Tables, c: Coordinator, fault: Fault)
    ensures var (u, next) := Turn(t, c, fault);
            u.nextId > t.nextId ==>
              c.pc == InsertingTcc && u == t.(nextId := t.nextId + 1, tcc := t.tcc[t.nextId := Init])
              && next == (if fault.NoFault? then c.(id := t.nextId, pc := LookingUp) else c.(pc := Done))
  {
  }

  lemma {:induction false} FirstFault(events: seq<Event>, who: nat)
    requires |events| > 0 && events[0].Act? && events[0].who == who
    ensures FaultsOf(events, who) == [events[0].fault] + FaultsOf(events[1..], who)
    ensures Carries(FaultsOf(events, who)) <==> Survives(0, events[0].fault) && AllSurvive(1, FaultsOf(events[1..], who))
  {
    hide Survives, Carries;
    CarriesAll(FaultsOf(events, who));
    assert FaultsOf(events, who)[1..] == FaultsOf(events[1..], who);
  }

  /** Who inserts a transaction, and what becomes of it. */
  lemma {:induction false} FinishedFrom(s: System, events: seq<Event>, id: nat)
    requires Invariant(s) && s.tables.nextId <= id < Run(s, events).tables.nextId
    ensures var k := Inserted(s, events, id);
            k < |events| && events[k].Act? && events[k].who < |Run(s, events).coordinators|
            && (IsFinished(Run(s, events).tables, id)
                <==> Run(s, events).coordinators[events[k].who].item in s.tables.stock && Carries(FaultsOf(events[k..], events[k].who)))
    decreases events
  {
    hide Invariant, Carries, IsFinished, FaultsOf, Happen, AllSurvive, Left, Open;
    var e, r := events[0], Happen(s, events[0]);
    HappenKeeps(s, e);
    HappenItems(s, e);
    if r.tables.nextId > id {
      InsertsNow(s, e, id);
      ItemStays(r, events[1..], e.who);
      assert events[0..] == events;
      FirstFault(events, e.who);
      if e.fault.NoFault? {
        RunFinishes(r, events[1..], e.who, id);
      } else {
        LeftForever(r, events[1..], id);
        SameFinished(r.tables, Run(s, events).tables, id);
      }
    } else {
      var k := Inserted(r, events[1..], id);
      FinishedFrom(r, events[1..], id);
      assert events[1 + k..] == events[1..][k..];
    }
  }

  /** In every run, however many coordinators interleave: a transaction is finished if
      and only if its coordinator orders an item that exists and each of its calls
      survives its failure, from the insertion on. What the others do, and whether there is
      enough stock, does not matter. */
  lemma FinishedExactly(stock: map<nat, int>, events: seq<Event>, id: nat)
    requires id < Run(Begin(stock), events).tables.nextId
    ensures var k := Inserted(Begin(stock), events, id);
            var r := Run(Begin(stock), events);
            k < |events| && events[k].Act? && events[k].who < |r.coordinators|
            && (IsFinished(r.tables, id)
                <==> r.coordinators[events[k].who].item in stock && Carries(FaultsOf(events[k..], events[k].who)))
  {
    hide Run, Inserted;
    BeginsRight(stock);
    FinishedFrom(Begin(stock), events, id);
  }

  /** One lost answer is enough: the decision to confirm is committed, the coordinator is
      told otherwise, and whatever happens later the transaction is never finished. */
  lemma StuckTransaction(more: seq<Event>)
    ensures var events := [Arrive(1, 1), Act(0, NoFault), Act(0, NoFault), Act(0, NoFault), Act(0, NoFault), Act(0, After(false))];
            var t := Run(Begin(map[1 := 5]), events + more).tables;
            0 in t.tcc && t.tcc[0] == ToConfirm
  {
    hide Run, Happen;
    var rest0 := [Act(0, After(false))] + more;
    var rest1 := [Act(0, NoFault)] + rest0;
    var rest2 := [Act(0, NoFault)] + rest1;
    var rest3 := [Act(0, NoFault)] + rest2;
    var rest4 := [Act(0, NoFault)] + rest3;
    var s0 := Begin(map[1 := 5]);
    var s1 := Next(s0, Arrive(1, 1), rest4);
    var s2 := Next(s1, Act(0, NoFault), rest3);
    var s3 := Next(s2, Act(0, NoFault), rest2);
    var s4 := Next(s3, Act(0, NoFault), rest1);
    var s5 := Next(s4, Act(0, NoFault), rest0);
    var s6 := Next(s5, Act(0, After(false)), more);
    Decides(s0, s1, s2, s3, s4, s5, s6);
    LeftForever(s6, more, 0);
    assert [Arrive(1, 1), Act(0, NoFault), Act(0, NoFault), Act(0, NoFault), Act(0, NoFault), Act(0, After(false))] + more == [Arrive(1, 1)] + rest4;
  }

  lemma Next(s: System, e: Event, more: seq<Event>) returns (r: System)
    ensures r == Happen(s, e) && Run(s, [e] + more) == Run(r, more)
  {
    r := Happen(s, e);
    assert ([e] + more)[1..] == more;
  }

  lemma Decides(s0: System, s1: System, s2: System, s3: System, s4: System, s5: System, s6: System)
    requires s0 == Begin(map[1 := 5]) && s1 == Happen(s0, Arrive(1, 1)) && s2 == Happen(s1, Act(0, NoFault))
    requires s3 == Happen(s2, Act(0, NoFault)) && s4 == Happen(s3, Act(0, NoFault)) && s5 == Happen(s4, Act(0, NoFault))
    requires s6 == Happen(s5, Act(0, After(false)))
    ensures Left(s6, 0) && 0 in s6.tables.tcc && s6.tables.tcc[0] == ToConfirm
  {
    assert s3.coordinators[0].pc == TryingOrder;
    assert s5.coordinators[0].pc == DecidingConfirm;
  }
}
