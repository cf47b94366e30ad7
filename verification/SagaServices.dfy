/** The local services of the saga shop, its log and its event queue. Every service
    call is one database transaction. */
module SagaServices {

  datatype SagaStatus = Init | Finished | Canceled

  datatype Phase = Starting | CreatingOrder | DeductingStock

  datatype LogStatus = Open | Succeeded | Undone

  datatype Log = Log(phase: Phase, status: LogStatus)

  datatype RowStatus = Normal | Withdrawn

  datatype Order = Order(item: nat, count: int, status: RowStatus)

  datatype Reserve = Reserve(item: nat, count: int, status: RowStatus)

  /** `CreateOrderEvent`: which phase of a saga ended, and how. */
  datatype Event = Event(id: nat, phase: Phase, item: nat, count: int, succeed: bool)

  /** The tables and the event queue; the saga id is a unique key of orders and
      reservations, and the log of a saga is kept in the order of its insertions. */
  datatype Tables = Tables(
    nextId: nat, status: map<nat, SagaStatus>, log: map<nat, seq<Log>>,
    orders: map<nat, Order>, reserves: map<nat, Reserve>, stock: map<nat, int>, queue: seq<Event>)

  /** How a call can fail: with a negative answer or with an exception, without effect
      or with it. `CommitLost`: the commit fails after everything else has been done.
      `RollbackLost`: so does the rollback behind it, and its exception leaves the call. */
  datatype Fault = NoFault | FailBefore | FailAfter | DieBefore | DieAfter | CommitLost | RollbackLost

  /** A transaction's outcome; nothing is answered after an exception. */
  function Invoke(fault: Fault, t: Tables, done: (Tables, bool)): (Tables, bool) {
    match fault
    case NoFault => done
    case FailBefore => (t, false)
    case FailAfter => (done.0, false)
    case DieBefore => (t, false)
    case DieAfter => (done.0, false)
    case CommitLost => (t, false)
    case RollbackLost => (t, false)
  }

  /** Whether a call has no effect, whatever it would have done. */
  predicate Effectless(fault: Fault) {
    fault == FailBefore || fault == DieBefore || fault == CommitLost || fault == RollbackLost
  }

  function Put(t: Tables, e: Event): Tables {
    t.(queue := t.queue + [e])
  }

  // ---------- forward ----------

  /** `createOrder`: the event follows the commit. For an order that exists there is
      no event at all. */
  function CreateOrder(t: Tables, e: Event, fault: Fault): Tables {
    var ended := Event(e.id, CreatingOrder, e.item, e.count, true);
    var created := t.(orders := t.orders[e.id := Order(e.item, e.count, Normal)]);
    match fault
    case DieBefore => t
    case RollbackLost => t
    case FailBefore => Put(t, ended.(succeed := false))
    case _ =>
      if e.id in t.orders then t
      else
        match fault
        case FailAfter => Put(created, ended.(succeed := false))
        case DieAfter => created
        case CommitLost => Put(t, ended.(succeed := false))
        case _ => Put(created, ended)
  }

  /** The tables behind a deduction that takes place. */
  function Deducted(t: Tables, e: Event): Tables
    requires e.item in t.stock
  {
    t.(reserves := t.reserves[e.id := Reserve(e.item, e.count, Normal)], stock := t.stock[e.item := t.stock[e.item] - e.count])
  }

  /** A deduction that finds its stock: the event precedes the commit, so a commit that
      fails is followed by a second, negative event, unless the rollback fails too. */
  function Deduct(t: Tables, e: Event, fault: Fault): Tables
    requires e.item in t.stock
  {
    var ended := Event(e.id, DeductingStock, e.item, e.count, true);
    match fault
    case FailAfter => Put(Put(Deducted(t, e), ended), ended.(succeed := false))
    case CommitLost => Put(Put(t, ended), ended.(succeed := false))
    case RollbackLost => Put(t, ended)
    case _ => Put(Deducted(t, e), ended)
  }

  /** `deductStock`: without item or stock there is no commit, but a rollback. */
  function DeductStock(t: Tables, e: Event, fault: Fault): Tables {
    var ended := Event(e.id, DeductingStock, e.item, e.count, true);
    match fault
    case DieBefore => t
    case FailBefore => Put(t, ended.(succeed := false))
    case _ =>
      if e.item !in t.stock || t.stock[e.item] < e.count then
        if fault == RollbackLost then t else Put(t, ended.(succeed := false))
      else if e.id in t.reserves then Put(t, ended)
      else Deduct(t, e, fault)
  }

  // ---------- backward ----------

  /** `cancelDeductStock` */
  function CancelDeduct(t: Tables, id: nat, item: nat): (Tables, bool) {
    if item !in t.stock then (t, false)
    else if id !in t.reserves then (t.(reserves := t.reserves[id := Reserve(item, 0, Withdrawn)]), true)
    else if t.reserves[id].status == Withdrawn then (t, true)
    else
      (t.(reserves := t.reserves[id := t.reserves[id].(status := Withdrawn)],
          stock := t.stock[item := t.stock[item] + t.reserves[id].count]), true)
  }

  /** `cancelOrder`: the row for a missing order is inserted without a commit, and a
      withdrawn order is refused. */
  function CancelOrder(t: Tables, id: nat): (Tables, bool) {
    if id !in t.orders then (t, true)
    else if t.orders[id].status != Normal then (t, false)
    else (t.(orders := t.orders[id := t.orders[id].(status := Withdrawn)]), true)
  }

  // ---------- log and status ----------

  function LogOf(t: Tables, id: nat): seq<Log> {
    if id in t.log then t.log[id] else []
  }

  function InsertLog(t: Tables, id: nat, phase: Phase): (Tables, bool) {
    (t.(log := t.log[id := LogOf(t, id) + [Log(phase, Open)]]), true)
  }

  /** The first log row of a phase. */
  function Find(log: seq<Log>, phase: Phase): (r: nat)
    ensures r <= |log|
    ensures r < |log| ==> log[r].phase == phase
    ensures forall k | 0 <= k < r :: log[k].phase != phase
  {
    if |log| == 0 || log[0].phase == phase then 0 else 1 + Find(log[1..], phase)
  }

  function UpdateLog(t: Tables, id: nat, phase: Phase, status: LogStatus): (Tables, bool) {
    var log := LogOf(t, id);
    var k := Find(log, phase);
    if k == |log| then (t, false) else (t.(log := t.log[id := log[k := log[k].(status := status)]]), true)
  }

  /** `updateSagaStatus` */
  function SetStatus(t: Tables, id: nat, status: SagaStatus): (Tables, bool) {
    if id !in t.status || t.status[id] != Init then (t, false) else (t.(status := t.status[id := status]), true)
  }

  /** `insertSaga`, and the event that starts the saga. */
  function StartSaga(t: Tables, item: nat, count: int): Tables {
    Put(t.(nextId := t.nextId + 1, status := t.status[t.nextId := Init], log := t.log[t.nextId := []]),
        Event(t.nextId, Starting, item, count, true))
  }

  // ---------- the services as they run ----------

  method FindRow(rows: seq<Log>, phase: Phase) returns (k: nat)
    ensures k == Find(rows, phase)
  {
    k := 0;
    while k < |rows| && rows[k].phase != phase
      invariant k <= |rows| && Find(rows, phase) == k + Find(rows[k..], phase)
    {
      assert rows[k..][1..] == rows[k + 1..];
      k := k + 1;
    }
  }

  class Databases {
    var nextId: nat
    var status: map<nat, SagaStatus>
    var log: map<nat, seq<Log>>
    var orders: map<nat, Order>
    var reserves: map<nat, Reserve>
    var stock: map<nat, int>
    var queue: seq<Event>

    ghost function Contents(): Tables
      reads this
    {
      Tables(nextId, status, log, orders, reserves, stock, queue)
    }

    method PutEvent(e: Event)
      modifies this`queue
      ensures Contents() == Put(old(Contents()), e)
    {
      queue := queue + [e];
    }

    method DoCreateOrder(e: Event, fault: Fault)
      modifies this
      ensures Contents() == CreateOrder(old(Contents()), e, fault)
    {
      var ended := Event(e.id, CreatingOrder, e.item, e.count, true);
      if fault == DieBefore || fault == RollbackLost {
        return;
      }
      if fault == FailBefore {
        PutEvent(ended.(succeed := false));
        return;
      }
      if e.id in orders {
        return;
      }
      var before := orders;
      orders := orders[e.id := Order(e.item, e.count, Normal)];
      if fault == CommitLost {
        orders := before;
      }
      if fault == DieAfter {
        return;
      }
      PutEvent(ended.(succeed := fault != FailAfter && fault != CommitLost));
    }

    method DoDeductStock(e: Event, fault: Fault)
      modifies this
      ensures Contents() == DeductStock(old(Contents()), e, fault)
    {
      var ended := Event(e.id, DeductingStock, e.item, e.count, true);
      if fault == DieBefore {
        return;
      }
      if fault == FailBefore || e.item !in stock || stock[e.item] < e.count {
        if fault != RollbackLost {
          PutEvent(ended.(succeed := false));
        }
        return;
      }
      if e.id in reserves {
        PutEvent(ended);
        return;
      }
      DoDeduct(e, fault);
    }

    method DoDeduct(e: Event, fault: Fault)
      requires e.item in stock
      modifies this
      ensures Contents() == Deduct(old(Contents()), e, fault)
    {
      var ended := Event(e.id, DeductingStock, e.item, e.count, true);
      var before, remaining := reserves, stock;
      reserves := reserves[e.id := Reserve(e.item, e.count, Normal)];
      stock := stock[e.item := stock[e.item] - e.count];
      PutEvent(ended);
      if fault == CommitLost || fault == RollbackLost {
        reserves, stock := before, remaining;
      }
      if fault == FailAfter || fault == CommitLost {
        PutEvent(ended.(succeed := false));
      }
    }

    method DoCancelDeduct(id: nat, item: nat, fault: Fault) returns (ok: bool)
      modifies this
      ensures (Contents(), ok) == Invoke(fault, old(Contents()), CancelDeduct(old(Contents()), id, item))
    {
      if Effectless(fault) || item !in stock {
        return false;
      }
      if id !in reserves {
        reserves := reserves[id := Reserve(item, 0, Withdrawn)];
      } else if reserves[id].status == Normal {
        var row := reserves[id];
        reserves := reserves[id := row.(status := Withdrawn)];
        stock := stock[item := stock[item] + row.count];
      }
      return fault == NoFault;
    }

    method DoCancelOrder(id: nat, fault: Fault) returns (ok: bool)
      modifies this
      ensures (Contents(), ok) == Invoke(fault, old(Contents()), CancelOrder(old(Contents()), id))
    {
      if Effectless(fault) {
        return false;
      }
      if id !in orders {
        return fault == NoFault;
      }
      if orders[id].status != Normal {
        return false;
      }
      orders := orders[id := orders[id].(status := Withdrawn)];
      return fault == NoFault;
    }

    method DoInsertLog(id: nat, phase: Phase, fault: Fault) returns (ok: bool)
      modifies this
      ensures (Contents(), ok) == Invoke(fault, old(Contents()), InsertLog(old(Contents()), id, phase))
    {
      if Effectless(fault) {
        return false;
      }
      log := log[id := (if id in log then log[id] else []) + [Log(phase, Open)]];
      return fault == NoFault;
    }

    method DoUpdateLog(id: nat, phase: Phase, newStatus: LogStatus, fault: Fault) returns (ok: bool)
      modifies this
      ensures (Contents(), ok) == Invoke(fault, old(Contents()), UpdateLog(old(Contents()), id, phase, newStatus))
    {
      if Effectless(fault) {
        return false;
      }
      var rows := if id in log then log[id] else [];
      var k := FindRow(rows, phase);
      if k == |rows| {
        return false;
      }
      log := log[id := rows[k := rows[k].(status := newStatus)]];
      return fault == NoFault;
    }

    method DoSetStatus(id: nat, newStatus: SagaStatus, fault: Fault) returns (ok: bool)
      modifies this
      ensures (Contents(), ok) == Invoke(fault, old(Contents()), SetStatus(old(Contents()), id, newStatus))
    {
      if Effectless(fault) || id !in status || status[id] != Init {
        return false;
      }
      status := status[id := newStatus];
      return fault == NoFault;
    }
  }
}
