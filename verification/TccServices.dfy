/** The local services of the TCC shop: stock reservations, orders and the
    transaction table. Every service call is one database transaction. */
module TccServices {

  datatype TccStatus = Init | ToConfirm | ToCancel | Finished

  datatype ReserveStatus = Reserved | Confirmed | Released

  datatype OrderStatus = Draft | Normal | Canceled

  datatype Reserve = Reserve(item: nat, count: int, status: ReserveStatus)

  datatype Order = Order(item: nat, count: int, status: OrderStatus)

  /** The tables; the transaction id is a unique key of reservations and orders. */
  datatype Tables = Tables(
    nextId: nat, tcc: map<nat, TccStatus>, stock: map<nat, int>, reserves: map<nat, Reserve>, orders: map<nat, Order>)

  /** How a call can fail: before its transaction takes effect or after, and with
      a negative answer or with an exception. */
  datatype Fault = NoFault | Before(throws: bool) | After(throws: bool)

  datatype Reply = Returned(ok: bool) | Thrown

  /** A transaction's outcome under a fault. */
  function Invoke(fault: Fault, t: Tables, done: (Tables, bool)): (Tables, Reply) {
    match fault
    case NoFault => (done.0, Returned(done.1))
    case Before(throws) => (t, if throws then Thrown else Returned(false))
    case After(throws) => (done.0, if throws then Thrown else Returned(false))
  }

  // ---------- the transactions ----------

  /** `getItemById`: nothing changes; without an item, or when the query fails, the
      caller dereferences null. */
  function FindItem(t: Tables, item: nat): (Tables, bool) {
    (t, item in t.stock)
  }

  /** `tryReserveStock`: the stock is checked before an existing row is looked at,
      and any existing row counts as reserved, a released one too. */
  function TryReserve(t: Tables, id: nat, item: nat, count: int): (Tables, bool) {
    if item !in t.stock || t.stock[item] < count then (t, false)
    else if id in t.reserves then (t, true)
    else
      (t.(reserves := t.reserves[id := Reserve(item, count, Reserved)], stock := t.stock[item := t.stock[item] - count]), true)
  }

  /** `confirmReserveStock` */
  function ConfirmReserve(t: Tables, id: nat): (Tables, bool) {
    if id !in t.reserves then (t, false)
    else
      match t.reserves[id].status
      case Reserved => (t.(reserves := t.reserves[id := t.reserves[id].(status := Confirmed)]), true)
      case Confirmed => (t, true)
      case Released => (t, false)
  }

  /** `cancelReserveStock`: the reserved count goes back to the item the caller
      names; without a row an empty released one is left behind. */
  function CancelReserve(t: Tables, id: nat, item: nat): (Tables, bool) {
    if item !in t.stock then (t, false)
    else if id !in t.reserves then (t.(reserves := t.reserves[id := Reserve(item, 0, Released)]), true)
    else
      match t.reserves[id].status
      case Reserved =>
        (t.(reserves := t.reserves[id := t.reserves[id].(status := Released)],
            stock := t.stock[item := t.stock[item] + t.reserves[id].count]), true)
      case Released => (t, true)
      case Confirmed => (t, false)
  }

  /** `tryCreateOrder` */
  function TryOrder(t: Tables, id: nat, item: nat, count: int): (Tables, bool) {
    if id in t.orders then (t, true) else (t.(orders := t.orders[id := Order(item, count, Draft)]), true)
  }

  /** `confirmCreateOrder`: refused unless the order is new, also when it is confirmed already. */
  function ConfirmOrder(t: Tables, id: nat): (Tables, bool) {
    if id !in t.orders || t.orders[id].status != Draft then (t, false)
    else (t.(orders := t.orders[id := t.orders[id].(status := Normal)]), true)
  }

  /** `cancelCreateOrder`: the row that is to block a late order is inserted without
      a commit, so a missing order stays missing. */
  function CancelOrder(t: Tables, id: nat): (Tables, bool) {
    if id !in t.orders then (t, true)
    else if t.orders[id].status != Draft then (t, false)
    else (t.(orders := t.orders[id := t.orders[id].(status := Canceled)]), true)
  }

  /** `insertTcc`: the next transaction id. */
  function InsertTcc(t: Tables): (Tables, bool) {
    (t.(nextId := t.nextId + 1, tcc := t.tcc[t.nextId := Init]), true)
  }

  /** `updateTccFromInit` */
  function Decide(t: Tables, id: nat, status: TccStatus): (Tables, bool) {
    if id !in t.tcc || t.tcc[id] != Init then (t, false) else (t.(tcc := t.tcc[id := status]), true)
  }

  /** `updateTccToFinished` */
  function Finish(t: Tables, id: nat): (Tables, bool) {
    if id !in t.tcc || (t.tcc[id] != ToConfirm && t.tcc[id] != ToCancel) then (t, false)
    else (t.(tcc := t.tcc[id := Finished]), true)
  }

  // ---------- the services as they run ----------

  class Databases {
    var nextId: nat
    var tcc: map<nat, TccStatus>
    var stock: map<nat, int>
    var reserves: map<nat, Reserve>
    var orders: map<nat, Order>

    ghost function Contents(): Tables
      reads this
    {
      Tables(nextId, tcc, stock, reserves, orders)
    }

    constructor (initial: map<nat, int>)
      ensures Contents() == Tables(0, map[], initial, map[], map[])
    {
      nextId, tcc, stock, reserves, orders := 0, map[], initial, map[], map[];
    }

    /** The answer of a call whose transaction has come to its end with `ok`. */
    static function Answer(fault: Fault, ok: bool): Reply {
      match fault
      case NoFault => Returned(ok)
      case Before(throws) => if throws then Thrown else Returned(false)
      case After(throws) => if throws then Thrown else Returned(false)
    }

    method GetItemById(itemId: nat, fault: Fault) returns (r: Reply)
      ensures (Contents(), r) == Invoke(fault, Contents(), FindItem(Contents(), itemId))
    {
      return Answer(fault, itemId in stock);
    }

    method TryReserveStock(tccId: nat, itemId: nat, count: int, fault: Fault) returns (r: Reply)
      modifies this
      ensures (Contents(), r) == Invoke(fault, old(Contents()), TryReserve(old(Contents()), tccId, itemId, count))
    {
      if fault.Before? {
        return Answer(fault, false);
      }
      if itemId !in stock {
        return Answer(fault, false);
      }
      var remaining := stock[itemId];
      if remaining < count {
        return Answer(fault, false);
      }
      if tccId in reserves {
        return Answer(fault, true);
      }
      reserves := reserves[tccId := Reserve(itemId, count, Reserved)];
      stock := stock[itemId := remaining - count];
      return Answer(fault, true);
    }

    method ConfirmReserveStock(tccId: nat, fault: Fault) returns (r: Reply)
      modifies this
      ensures (Contents(), r) == Invoke(fault, old(Contents()), ConfirmReserve(old(Contents()), tccId))
    {
      if fault.Before? || tccId !in reserves {
        return Answer(fault, false);
      }
      var row := reserves[tccId];
      if row.status == Reserved {
        reserves := reserves[tccId := row.(status := Confirmed)];
        return Answer(fault, true);
      }
      return Answer(fault, row.status == Confirmed);
    }

    method CancelReserveStock(tccId: nat, itemId: nat, fault: Fault) returns (r: Reply)
      modifies this
      ensures (Contents(), r) == Invoke(fault, old(Contents()), CancelReserve(old(Contents()), tccId, itemId))
    {
      if fault.Before? || itemId !in stock {
        return Answer(fault, false);
      }
      if tccId !in reserves {
        reserves := reserves[tccId := Reserve(itemId, 0, Released)];
        return Answer(fault, true);
      }
      var row := reserves[tccId];
      if row.status == Reserved {
        reserves := reserves[tccId := row.(status := Released)];
        stock := stock[itemId := stock[itemId] + row.count];
        return Answer(fault, true);
      }
      return Answer(fault, row.status == Released);
    }

    method TryCreateOrder(tccId: nat, itemId: nat, count: int, fault: Fault) returns (r: Reply)
      modifies this
      ensures (Contents(), r) == Invoke(fault, old(Contents()), TryOrder(old(Contents()), tccId, itemId, count))
    {
      if fault.Before? {
        return Answer(fault, false);
      }
      if tccId !in orders {
        orders := orders[tccId := Order(itemId, count, Draft)];
      }
      return Answer(fault, true);
    }

    method ConfirmCreateOrder(tccId: nat, fault: Fault) returns (r: Reply)
      modifies this
      ensures (Contents(), r) == Invoke(fault, old(Contents()), ConfirmOrder(old(Contents()), tccId))
    {
      if fault.Before? || tccId !in orders || orders[tccId].status != Draft {
        return Answer(fault, false);
      }
      orders := orders[tccId := orders[tccId].(status := Normal)];
      return Answer(fault, true);
    }

    method CancelCreateOrder(tccId: nat, fault: Fault) returns (r: Reply)
      modifies this
      ensures (Contents(), r) == Invoke(fault, old(Contents()), CancelOrder(old(Contents()), tccId))
    {
      if fault.Before? {
        return Answer(fault, false);
      }
      if tccId !in orders {
        return Answer(fault, true);
      }
      if orders[tccId].status != Draft {
        return Answer(fault, false);
      }
      orders := orders[tccId := orders[tccId].(status := Canceled)];
      return Answer(fault, true);
    }

    /** The generated key comes with the answer. */
    method InsertTccRow(fault: Fault) returns (r: Reply, tccId: nat)
      modifies this
      ensures (Contents(), r) == Invoke(fault, old(Contents()), InsertTcc(old(Contents()))) && tccId == old(nextId)
    {
      tccId := nextId;
      if fault.Before? {
        return Answer(fault, false), tccId;
      }
      tcc := tcc[nextId := Init];
      nextId := nextId + 1;
      return Answer(fault, true), tccId;
    }

    method UpdateTccFromInit(tccId: nat, status: TccStatus, fault: Fault) returns (r: Reply)
      modifies this
      ensures (Contents(), r) == Invoke(fault, old(Contents()), Decide(old(Contents()), tccId, status))
    {
      if fault.Before? || tccId !in tcc || tcc[tccId] != Init {
        return Answer(fault, false);
      }
      tcc := tcc[tccId := status];
      return Answer(fault, true);
    }

    method UpdateTccToFinished(tccId: nat, fault: Fault) returns (r: Reply)
      modifies this
      ensures (Contents(), r) == Invoke(fault, old(Contents()), Finish(old(Contents()), tccId))
    {
      if fault.Before? || tccId !in tcc || (tcc[tccId] != ToConfirm && tcc[tccId] != ToCancel) {
        return Answer(fault, false);
      }
      tcc := tcc[tccId := Finished];
      return Answer(fault, true);
    }
  }
}
