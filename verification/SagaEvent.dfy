/** `processEvent` as it runs. */
module SagaEvent {
  import opened SagaServices
  import opened SagaProtocol

  function FaultAt(faults: seq<Fault>, k: nat): Fault {
    if k < |faults| then faults[k] else NoFault
  }

  /** The steps a worker has left before it is idle. */
  function Left(t: Tables, w: Worker): nat {
    if w.Idle? then 0
    else
      match w.pc
      case MarkSucceeded => 3
      case Inserting => 2
      case Reading => 2 * |LogOf(t, w.event.id)| + 3
      case Undoing => 2 * |w.todo| + 2
      case MarkUndone => 2 * |w.todo| + 1
      case _ => 1
  }

  lemma WorkLeft(t: Tables, w: Worker, fault: Fault)
    requires w.Busy?
    ensures var (u, next) := Work(t, w, fault); Left(u, next) < Left(t, w)
  {
    hide UpdateLog, InsertLog, CreateOrder, DeductStock, SetStatus, CancelDeduct, CancelOrder;
  }

  /** A worker by itself, from its `k`-th step on. */
  function Alone(t: Tables, w: Worker, faults: seq<Fault>, k: nat): Tables
    decreases Left(t, w)
  {
    if w.Idle? then t
    else
      WorkLeft(t, w, FaultAt(faults, k));
      var (u, next) := Work(t, w, FaultAt(faults, k));
      Alone(u, next, faults, k + 1)
  }

  lemma AloneStep(t: Tables, w: Worker, faults: seq<Fault>, k: nat, u: Tables, next: Worker)
    requires w.Busy? && Work(t, w, FaultAt(faults, k)) == (u, next)
    ensures Alone(t, w, faults, k) == Alone(u, next, faults, k + 1)
    ensures next.Idle? ==> Alone(t, w, faults, k) == u
  {
    hide Work;
  }

  /** `processEventForward`: mark the phase that ended, log the next one and start it. */
  method ProcessForward(db: Databases, e: Event, faults: seq<Fault>)
    requires e.succeed
    modifies db
    ensures db.Contents() == Alone(old(db.Contents()), Accept(e), faults, 0)
  {
    hide Invoke, UpdateLog, InsertLog, CreateOrder, DeductStock, SetStatus, Alone;
    ghost var t, w := db.Contents(), Accept(e);
    var k: nat := 0;
    if e.phase != Starting {
      var marked := db.DoUpdateLog(e.id, e.phase, Succeeded, FaultAt(faults, k));
      ghost var next := Work(t, w, FaultAt(faults, k)).1;
      AloneStep(t, w, faults, k, db.Contents(), next);
      if Dies(FaultAt(faults, k)) {
        return;
      }
      t, w, k := db.Contents(), next, k + 1;
    }
    ProcessNext(db, e, w, faults, k);
  }

  method ProcessNext(db: Databases, e: Event, ghost w: Worker, faults: seq<Fault>, k: nat)
    requires w == Busy(e, if e.phase == DeductingStock then SettingFinished else Inserting, [])
    modifies db
    ensures db.Contents() == Alone(old(db.Contents()), w, faults, k)
  {
    hide Invoke, UpdateLog, InsertLog, CreateOrder, DeductStock, SetStatus, Alone;
    ghost var t := db.Contents();
    if e.phase == DeductingStock {
      var finished := db.DoSetStatus(e.id, Finished, FaultAt(faults, k));
      AloneStep(t, w, faults, k, db.Contents(), Idle);
      return;
    }
    var inserted := db.DoInsertLog(e.id, Next(e.phase), FaultAt(faults, k));
    ghost var next := Work(t, w, FaultAt(faults, k)).1;
    AloneStep(t, w, faults, k, db.Contents(), next);
    if Dies(FaultAt(faults, k)) {
      return;
    }
    t := db.Contents();
    if e.phase == Starting {
      db.DoCreateOrder(e, FaultAt(faults, k + 1));
    } else {
      db.DoDeductStock(e, FaultAt(faults, k + 1));
    }
    AloneStep(t, next, faults, k + 1, db.Contents(), Idle);
  }

  method ReverseLog(log: seq<Log>) returns (r: seq<Log>)
    ensures r == Reversed(log)
  {
    r := [];
    for i := 0 to |log|
      invariant Reversed(log[i..]) + r == Reversed(log)
    {
      assert log[i..][1..] == log[i + 1..] && log[i..][0] == log[i];
      assert Reversed(log[i + 1..]) + [log[i]] + r == Reversed(log[i + 1..]) + ([log[i]] + r);
      r := [log[i]] + r;
    }
    assert [] + r == r;
  }

  /** One entry of the reversed log: compensate it and mark it. `more` tells whether the
      loop goes on. */
  method CompensateEntry(db: Databases, e: Event, todo: seq<Log>, faults: seq<Fault>, k: nat) returns (more: bool, next: nat)
    requires |todo| > 0
    modifies db
    ensures Alone(old(db.Contents()), Busy(e, Undoing, todo), faults, k) ==
            if more then Alone(db.Contents(), Busy(e, Undoing, todo[1..]), faults, next) else db.Contents()
  {
    hide Invoke, UpdateLog, CancelDeduct, CancelOrder, Alone;
    ghost var t, w := db.Contents(), Busy(e, Undoing, todo);
    var row := todo[0];
    if row.status == Undone {
      AloneStep(t, w, faults, k, t, Busy(e, Undoing, todo[1..]));
      return true, k + 1;
    }
    var ok;
    if row.phase == DeductingStock {
      ok := db.DoCancelDeduct(e.id, e.item, FaultAt(faults, k));
    } else {
      ok := db.DoCancelOrder(e.id, FaultAt(faults, k));
    }
    ghost var done := if ok then w.(pc := MarkUndone) else Idle;
    AloneStep(t, w, faults, k, db.Contents(), done);
    if !ok {
      return false, k + 1;
    }
    t := db.Contents();
    var marked := db.DoUpdateLog(e.id, row.phase, Undone, FaultAt(faults, k + 1));
    more := !Dies(FaultAt(faults, k + 1));
    AloneStep(t, done, faults, k + 1, db.Contents(), if more then Busy(e, Undoing, todo[1..]) else Idle);
    return more, k + 2;
  }

  /** `processCancel`: the log from its end, one entry after the other, with an early
      exit where a compensation fails. */
  method ProcessCancel(db: Databases, e: Event, faults: seq<Fault>)
    requires !e.succeed
    modifies db
    ensures db.Contents() == Alone(old(db.Contents()), Accept(e), faults, 0)
  {
    hide Invoke, SetStatus, Alone, Reversed;
    ghost var t0 := db.Contents();
    if Dies(FaultAt(faults, 0)) {
      AloneStep(t0, Accept(e), faults, 0, t0, Idle);
      return;
    }
    var rows := if e.id in db.log then db.log[e.id] else [];
    var todo := ReverseLog(rows);
    AloneStep(t0, Accept(e), faults, 0, t0, Busy(e, Undoing, todo));
    var k: nat := 1;
    while |todo| > 0
      invariant Alone(t0, Accept(e), faults, 0) == Alone(db.Contents(), Busy(e, Undoing, todo), faults, k)
    {
      var more;
      more, k := CompensateEntry(db, e, todo, faults, k);
      if !more {
        return;
      }
      todo := todo[1..];
    }
    AloneStep(db.Contents(), Busy(e, Undoing, todo), faults, k, db.Contents(), Busy(e, SettingCanceled, todo));
    ghost var t := db.Contents();
    var canceled := db.DoSetStatus(e.id, Canceled, FaultAt(faults, k + 1));
    AloneStep(t, Busy(e, SettingCanceled, todo), faults, k + 1, db.Contents(), Idle);
  }

  /** `processEvent` by itself takes the steps of the worker, in the same order. */
  method ProcessEvent(db: Databases, e: Event, faults: seq<Fault>)
    modifies db
    ensures db.Contents() == Alone(old(db.Contents()), Accept(e), faults, 0)
  {
    if e.succeed {
      ProcessForward(db, e, faults);
    } else {
      ProcessCancel(db, e, faults);
    }
  }
}
