/** Sums over the rows of a table. */
module Ledger {

  /** The sum over the rows with ids below `limit`. */
  function Sum<R>(rows: map<nat, R>, amount: R -> int, limit: nat): int {
    if limit == 0 then 0
    else Sum(rows, amount, limit - 1) + Entry(rows, amount, limit - 1)
  }

  function Entry<R>(rows: map<nat, R>, amount: R -> int, id: nat): int {
    if id in rows then amount(rows[id]) else 0
  }

  /** Changing one row changes the sum by what that row contributes. */
  lemma {:induction false} SumUpdate<R>(rows: map<nat, R>, amount: R -> int, id: nat, row: R, limit: nat)
    ensures Sum(rows[id := row], amount, limit) ==
      Sum(rows, amount, limit) + if id < limit then amount(row) - Entry(rows, amount, id) else 0
    decreases limit
  {
    if limit > 0 {
      SumUpdate(rows, amount, id, row, limit - 1);
    }
  }

  /** Rows that are not there add nothing. */
  lemma {:induction false} SumNoMore<R>(rows: map<nat, R>, amount: R -> int, n: nat, limit: nat)
    requires n <= limit && forall id | id in rows :: id < n
    ensures Sum(rows, amount, limit) == Sum(rows, amount, n)
    decreases limit
  {
    if n < limit {
      SumNoMore(rows, amount, n, limit - 1);
    }
  }

  // ---------- sums over what was ordered ----------

  /** What the chosen ones of the orders amount to. */
  function Total<O>(orders: seq<O>, amount: O -> int, chosen: set<nat>): int {
    if |orders| == 0 then 0
    else
      var last := |orders| - 1;
      Total(orders[..last], amount, chosen) + if last in chosen then amount(orders[last]) else 0
  }

  lemma {:induction false} SumIsTotal<R, O>(rows: map<nat, R>, amount: R -> int, orders: seq<O>, ordered: O -> int, chosen: set<nat>, n: nat)
    requires n <= |orders|
    requires forall k | 0 <= k < n :: Entry(rows, amount, k) == if k in chosen then ordered(orders[k]) else 0
    ensures Sum(rows, amount, n) == Total(orders[..n], ordered, chosen)
    decreases n
  {
    if n > 0 {
      SumIsTotal(rows, amount, orders, ordered, chosen, n - 1);
      assert orders[..n][..n - 1] == orders[..n - 1];
    }
  }

  lemma {:induction false} TotalOfFewer<O>(orders: seq<O>, amount: O -> int, some: set<nat>, more: set<nat>)
    requires some <= more && forall k | 0 <= k < |orders| :: amount(orders[k]) >= 0
    ensures Total(orders, amount, some) <= Total(orders, amount, more)
    decreases |orders|
  {
    if |orders| > 0 {
      TotalOfFewer(orders[..|orders| - 1], amount, some, more);
    }
  }

  lemma {:induction false} SumNone<R>(amount: R -> int, limit: nat)
    ensures Sum(map[], amount, limit) == 0
    decreases limit
  {
    if limit > 0 {
      SumNone(amount, limit - 1);
    }
  }
}
