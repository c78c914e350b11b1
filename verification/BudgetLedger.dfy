/** The Postgres budget row of one day, and the ledger that reserves, releases and settles
    against it. Amounts are whole micro-USD. The `spent_usd` column keeps four decimals, so a
    stored amount is a multiple of 100 micro-USD. */
module BudgetLedger {

  type Date = int

  datatype Budget = Finite(limit: int) | Unlimited

  datatype Row = Row(spent: int, requests: nat)

  const MS_PER_DAY := 86_400_000

  function DateOf(epochMs: int): Date {
    epochMs / MS_PER_DAY
  }

  function Max(a: int, b: int): int {
    if a >= b then a else b
  }

  /** The estimate made from the size of a request: 0.01 + 0.002 per topic + 0.0005 per evidence item. */
  function EstimateRequestCost(topics: nat, evidence: nat): int {
    10_000 + topics * 2_000 + evidence * 500
  }

  /** What the four-decimal column holds after a non-negative amount is written to it:
      the nearest multiple of 100 micro-USD, halves away from zero. */
  function Stored(amount: int): int {
    (amount + 50) / 100 * 100
  }

  /** The WHERE clause of a reservation. */
  predicate Fits(spent: int, budget: Budget, amount: int) {
    budget.Unlimited? || spent <= Max(0, budget.limit - amount)
  }

  /** A reservation fits while the day has room for all of it; an amount larger than the budget fits a day on
      which nothing was spent; without a budget everything fits. */
  lemma FitsIs(spent: int, budget: Budget, amount: int)
    ensures budget.Unlimited? ==> Fits(spent, budget, amount)
    ensures budget.Finite? && amount <= budget.limit ==> (Fits(spent, budget, amount) <==> spent + amount <= budget.limit)
    ensures budget.Finite? && amount > budget.limit ==> (Fits(spent, budget, amount) <==> spent <= 0)
  {
  }

  /** There is room for the amount on a day's budget, said without the guard. */
  predicate Room(spent: int, budget: Budget, amount: int) {
    match budget
    case Unlimited => true
    case Finite(limit) => if amount <= limit then spent + amount <= limit else spent <= 0
  }

  /** An estimate starts at one cent, and grows by a fifth of a cent with each topic and by a twentieth of a
      cent with each evidence item; it is whole in the column. */
  lemma EstimateGrows(topics: nat, evidence: nat)
    ensures EstimateRequestCost(0, 0) == 10_000
    ensures EstimateRequestCost(topics + 1, evidence) - EstimateRequestCost(topics, evidence) == 2_000
    ensures EstimateRequestCost(topics, evidence + 1) - EstimateRequestCost(topics, evidence) == 500
    ensures WholeColumn(EstimateRequestCost(topics, evidence))
  {
  }

  /** A moment belongs to the day whose midnight is the last one not after it. */
  lemma DateIs(epochMs: int, date: Date)
    ensures DateOf(epochMs) == date <==> date * MS_PER_DAY <= epochMs < (date + 1) * MS_PER_DAY
  {
  }

  function Upserted(rows: map<Date, Row>, date: Date): map<Date, Row> {
    if date in rows then rows else rows[date := Row(0, 0)]
  }

  /** The guarded increment that makes a reservation. */
  function Incremented(row: Row, amount: int): Row {
    Row(Stored(row.spent + amount), row.requests + 1)
  }

  /** The effect of `updateSpentUsd` on an existing row. */
  function Adjusted(row: Row, delta: int): Row {
    if delta == 0 then row
    else if delta > 0 || row.spent >= -delta then row.(spent := Stored(row.spent + delta))
    else row.(spent := 0)
  }

  /** The effect of `updateSpentUsd` on the table: nothing when the day has no row. */
  function AdjustedRows(rows: map<Date, Row>, date: Date, delta: int): map<Date, Row> {
    if date in rows then rows[date := Adjusted(rows[date], delta)] else rows
  }

  predicate WholeColumn(amount: int) {
    amount % 100 == 0
  }

  lemma StoredOffset(base: int, amount: int)
    requires WholeColumn(base)
    ensures Stored(base + amount) == base + Stored(amount)
  {
    assert base == base / 100 * 100;
    assert (base + amount + 50) / 100 == base / 100 + (amount + 50) / 100;
  }

  /** A column write is off by at most half a column unit, and by nothing exactly when the amount is whole. */
  lemma StoredRounds(amount: int)
    ensures WholeColumn(Stored(amount))
    ensures -50 < Stored(amount) - amount <= 50
    ensures Stored(amount) == amount <==> WholeColumn(amount)
    ensures amount >= 0 ==> Stored(amount) >= 0
  {
  }

  /** Releasing what was reserved gives the spend back exactly, whatever lies between zero and it. */
  lemma {:induction false} ReleaseUndoesReserve(row: Row, amount: int)
    requires WholeColumn(row.spent) && WholeColumn(amount) && row.spent >= 0 && amount >= 0
    ensures Incremented(row, amount).spent == row.spent + amount
    ensures Adjusted(Incremented(row, amount), -amount) == Row(row.spent, row.requests + 1)
  {
    StoredOffset(row.spent, amount);
    StoredRounds(amount);
    StoredRounds(row.spent);
  }

  /** A release takes the amount off the row, or empties a row that holds less. */
  lemma {:induction false} ReleaseTakesOff(row: Row, amount: int)
    requires WholeColumn(row.spent) && WholeColumn(amount) && row.spent >= 0 && amount >= 0
    ensures Adjusted(row, -amount) == row.(spent := Max(0, row.spent - amount))
  {
    StoredRounds(row.spent - amount);
  }

  lemma WholeSums(a: int, b: int)
    requires WholeColumn(a) && WholeColumn(b)
    ensures WholeColumn(a - b) && WholeColumn(a + b)
  {
    assert a == a / 100 * 100 && b == b / 100 * 100;
  }

  predicate InUnits(amount: int) {
    0 <= amount && WholeColumn(amount)
  }

  lemma IncrementedIs(row: Row, amount: int)
    ensures InUnits(row.spent) && InUnits(amount) ==> Incremented(row, amount) == Row(row.spent + amount, row.requests + 1)
  {
    if InUnits(row.spent) && InUnits(amount) {
      StoredOffset(row.spent, amount);
      StoredRounds(amount);
    }
  }

  /** On a row in whole column units, an update adds the change, floors the sum at zero, and rounds it to the
      column. */
  lemma AdjustedIs(rows: map<Date, Row>, date: Date, delta: int)
    ensures date in rows && InUnits(rows[date].spent) ==>
              AdjustedRows(rows, date, delta) == rows[date := rows[date].(spent := Stored(Max(0, rows[date].spent + delta)))]
  {
    if date in rows && InUnits(rows[date].spent) {
      StoredRounds(rows[date].spent);
    }
  }

  /** Settling a reservation leaves the actual cost, rounded to the column, in place of the reserved
      amount; a row too small for that is emptied. */
  lemma {:induction false} SettleReplacesReservation(row: Row, reserved: int, actual: int)
    requires WholeColumn(row.spent) && WholeColumn(reserved)
    requires 0 <= row.spent && 0 <= reserved && 0 <= actual
    ensures var spent' := Adjusted(row, actual - reserved).spent;
            && WholeColumn(spent') && 0 <= spent'
            && (row.spent + actual >= reserved ==> spent' == row.spent - reserved + Stored(actual))
            && (row.spent + actual < reserved ==> spent' == 0)
    ensures Adjusted(row, actual - reserved).requests == row.requests
  {
    assert WholeColumn(0);
    hide Stored, WholeColumn;
    var base := row.spent - reserved;
    WholeSums(row.spent, reserved);
    StoredOffset(base, actual);
    StoredRounds(actual);
    StoredRounds(base + actual);
    assert row.spent + (actual - reserved) == base + actual;
  }

  /** A reservation never lifts the spend above the larger of the budget and its own amount. */
  lemma ReservationBound(row: Row, limit: int, amount: int)
    requires WholeColumn(row.spent) && WholeColumn(amount)
    requires Fits(row.spent, Finite(limit), amount)
    ensures Incremented(row, amount).spent <= Max(limit, amount)
  {
    StoredOffset(row.spent, amount);
    StoredRounds(amount);
  }

  /** The ledger over its table. A foreign call that throws is the caller's concern (see BriefProtocol). */
  class PostgresBudgetLedger {
    var rows: map<Date, Row>

    constructor ()
      ensures rows == map[]
    {
      rows := map[];
    }

    /** The upsert: afterwards the day has a row, and a row that was there is untouched. */
    method UpsertDay(date: Date)
      modifies this
      ensures rows == Upserted(old(rows), date) && date in rows
    {
      if date !in rows {
        rows := rows[date := Row(0, 0)];
      }
    }

    /** The guarded increment; without a row it matches nothing. */
    method ReserveRow(date: Date, budget: Budget, amount: int) returns (reserved: bool)
      modifies this
      ensures reserved <==> date in old(rows) && Fits(old(rows)[date].spent, budget, amount)
      ensures reserved <==> date in old(rows) && Room(old(rows)[date].spent, budget, amount)
      ensures rows == if reserved then old(rows)[date := Incremented(old(rows)[date], amount)] else old(rows)
      ensures reserved && InUnits(old(rows)[date].spent) && InUnits(amount) ==>
                rows == old(rows)[date := Row(old(rows)[date].spent + amount, old(rows)[date].requests + 1)]
    {
      if date in rows {
        FitsIs(rows[date].spent, budget, amount);
        IncrementedIs(rows[date], amount);
      }
      reserved := date in rows && Fits(rows[date].spent, budget, amount);
      if reserved {
        var row := rows[date];
        rows := rows[date := Row(Stored(row.spent + amount), row.requests + 1)];
      }
    }

    method Reserve(date: Date, budget: Budget, amount: int) returns (reserved: bool, spent: int)
      modifies this
      ensures var before := Upserted(old(rows), date);
              reserved == Fits(before[date].spent, budget, amount)
              && rows == if reserved then before[date := Incremented(before[date], amount)] else before
      ensures date in rows && spent == rows[date].spent
      ensures reserved <==> Room(if date in old(rows) then old(rows)[date].spent else 0, budget, amount)
    {
      UpsertDay(date);
      reserved := ReserveRow(date, budget, amount);
      spent := rows[date].spent;
    }

    method Release(date: Date, amount: int) returns (spent: int)
      modifies this
      ensures rows == AdjustedRows(old(rows), date, -amount)
      ensures spent == if date in rows then rows[date].spent else 0
      ensures date in old(rows) && InUnits(old(rows)[date].spent) ==>
                rows == old(rows)[date := old(rows)[date].(spent := Stored(Max(0, old(rows)[date].spent - amount)))]
    {
      spent := UpdateSpent(date, -amount);
    }

    method Settle(date: Date, delta: int) returns (spent: int)
      modifies this
      ensures rows == AdjustedRows(old(rows), date, delta)
      ensures spent == if date in rows then rows[date].spent else 0
      ensures date in old(rows) && InUnits(old(rows)[date].spent) ==>
                rows == old(rows)[date := old(rows)[date].(spent := Stored(Max(0, old(rows)[date].spent + delta)))]
    {
      spent := UpdateSpent(date, delta);
    }

    method UpdateSpent(date: Date, delta: int) returns (spent: int)
      modifies this
      ensures rows == AdjustedRows(old(rows), date, delta)
      ensures spent == if date in rows then rows[date].spent else 0
      ensures date in old(rows) && InUnits(old(rows)[date].spent) ==>
                rows == old(rows)[date := old(rows)[date].(spent := Stored(Max(0, old(rows)[date].spent + delta)))]
      ensures date !in old(rows) ==> rows == old(rows)
    {
      AdjustedIs(rows, date, delta);
      if date !in rows {
        return 0;
      }
      var row := rows[date];
      if delta > 0 {
        rows := rows[date := row.(spent := Stored(row.spent + delta))];
      } else if delta < 0 {
        var amount := -delta;
        if row.spent >= amount {
          rows := rows[date := row.(spent := Stored(row.spent - amount))];
        } else {
          rows := rows[date := row.(spent := 0)];
        }
      }
      spent := rows[date].spent;
    }
  }
}
