/** The final charges of requests: one per request, its exact amount, what settlements add to the spend, and
    which stored briefs have none. */
module BriefCharges {
  import opened BudgetLedger
  import opened BriefProtocol
  import opened BriefMoney
  import opened BriefResults
  import opened BriefStranding
  import opened BriefExactness
  import BriefAgreement

  // ---------------------------------------------------------------- what settlements add

  function OverrunOn(charge: Charge, date: Date): int {
    if charge.date == date then Max(0, charge.amount - charge.reserved) else 0
  }

  /** By how much the charges of a day exceed their reservations. */
  function OverrunSum(charges: seq<Charge>, date: Date): int {
    if |charges| == 0 then 0
    else OverrunSum(charges[..|charges| - 1], date) + OverrunOn(charges[|charges| - 1], date)
  }

  lemma {:induction false} OverrunSumUpdate(charges: seq<Charge>, e: nat, charge: Charge, date: Date)
    requires e < |charges|
    ensures OverrunSum(charges[e := charge], date)
         == OverrunSum(charges, date) - OverrunOn(charges[e], date) + OverrunOn(charge, date)
  {
    var last := |charges| - 1;
    if e < last {
      assert charges[e := charge][..last] == charges[..last][e := charge];
      OverrunSumUpdate(charges[..last], e, charge, date);
    } else {
      assert charges[e := charge][..last] == charges[..last];
    }
  }

  ghost predicate OverrunsBooked(s: Store) {
    forall date :: s.BooksOf(date).overruns == OverrunSum(s.charges, date)
  }

  lemma LedgerStagesKeepOverruns(s: Store, x: Execution, c: Choice, date: Date)
    requires LedgerStage(x.stage)
    ensures var s' := ExecutionStep(s, x, c).store;
            s'.charges == s.charges && s'.BooksOf(date).overruns == s.BooksOf(date).overruns
  {
  }

  lemma PersistKeepsOverruns(s: Store, x: Execution, c: Choice, date: Date)
    requires x.stage.Persisting?
    ensures var s' := Persist(s, x, c).store;
            && s'.books == s.books && OverrunSum(s'.charges, date) == OverrunSum(s.charges, date)
  {
    var charge := Charge(x.id, x.Day(), x.estimate, x.stage.cost, false, x.estimate);
    assert (s.charges + [charge])[..|s.charges|] == s.charges;
  }

  lemma SettleBooksOverrun(s: Store, x: Execution, c: Choice, date: Date)
    requires JobOk(s, x) && x.stage.Settling?
    ensures var s' := Settle(s, x, c).store;
            s'.BooksOf(date).overruns - s.BooksOf(date).overruns == OverrunSum(s'.charges, date) - OverrunSum(s.charges, date)
  {
    if !c.outcome.FailsBefore? {
      OverrunSumUpdate(s.charges, x.claim.entry, Settle(s, x, c).store.charges[x.claim.entry], date);
    }
  }

  lemma StepBooksOverruns(s: Store, x: Execution, c: Choice)
    requires JobOk(s, x) && OverrunsBooked(s)
    ensures OverrunsBooked(ExecutionStep(s, x, c).store)
  {
    var s' := ExecutionStep(s, x, c).store;
    forall date ensures s'.BooksOf(date).overruns == OverrunSum(s'.charges, date) {
      assert s.BooksOf(date).overruns == OverrunSum(s.charges, date);
      if LedgerStage(x.stage) {
        LedgerStagesKeepOverruns(s, x, c, date);
      } else if x.stage.Persisting? {
        PersistKeepsOverruns(s, x, c, date);
      } else if x.stage.Settling? {
        SettleBooksOverrun(s, x, c, date);
      } else {
        QuietStagesKeepMoney(s, x, c);
      }
    }
  }

  /** Outside the stages of an execution, rows of results and charges stay as they are. */
  lemma OtherActionsKeepCharges(log: seq<Message>, w: World, action: Action)
    requires var job := Advanced(w, action); job.None? || Final(job.value.stage)
    ensures var w' := Next(log, w, action); w'.store.charges == w.store.charges && w'.store.rows == w.store.rows
  {
  }

  lemma {:induction false} RunBooksOverruns(log: seq<Message>, workers: nat, schedule: seq<Action>)
    ensures OverrunsBooked(Run(log, Initial(workers), schedule).store)
    decreases |schedule|
  {
    if |schedule| != 0 {
      var front, last := schedule[..|schedule| - 1], schedule[|schedule| - 1];
      var w := Run(log, Initial(workers), front);
      RunBooksOverruns(log, workers, front);
      RunBalanced(log, workers, front);
      NextBooksOverruns(log, w, last);
    }
  }

  lemma NextBooksOverruns(log: seq<Message>, w: World, action: Action)
    requires Balanced(w) && OverrunsBooked(w.store)
    ensures OverrunsBooked(Next(log, w, action).store)
  {
    var job := Advanced(w, action);
    if job.Some? && !Final(job.value.stage) {
      assert WorkerOk(w.store, w.workers[action.worker]);
      StepBooksOverruns(w.store, job.value, action.choice);
    } else {
      OtherActionsKeepCharges(log, w, action);
      forall date ensures Next(log, w, action).store.BooksOf(date).overruns == w.store.BooksOf(date).overruns {
        OtherActionsKeepBooks(log, w, action, date);
      }
    }
  }

  /** Spend bound: with budgets and estimates of at most `cap`, a day's spend never passes the largest
      max(budget, amount) of its successful reservations, and so `cap`, by more than its charges exceed their
      reservations, whatever fails or is redelivered. */
  lemma SpendBound(log: seq<Message>, workers: nat, schedule: seq<Action>, w: World, cap: int, date: Date)
    requires w == Run(log, Initial(workers), schedule) && !w.store.BooksOf(date).mixed
    requires 0 <= cap && BudgetsWithin(log, cap) && EstimatesWithin(schedule, cap)
    ensures 0 <= w.store.SpentOn(date) <= w.store.BooksOf(date).peak + OverrunSum(w.store.charges, date)
    ensures w.store.BooksOf(date).peak <= cap
  {
    RunBalanced(log, workers, schedule);
    RunWithin(log, workers, schedule, cap);
    RunBooksOverruns(log, workers, schedule);
    assert DayOk(w.store, HeldSum(w.workers, date), date);
  }

  // ---------------------------------------------------------------- the amount of a charge

  predicate ExactCharge(charge: Charge) {
    charge.amount == if charge.settled then Stored(charge.cost) else charge.reserved
  }

  ghost predicate ExactCharges(s: Store) {
    forall e :: 0 <= e < |s.charges| ==> ExactCharge(s.charges[e])
  }

  /** On a level day a settlement puts the stored cost in place of the reserved amount. */
  lemma SettleIsExact(s: Store, x: Execution, c: Choice, held: int)
    requires JobOk(s, x) && x.stage.Settling? && !c.outcome.FailsBefore? && ChargesOk(s)
    requires 0 <= held && DayOk(s, held, x.Day()) && Level(s, held, x.Day()) && !s.BooksOf(x.Day()).mixed
    ensures ExactCharge(Settle(s, x, c).store.charges[x.claim.entry])
  {
    ChargeSumAtLeast(s, s.charges, x.Day());
    assert s.charges[x.claim.entry].amount <= ChargeSum(s.charges, x.Day());
    SettleReplacesReservation(s.ledger[x.Day()], x.estimate, x.stage.cost);
  }

  lemma StepExact(s: Store, x: Execution, c: Choice, held: int)
    requires JobOk(s, x) && ChargesOk(s) && ExactCharges(s)
    requires 0 <= held && DayOk(s, held, x.Day()) && Level(s, held, x.Day()) && !s.BooksOf(x.Day()).mixed
    ensures ExactCharges(ExecutionStep(s, x, c).store)
  {
    var s' := ExecutionStep(s, x, c).store;
    forall e | 0 <= e < |s'.charges| ensures ExactCharge(s'.charges[e]) {
      if e < |s.charges| {
        StepKeepsOtherCharges(s, x, c, e);
        if s'.charges[e] != s.charges[e] {
          SettleIsExact(s, x, c, held);
        }
      }
    }
  }

  lemma NextExact(log: seq<Message>, w: World, action: Action)
    requires Balanced(w) && Unmixed(w) && Accounted(w) && ExactCharges(w.store)
    ensures ExactCharges(Next(log, w, action).store)
  {
    var job := Advanced(w, action);
    if job.Some? && !Final(job.value.stage) {
      var date := job.value.Day();
      assert WorkerOk(w.store, w.workers[action.worker]);
      assert Level(w.store, HeldSum(w.workers, date), date) && DayOk(w.store, HeldSum(w.workers, date), date);
      HeldSumAtLeast(w.store, w.workers, date);
      StepExact(w.store, job.value, action.choice, HeldSum(w.workers, date));
    } else {
      OtherActionsKeepCharges(log, w, action);
    }
  }

  lemma {:induction false} RunExact(log: seq<Message>, workers: nat, schedule: seq<Action>)
    requires AllFromPostgres(log, Initial(workers), schedule) && NeverLoses(log, Initial(workers), schedule)
    ensures ExactCharges(Run(log, Initial(workers), schedule).store)
    decreases |schedule|
  {
    if |schedule| != 0 {
      var front := schedule[..|schedule| - 1];
      RunExact(log, workers, front);
      RunUnmixed(log, workers, front);
      RunBalanced(log, workers, front);
      AccountedExactly(log, workers, front);
      NextExact(log, Run(log, Initial(workers), front), schedule[|schedule| - 1]);
    }
  }

  /** A request is charged at most once, however often it is delivered, and only when its stored result is a
      brief. The charge is the reserved amount, or after settlement the actual cost as the column stores it,
      in every run with reservations from Postgres that never releases one twice from a filled row. */
  lemma ChargedOnce(log: seq<Message>, workers: nat, schedule: seq<Action>, w: World, e: nat)
    requires w == Run(log, Initial(workers), schedule) && e < |w.store.charges|
    ensures var s := w.store;
            var charge := s.charges[e];
            && (forall f :: 0 <= f < |s.charges| && f != e ==> s.charges[f].id != charge.id)
            && charge.id in s.rows && s.rows[charge.id].body.Brief?
            && (!charge.settled ==> charge.amount == charge.reserved)
    ensures AllFromPostgres(log, Initial(workers), schedule) && NeverLoses(log, Initial(workers), schedule) ==>
              ExactCharge(w.store.charges[e])
  {
    RunBalanced(log, workers, schedule);
    assert ChargeOk(w.store, w.store.charges[e]);
    if AllFromPostgres(log, Initial(workers), schedule) && NeverLoses(log, Initial(workers), schedule) {
      RunExact(log, workers, schedule);
    }
  }

  // ---------------------------------------------------------------- briefs without a charge

  ghost predicate HasCharge(s: Store, id: RequestId) {
    exists e :: 0 <= e < |s.charges| && s.charges[e].id == id
  }

  ghost predicate AllCharged(s: Store) {
    forall id :: id in s.rows && s.rows[id].body.Brief? ==> HasCharge(s, id)
  }

  /** The insert of a new brief takes effect and throws. */
  predicate Unreported(s: Store, x: Execution, c: Choice) {
    x.stage.Persisting? && c.outcome.FailsAfter? && x.stage.payload.requestId !in s.rows
  }

  /** Where a step leaves rows and charges: an unreported insert, a charged insert, an insert of a failure, or
      nothing but the amount of a charge. */
  lemma StepRowsAndCharges(s: Store, x: Execution, c: Choice)
    requires JobOk(s, x) && BriefAgreement.StageOk(s, x)
    ensures var s' := ExecutionStep(s, x, c).store;
            if Unreported(s, x, c) then
              s'.charges == s.charges && s'.rows == s.rows[x.id := x.stage.payload] && x.stage.payload.body.Brief?
            else
              || (x.id !in s.rows && s'.rows.Keys == s.rows.Keys + {x.id} && |s'.charges| == |s.charges| + 1
                  && s'.charges[..|s.charges|] == s.charges && s'.charges[|s.charges|].id == x.id)
              || (&& |s'.charges| == |s.charges| && (forall e :: 0 <= e < |s.charges| ==> s'.charges[e].id == s.charges[e].id)
                  && forall id :: id in s'.rows && s'.rows[id].body.Brief? ==> id in s.rows && s.rows[id] == s'.rows[id])
    ensures var s' := ExecutionStep(s, x, c).store; forall id :: id in s.rows ==> id in s'.rows && s'.rows[id] == s.rows[id]
  {
    if QuietStage(x.stage) {
      QuietStagesKeepMoney(s, x, c);
    }
  }

  lemma StepCharged(s: Store, x: Execution, c: Choice)
    requires JobOk(s, x) && BriefAgreement.StageOk(s, x) && ChargesOk(s)
    ensures AllCharged(ExecutionStep(s, x, c).store) <==> AllCharged(s) && !Unreported(s, x, c)
  {
    var s' := ExecutionStep(s, x, c).store;
    StepRowsAndCharges(s, x, c);
    if Unreported(s, x, c) {
      assert !HasCharge(s', x.id) by {
        forall e | 0 <= e < |s'.charges| ensures s'.charges[e].id != x.id {
          assert ChargeOk(s, s.charges[e]);
        }
      }
      assert x.id in s'.rows && s'.rows[x.id].body.Brief?;
    } else {
      forall id | id in s.rows ensures HasCharge(s', id) <==> HasCharge(s, id) {
        SameCharge(s, s', id);
      }
      if AllCharged(s) {
        forall id | id in s'.rows && s'.rows[id].body.Brief? ensures HasCharge(s', id) {
          if id !in s.rows {
            assert s'.charges[|s.charges|].id == id;
          }
        }
      } else {
        var id :| id in s.rows && s.rows[id].body.Brief? && !HasCharge(s, id);
        assert id in s'.rows && !HasCharge(s', id);
      }
    }
  }

  /** Charges that were kept, but for one of another request, answer for the same requests. */
  lemma SameCharge(s: Store, s': Store, id: RequestId)
    requires |s.charges| <= |s'.charges| <= |s.charges| + 1
    requires forall e :: 0 <= e < |s.charges| ==> s'.charges[e].id == s.charges[e].id
    requires |s'.charges| > |s.charges| ==> s'.charges[|s.charges|].id != id
    ensures HasCharge(s', id) <==> HasCharge(s, id)
  {
    if HasCharge(s, id) {
      var e :| 0 <= e < |s.charges| && s.charges[e].id == id;
      assert s'.charges[e].id == id;
    }
  }

  predicate InsertsUnreported(w: World, action: Action) {
    var job := Advanced(w, action);
    job.Some? && Unreported(w.store, job.value, action.choice)
  }

  predicate NeverUnreported(log: seq<Message>, w: World, schedule: seq<Action>)
    decreases |schedule|
  {
    |schedule| == 0 ||
    var front := schedule[..|schedule| - 1];
    NeverUnreported(log, w, front) && !InsertsUnreported(Run(log, w, front), schedule[|schedule| - 1])
  }

  lemma NextCharged(log: seq<Message>, w: World, action: Action)
    requires Balanced(w) && BriefAgreement.Consistent(log, w)
    ensures AllCharged(Next(log, w, action).store) <==> AllCharged(w.store) && !InsertsUnreported(w, action)
  {
    var job := Advanced(w, action);
    if job.Some? && !Final(job.value.stage) {
      assert WorkerOk(w.store, w.workers[action.worker]);
      assert BriefAgreement.WorkerOk(log, w.store, w.workers[action.worker]);
      StepCharged(w.store, job.value, action.choice);
    } else {
      OtherActionsKeepCharges(log, w, action);
    }
  }

  /** Every stored brief has its charge if and only if no insert of a brief took effect and threw: only then is
      the reservation rolled back although redelivery publishes the row. */
  lemma {:induction false} BriefsAreCharged(log: seq<Message>, workers: nat, schedule: seq<Action>)
    ensures AllCharged(Run(log, Initial(workers), schedule).store) <==> NeverUnreported(log, Initial(workers), schedule)
    decreases |schedule|
  {
    if |schedule| != 0 {
      var front := schedule[..|schedule| - 1];
      BriefsAreCharged(log, workers, front);
      RunBalanced(log, workers, front);
      BriefAgreement.RunConsistent(log, workers, front);
      NextCharged(log, Run(log, Initial(workers), front), schedule[|schedule| - 1]);
    }
  }
}
