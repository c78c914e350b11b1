/** Money accounting of the brief protocol, over every schedule: conservation per day, one charge per
    request, the spend bound, and when a release can hit the row twice. */
module BriefMoney {
  import opened BudgetLedger
  import opened BriefProtocol
  import BriefAgreement

  function HeldSum(workers: seq<Worker>, date: Date): int {
    if |workers| == 0 then 0
    else HeldSum(workers[..|workers| - 1], date) + HeldBy(workers[|workers| - 1], date)
  }

  function ChargeOn(charge: Charge, date: Date): int {
    if charge.date == date then charge.amount else 0
  }

  function ChargeSum(charges: seq<Charge>, date: Date): int {
    if |charges| == 0 then 0
    else ChargeSum(charges[..|charges| - 1], date) + ChargeOn(charges[|charges| - 1], date)
  }

  lemma {:induction false} HeldSumUpdate(workers: seq<Worker>, i: nat, worker: Worker, date: Date)
    requires i < |workers|
    ensures HeldSum(workers[i := worker], date)
         == HeldSum(workers, date) - HeldBy(workers[i], date) + HeldBy(worker, date)
  {
    var last := |workers| - 1;
    if i < last {
      assert workers[i := worker][..last] == workers[..last][i := worker];
      HeldSumUpdate(workers[..last], i, worker, date);
    } else {
      assert workers[i := worker][..last] == workers[..last];
    }
  }

  lemma {:induction false} ChargeSumUpdate(charges: seq<Charge>, e: nat, charge: Charge, date: Date)
    requires e < |charges|
    ensures ChargeSum(charges[e := charge], date)
         == ChargeSum(charges, date) - ChargeOn(charges[e], date) + ChargeOn(charge, date)
  {
    var last := |charges| - 1;
    if e < last {
      assert charges[e := charge][..last] == charges[..last][e := charge];
      ChargeSumUpdate(charges[..last], e, charge, date);
    } else {
      assert charges[e := charge][..last] == charges[..last];
    }
  }

  lemma ChargeSumAppend(charges: seq<Charge>, charge: Charge, date: Date)
    ensures ChargeSum(charges + [charge], date) == ChargeSum(charges, date) + ChargeOn(charge, date)
  {
    assert (charges + [charge])[..|charges|] == charges;
  }

  // ---------------------------------------------------------------- invariants

  /** A worker's execution and its claim on the ledger fit its stage. */
  predicate JobOk(s: Store, x: Execution) {
    && x.estimate >= 0 && WholeColumn(x.estimate)
    && (x.viaRedis ==> s.BooksOf(x.Day()).mixed)
    && (!x.claim.Unclaimed? && !x.viaRedis ==> x.Day() in s.ledger)
    && match x.stage
       case Resolving => x.claim.Unclaimed?
       case Loading => x.claim.Unclaimed?
       case Upserting => x.claim.Unclaimed?
       case Reserving => x.claim.Unclaimed?
       case Generating => x.claim.Held?
       case Persisting(payload, _) => x.claim.Held? && payload.requestId == x.id && payload.body.Brief?
       case Unreserving => x.claim.Held?
       case Reloading(inTry) => !x.claim.Held? && (inTry ==> x.claim.Released?)
       case Settling(payload, cost) =>
         && x.claim.Charged? && x.claim.entry < |s.charges|
         && s.charges[x.claim.entry] == Charge(x.id, x.Day(), x.estimate, cost, false, x.estimate)
       case Announcing(_, inTry) => !x.claim.Held? && (inTry ==> !x.claim.Unclaimed?)
       case RollingBack(_) => x.claim.Held? || x.claim.Released?
       case Handling(_) => !x.claim.Held?
       case Emitting(payload) => !x.claim.Held? && payload.body.Failure?
       case Returned => !x.claim.Held?
       case Threw => true
  }

  /** A charge is the reserved amount, or after settlement the actual cost as the column stores it. */
  predicate ChargeOk(s: Store, charge: Charge) {
    var books := s.BooksOf(charge.date);
    && charge.id in s.rows && s.rows[charge.id].body.Brief?
    && charge.reserved >= 0 && WholeColumn(charge.reserved)
    && (!charge.settled ==> charge.amount == charge.reserved)
    && (!books.mixed ==> charge.amount >= 0)
    && (charge.settled && !books.mixed && books.releasedTwice == 0 ==> charge.amount == Stored(charge.cost))
  }

  ghost predicate ChargesOk(s: Store) {
    && (forall e :: 0 <= e < |s.charges| ==> ChargeOk(s, s.charges[e]))
    && (forall e, f :: 0 <= e < f < |s.charges| ==> s.charges[e].id != s.charges[f].id)
  }

  /** What the row of a day should show: reservations held by running executions, final charges, and
      reservations whose executions ended without releasing them. */
  function Owed(s: Store, held: int, date: Date): int {
    held + ChargeSum(s.charges, date) + s.BooksOf(date).stranded
  }

  predicate DayOk(s: Store, held: int, date: Date) {
    var books := s.BooksOf(date);
    books.mixed
    || (&& WholeColumn(s.SpentOn(date)) && 0 <= s.SpentOn(date)
        && 0 <= books.stranded && 0 <= books.releasedTwice && 0 <= books.peak && 0 <= books.overruns
        && Owed(s, held, date) - books.releasedTwice <= s.SpentOn(date) <= Owed(s, held, date)
        && (!books.unlimited ==> s.SpentOn(date) <= books.peak + books.overruns))
  }

  predicate WorkerOk(s: Store, worker: Worker) {
    worker.Busy? && worker.job.Some? ==> JobOk(s, worker.job.value)
  }

  /** Two executions never settle the same charge. */
  predicate Apart(a: Worker, b: Worker) {
    a.Busy? && a.job.Some? && a.job.value.stage.Settling?
    && b.Busy? && b.job.Some? && b.job.value.stage.Settling?
    ==> a.job.value.claim != b.job.value.claim
  }

  ghost predicate Balanced(w: World) {
    && ChargesOk(w.store)
    && (forall k :: 0 <= k < |w.workers| ==> WorkerOk(w.store, w.workers[k]))
    && (forall j, k :: 0 <= j < k < |w.workers| ==> Apart(w.workers[j], w.workers[k]))
    && (forall date :: DayOk(w.store, HeldSum(w.workers, date), date))
  }

  lemma {:induction false} ChargeSumAtLeast(s: Store, charges: seq<Charge>, date: Date)
    requires forall e :: 0 <= e < |charges| ==> ChargeOk(s, charges[e])
    requires !s.BooksOf(date).mixed
    ensures 0 <= ChargeSum(charges, date)
    ensures forall e :: 0 <= e < |charges| && charges[e].date == date ==> charges[e].amount <= ChargeSum(charges, date)
  {
    if |charges| != 0 {
      var last := |charges| - 1;
      assert ChargeOk(s, charges[last]);
      assert forall e :: 0 <= e < last ==> charges[..last][e] == charges[e];
      ChargeSumAtLeast(s, charges[..last], date);
    }
  }

  lemma {:induction false} HeldSumAtLeast(s: Store, workers: seq<Worker>, date: Date)
    requires forall k :: 0 <= k < |workers| ==> WorkerOk(s, workers[k])
    ensures 0 <= HeldSum(workers, date)
    ensures forall k :: 0 <= k < |workers| ==> 0 <= HeldBy(workers[k], date) <= HeldSum(workers, date)
  {
    if |workers| != 0 {
      var last := |workers| - 1;
      assert WorkerOk(s, workers[last]);
      assert forall k :: 0 <= k < last ==> workers[..last][k] == workers[k];
      HeldSumAtLeast(s, workers[..last], date);
    }
  }

  // ---------------------------------------------------------------- one step of one execution

  /** The day's balance survives a step, whatever the other workers hold. */
  predicate KeepsDay(s: Store, x: Execution, step: Step, held: int, date: Date) {
    DayOk(step.store, held - HoldOf(x, date) + HoldOf(step.job, date), date)
  }

  predicate LedgerStage(stage: Stage) {
    stage.Upserting? || stage.Reserving? || stage.Unreserving? || stage.RollingBack?
  }

  lemma LedgerStagesKeepOtherDays(s: Store, x: Execution, c: Choice, date: Date)
    requires LedgerStage(x.stage) && date != x.Day()
    ensures var step := ExecutionStep(s, x, c);
            && step.store.SpentOn(date) == s.SpentOn(date) && step.store.BooksOf(date) == s.BooksOf(date)
            && step.store.charges == s.charges && step.job.Day() == x.Day()
  {
  }

  predicate QuietStage(stage: Stage) {
    !LedgerStage(stage) && !stage.Persisting? && !stage.Settling?
  }

  lemma QuietStagesKeepMoney(s: Store, x: Execution, c: Choice)
    requires QuietStage(x.stage)
    ensures var step := ExecutionStep(s, x, c);
            && step.store.ledger == s.ledger && step.store.books == s.books && step.store.charges == s.charges
            && step.job.Day() == x.Day() && step.job.claim == x.claim && step.job.viaRedis == x.viaRedis
            && (step.job.estimate == x.estimate || x.stage.Resolving?)
  {
  }

  lemma ChargeStagesKeepOtherDays(s: Store, x: Execution, c: Choice, date: Date)
    requires JobOk(s, x) && (x.stage.Persisting? || x.stage.Settling?) && date != x.Day()
    ensures var step := ExecutionStep(s, x, c);
            && step.store.SpentOn(date) == s.SpentOn(date) && step.store.BooksOf(date) == s.BooksOf(date)
            && ChargeSum(step.store.charges, date) == ChargeSum(s.charges, date) && step.job.Day() == x.Day()
  {
    if x.stage.Persisting? {
      ChargeSumAppend(s.charges, Charge(x.id, x.Day(), x.estimate, x.stage.cost, false, x.estimate), date);
    } else if !c.outcome.FailsBefore? {
      ChargeSumUpdate(s.charges, x.claim.entry, Settle(s, x, c).store.charges[x.claim.entry], date);
    }
  }

  /** A step touches the books of no other day. */
  lemma OtherDaysKept(s: Store, x: Execution, c: Choice, date: Date)
    requires JobOk(s, x) && date != x.Day()
    ensures var s' := ExecutionStep(s, x, c).store;
            && s'.SpentOn(date) == s.SpentOn(date) && s'.BooksOf(date) == s.BooksOf(date)
            && ChargeSum(s'.charges, date) == ChargeSum(s.charges, date)
    ensures ExecutionStep(s, x, c).job.Day() == x.Day()
  {
    if LedgerStage(x.stage) {
      LedgerStagesKeepOtherDays(s, x, c, date);
    } else if QuietStage(x.stage) {
      QuietStagesKeepMoney(s, x, c);
    } else {
      ChargeStagesKeepOtherDays(s, x, c, date);
    }
  }

  lemma UpsertKeepsDay(s: Store, x: Execution, c: Choice, held: int)
    requires JobOk(s, x) && x.stage.Upserting? && DayOk(s, held, x.Day())
    ensures KeepsDay(s, x, Upsert(s, x, c), held, x.Day())
  {
    assert Upsert(s, x, c).store.charges == s.charges;
  }

  lemma ReserveKeepsDay(s: Store, x: Execution, c: Choice, held: int)
    requires JobOk(s, x) && x.stage.Reserving? && DayOk(s, held, x.Day())
    ensures KeepsDay(s, x, Reserve(s, x, c), held, x.Day())
  {
    var date := x.Day();
    if !s.BooksOf(date).mixed && date in s.ledger {
      StoredOffset(s.ledger[date].spent, x.estimate);
      StoredRounds(x.estimate);
      assert Incremented(s.ledger[date], x.estimate).spent == s.ledger[date].spent + x.estimate;
    }
    assert Reserve(s, x, c).store.charges == s.charges;
  }

  lemma PersistKeepsDay(s: Store, x: Execution, c: Choice, held: int)
    requires JobOk(s, x) && x.stage.Persisting? && DayOk(s, held, x.Day())
    ensures KeepsDay(s, x, ExecutionStep(s, x, c), held, x.Day())
  {
    ChargeSumAppend(s.charges, Charge(x.id, x.Day(), x.estimate, x.stage.cost, false, x.estimate), x.Day());
  }

  lemma SettleKeepsDay(s: Store, x: Execution, c: Choice, held: int)
    requires JobOk(s, x) && x.stage.Settling? && DayOk(s, held, x.Day())
    ensures KeepsDay(s, x, ExecutionStep(s, x, c), held, x.Day())
  {
    var date := x.Day();
    if !c.outcome.FailsBefore? && !s.BooksOf(date).mixed {
      var s' := ExecutionStep(s, x, c).store;
      ChargeSumUpdate(s.charges, x.claim.entry, s'.charges[x.claim.entry], date);
      SettleReplacesReservation(s.ledger[date], x.estimate, x.stage.cost);
    }
  }

  lemma ReleaseCallKeepsDay(s: Store, x: Execution, held: int)
    requires JobOk(s, x) && (x.claim.Held? || x.claim.Released?) && DayOk(s, held, x.Day())
    requires HoldOf(x, x.Day()) <= held
    requires !s.BooksOf(x.Day()).mixed ==> 0 <= ChargeSum(s.charges, x.Day())
    ensures DayOk(ReleaseCall(s, x), held - HoldOf(x, x.Day()), x.Day())
  {
    var date := x.Day();
    if !s.BooksOf(date).mixed {
      ReleaseTakesOff(s.ledger[date], x.estimate);
    }
  }

  lemma ReleaseKeepsDay(s: Store, x: Execution, c: Choice, held: int)
    requires JobOk(s, x) && (x.stage.Unreserving? || x.stage.RollingBack?) && DayOk(s, held, x.Day())
    requires HoldOf(x, x.Day()) <= held
    requires !s.BooksOf(x.Day()).mixed ==> 0 <= ChargeSum(s.charges, x.Day())
    ensures KeepsDay(s, x, ExecutionStep(s, x, c), held, x.Day())
  {
    ReleaseCallKeepsDay(s, x, held);
  }

  lemma QuietStagesKeepDay(s: Store, x: Execution, c: Choice, held: int, date: Date)
    requires JobOk(s, x) && DayOk(s, held, date) && QuietStage(x.stage)
    ensures KeepsDay(s, x, ExecutionStep(s, x, c), held, date)
  {
    QuietStagesKeepMoney(s, x, c);
  }

  lemma StepKeepsDay(s: Store, x: Execution, c: Choice, held: int, date: Date)
    requires JobOk(s, x) && DayOk(s, held, date) && ChargesOk(s)
    requires !x.stage.Returned? && !x.stage.Threw?
    requires HoldOf(x, date) <= held
    ensures KeepsDay(s, x, ExecutionStep(s, x, c), held, date)
  {
    if date != x.Day() {
      OtherDaysKept(s, x, c, date);
    } else if x.stage.Upserting? {
      UpsertKeepsDay(s, x, c, held);
    } else if x.stage.Reserving? {
      ReserveKeepsDay(s, x, c, held);
    } else if x.stage.Persisting? {
      PersistKeepsDay(s, x, c, held);
    } else if x.stage.Settling? {
      SettleKeepsDay(s, x, c, held);
    } else if x.stage.Unreserving? || x.stage.RollingBack? {
      if !s.BooksOf(date).mixed {
        ChargeSumAtLeast(s, s.charges, date);
      }
      ReleaseKeepsDay(s, x, c, held);
    } else {
      QuietStagesKeepDay(s, x, c, held, date);
    }
  }

  /** What the other workers and the existing charges rely on. */
  ghost predicate Extends(s: Store, s': Store) {
    && (forall date :: s.BooksOf(date).mixed ==> s'.BooksOf(date).mixed)
    && (forall date :: !s'.BooksOf(date).mixed ==> s.BooksOf(date).releasedTwice <= s'.BooksOf(date).releasedTwice)
    && s.ledger.Keys <= s'.ledger.Keys
    && |s.charges| <= |s'.charges|
    && BriefAgreement.Grows(s, s')
  }

  lemma StepExtends(s: Store, x: Execution, c: Choice)
    requires JobOk(s, x) && BriefAgreement.StageOk(s, x) && BriefAgreement.Agreed(s)
    ensures Extends(s, ExecutionStep(s, x, c).store)
  {
    BriefAgreement.ExecutionStepMoves(s, x, c);
    BriefAgreement.StepGrows(s, x, ExecutionStep(s, x, c));
    forall date
      ensures s.BooksOf(date).mixed ==> ExecutionStep(s, x, c).store.BooksOf(date).mixed
      ensures s.BooksOf(date).releasedTwice <= ExecutionStep(s, x, c).store.BooksOf(date).releasedTwice
    {
      if date != x.Day() {
        OtherDaysKept(s, x, c, date);
      }
    }
  }

  lemma ReserveStagesKeepOwnJob(s: Store, x: Execution, c: Choice)
    requires JobOk(s, x)
    requires x.stage.Upserting? || x.stage.Reserving?
    ensures var step := ExecutionStep(s, x, c); JobOk(step.store, step.job)
  {
  }

  lemma ReleaseStagesKeepOwnJob(s: Store, x: Execution, c: Choice)
    requires JobOk(s, x)
    requires x.stage.Unreserving? || x.stage.RollingBack?
    ensures var step := ExecutionStep(s, x, c); JobOk(step.store, step.job)
  {
  }

  lemma ChargeStagesKeepOwnJob(s: Store, x: Execution, c: Choice)
    requires JobOk(s, x)
    requires x.stage.Persisting? || x.stage.Settling? || x.stage.Announcing?
    ensures var step := ExecutionStep(s, x, c); JobOk(step.store, step.job)
  {
  }

  lemma OtherStagesKeepOwnJob(s: Store, x: Execution, c: Choice)
    requires JobOk(s, x)
    requires x.stage.Resolving? || x.stage.Loading? || x.stage.Generating? || x.stage.Reloading?
             || x.stage.Handling? || x.stage.Emitting? || x.stage.Returned? || x.stage.Threw?
    ensures var step := ExecutionStep(s, x, c); JobOk(step.store, step.job)
  {
    if x.stage.Resolving? {
      assert WholeColumn(EstimateRequestCost(c.topics, c.evidence));
    }
  }

  lemma StepKeepsOwnJob(s: Store, x: Execution, c: Choice)
    requires JobOk(s, x)
    ensures var step := ExecutionStep(s, x, c); JobOk(step.store, step.job)
  {
    if x.stage.Upserting? || x.stage.Reserving? {
      ReserveStagesKeepOwnJob(s, x, c);
    } else if x.stage.Unreserving? || x.stage.RollingBack? {
      ReleaseStagesKeepOwnJob(s, x, c);
    } else if x.stage.Persisting? || x.stage.Settling? || x.stage.Announcing? {
      ChargeStagesKeepOwnJob(s, x, c);
    } else {
      OtherStagesKeepOwnJob(s, x, c);
    }
  }

  /** Only the settling execution rewrites a charge, and only its own. */
  lemma StepKeepsOtherCharges(s: Store, x: Execution, c: Choice, e: nat)
    requires JobOk(s, x) && e < |s.charges|
    ensures e < |ExecutionStep(s, x, c).store.charges|
    ensures (x.stage.Settling? && x.claim.entry == e)
            || ExecutionStep(s, x, c).store.charges[e] == s.charges[e]
  {
  }

  lemma OtherJobKept(s: Store, x: Execution, c: Choice, other: Execution)
    requires JobOk(s, x) && JobOk(s, other) && Extends(s, ExecutionStep(s, x, c).store)
    requires !(x.stage.Settling? && other.stage.Settling? && x.claim == other.claim)
    ensures JobOk(ExecutionStep(s, x, c).store, other)
  {
    if other.stage.Settling? {
      StepKeepsOtherCharges(s, x, c, other.claim.entry);
    }
  }

  lemma SettledChargeOk(s: Store, x: Execution, c: Choice, held: int)
    requires JobOk(s, x) && x.stage.Settling? && !c.outcome.FailsBefore?
    requires ChargesOk(s) && 0 <= held && DayOk(s, held, x.Day())
    ensures var s' := ExecutionStep(s, x, c).store; ChargeOk(s', s'.charges[x.claim.entry])
  {
    var date := x.Day();
    assert ChargeOk(s, s.charges[x.claim.entry]);
    if !s.BooksOf(date).mixed {
      ChargeSumAtLeast(s, s.charges, date);
      SettleReplacesReservation(s.ledger[date], x.estimate, x.stage.cost);
      StoredRounds(x.stage.cost);
    }
  }

  lemma OldChargeOk(s: Store, s': Store, charge: Charge)
    requires ChargeOk(s, charge) && Extends(s, s')
    requires s.BooksOf(charge.date).mixed || 0 <= s.BooksOf(charge.date).releasedTwice
    ensures ChargeOk(s', charge)
  {
  }

  lemma StepKeepsCharges(s: Store, x: Execution, c: Choice, held: int)
    requires JobOk(s, x) && ChargesOk(s) && 0 <= held && DayOk(s, held, x.Day())
    requires forall date :: s.BooksOf(date).mixed || 0 <= s.BooksOf(date).releasedTwice
    requires Extends(s, ExecutionStep(s, x, c).store)
    ensures ChargesOk(ExecutionStep(s, x, c).store)
  {
    var s' := ExecutionStep(s, x, c).store;
    forall e | 0 <= e < |s'.charges| ensures ChargeOk(s', s'.charges[e]) {
      if e < |s.charges| {
        StepKeepsOtherCharges(s, x, c, e);
        if s'.charges[e] == s.charges[e] {
          OldChargeOk(s, s', s.charges[e]);
        } else {
          SettledChargeOk(s, x, c, held);
        }
      }
    }
    forall e, f | 0 <= e < f < |s'.charges| ensures s'.charges[e].id != s'.charges[f].id {
      StepKeepsOtherCharges(s, x, c, e);
      assert ChargeOk(s, s.charges[e]);
      if f < |s.charges| {
        StepKeepsOtherCharges(s, x, c, f);
        assert ChargeOk(s, s.charges[f]);
      }
    }
  }

  // ---------------------------------------------------------------- every step of the system

  /** The days stay balanced when worker `i` is replaced. */
  ghost predicate DaysKept(w: World, w': World, i: nat)
    requires i < |w.workers| == |w'.workers|
  {
    forall date ::
      DayOk(w'.store, HeldSum(w.workers, date) - HeldBy(w.workers[i], date) + HeldBy(w'.workers[i], date), date)
  }

  /** Every worker fits the new store, and worker `i` is apart from the others. */
  ghost predicate WorkersKept(w: World, w': World, i: nat)
    requires i < |w.workers| == |w'.workers|
  {
    forall k :: 0 <= k < |w.workers| ==>
      && WorkerOk(w'.store, w'.workers[k])
      && (k != i ==> Apart(w'.workers[i], w.workers[k]) && Apart(w.workers[k], w'.workers[i]))
  }

  lemma ReplacedBalanced(w: World, w': World, i: nat)
    requires Balanced(w) && i < |w.workers| == |w'.workers|
    requires w'.workers == w.workers[i := w'.workers[i]]
    requires ChargesOk(w'.store) && WorkersKept(w, w', i) && DaysKept(w, w', i)
    ensures Balanced(w')
  {
    forall date ensures DayOk(w'.store, HeldSum(w'.workers, date), date) {
      HeldSumUpdate(w.workers, i, w'.workers[i], date);
    }
  }

  predicate Jobless(worker: Worker) {
    worker.Idle? || worker.job.None?
  }

  lemma LeftKeepsDays(w: World, i: nat, worker: Worker)
    requires Balanced(w) && i < |w.workers| && Jobless(worker)
    ensures DaysKept(w, Left(w, i, worker), i)
  {
    var w' := Left(w, i, worker);
    forall date
      ensures DayOk(w'.store, HeldSum(w.workers, date) - HeldBy(w.workers[i], date) + HeldBy(worker, date), date)
    {
      assert DayOk(w.store, HeldSum(w.workers, date), date);
      HeldSumAtLeast(w.store, w.workers, date);
      assert w'.store.charges == w.store.charges;
    }
  }

  /** A worker that leaves its execution hands what it still held over to `stranded`. */
  lemma LeftBalanced(w: World, i: nat, worker: Worker)
    requires Balanced(w) && i < |w.workers| && Jobless(worker)
    ensures Balanced(Left(w, i, worker))
  {
    var w' := Left(w, i, worker);
    assert Extends(w.store, w'.store);
    LeftKeepsDays(w, i, worker);
    forall k | 0 <= k < |w.workers| ensures WorkerOk(w'.store, w'.workers[k]) {
      assert WorkerOk(w.store, w.workers[k]);
    }
    forall e | 0 <= e < |w.store.charges| ensures ChargeOk(w'.store, w'.store.charges[e]) {
      assert DayOk(w.store, HeldSum(w.workers, w.store.charges[e].date), w.store.charges[e].date);
      OldChargeOk(w.store, w'.store, w.store.charges[e]);
    }
    ReplacedBalanced(w, w', i);
  }

  /** A step into `Settling` comes with a fresh charge. */
  lemma NewSettlementApart(s: Store, x: Execution, c: Choice, other: Execution)
    requires JobOk(s, x) && JobOk(s, other)
    ensures var x' := ExecutionStep(s, x, c).job;
            x'.stage.Settling? && other.stage.Settling? ==> x'.claim != other.claim
  {
  }

  ghost predicate Running(log: seq<Message>, w: World, i: nat, x: Execution) {
    && Balanced(w) && BriefAgreement.Consistent(log, w)
    && i < |w.workers| && w.workers[i].Busy? && w.workers[i].job == Some(x)
    && !x.stage.Returned? && !x.stage.Threw?
  }

  lemma RunningJobOk(log: seq<Message>, w: World, i: nat, x: Execution, c: Choice)
    requires Running(log, w, i, x)
    ensures JobOk(w.store, x) && Extends(w.store, ExecutionStep(w.store, x, c).store)
  {
    assert BriefAgreement.WorkerOk(log, w.store, w.workers[i]);
    assert WorkerOk(w.store, w.workers[i]);
    StepExtends(w.store, x, c);
  }

  lemma ExecutionKeepsDays(log: seq<Message>, w: World, i: nat, x: Execution, c: Choice)
    requires Running(log, w, i, x)
    ensures DaysKept(w, AdvanceStep(log, w, i, c), i)
  {
    RunningJobOk(log, w, i, x, c);
    forall date
      ensures KeepsDay(w.store, x, ExecutionStep(w.store, x, c), HeldSum(w.workers, date), date)
    {
      assert DayOk(w.store, HeldSum(w.workers, date), date);
      HeldSumAtLeast(w.store, w.workers, date);
      StepKeepsDay(w.store, x, c, HeldSum(w.workers, date), date);
    }
  }

  lemma ExecutionKeepsWorkers(log: seq<Message>, w: World, i: nat, x: Execution, c: Choice)
    requires Running(log, w, i, x)
    ensures WorkersKept(w, AdvanceStep(log, w, i, c), i)
  {
    RunningJobOk(log, w, i, x, c);
    StepKeepsOwnJob(w.store, x, c);
    forall k | 0 <= k < |w.workers| && k != i && w.workers[k].Busy? && w.workers[k].job.Some?
      ensures JobOk(ExecutionStep(w.store, x, c).store, w.workers[k].job.value)
      ensures var x', other := ExecutionStep(w.store, x, c).job, w.workers[k].job.value;
              x'.stage.Settling? && other.stage.Settling? ==> x'.claim != other.claim
    {
      assert WorkerOk(w.store, w.workers[k]);
      assert k < i ==> Apart(w.workers[k], w.workers[i]);
      assert i < k ==> Apart(w.workers[i], w.workers[k]);
      OtherJobKept(w.store, x, c, w.workers[k].job.value);
      NewSettlementApart(w.store, x, c, w.workers[k].job.value);
    }
  }

  lemma ExecutionKeepsCharges(log: seq<Message>, w: World, i: nat, x: Execution, c: Choice)
    requires Running(log, w, i, x)
    ensures ChargesOk(ExecutionStep(w.store, x, c).store)
  {
    RunningJobOk(log, w, i, x, c);
    HeldSumAtLeast(w.store, w.workers, x.Day());
    forall date ensures w.store.BooksOf(date).mixed || 0 <= w.store.BooksOf(date).releasedTwice {
      assert DayOk(w.store, HeldSum(w.workers, date), date);
    }
    StepKeepsCharges(w.store, x, c, HeldSum(w.workers, x.Day()));
  }

  lemma ExecutionBalanced(log: seq<Message>, w: World, i: nat, x: Execution, c: Choice)
    requires Running(log, w, i, x)
    ensures Balanced(AdvanceStep(log, w, i, c))
  {
    ExecutionKeepsDays(log, w, i, x, c);
    ExecutionKeepsWorkers(log, w, i, x, c);
    ExecutionKeepsCharges(log, w, i, x, c);
    ReplacedBalanced(w, AdvanceStep(log, w, i, c), i);
  }

  /** Polling, stopping and starting an execution leave the store alone and hold nothing. */
  lemma QuietBalanced(w: World, w': World, i: nat)
    requires Balanced(w) && i < |w.workers| == |w'.workers| && w'.store == w.store
    requires w'.workers == w.workers[i := w'.workers[i]]
    requires Jobless(w.workers[i])
    requires Jobless(w'.workers[i]) || (w'.workers[i].job.value.stage.Resolving? && JobOk(w.store, w'.workers[i].job.value))
    ensures Balanced(w')
  {
    forall date
      ensures DayOk(w'.store, HeldSum(w.workers, date) - HeldBy(w.workers[i], date) + HeldBy(w'.workers[i], date), date)
    {
      assert DayOk(w.store, HeldSum(w.workers, date), date);
    }
    forall k | 0 <= k < |w.workers| ensures WorkerOk(w'.store, w'.workers[k]) {
      assert WorkerOk(w.store, w.workers[k]);
    }
    ReplacedBalanced(w, w', i);
  }

  lemma AcknowledgedBalanced(w: World, i: nat)
    requires Balanced(w) && i < |w.workers| && w.workers[i].Busy?
    ensures Balanced(Acknowledged(w, i))
  {
    var b := w.workers[i];
    LeftBalanced(w.(acknowledged := w.acknowledged + {b.cur}), i, b.(cur := b.cur + 1, job := None));
  }

  lemma BatchStepBalanced(log: seq<Message>, w: World, i: nat, c: Choice)
    requires Balanced(w) && i < |w.workers| && w.workers[i].Busy? && w.workers[i].job.None?
    ensures Balanced(BatchStep(log, w, i, c))
  {
    var b := w.workers[i];
    if c.active && b.cur < b.hi && b.cur < |log| && !log[b.cur].Request? {
      AcknowledgedBalanced(w, i);
    } else {
      QuietBalanced(w, BatchStep(log, w, i, c), i);
    }
  }

  lemma AdvanceBalanced(log: seq<Message>, w: World, i: nat, c: Choice)
    requires Balanced(w) && BriefAgreement.Consistent(log, w) && i < |w.workers| && w.workers[i].Busy?
    ensures Balanced(AdvanceStep(log, w, i, c))
  {
    var b := w.workers[i];
    match b.job
    case None => BatchStepBalanced(log, w, i, c);
    case Some(x) =>
      if x.stage.Returned? {
        AcknowledgedBalanced(w, i);
      } else if x.stage.Threw? {
        LeftBalanced(w, i, Idle(b.cur));
      } else {
        ExecutionBalanced(log, w, i, x, c);
      }
  }

  lemma StepBalanced(log: seq<Message>, w: World, action: Action)
    requires Balanced(w) && BriefAgreement.Consistent(log, w)
    ensures Balanced(Next(log, w, action))
  {
    match action
    case Mirror(_, _) => MirrorBalanced(log, w, action);
    case Advance(i, c) =>
      if i < |w.workers| && w.workers[i].Busy? {
        AdvanceBalanced(log, w, i, c);
      }
    case Crash(i) =>
      if i < |w.workers| {
        LeftBalanced(w, i, Idle(w.committed));
      }
    case Poll(i, _, _) =>
      if i < |w.workers| && w.workers[i].Idle? {
        QuietBalanced(w, Next(log, w, action), i);
      }
    case AutoCommit(i) =>
  }

  lemma MirrorBalanced(log: seq<Message>, w: World, action: Action)
    requires Balanced(w) && action.Mirror?
    ensures Balanced(Next(log, w, action))
  {
    var w' := Next(log, w, action);
    forall k | 0 <= k < |w.workers| ensures WorkerOk(w'.store, w'.workers[k]) {
      assert WorkerOk(w.store, w.workers[k]);
    }
    forall date ensures DayOk(w'.store, HeldSum(w'.workers, date), date) {
      assert DayOk(w.store, HeldSum(w.workers, date), date);
    }
    forall e | 0 <= e < |w.store.charges| ensures ChargeOk(w'.store, w'.store.charges[e]) {
      assert ChargeOk(w.store, w.store.charges[e]);
    }
  }

  lemma InitialBalanced(workers: nat)
    ensures Balanced(Initial(workers))
  {
    forall date ensures DayOk(EMPTY_STORE, HeldSum(Initial(workers).workers, date), date) {
      IdleHoldsNothing(Initial(workers).workers, date);
    }
  }

  lemma {:induction false} IdleHoldsNothing(workers: seq<Worker>, date: Date)
    requires forall k :: 0 <= k < |workers| ==> workers[k].Idle?
    ensures HeldSum(workers, date) == 0
  {
    if |workers| != 0 {
      IdleHoldsNothing(workers[..|workers| - 1], date);
    }
  }

  lemma {:induction false} RunBalanced(log: seq<Message>, workers: nat, schedule: seq<Action>)
    ensures Balanced(Run(log, Initial(workers), schedule))
    decreases |schedule|
  {
    if |schedule| == 0 {
      InitialBalanced(workers);
    } else {
      var front := schedule[..|schedule| - 1];
      RunBalanced(log, workers, front);
      BriefAgreement.RunConsistent(log, workers, front);
      StepBalanced(log, Run(log, Initial(workers), front), schedule[|schedule| - 1]);
    }
  }
}
