/** What the money invariants of the brief protocol mean for a whole schedule. */
module BriefResults {
  import opened BudgetLedger
  import opened BriefProtocol
  import opened BriefMoney
  import BriefAgreement

  /** The row of a day never shows more than is owed for it, and less by no more than what was
      released a second time. */
  lemma RowMatchesBooks(log: seq<Message>, workers: nat, schedule: seq<Action>, w: World, date: Date)
    requires w == Run(log, Initial(workers), schedule) && !w.store.BooksOf(date).mixed
    ensures var owed := Owed(w.store, HeldSum(w.workers, date), date);
            0 <= w.store.SpentOn(date) <= owed <= w.store.SpentOn(date) + w.store.BooksOf(date).releasedTwice
  {
    RunBalanced(log, workers, schedule);
    assert DayOk(w.store, HeldSum(w.workers, date), date);
  }

  // ---------------------------------------------------------------- runs without a second release

  /** The execution an action advances, if any. */
  function Advanced(w: World, action: Action): Option<Execution> {
    if action.Advance? && action.worker < |w.workers| && w.workers[action.worker].Busy?
    then w.workers[action.worker].job else None
  }

  /** The reservation comes from Postgres, and a release in the duplicate branch does not throw after
      taking effect. */
  predicate Plain(w: World, action: Action) {
    var job := Advanced(w, action);
    job.Some? ==>
      && (job.value.stage.Upserting? ==> !action.choice.viaRedis)
      && (job.value.stage.Unreserving? ==> !action.choice.outcome.FailsAfter?)
  }

  predicate PlainRun(log: seq<Message>, w: World, schedule: seq<Action>)
    decreases |schedule|
  {
    |schedule| == 0 ||
    var front := schedule[..|schedule| - 1];
    PlainRun(log, w, front) && Plain(Run(log, w, front), schedule[|schedule| - 1])
  }

  predicate ReleasesOnce(worker: Worker) {
    worker.Busy? && worker.job.Some? && worker.job.value.stage.RollingBack? ==> worker.job.value.claim.Held?
  }

  ghost predicate NoSecondRelease(w: World) {
    && (forall k :: 0 <= k < |w.workers| ==> ReleasesOnce(w.workers[k]))
    && (forall date :: !w.store.BooksOf(date).mixed && w.store.BooksOf(date).releasedTwice == 0)
  }

  lemma PlainStep(s: Store, x: Execution, c: Choice)
    requires JobOk(s, x)
    requires x.stage.RollingBack? ==> x.claim.Held?
    requires x.stage.Upserting? ==> !c.viaRedis
    requires x.stage.Unreserving? ==> !c.outcome.FailsAfter?
    requires !s.BooksOf(x.Day()).mixed && s.BooksOf(x.Day()).releasedTwice == 0
    ensures var step := ExecutionStep(s, x, c);
            && (step.job.stage.RollingBack? ==> step.job.claim.Held?)
            && !step.store.BooksOf(x.Day()).mixed && step.store.BooksOf(x.Day()).releasedTwice == 0
  {
  }

  /** Outside the stages of an execution, the books of a day change in `stranded` only. */
  lemma OtherActionsKeepBooks(log: seq<Message>, w: World, action: Action, date: Date)
    requires var job := Advanced(w, action);
             job.None? || job.value.stage.Returned? || job.value.stage.Threw?
    ensures var w' := Next(log, w, action);
            w'.store.BooksOf(date) == w.store.BooksOf(date).(stranded := w'.store.BooksOf(date).stranded)
  {
  }

  lemma PlainNext(log: seq<Message>, w: World, action: Action)
    requires Balanced(w) && NoSecondRelease(w) && Plain(w, action)
    ensures NoSecondRelease(Next(log, w, action))
  {
    var w' := Next(log, w, action);
    var job := Advanced(w, action);
    if job.Some? && !job.value.stage.Returned? && !job.value.stage.Threw? {
      var x, c := job.value, action.choice;
      assert WorkerOk(w.store, w.workers[action.worker]) && ReleasesOnce(w.workers[action.worker]);
      PlainStep(w.store, x, c);
      forall date ensures !w'.store.BooksOf(date).mixed && w'.store.BooksOf(date).releasedTwice == 0 {
        if date != x.Day() {
          OtherDaysKept(w.store, x, c, date);
        }
      }
    } else {
      forall k | 0 <= k < |w'.workers| ensures ReleasesOnce(w'.workers[k]) {
        assert ReleasesOnce(w.workers[k]);
      }
      forall date ensures !w'.store.BooksOf(date).mixed && w'.store.BooksOf(date).releasedTwice == 0 {
        OtherActionsKeepBooks(log, w, action, date);
      }
    }
  }

  lemma {:induction false} PlainRunHasNoSecondRelease(log: seq<Message>, workers: nat, schedule: seq<Action>)
    requires PlainRun(log, Initial(workers), schedule)
    ensures NoSecondRelease(Run(log, Initial(workers), schedule))
    decreases |schedule|
  {
    if |schedule| != 0 {
      var front := schedule[..|schedule| - 1];
      PlainRunHasNoSecondRelease(log, workers, front);
      RunBalanced(log, workers, front);
      PlainNext(log, Run(log, Initial(workers), front), schedule[|schedule| - 1]);
    }
  }

  /** What a second release of the same reservation does: the row drops by the amount or to zero while
      nothing less is owed, so the day stays conserved exactly when the row was already empty. */
  lemma SecondRelease(s: Store, x: Execution, c: Choice, held: int)
    requires JobOk(s, x) && x.stage.RollingBack? && x.claim.Released? && x.estimate > 0
    requires !c.outcome.FailsBefore? && !s.BooksOf(x.Day()).mixed
    requires DayOk(s, held, x.Day()) && s.SpentOn(x.Day()) == Owed(s, held, x.Day())
    ensures var s' := ExecutionStep(s, x, c).store;
            && Owed(s', held, x.Day()) == Owed(s, held, x.Day())
            && s'.SpentOn(x.Day()) == Max(0, s.SpentOn(x.Day()) - x.estimate)
            && (s'.SpentOn(x.Day()) == Owed(s', held, x.Day()) <==> s.SpentOn(x.Day()) == 0)
  {
    ReleaseTakesOff(s.ledger[x.Day()], x.estimate);
  }

  // ---------------------------------------------------------------- peaks

  /** Every request of the log has a budget of at most `cap`. */
  ghost predicate BudgetsWithin(log: seq<Message>, cap: int) {
    forall p :: 0 <= p < |log| && log[p].Request? ==> log[p].budget.Finite? && log[p].budget.limit <= cap
  }

  /** Every request that gets resolved is estimated at no more than `cap`. */
  ghost predicate EstimatesWithin(schedule: seq<Action>, cap: int) {
    forall n :: 0 <= n < |schedule| && schedule[n].Advance? ==>
      EstimateRequestCost(schedule[n].choice.topics, schedule[n].choice.evidence) <= cap
  }

  predicate JobWithin(worker: Worker, cap: int) {
    worker.Busy? && worker.job.Some? ==>
      worker.job.value.budget.Finite? && worker.job.value.budget.limit <= cap && worker.job.value.estimate <= cap
  }

  ghost predicate Within(w: World, cap: int) {
    && (forall k :: 0 <= k < |w.workers| ==> JobWithin(w.workers[k], cap))
    && (forall date :: !w.store.BooksOf(date).unlimited && w.store.BooksOf(date).peak <= cap)
  }

  lemma StepKeepsTerms(s: Store, x: Execution, c: Choice)
    ensures var step := ExecutionStep(s, x, c);
            && step.job.budget == x.budget
            && step.job.estimate == if x.stage.Resolving? && c.outcome.Succeeds?
                                    then EstimateRequestCost(c.topics, c.evidence) else x.estimate
  {
  }

  lemma StepKeepsPeak(s: Store, x: Execution, c: Choice, date: Date)
    requires !x.stage.Reserving?
    ensures var books, books' := s.BooksOf(date), ExecutionStep(s, x, c).store.BooksOf(date);
            books'.peak == books.peak && books'.unlimited == books.unlimited
  {
    if QuietStage(x.stage) {
      QuietStagesKeepMoney(s, x, c);
    }
  }

  lemma StepWithin(s: Store, x: Execution, c: Choice, cap: int, date: Date)
    requires x.budget.Finite? && x.budget.limit <= cap && x.estimate <= cap
    requires EstimateRequestCost(c.topics, c.evidence) <= cap
    requires !s.BooksOf(date).unlimited && s.BooksOf(date).peak <= cap
    ensures var step := ExecutionStep(s, x, c);
            && step.job.budget.Finite? && step.job.budget.limit <= cap && step.job.estimate <= cap
            && !step.store.BooksOf(date).unlimited && step.store.BooksOf(date).peak <= cap
  {
    StepKeepsTerms(s, x, c);
    if !x.stage.Reserving? {
      StepKeepsPeak(s, x, c, date);
    }
  }

  lemma NextWithin(log: seq<Message>, w: World, action: Action, cap: int)
    requires Within(w, cap) && 0 <= cap && BudgetsWithin(log, cap) && EstimatesWithin([action], cap)
    ensures Within(Next(log, w, action), cap)
  {
    var w' := Next(log, w, action);
    var job := Advanced(w, action);
    if job.Some? && !job.value.stage.Returned? && !job.value.stage.Threw? {
      assert JobWithin(w.workers[action.worker], cap) && [action][0] == action;
      forall date ensures !w'.store.BooksOf(date).unlimited && w'.store.BooksOf(date).peak <= cap {
        StepWithin(w.store, job.value, action.choice, cap, date);
      }
    } else {
      forall k | 0 <= k < |w'.workers| ensures JobWithin(w'.workers[k], cap) {
        assert JobWithin(w.workers[k], cap);
      }
      forall date ensures !w'.store.BooksOf(date).unlimited && w'.store.BooksOf(date).peak <= cap {
        OtherActionsKeepBooks(log, w, action, date);
      }
    }
  }

  lemma {:induction false} RunWithin(log: seq<Message>, workers: nat, schedule: seq<Action>, cap: int)
    requires 0 <= cap && BudgetsWithin(log, cap) && EstimatesWithin(schedule, cap)
    ensures Within(Run(log, Initial(workers), schedule), cap)
    decreases |schedule|
  {
    if |schedule| != 0 {
      var front, last := schedule[..|schedule| - 1], schedule[|schedule| - 1];
      assert forall n :: 0 <= n < |front| ==> front[n] == schedule[n];
      RunWithin(log, workers, front, cap);
      NextWithin(log, Run(log, Initial(workers), front), last, cap);
    }
  }
}
