/** When the brief protocol leaves a reservation behind: the steps that throw while a reservation is held,
    and what becomes of it when the worker moves on or crashes. */
module BriefStranding {
  import opened BudgetLedger
  import opened BriefProtocol
  import opened BriefMoney
  import opened BriefResults
  import BriefAgreement

  // ---------------------------------------------------------------- which executions throw while they hold

  /** The increment of a reservation takes effect and the call throws, or a rollback fails before it takes
      effect. */
  predicate ThrowsHolding(s: Store, x: Execution, c: Choice) {
    || (&& x.stage.Reserving? && c.outcome.FailsAfter?
        && x.Day() in s.ledger && Fits(s.ledger[x.Day()].spent, x.budget, x.estimate))
    || (x.stage.RollingBack? && x.claim.Held? && x.estimate > 0 && c.outcome.FailsBefore?)
  }

  /** An execution throws while its reservation is neither rolled back nor charged in exactly these two
      steps: every other error rolls back first. */
  lemma ThrewHolding(s: Store, x: Execution, c: Choice)
    requires JobOk(s, x) && !Final(x.stage)
    ensures var x' := ExecutionStep(s, x, c).job;
            x'.stage.Threw? && x'.claim.Held? <==> ThrowsHolding(s, x, c)
  {
  }

  /** A reservation is rolled back or charged, never both. An execution that returns normally has given its
      reservation up one way or the other, and one that throws has too, but for the two steps that throw
      while it is held. */
  lemma ReservationHasOneFate(log: seq<Message>, workers: nat, schedule: seq<Action>, w: World, i: nat, x: Execution, c: Choice)
    requires w == Run(log, Initial(workers), schedule)
    requires i < |w.workers| && w.workers[i].Busy? && w.workers[i].job == Some(x)
    ensures var step := ExecutionStep(w.store, x, c);
            && (x.claim.Charged? ==> step.job.claim == x.claim)
            && (x.claim.Charged? && !x.stage.Settling? ==> step.store.ledger == w.store.ledger)
            && (x.claim.Released? ==> step.job.claim == x.claim && step.store.charges == w.store.charges)
            && (x.stage.Returned? ==> !x.claim.Held?)
            && (!Final(x.stage) && step.job.stage.Threw? ==> (step.job.claim.Held? <==> ThrowsHolding(w.store, x, c)))
  {
    RunBalanced(log, workers, schedule);
    assert WorkerOk(w.store, w.workers[i]);
    if !Final(x.stage) {
      ThrewHolding(w.store, x, c);
    }
  }

  // ---------------------------------------------------------------- reservations from Postgres

  /** A reservation has an amount. */
  predicate Priced(x: Execution) {
    x.stage.Loading? || x.stage.Upserting? || x.stage.Reserving? || !x.claim.Unclaimed? ==> x.estimate > 0
  }

  lemma StepKeepsPriced(s: Store, x: Execution, c: Choice)
    requires JobOk(s, x) && Priced(x)
    ensures Priced(ExecutionStep(s, x, c).job)
  {
  }

  /** Reservations come from Postgres only. */
  predicate FromPostgres(w: World, action: Action) {
    var job := Advanced(w, action);
    job.Some? && job.value.stage.Upserting? ==> !action.choice.viaRedis
  }

  predicate AllFromPostgres(log: seq<Message>, w: World, schedule: seq<Action>)
    decreases |schedule|
  {
    |schedule| == 0 ||
    var front := schedule[..|schedule| - 1];
    AllFromPostgres(log, w, front) && FromPostgres(Run(log, w, front), schedule[|schedule| - 1])
  }

  ghost predicate Unmixed(w: World) {
    && (forall date :: !w.store.BooksOf(date).mixed)
    && (forall k :: 0 <= k < |w.workers| && w.workers[k].Busy? && w.workers[k].job.Some? ==> Priced(w.workers[k].job.value))
  }

  lemma StepUnmixed(s: Store, x: Execution, c: Choice)
    requires x.stage.Upserting? ==> !c.viaRedis
    ensures ExecutionStep(s, x, c).store.BooksOf(x.Day()).mixed == s.BooksOf(x.Day()).mixed
  {
  }

  lemma NextUnmixed(log: seq<Message>, w: World, action: Action)
    requires Balanced(w) && Unmixed(w) && FromPostgres(w, action)
    ensures Unmixed(Next(log, w, action))
  {
    var w' := Next(log, w, action);
    var job := Advanced(w, action);
    if job.Some? && !job.value.stage.Returned? && !job.value.stage.Threw? {
      var x, c := job.value, action.choice;
      assert WorkerOk(w.store, w.workers[action.worker]);
      StepUnmixed(w.store, x, c);
      StepKeepsPriced(w.store, x, c);
      forall date ensures !w'.store.BooksOf(date).mixed {
        if date != x.Day() {
          OtherDaysKept(w.store, x, c, date);
        }
      }
    } else {
      forall date ensures !w'.store.BooksOf(date).mixed {
        OtherActionsKeepBooks(log, w, action, date);
      }
    }
  }

  lemma {:induction false} RunUnmixed(log: seq<Message>, workers: nat, schedule: seq<Action>)
    requires AllFromPostgres(log, Initial(workers), schedule)
    ensures Unmixed(Run(log, Initial(workers), schedule))
    decreases |schedule|
  {
    if |schedule| != 0 {
      var front := schedule[..|schedule| - 1];
      RunUnmixed(log, workers, front);
      RunBalanced(log, workers, front);
      NextUnmixed(log, Run(log, Initial(workers), front), schedule[|schedule| - 1]);
    }
  }

  // ---------------------------------------------------------------- what is left behind

  /** The execution a worker leaves by this action without having finished it normally. */
  function LeftBehind(w: World, action: Action): Option<Execution> {
    if action.Crash? && action.worker < |w.workers| && w.workers[action.worker].Busy? then w.workers[action.worker].job
    else
      var job := Advanced(w, action);
      if job.Some? && job.value.stage.Threw? then job else None
  }

  /** A worker leaves an execution that still holds its reservation: after it threw so, or by crashing. */
  predicate Abandons(w: World, action: Action) {
    var job := LeftBehind(w, action);
    job.Some? && job.value.claim.Held?
  }

  predicate NeverAbandons(log: seq<Message>, w: World, schedule: seq<Action>)
    decreases |schedule|
  {
    |schedule| == 0 ||
    var front := schedule[..|schedule| - 1];
    NeverAbandons(log, w, front) && !Abandons(Run(log, w, front), schedule[|schedule| - 1])
  }

  ghost predicate NoneStranded(w: World) {
    forall date :: w.store.BooksOf(date).stranded == 0
  }

  ghost predicate NeverStranded(log: seq<Message>, w: World, schedule: seq<Action>)
    decreases |schedule|
  {
    && NoneStranded(Run(log, w, schedule))
    && (|schedule| == 0 || NeverStranded(log, w, schedule[..|schedule| - 1]))
  }

  lemma StepKeepsStranded(s: Store, x: Execution, c: Choice, date: Date)
    requires JobOk(s, x)
    ensures ExecutionStep(s, x, c).store.BooksOf(date).stranded == s.BooksOf(date).stranded
  {
    if date != x.Day() {
      OtherDaysKept(s, x, c, date);
    } else if QuietStage(x.stage) {
      QuietStagesKeepMoney(s, x, c);
    }
  }

  lemma LeftStrands(w: World, i: nat, worker: Worker)
    requires Balanced(w) && Unmixed(w) && NoneStranded(w) && i < |w.workers|
    ensures NoneStranded(Left(w, i, worker))
            <==> !(w.workers[i].Busy? && w.workers[i].job.Some? && w.workers[i].job.value.claim.Held?)
  {
    if w.workers[i].Busy? && w.workers[i].job.Some? {
      var x, w' := w.workers[i].job.value, Left(w, i, worker);
      assert WorkerOk(w.store, w.workers[i]) && !w.store.BooksOf(x.Day()).mixed && !x.viaRedis;
      assert w.store.BooksOf(x.Day()).stranded == 0;
      assert w'.store.BooksOf(x.Day()).stranded == if x.claim.Held? then x.estimate else 0;
      forall date | date != x.Day() ensures w'.store.BooksOf(date).stranded == 0 {
        assert w.store.BooksOf(date).stranded == 0;
      }
    }
  }

  lemma NextStrands(log: seq<Message>, w: World, action: Action)
    requires Balanced(w) && Unmixed(w) && NoneStranded(w)
    ensures NoneStranded(Next(log, w, action)) <==> !Abandons(w, action)
  {
    match action
    case Poll(_, _, _) =>
    case Advance(i, c) =>
      if i < |w.workers| && w.workers[i].Busy? {
        assert WorkerOk(w.store, w.workers[i]);
        match w.workers[i].job
        case None =>
        case Some(x) =>
          var b := w.workers[i];
          if x.stage.Returned? {
            LeftStrands(w.(acknowledged := w.acknowledged + {b.cur}), i, b.(cur := b.cur + 1, job := None));
          } else if x.stage.Threw? {
            LeftStrands(w, i, Idle(b.cur));
          } else {
            forall date ensures Next(log, w, action).store.BooksOf(date).stranded == 0 {
              StepKeepsStranded(w.store, x, c, date);
            }
          }
      }
    case AutoCommit(_) =>
    case Crash(i) =>
      if i < |w.workers| {
        LeftStrands(w, i, Idle(w.committed));
      }
    case Mirror(_, _) =>
  }

  /** Nothing is left behind, exactly: with reservations from Postgres, no day ever has a stranded reservation
      if and only if no worker leaves an execution that still holds one. */
  lemma {:induction false} StrandedExactly(log: seq<Message>, workers: nat, schedule: seq<Action>)
    requires AllFromPostgres(log, Initial(workers), schedule)
    ensures NeverStranded(log, Initial(workers), schedule) <==> NeverAbandons(log, Initial(workers), schedule)
    decreases |schedule|
  {
    if |schedule| != 0 {
      var front := schedule[..|schedule| - 1];
      StrandedExactly(log, workers, front);
      RunUnmixed(log, workers, front);
      RunBalanced(log, workers, front);
      if NeverStranded(log, Initial(workers), front) {
        NextStrands(log, Run(log, Initial(workers), front), schedule[|schedule| - 1]);
      }
    }
  }

  // ---------------------------------------------------------------- what has to fail before that

  /** A step throws while it holds, or a worker crashes while it holds. */
  predicate Faults(w: World, action: Action) {
    var job := Advanced(w, action);
    || (job.Some? && !Final(job.value.stage) && ThrowsHolding(w.store, job.value, action.choice))
    || (action.Crash? && Abandons(w, action))
  }

  predicate NeverFaults(log: seq<Message>, w: World, schedule: seq<Action>)
    decreases |schedule|
  {
    |schedule| == 0 ||
    var front := schedule[..|schedule| - 1];
    NeverFaults(log, w, front) && !Faults(Run(log, w, front), schedule[|schedule| - 1])
  }

  predicate ThrewEmpty(worker: Worker) {
    worker.Busy? && worker.job.Some? && worker.job.value.stage.Threw? ==> !worker.job.value.claim.Held?
  }

  ghost predicate AllThrewEmpty(w: World) {
    forall k :: 0 <= k < |w.workers| ==> ThrewEmpty(w.workers[k])
  }

  lemma NextThrewEmpty(log: seq<Message>, w: World, action: Action)
    requires Balanced(w) && !Faults(w, action) && AllThrewEmpty(w)
    ensures !Abandons(w, action) && AllThrewEmpty(Next(log, w, action))
  {
    var job, w' := Advanced(w, action), Next(log, w, action);
    if job.Some? {
      assert ThrewEmpty(w.workers[action.worker]) && WorkerOk(w.store, w.workers[action.worker]);
      if !Final(job.value.stage) {
        ThrewHolding(w.store, job.value, action.choice);
      }
    }
    forall k | 0 <= k < |w'.workers| ensures ThrewEmpty(w'.workers[k]) {
      assert ThrewEmpty(w.workers[k]);
    }
  }

  /** No execution is abandoned in a run in which no increment throws after its effect, no rollback fails before
      its effect, and no worker crashes while it holds a reservation. */
  lemma {:induction false} FaultlessRunAbandonsNothing(log: seq<Message>, workers: nat, schedule: seq<Action>)
    requires NeverFaults(log, Initial(workers), schedule)
    ensures NeverAbandons(log, Initial(workers), schedule)
    ensures AllThrewEmpty(Run(log, Initial(workers), schedule))
    decreases |schedule|
  {
    if |schedule| != 0 {
      var front := schedule[..|schedule| - 1];
      FaultlessRunAbandonsNothing(log, workers, front);
      RunBalanced(log, workers, front);
      NextThrewEmpty(log, Run(log, Initial(workers), front), schedule[|schedule| - 1]);
    }
  }
}
