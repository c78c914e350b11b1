/** Exactly when the brief protocol conserves money: a day's row stops showing the reservations held and the
    final charges at the step that releases a reservation a second time from a row that is not empty, or
    that leaves an execution which still holds its reservation, and at no other step. */
module BriefExactness {
  import opened BudgetLedger
  import opened BriefProtocol
  import opened BriefMoney
  import opened BriefResults
  import opened BriefStranding
  import BriefAgreement

  /** The row of the day shows exactly what is owed for it. */
  predicate Level(s: Store, held: int, date: Date) {
    s.SpentOn(date) == Owed(s, held, date)
  }

  /** The rollback that repeats a release and finds money on the row. */
  predicate Loses(s: Store, x: Execution, c: Choice) {
    && x.stage.RollingBack? && x.claim.Released? && x.estimate > 0
    && !c.outcome.FailsBefore? && s.SpentOn(x.Day()) > 0
  }

  // ---------------------------------------------------------------- one step of one execution

  /** What the lemmas on single stages assume of the day. */
  predicate LevelBefore(s: Store, x: Execution, held: int, date: Date) {
    && JobOk(s, x) && DayOk(s, held, date) && Level(s, held, date)
    && !s.BooksOf(date).mixed && HoldOf(x, date) <= held && 0 <= ChargeSum(s.charges, date)
  }

  predicate LevelAfter(x: Execution, step: Step, held: int, date: Date) {
    Level(step.store, held - HoldOf(x, date) + HoldOf(step.job, date), date)
  }

  lemma UpsertKeepsLevel(s: Store, x: Execution, c: Choice, held: int)
    requires LevelBefore(s, x, held, x.Day()) && x.stage.Upserting? && !c.viaRedis
    ensures LevelAfter(x, Upsert(s, x, c), held, x.Day())
  {
    assert Upsert(s, x, c).store.charges == s.charges;
  }

  lemma ReserveKeepsLevel(s: Store, x: Execution, c: Choice, held: int)
    requires LevelBefore(s, x, held, x.Day()) && x.stage.Reserving?
    ensures LevelAfter(x, Reserve(s, x, c), held, x.Day())
  {
    var date := x.Day();
    if date in s.ledger {
      StoredOffset(s.ledger[date].spent, x.estimate);
      StoredRounds(x.estimate);
      assert Incremented(s.ledger[date], x.estimate).spent == s.ledger[date].spent + x.estimate;
    }
    assert Reserve(s, x, c).store.charges == s.charges;
  }

  lemma PersistKeepsLevel(s: Store, x: Execution, c: Choice, held: int)
    requires LevelBefore(s, x, held, x.Day()) && x.stage.Persisting?
    ensures LevelAfter(x, Persist(s, x, c), held, x.Day())
  {
    ChargeSumAppend(s.charges, Charge(x.id, x.Day(), x.estimate, x.stage.cost, false, x.estimate), x.Day());
  }

  lemma SettleKeepsLevel(s: Store, x: Execution, c: Choice, held: int)
    requires LevelBefore(s, x, held, x.Day()) && x.stage.Settling?
    ensures LevelAfter(x, Settle(s, x, c), held, x.Day())
  {
    if !c.outcome.FailsBefore? {
      ChargeSumUpdate(s.charges, x.claim.entry, Settle(s, x, c).store.charges[x.claim.entry], x.Day());
    }
  }

  /** A first release keeps the day level; a repeated one exactly when the row is empty. */
  lemma ReleaseCallLevel(s: Store, x: Execution, held: int)
    requires LevelBefore(s, x, held, x.Day()) && (x.claim.Held? || x.claim.Released?) && x.estimate > 0
    ensures Level(ReleaseCall(s, x), held - HoldOf(x, x.Day()), x.Day())
            <==> x.claim.Held? || s.SpentOn(x.Day()) == 0
  {
    ReleaseTakesOff(s.ledger[x.Day()], x.estimate);
    assert ReleaseCall(s, x).charges == s.charges;
  }

  lemma ReleaseStagesLevel(s: Store, x: Execution, c: Choice, held: int)
    requires LevelBefore(s, x, held, x.Day()) && (x.stage.Unreserving? || x.stage.RollingBack?) && Priced(x)
    ensures LevelAfter(x, ExecutionStep(s, x, c), held, x.Day()) <==> !Loses(s, x, c)
  {
    if x.estimate > 0 {
      ReleaseCallLevel(s, x, held);
    }
  }

  lemma QuietStagesKeepLevel(s: Store, x: Execution, c: Choice, held: int, date: Date)
    requires LevelBefore(s, x, held, date) && QuietStage(x.stage)
    ensures LevelAfter(x, ExecutionStep(s, x, c), held, date)
  {
    QuietStagesKeepMoney(s, x, c);
  }

  lemma StepLevel(s: Store, x: Execution, c: Choice, held: int, date: Date)
    requires LevelBefore(s, x, held, date) && Priced(x)
    requires x.stage.Upserting? ==> !c.viaRedis
    ensures LevelAfter(x, ExecutionStep(s, x, c), held, date) <==> !(Loses(s, x, c) && date == x.Day())
  {
    if date != x.Day() {
      OtherDaysKept(s, x, c, date);
    } else if x.stage.Upserting? {
      UpsertKeepsLevel(s, x, c, held);
    } else if x.stage.Reserving? {
      ReserveKeepsLevel(s, x, c, held);
    } else if x.stage.Persisting? {
      PersistKeepsLevel(s, x, c, held);
    } else if x.stage.Settling? {
      SettleKeepsLevel(s, x, c, held);
    } else if x.stage.Unreserving? || x.stage.RollingBack? {
      ReleaseStagesLevel(s, x, c, held);
    } else {
      QuietStagesKeepLevel(s, x, c, held, date);
    }
  }

  // ---------------------------------------------------------------- every step of the system

  /** Each row shows what executions hold, what was charged, and what was left behind. */
  ghost predicate Accounted(w: World) {
    forall date :: Level(w.store, HeldSum(w.workers, date), date)
  }

  predicate LosesMoney(w: World, action: Action) {
    var job := Advanced(w, action);
    job.Some? && Loses(w.store, job.value, action.choice)
  }

  /** Leaving an execution moves what it holds to the stranded reservations. */
  lemma LeftAccounted(w: World, i: nat, worker: Worker)
    requires Accounted(w) && i < |w.workers| && Jobless(worker)
    ensures Accounted(Left(w, i, worker))
  {
    var w' := Left(w, i, worker);
    forall date ensures Level(w'.store, HeldSum(w'.workers, date), date) {
      assert Level(w.store, HeldSum(w.workers, date), date);
      HeldSumUpdate(w.workers, i, worker, date);
      assert w'.store.charges == w.store.charges;
    }
  }

  /** Taking up or dropping an execution that holds nothing moves no money. */
  lemma QuietAccounted(w: World, w': World, i: nat)
    requires Accounted(w) && i < |w.workers| == |w'.workers| && w'.store == w.store
    requires w'.workers == w.workers[i := w'.workers[i]]
    requires forall date :: HeldBy(w.workers[i], date) == HeldBy(w'.workers[i], date)
    ensures Accounted(w')
  {
    forall date ensures Level(w'.store, HeldSum(w'.workers, date), date) {
      assert Level(w.store, HeldSum(w.workers, date), date);
      HeldSumUpdate(w.workers, i, w'.workers[i], date);
    }
  }

  lemma BatchStepAccounted(log: seq<Message>, w: World, i: nat, c: Choice)
    requires Accounted(w) && i < |w.workers| && w.workers[i].Busy? && w.workers[i].job.None?
    ensures Accounted(BatchStep(log, w, i, c))
  {
    var b := w.workers[i];
    if c.active && b.cur < b.hi && b.cur < |log| && !log[b.cur].Request? {
      LeftAccounted(w.(acknowledged := w.acknowledged + {b.cur}), i, b.(cur := b.cur + 1, job := None));
    } else {
      QuietAccounted(w, BatchStep(log, w, i, c), i);
    }
  }

  lemma ExecutionLevel(log: seq<Message>, w: World, i: nat, x: Execution, c: Choice, date: Date)
    requires Running(log, w, i, x) && Unmixed(w) && Accounted(w)
    requires x.stage.Upserting? ==> !c.viaRedis
    ensures var w' := AdvanceStep(log, w, i, c);
            Level(w'.store, HeldSum(w'.workers, date), date) <==> !(Loses(w.store, x, c) && date == x.Day())
  {
    var w' := AdvanceStep(log, w, i, c);
    RunningJobOk(log, w, i, x, c);
    assert Level(w.store, HeldSum(w.workers, date), date) && DayOk(w.store, HeldSum(w.workers, date), date);
    HeldSumAtLeast(w.store, w.workers, date);
    ChargeSumAtLeast(w.store, w.store.charges, date);
    assert HeldBy(w.workers[i], date) == HoldOf(x, date);
    StepLevel(w.store, x, c, HeldSum(w.workers, date), date);
    HeldSumUpdate(w.workers, i, w'.workers[i], date);
  }

  lemma ExecutionAccounted(log: seq<Message>, w: World, i: nat, x: Execution, c: Choice)
    requires Running(log, w, i, x) && Unmixed(w) && Accounted(w)
    requires x.stage.Upserting? ==> !c.viaRedis
    ensures Accounted(AdvanceStep(log, w, i, c)) <==> !Loses(w.store, x, c)
  {
    var w' := AdvanceStep(log, w, i, c);
    forall date
      ensures Level(w'.store, HeldSum(w'.workers, date), date) <==> !(Loses(w.store, x, c) && date == x.Day())
    {
      ExecutionLevel(log, w, i, x, c, date);
    }
    assert Loses(w.store, x, c) ==> !Level(w'.store, HeldSum(w'.workers, x.Day()), x.Day());
  }

  lemma NextAccounted(log: seq<Message>, w: World, action: Action)
    requires Balanced(w) && BriefAgreement.Consistent(log, w) && Unmixed(w) && Accounted(w) && FromPostgres(w, action)
    ensures Accounted(Next(log, w, action)) <==> !LosesMoney(w, action)
  {
    match action
    case Poll(i, _, _) =>
      if i < |w.workers| && w.workers[i].Idle? {
        QuietAccounted(w, Next(log, w, action), i);
      }
    case Advance(i, c) =>
      if i < |w.workers| && w.workers[i].Busy? {
        match w.workers[i].job
        case None => BatchStepAccounted(log, w, i, c);
        case Some(x) =>
          var b := w.workers[i];
          if x.stage.Returned? {
            LeftAccounted(w.(acknowledged := w.acknowledged + {b.cur}), i, b.(cur := b.cur + 1, job := None));
          } else if x.stage.Threw? {
            LeftAccounted(w, i, Idle(b.cur));
          } else {
            ExecutionAccounted(log, w, i, x, c);
          }
      }
    case AutoCommit(_) =>
    case Crash(i) =>
      if i < |w.workers| {
        LeftAccounted(w, i, Idle(w.committed));
      }
    case Mirror(_, _) =>
  }

  // ---------------------------------------------------------------- every run

  predicate NeverLoses(log: seq<Message>, w: World, schedule: seq<Action>)
    decreases |schedule|
  {
    |schedule| == 0 ||
    var front := schedule[..|schedule| - 1];
    NeverLoses(log, w, front) && !LosesMoney(Run(log, w, front), schedule[|schedule| - 1])
  }

  ghost predicate AlwaysAccounted(log: seq<Message>, w: World, schedule: seq<Action>)
    decreases |schedule|
  {
    && Accounted(Run(log, w, schedule))
    && (|schedule| == 0 || AlwaysAccounted(log, w, schedule[..|schedule| - 1]))
  }

  /** With reservations from Postgres, each row shows what is owed, counting what was left behind, throughout a
      run if and only if no step of the run releases a reservation a second time from a row that is not
      empty. */
  lemma {:induction false} AccountedExactly(log: seq<Message>, workers: nat, schedule: seq<Action>)
    requires AllFromPostgres(log, Initial(workers), schedule)
    ensures AlwaysAccounted(log, Initial(workers), schedule) <==> NeverLoses(log, Initial(workers), schedule)
    decreases |schedule|
  {
    var w0 := Initial(workers);
    if |schedule| == 0 {
      forall date ensures Level(w0.store, HeldSum(w0.workers, date), date) {
        IdleHoldsNothing(w0.workers, date);
      }
    } else {
      var front := schedule[..|schedule| - 1];
      AccountedExactly(log, workers, front);
      RunUnmixed(log, workers, front);
      RunBalanced(log, workers, front);
      BriefAgreement.RunConsistent(log, workers, front);
      if AlwaysAccounted(log, w0, front) {
        NextAccounted(log, Run(log, w0, front), schedule[|schedule| - 1]);
      }
    }
  }

  // ---------------------------------------------------------------- conservation

  /** Each row shows what executions hold and what was charged, and nothing else. */
  ghost predicate Conserved(w: World) {
    forall date :: w.store.SpentOn(date) == HeldSum(w.workers, date) + ChargeSum(w.store.charges, date)
  }

  ghost predicate AlwaysConserved(log: seq<Message>, w: World, schedule: seq<Action>)
    decreases |schedule|
  {
    && Conserved(Run(log, w, schedule))
    && (|schedule| == 0 || AlwaysConserved(log, w, schedule[..|schedule| - 1]))
  }

  lemma ConservedParts(w: World)
    requires NoneStranded(w)
    ensures Conserved(w) <==> Accounted(w)
  {
    if Conserved(w) {
      forall date ensures Level(w.store, HeldSum(w.workers, date), date) {
        assert w.store.BooksOf(date).stranded == 0;
      }
    } else {
      var date :| w.store.SpentOn(date) != HeldSum(w.workers, date) + ChargeSum(w.store.charges, date);
      assert !Level(w.store, HeldSum(w.workers, date), date);
    }
  }

  lemma StrandedIsNotConserved(w: World)
    requires Accounted(w) && !NoneStranded(w)
    ensures !Conserved(w)
  {
    var date :| w.store.BooksOf(date).stranded != 0;
    assert Level(w.store, HeldSum(w.workers, date), date);
  }

  /** A step that keeps the accounts keeps them without leftovers, unless it loses or leaves money. */
  lemma NextConserved(log: seq<Message>, w: World, action: Action)
    requires Balanced(w) && BriefAgreement.Consistent(log, w) && Unmixed(w) && FromPostgres(w, action)
    requires Conserved(w) && NoneStranded(w)
    ensures Conserved(Next(log, w, action)) <==> !LosesMoney(w, action) && !Abandons(w, action)
    ensures Conserved(Next(log, w, action)) ==> NoneStranded(Next(log, w, action))
  {
    var w' := Next(log, w, action);
    ConservedParts(w);
    NextAccounted(log, w, action);
    NextStrands(log, w, action);
    if NoneStranded(w') {
      ConservedParts(w');
    } else {
      assert !LosesMoney(w, action);
      StrandedIsNotConserved(w');
    }
  }

  lemma {:induction false} ConservedRun(log: seq<Message>, workers: nat, schedule: seq<Action>)
    requires AllFromPostgres(log, Initial(workers), schedule)
    ensures var w0 := Initial(workers);
            && (AlwaysConserved(log, w0, schedule) <==> NeverLoses(log, w0, schedule) && NeverAbandons(log, w0, schedule))
            && (AlwaysConserved(log, w0, schedule) ==> NoneStranded(Run(log, w0, schedule)))
    decreases |schedule|
  {
    var w0 := Initial(workers);
    if |schedule| == 0 {
      forall date ensures HeldSum(w0.workers, date) == 0 {
        IdleHoldsNothing(w0.workers, date);
      }
    } else {
      var front := schedule[..|schedule| - 1];
      ConservedRun(log, workers, front);
      RunUnmixed(log, workers, front);
      RunBalanced(log, workers, front);
      BriefAgreement.RunConsistent(log, workers, front);
      if AlwaysConserved(log, w0, front) {
        NextConserved(log, Run(log, w0, front), schedule[|schedule| - 1]);
      }
    }
  }

  /** Conservation, exactly: with reservations from Postgres, every day's spend equals the reservations that
      running executions hold plus the final charges throughout a run if and only if no step of the run
      releases a reservation a second time from a row that is not empty, and no worker leaves an execution
      that still holds its reservation. */
  lemma ConservedExactly(log: seq<Message>, workers: nat, schedule: seq<Action>)
    requires AllFromPostgres(log, Initial(workers), schedule)
    ensures AlwaysConserved(log, Initial(workers), schedule)
            <==> NeverLoses(log, Initial(workers), schedule) && NeverAbandons(log, Initial(workers), schedule)
  {
    ConservedRun(log, workers, schedule);
  }

  /** As long as nothing is lost, a first release and a settlement always find enough on the row, so the
      statement that empties a row that is too small is not reached. */
  lemma ClampIsUnreachable(log: seq<Message>, workers: nat, schedule: seq<Action>, w: World, i: nat, x: Execution)
    requires w == Run(log, Initial(workers), schedule)
    requires AllFromPostgres(log, Initial(workers), schedule) && NeverLoses(log, Initial(workers), schedule)
    requires i < |w.workers| && w.workers[i].Busy? && w.workers[i].job == Some(x)
    ensures x.claim.Held? ==> x.estimate <= w.store.SpentOn(x.Day())
    ensures x.stage.Settling? ==> x.estimate - x.stage.cost <= w.store.SpentOn(x.Day())
  {
    RunUnmixed(log, workers, schedule);
    RunBalanced(log, workers, schedule);
    AccountedExactly(log, workers, schedule);
    assert WorkerOk(w.store, w.workers[i]);
    assert Level(w.store, HeldSum(w.workers, x.Day()), x.Day()) && DayOk(w.store, HeldSum(w.workers, x.Day()), x.Day());
    HeldSumAtLeast(w.store, w.workers, x.Day());
    ChargeSumAtLeast(w.store, w.store.charges, x.Day());
    assert HeldBy(w.workers[i], x.Day()) <= HeldSum(w.workers, x.Day());
  }

  // ---------------------------------------------------------------- runs in which nothing of this happens

  lemma PlainNextLosesNothing(w: World, action: Action)
    requires NoSecondRelease(w)
    ensures !LosesMoney(w, action)
  {
    if Advanced(w, action).Some? {
      assert ReleasesOnce(w.workers[action.worker]);
    }
  }

  lemma {:induction false} PlainRunLosesNothing(log: seq<Message>, workers: nat, schedule: seq<Action>)
    requires PlainRun(log, Initial(workers), schedule)
    ensures NeverLoses(log, Initial(workers), schedule) && AllFromPostgres(log, Initial(workers), schedule)
    decreases |schedule|
  {
    if |schedule| != 0 {
      var front := schedule[..|schedule| - 1];
      PlainRunLosesNothing(log, workers, front);
      PlainRunHasNoSecondRelease(log, workers, front);
      PlainNextLosesNothing(Run(log, Initial(workers), front), schedule[|schedule| - 1]);
    }
  }

  /** Conservation: when reservations come from Postgres, no release of a duplicate and no increment throws after
      its effect, no rollback fails, and no worker crashes while it holds a reservation, each day's spend
      equals the reservations held plus the final charges. */
  lemma Conservation(log: seq<Message>, workers: nat, schedule: seq<Action>, w: World, date: Date)
    requires w == Run(log, Initial(workers), schedule)
    requires PlainRun(log, Initial(workers), schedule) && NeverFaults(log, Initial(workers), schedule)
    ensures w.store.SpentOn(date) == HeldSum(w.workers, date) + ChargeSum(w.store.charges, date)
  {
    PlainRunLosesNothing(log, workers, schedule);
    FaultlessRunAbandonsNothing(log, workers, schedule);
    ConservedExactly(log, workers, schedule);
    assert Conserved(w);
  }

  /** While nothing is left behind, each row shows no more than reservations held and final charges, and less
      by no more than what was released a second time, whatever else fails or is redelivered. */
  lemma RowMatchesClaims(log: seq<Message>, workers: nat, schedule: seq<Action>, w: World, date: Date)
    requires w == Run(log, Initial(workers), schedule) && AllFromPostgres(log, Initial(workers), schedule)
    requires NeverAbandons(log, Initial(workers), schedule)
    ensures var claims := HeldSum(w.workers, date) + ChargeSum(w.store.charges, date);
            0 <= w.store.SpentOn(date) <= claims <= w.store.SpentOn(date) + w.store.BooksOf(date).releasedTwice
  {
    RunUnmixed(log, workers, schedule);
    StrandedExactly(log, workers, schedule);
    assert NoneStranded(w) && !w.store.BooksOf(date).mixed;
    RowMatchesBooks(log, workers, schedule, w, date);
  }
}
