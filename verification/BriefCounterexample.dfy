/** A schedule in which the budget row loses money: a release in the duplicate branch takes effect but
    throws, and the catch block releases the same reservation again. */
module BriefCounterexample {
  import opened BudgetLedger
  import opened BriefProtocol
  import opened BriefMoney
  import BriefResults

  const LOG := [Request("daily", Finite(1_000_000))]
  const COST := 12_500

  function Go(i: nat, outcome: Outcome): Action {
    Advance(i, Choice(outcome, true, 0, Other, 1, 1, false, 7, COST))
  }

  /** Worker `i` polls the request, resolves it, and finds no stored result. */
  function UpToBudget(i: nat): seq<Action> {
    [Poll(i, true, 1), Go(i, Succeeds), Go(i, Succeeds), Go(i, Succeeds)]
  }

  /** It reserves its budget and generates a brief. */
  function UpToPersist(i: nat): seq<Action> {
    [Go(i, Succeeds), Go(i, Succeeds), Go(i, Succeeds)]
  }

  /** Worker 0 stores its result; worker 1 finds a duplicate. */
  const BOTH_PERSIST := [Go(0, Succeeds), Go(1, Succeeds)]

  /** Worker 1's release throws after it took effect, and the catch block repeats it. */
  const DOUBLE_RELEASE := [Go(1, FailsAfter), Go(1, Succeeds)]

  const SCHEDULE := UpToBudget(0) + UpToPersist(0) + UpToBudget(1) + UpToPersist(1) + BOTH_PERSIST + DOUBLE_RELEASE

  function PersistingJob(): Execution {
    Execution("daily", Finite(1_000_000), 0, COST, false, Held,
              Persisting(Payload("daily", 0, Brief(7)), COST))
  }

  lemma RunFirst(log: seq<Message>, w: World, a: seq<Action>)
    requires |a| > 0
    ensures Run(log, w, a) == Run(log, Next(log, w, a[0]), a[1..])
  {
    assert a == a[..1] + a[1..];
    RunConcat(log, w, a[..1], a[1..]);
    assert a[..1][..0] == [];
  }

  lemma RunNone(log: seq<Message>, w: World)
    ensures Run(log, w, []) == w
  {
  }

  lemma {:induction false} UpToBudgetResolves(w: World, i: nat)
    requires i < |w.workers| && w.workers[i].Idle? && w.committed == 0
    requires "daily" !in w.store.rows
    ensures Run(LOG, w, UpToBudget(i))
         == w.(workers := w.workers[i := Busy(0, 0, 1, Some(PersistingJob().(claim := Unclaimed, stage := Upserting)))])
  {
    var a := UpToBudget(i);
    RunFirst(LOG, w, a);
    var w1 := Next(LOG, w, a[0]);
    RunFirst(LOG, w1, a[1..]);
    var w2 := Next(LOG, w1, a[1]);
    assert w2.workers[i] == Busy(0, 0, 1, Some(Execution("daily", Finite(1_000_000), 0, 0, false, Unclaimed, Resolving)));
    RunFirst(LOG, w2, a[2..]);
    var w3 := Next(LOG, w2, a[2]);
    assert w3.workers[i].job.value == PersistingJob().(claim := Unclaimed, stage := Loading);
    RunFirst(LOG, w3, a[3..]);
  }

  /** The reservation of worker `i` goes through. */
  lemma ReserveStep(w: World, i: nat)
    requires i < |w.workers|
    requires w.workers[i] == Busy(0, 0, 1, Some(PersistingJob().(claim := Unclaimed, stage := Reserving)))
    requires 0 in w.store.ledger && w.store.SpentOn(0) <= 2 * COST && !w.store.BooksOf(0).mixed
    ensures var s, w' := w.store, Next(LOG, w, Go(i, Succeeds));
            && w'.workers == w.workers[i := Busy(0, 0, 1, Some(PersistingJob().(stage := Generating)))]
            && w'.committed == w.committed && w'.store.rows == s.rows && w'.store.charges == s.charges
            && w'.store.ledger == s.ledger[0 := Incremented(s.ledger[0], COST)]
            && !w'.store.BooksOf(0).mixed && w'.store.BooksOf(0).stranded == s.BooksOf(0).stranded
  {
  }

  lemma {:induction false} UpToPersistReserves(w: World, i: nat)
    requires i < |w.workers|
    requires w.workers[i] == Busy(0, 0, 1, Some(PersistingJob().(claim := Unclaimed, stage := Upserting)))
    requires w.store.SpentOn(0) <= 2 * COST && !w.store.BooksOf(0).mixed
    ensures var w' := Run(LOG, w, UpToPersist(i));
            && w'.workers == w.workers[i := Busy(0, 0, 1, Some(PersistingJob()))]
            && w'.committed == w.committed
            && w'.store.rows == w.store.rows && w'.store.charges == w.store.charges
            && 0 in w'.store.ledger && w'.store.SpentOn(0) == Stored(w.store.SpentOn(0) + COST)
            && !w'.store.BooksOf(0).mixed
            && w'.store.BooksOf(0).stranded == w.store.BooksOf(0).stranded
  {
    var a, x := UpToPersist(i), PersistingJob();
    RunFirst(LOG, w, a);
    var w1 := Next(LOG, w, a[0]);
    assert w1 == w.(store := w.store.(ledger := Upserted(w.store.ledger, 0)),
                    workers := w.workers[i := Busy(0, 0, 1, Some(x.(claim := Unclaimed, stage := Reserving)))]);
    RunFirst(LOG, w1, a[1..]);
    var w2 := Next(LOG, w1, a[1]);
    ReserveStep(w1, i);
    RunFirst(LOG, w2, a[2..]);
    assert Run(LOG, w2, a[2..]) == w2.(workers := w2.workers[i := Busy(0, 0, 1, Some(x))]) by {
      assert a[2..][1..] == [];
    }
  }

  lemma {:induction false} BothPersistCharges(w: World)
    requires w.workers == [Busy(0, 0, 1, Some(PersistingJob())), Busy(0, 0, 1, Some(PersistingJob()))]
    requires "daily" !in w.store.rows && w.store.charges == []
    ensures var x, w' := PersistingJob(), Run(LOG, w, BOTH_PERSIST);
            && w'.workers == [Busy(0, 0, 1, Some(x.(claim := Charged(0), stage := Announcing(x.stage.payload, true)))),
                              Busy(0, 0, 1, Some(x.(stage := Unreserving)))]
            && w'.store.ledger == w.store.ledger && w'.store.books == w.store.books
            && w'.store.charges == [Charge("daily", 0, COST, COST, false, COST)]
  {
    var d, x := BOTH_PERSIST, PersistingJob();
    RunFirst(LOG, w, d);
    var w1 := Next(LOG, w, d[0]);
    assert w1.workers == [Busy(0, 0, 1, Some(x.(claim := Charged(0), stage := Announcing(x.stage.payload, true)))), w.workers[1]];
    RunFirst(LOG, w1, d[1..]);
  }

  lemma {:induction false} DoubleReleaseLoses(w: World)
    requires |w.workers| == 2 && HeldBy(w.workers[0], 0) == 0
    requires w.workers[1] == Busy(0, 0, 1, Some(PersistingJob().(stage := Unreserving)))
    requires 0 in w.store.ledger && w.store.SpentOn(0) == 2 * COST
    requires !w.store.BooksOf(0).mixed && w.store.BooksOf(0).stranded == 0
    ensures var w' := Run(LOG, w, DOUBLE_RELEASE);
            && !w'.store.BooksOf(0).mixed && w'.store.BooksOf(0).stranded == 0
            && w'.store.SpentOn(0) == 0 && w'.store.charges == w.store.charges
            && |w'.workers| == 2 && HeldBy(w'.workers[0], 0) == 0 && HeldBy(w'.workers[1], 0) == 0
  {
    var d, x := DOUBLE_RELEASE, PersistingJob();
    RunFirst(LOG, w, d);
    var w1 := Next(LOG, w, d[0]);
    assert w1.workers == [w.workers[0], Busy(0, 0, 1, Some(x.(claim := Released, stage := RollingBack(Other))))];
    assert w1.store.SpentOn(0) == COST;
    RunFirst(LOG, w1, d[1..]);
  }

  /** After this schedule the only charge of the day is 12 500 and the row shows nothing. */
  lemma {:induction false} MoneyIsLost()
    ensures var w := Run(LOG, Initial(2), SCHEDULE);
            && !w.store.BooksOf(0).mixed
            && w.store.SpentOn(0) == 0
            && Owed(w.store, HeldSum(w.workers, 0), 0) == COST
  {
    var a := UpToBudget(0);
    var b, c := a + UpToPersist(0), a + UpToPersist(0) + UpToBudget(1);
    var d := c + UpToPersist(1);
    var u := Initial(2);
    UpToBudgetResolves(u, 0);
    RunConcat(LOG, u, a, UpToPersist(0));
    UpToPersistReserves(Run(LOG, u, a), 0);
    RunConcat(LOG, u, b, UpToBudget(1));
    UpToBudgetResolves(Run(LOG, u, b), 1);
    RunConcat(LOG, u, c, UpToPersist(1));
    UpToPersistReserves(Run(LOG, u, c), 1);
    RunConcat(LOG, u, d, BOTH_PERSIST);
    BothPersistCharges(Run(LOG, u, d));
    RunConcat(LOG, u, d + BOTH_PERSIST, DOUBLE_RELEASE);
    DoubleReleaseLoses(Run(LOG, u, d + BOTH_PERSIST));
    var w := Run(LOG, u, SCHEDULE);
    OwedForOneCharge(w.store, w.workers);
  }

  lemma OwedForOneCharge(s: Store, workers: seq<Worker>)
    requires |workers| == 2 && HeldBy(workers[0], 0) == 0 && HeldBy(workers[1], 0) == 0
    requires s.charges == [Charge("daily", 0, COST, COST, false, COST)] && s.BooksOf(0).stranded == 0
    ensures Owed(s, HeldSum(workers, 0), 0) == COST
  {
    var none: seq<Charge> := [];
    ChargeSumAppend(none, s.charges[0], 0);
    assert none + [s.charges[0]] == s.charges;
    assert workers[..1][..0] == [];
    assert HeldSum(workers[..1], 0) == 0;
  }

  // ---------------------------------------------------------------- a stranded reservation

  /** The increment of the only reservation takes effect, the call throws, and the worker moves on. */
  const STRANDING := [Go(0, Succeeds), Go(0, FailsAfter), Go(0, Succeeds)]

  lemma {:induction false} StrandingLeaves(w: World)
    requires w.workers == [Busy(0, 0, 1, Some(PersistingJob().(claim := Unclaimed, stage := Upserting)))]
    requires w.store.SpentOn(0) == 0 && !w.store.BooksOf(0).mixed && w.store.charges == []
    ensures var w' := Run(LOG, w, STRANDING);
            && w'.workers == [Idle(0)] && w'.store.charges == [] && !w'.store.BooksOf(0).mixed
            && w'.store.SpentOn(0) == COST
  {
    hide Run;
    var a, x := STRANDING, PersistingJob();
    RunFirst(LOG, w, a);
    var w1 := Next(LOG, w, a[0]);
    assert w1.workers == [Busy(0, 0, 1, Some(x.(claim := Unclaimed, stage := Reserving)))];
    RunFirst(LOG, w1, a[1..]);
    var w2 := Next(LOG, w1, a[1]);
    ReserveThrows(w1);
    RunFirst(LOG, w2, a[2..]);
    assert a[2..][1..] == [];
    ThrownIsLeft(w2);
    RunNone(LOG, Next(LOG, w2, a[2]));
  }

  lemma ReserveThrows(w: World)
    requires w.workers == [Busy(0, 0, 1, Some(PersistingJob().(claim := Unclaimed, stage := Reserving)))]
    requires 0 in w.store.ledger && w.store.SpentOn(0) == 0 && !w.store.BooksOf(0).mixed && w.store.charges == []
    ensures var w' := Next(LOG, w, Go(0, FailsAfter));
            && w'.workers == [Busy(0, 0, 1, Some(PersistingJob().(stage := Threw)))]
            && w'.store.SpentOn(0) == COST && !w'.store.BooksOf(0).mixed && w'.store.charges == []
  {
  }

  lemma ThrownIsLeft(w: World)
    requires w.workers == [Busy(0, 0, 1, Some(PersistingJob().(stage := Threw)))]
    ensures var w' := Next(LOG, w, Go(0, Succeeds));
            && w'.workers == [Idle(0)] && w'.store.charges == w.store.charges && w'.store.ledger == w.store.ledger
            && w'.store.BooksOf(0).mixed == w.store.BooksOf(0).mixed
  {
  }

  /** After this schedule the row shows 12 500, no worker runs, and nothing was charged. */
  lemma {:induction false} ReservationIsStranded()
    ensures var w := Run(LOG, Initial(1), UpToBudget(0) + STRANDING);
            && w.workers == [Idle(0)] && w.store.charges == [] && !w.store.BooksOf(0).mixed
            && w.store.SpentOn(0) == COST
  {
    var u := Initial(1);
    UpToBudgetResolves(u, 0);
    RunConcat(LOG, u, UpToBudget(0), STRANDING);
    StrandingLeaves(Run(LOG, u, UpToBudget(0)));
  }
}
