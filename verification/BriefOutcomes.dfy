/** What becomes of one request, call by call: the ways in which an execution ends when nothing disturbs it,
    with what it stores, publishes and does to the budget of the day. */
module BriefOutcomes {
  import opened BudgetLedger
  import opened BriefProtocol

  /** An execution on its own: each call finds what the last one left. */
  function Solo(p: Step, calls: seq<Choice>): Step
    decreases |calls|
  {
    if |calls| == 0 then p else Solo(Then(p, calls[0]), calls[1..])
  }

  function Then(p: Step, c: Choice): Step {
    ExecutionStep(p.store, p.job, c)
  }

  lemma SoloFirst(p: Step, calls: seq<Choice>)
    requires |calls| > 0
    ensures Solo(p, calls) == Solo(Then(p, calls[0]), calls[1..])
  {
  }

  lemma SoloNone(p: Step)
    ensures Solo(p, []) == p
  {
  }

  lemma {:induction false} SoloConcat(p: Step, a: seq<Choice>, b: seq<Choice>)
    ensures Solo(p, a + b) == Solo(Solo(p, a), b)
    decreases |a|
  {
    if |a| == 0 {
      assert a + b == b;
    } else {
      assert (a + b)[0] == a[0] && (a + b)[1..] == a[1..] + b;
      SoloConcat(Then(p, a[0]), a[1..], b);
    }
  }

  lemma SoloTwo(p: Step, calls: seq<Choice>)
    requires |calls| == 2
    ensures Solo(p, calls) == Then(Then(p, calls[0]), calls[1])
  {
    SoloFirst(p, calls);
    SoloFirst(Then(p, calls[0]), calls[1..]);
    SoloNone(Then(Then(p, calls[0]), calls[1]));
    assert calls[1..][1..] == [];
  }

  predicate AllSucceed(calls: seq<Choice>) {
    forall k :: 0 <= k < |calls| ==> calls[k].outcome.Succeeds?
  }

  function Beginning(s: Store, id: RequestId, budget: Budget, now: int): Step {
    Step(s, Execution(id, budget, now, 0, false, Unclaimed, Resolving))
  }

  /** A row of the day in whole column units, or none. */
  predicate SoundDay(s: Store, date: Date) {
    date in s.ledger ==> InUnits(s.ledger[date].spent)
  }

  // ---------------------------------------------------------------- the error handlers

  /** What the handler chain does with an error: non-retryable errors are answered with their own code, LLM errors
      of a request that was not charged with a retryable one, and all others are thrown. */
  lemma HandlingDecides(s: Store, x: Execution, c: Choice)
    requires x.stage.Handling?
    ensures var error, x' := x.stage.error, ExecutionStep(s, x, c).job;
            && (x'.stage.Threw? <==> error.Other? || (error.Llm? && x.claim.Charged?))
            && (error.NonRetryable? ==>
                  x'.stage == Emitting(Payload(x.id, x.producedAt, Failure(error.code, error.message, false))))
            && (error.Llm? && !x.claim.Charged? ==>
                  x'.stage == Emitting(Payload(x.id, x.producedAt,
                                               Failure(if error.timedOut then "timeout" else "llm_error", error.message, true))))
            && x' == x.(stage := x'.stage) && ExecutionStep(s, x, c).store == s
  {
  }

  /** A failure that is emitted where no result is stored becomes the stored result, and is published. */
  lemma EmittedIsPublished(p: Step, calls: seq<Choice>, payload: Payload)
    requires p.job.stage == Emitting(payload) && payload.requestId == p.job.id && p.job.id !in p.store.rows
    requires |calls| == 2 && AllSucceed(calls)
    ensures Solo(p, calls) == Step(p.store.(rows := p.store.rows[p.job.id := payload],
                                            published := p.store.published + [Publication(p.job.id, payload)]),
                                   p.job.(stage := Returned))
  {
    SoloTwo(p, calls);
  }

  /** A failure emitted where a result is stored already publishes that result, and changes nothing. */
  lemma EmittedIsReplaced(p: Step, calls: seq<Choice>, payload: Payload)
    requires p.job.stage == Emitting(payload) && payload.requestId == p.job.id && p.job.id in p.store.rows
    requires |calls| == 3 && AllSucceed(calls)
    ensures Solo(p, calls)
         == Step(p.store.(published := p.store.published + [Publication(p.job.id, p.store.rows[p.job.id])]), p.job.(stage := Returned))
  {
    SoloTwo(Then(p, calls[0]), calls[1..]);
  }

  // ---------------------------------------------------------------- up to generation

  /** A request without a stored result is estimated by its size and goes on to its budget. */
  lemma ResolvedAndNew(s: Store, id: RequestId, budget: Budget, now: int, calls: seq<Choice>)
    requires id !in s.rows && |calls| == 2 && AllSucceed(calls)
    ensures Solo(Beginning(s, id, budget, now), calls)
         == Step(s, Execution(id, budget, now, 10_000 + 2_000 * calls[0].topics + 500 * calls[0].evidence, false, Unclaimed, Upserting))
  {
    SoloTwo(Beginning(s, id, budget, now), calls);
  }

  /** With room on the day's budget, Postgres reserves the estimate. */
  lemma Reserved(p: Step, calls: seq<Choice>)
    requires p.job.stage.Upserting? && p.job.estimate > 0 && WholeColumn(p.job.estimate) && SoundDay(p.store, p.job.Day())
    requires |calls| == 2 && AllSucceed(calls) && !calls[0].viaRedis
    requires Room(p.store.SpentOn(p.job.Day()), p.job.budget, p.job.estimate)
    ensures var r, date := Solo(p, calls), p.job.Day();
            var requests := if date in p.store.ledger then p.store.ledger[date].requests else 0;
            && r.job == p.job.(claim := Held, stage := Generating)
            && r.store.ledger == p.store.ledger[date := Row(p.store.SpentOn(date) + p.job.estimate, requests + 1)]
            && r.store.rows == p.store.rows && r.store.published == p.store.published && r.store.charges == p.store.charges
  {
    SoloTwo(p, calls);
    FitsIs(p.store.SpentOn(p.job.Day()), p.job.budget, p.job.estimate);
    IncrementedIs(Then(p, calls[0]).store.ledger[p.job.Day()], p.job.estimate);
  }

  /** A reservation that Redis admits goes to generation at once and leaves the Postgres row alone. */
  lemma ReservedByRedis(p: Step, c: Choice)
    requires p.job.stage.Upserting? && c.viaRedis
    ensures Then(p, c).job == p.job.(claim := Held, viaRedis := true, stage := Generating)
    ensures var r := Then(p, c).store;
            && r.ledger == p.store.ledger && r.rows == p.store.rows && r.published == p.store.published
            && r.charges == p.store.charges
  {
  }

  /** Without room the request is answered `budget_exceeded`, and the spend stays. */
  lemma Refused(p: Step, calls: seq<Choice>)
    requires p.job.stage.Upserting? && |calls| == 4 && AllSucceed(calls) && !calls[0].viaRedis
    requires !Room(p.store.SpentOn(p.job.Day()), p.job.budget, p.job.estimate) && p.job.id !in p.store.rows
    ensures var r, date := Solo(p, calls), p.job.Day();
            var answer := Payload(p.job.id, p.job.producedAt, Failure("budget_exceeded", "Daily brief budget exceeded", false));
            && r.job.stage.Returned? && r.job.claim == p.job.claim
            && r.store.rows == p.store.rows[p.job.id := answer]
            && r.store.published == p.store.published + [Publication(p.job.id, answer)]
            && r.store.SpentOn(date) == p.store.SpentOn(date) && r.store.charges == p.store.charges
            && (forall d :: d != date ==> r.store.SpentOn(d) == p.store.SpentOn(d))
  {
    FitsIs(p.store.SpentOn(p.job.Day()), p.job.budget, p.job.estimate);
    SoloConcat(p, calls[..2], calls[2..]);
    assert calls == calls[..2] + calls[2..];
    SoloTwo(p, calls[..2]);
    var q := Solo(p, calls[..2]);
    EmittedIsPublished(q, calls[2..], Payload(p.job.id, p.job.producedAt, Failure("budget_exceeded", "Daily brief budget exceeded", false)));
  }

  // ---------------------------------------------------------------- from generation on

  /** A reservation of the day's row, whole in the column, by an execution that is about to generate. */
  predicate AboutToGenerate(p: Step) {
    && p.job.stage.Generating? && p.job.claim.Held? && InUnits(p.job.estimate) && p.job.id !in p.store.rows
    && p.job.Day() in p.store.ledger && InUnits(p.store.SpentOn(p.job.Day()))
    && p.job.estimate <= p.store.SpentOn(p.job.Day())
  }

  /** The brief that generation returned is the stored row and the published message, and the day shows its cost
      in place of the reservation. */
  ghost predicate IsDelivered(p: Step, r: Step, content: int, cost: int) {
    var date, answer := p.job.Day(), Payload(p.job.id, p.job.producedAt, Brief(content));
    && r.job.stage.Returned? && r.job.claim == Charged(|p.store.charges|)
    && r.store.rows == p.store.rows[p.job.id := answer]
    && r.store.published == p.store.published + [Publication(p.job.id, answer)]
    && r.store.SpentOn(date) == p.store.SpentOn(date) - p.job.estimate + Stored(cost)
    && (forall d :: d != date ==> r.store.SpentOn(d) == p.store.SpentOn(d))
  }

  /** A brief that costs what was reserved needs no settlement: generate, persist, publish. */
  lemma DeliveredAtEstimate(p: Step, calls: seq<Choice>)
    requires AboutToGenerate(p) && |calls| == 3 && AllSucceed(calls) && calls[0].cost == p.job.estimate
    ensures var r := Solo(p, calls);
            && IsDelivered(p, r, calls[0].content, calls[0].cost)
            && r.store.charges == p.store.charges
                 + [Charge(p.job.id, p.job.Day(), p.job.estimate, p.job.estimate, false, p.job.estimate)]
  {
    SoloFirst(p, calls);
    SoloTwo(Then(p, calls[0]), calls[1..]);
    StoredRounds(p.job.estimate);
  }

  /** Any other brief is settled: generate, persist, settle, publish. */
  lemma DeliveredAndSettled(p: Step, calls: seq<Choice>)
    requires AboutToGenerate(p) && |calls| == 4 && AllSucceed(calls) && calls[0].cost != p.job.estimate
    ensures var r := Solo(p, calls);
            && IsDelivered(p, r, calls[0].content, calls[0].cost)
            && r.store.charges == p.store.charges
                 + [Charge(p.job.id, p.job.Day(), p.job.estimate, calls[0].cost, true, Stored(calls[0].cost))]
  {
    assert calls == calls[..2] + calls[2..];
    SoloConcat(p, calls[..2], calls[2..]);
    SoloTwo(p, calls[..2]);
    var q := Solo(p, calls[..2]);
    SoloTwo(q, calls[2..]);
    SettledIs(q, calls[2]);
  }

  /** A settlement leaves the cost, as the column stores it, in place of the reservation. */
  lemma SettledIs(p: Step, c: Choice)
    requires p.job.stage.Settling? && p.job.claim.Charged? && p.job.claim.entry < |p.store.charges| && c.outcome.Succeeds?
    requires InUnits(p.job.estimate) && p.job.Day() in p.store.ledger && InUnits(p.store.SpentOn(p.job.Day()))
    requires p.job.estimate <= p.store.SpentOn(p.job.Day())
    ensures var r, date, k, cost := Then(p, c), p.job.Day(), p.job.claim.entry, p.job.stage.cost;
            var change := Stored(cost) - p.job.estimate;
            && r.job == p.job.(stage := Announcing(p.job.stage.payload, true))
            && r.store.rows == p.store.rows && r.store.published == p.store.published
            && r.store.ledger == p.store.ledger[date := p.store.ledger[date].(spent := p.store.SpentOn(date) + change)]
            && r.store.charges == p.store.charges[k := p.store.charges[k].(settled := true, amount := p.store.charges[k].amount + change)]
  {
    var row, cost := p.store.ledger[p.job.Day()], p.job.stage.cost;
    SettleReplacesReservation(row, p.job.estimate, cost);
    StoredRounds(cost);
    hide Stored;
    assert AdjustedRows(p.store.ledger, p.job.Day(), cost - p.job.estimate)
        == p.store.ledger[p.job.Day() := row.(spent := row.spent - p.job.estimate + Stored(cost))];
  }

  /** A generation that fails gives the reservation back, whatever the error. */
  lemma RolledBack(p: Step, failure: Choice, release: Choice)
    requires AboutToGenerate(p) && p.job.estimate > 0
    requires !failure.outcome.Succeeds? && release.outcome.Succeeds?
    ensures var r, date := Then(Then(p, failure), release), p.job.Day();
            && r.job == p.job.(claim := Released, stage := Handling(failure.error))
            && r.store == p.store.(ledger := p.store.ledger[date := p.store.ledger[date].(spent := p.store.SpentOn(date) - p.job.estimate)])
  {
    ReleaseTakesOff(p.store.ledger[p.job.Day()], p.job.estimate);
  }

  /** A brief whose row another execution stored meanwhile: the reservation is given back, and the stored row is
      published instead. */
  lemma Superseded(p: Step, calls: seq<Choice>)
    requires p.job.stage.Persisting? && p.job.claim.Held? && InUnits(p.job.estimate) && p.job.estimate > 0
    requires p.job.stage.payload.requestId == p.job.id && p.job.id in p.store.rows
    requires p.job.Day() in p.store.ledger && InUnits(p.store.SpentOn(p.job.Day())) && p.job.estimate <= p.store.SpentOn(p.job.Day())
    requires |calls| == 4 && AllSucceed(calls)
    ensures var r, date := Solo(p, calls), p.job.Day();
            && r.job == p.job.(claim := Released, stage := Returned)
            && r.store == p.store.(published := p.store.published + [Publication(p.job.id, p.store.rows[p.job.id])],
                                   ledger := p.store.ledger[date := p.store.ledger[date].(spent := p.store.SpentOn(date) - p.job.estimate)])
  {
    ReleaseTakesOff(p.store.ledger[p.job.Day()], p.job.estimate);
    assert calls == calls[..2] + calls[2..];
    SoloConcat(p, calls[..2], calls[2..]);
    SoloTwo(p, calls[..2]);
    SoloTwo(Solo(p, calls[..2]), calls[2..]);
  }

  // ---------------------------------------------------------------- calls that fail

  /** Where a call that throws leads, whether or not it took effect: outside the try block it leaves the execution;
      inside, it is rolled back while the reservation is held and handled otherwise; a settlement is passed over, and a
      failing rollback leaves the execution. Without an effect the store is as it was. */
  lemma CallFails(s: Store, x: Execution, c: Choice)
    requires !c.outcome.Succeeds? && !Final(x.stage) && !x.stage.Handling? && !(x.stage.Upserting? && c.viaRedis)
    ensures var r := ExecutionStep(s, x, c);
            && (c.outcome.FailsBefore? && !(x.stage.RollingBack? && x.estimate <= 0) ==> r.store == s)
            && match x.stage
               case Resolving => r.job.stage.Threw? || (c.error.NonRetryable? && r.job.stage.Emitting?)
               case Generating => r.job.stage == if x.claim.Held? then RollingBack(c.error) else Stage.Handling(c.error)
               case Persisting(_, _) => r.job.stage == if x.claim.Held? then RollingBack(Other) else Stage.Handling(Other)
               case Unreserving => r.job.stage == RollingBack(Other)
               case Reloading(inTry) => r.job.stage == CaughtAt(x, inTry)
               case Announcing(_, inTry) => r.job.stage == CaughtAt(x, inTry)
               case Settling(payload, _) => r.job.stage == Announcing(payload, true)
               case RollingBack(error) => r.job.stage == if x.estimate <= 0 then Stage.Handling(error) else Threw
               case Loading => r.job.stage.Threw?
               case Upserting => r.job.stage.Threw?
               case Reserving => r.job.stage.Threw?
               case Emitting(_) => r.job.stage.Threw?
               case Handling(_) => true
               case Returned => true
               case Threw => true
  {
  }

  /** A call that throws after its effect leaves the rows, the messages and the spend that it would have left had it
      returned. */
  lemma EffectIsTaken(s: Store, x: Execution, c: Choice)
    ensures var r, r' := ExecutionStep(s, x, c.(outcome := Succeeds)).store, ExecutionStep(s, x, c.(outcome := FailsAfter)).store;
            r.rows == r'.rows && r.published == r'.published && r.ledger == r'.ledger
  {
  }

  function CaughtAt(x: Execution, inTry: bool): Stage {
    if !inTry then Threw else if x.claim.Held? then RollingBack(Other) else Stage.Handling(Other)
  }

  // ---------------------------------------------------------------- whole requests

  /** A request that was answered before is answered by its stored result, and nothing else happens. */
  lemma AnsweredBefore(s: Store, id: RequestId, budget: Budget, now: int, calls: seq<Choice>)
    requires id in s.rows && |calls| == 3 && AllSucceed(calls)
    ensures var r := Solo(Beginning(s, id, budget, now), calls);
            r.job.stage.Returned? && r.store == s.(published := s.published + [Publication(id, s.rows[id])])
  {
    SoloTwo(Then(Beginning(s, id, budget, now), calls[0]), calls[1..]);
  }

  /** A request that can never be resolved is answered with the error's own code. */
  lemma UnresolvableIsAnswered(s: Store, id: RequestId, budget: Budget, now: int, calls: seq<Choice>)
    requires id !in s.rows && |calls| == 3 && AllSucceed(calls[1..])
    requires !calls[0].outcome.Succeeds? && calls[0].error.NonRetryable?
    ensures var r := Solo(Beginning(s, id, budget, now), calls);
            var answer := Payload(id, now, Failure(calls[0].error.code, calls[0].error.message, false));
            r.job.stage.Returned? && r.store == s.(rows := s.rows[id := answer], published := s.published + [Publication(id, answer)])
  {
    var p := Then(Beginning(s, id, budget, now), calls[0]);
    EmittedIsPublished(p, calls[1..], Payload(id, now, Failure(calls[0].error.code, calls[0].error.message, false)));
  }

  /** The estimate of a request by its size, in micro-USD. */
  function Estimate(c: Choice): int {
    10_000 + 2_000 * c.topics + 500 * c.evidence
  }

  /** A new request with room on its budget comes to its generation with the estimate reserved. */
  lemma Authorised(s: Store, id: RequestId, budget: Budget, now: int, calls: seq<Choice>)
    requires id !in s.rows && SoundDay(s, DateOf(now)) && |calls| == 4 && AllSucceed(calls) && !calls[2].viaRedis
    requires Room(s.SpentOn(DateOf(now)), budget, Estimate(calls[0]))
    ensures var r, date := Solo(Beginning(s, id, budget, now), calls), DateOf(now);
            && r.job == Execution(id, budget, now, Estimate(calls[0]), false, Held, Generating)
            && r.store.rows == s.rows && r.store.published == s.published && r.store.charges == s.charges
            && r.store.SpentOn(date) == s.SpentOn(date) + Estimate(calls[0]) && AboutToGenerate(r)
  {
    hide ExecutionStep, Solo, DateOf, Room;
    var p0, estimate := Beginning(s, id, budget, now), Estimate(calls[0]);
    assert calls == calls[..2] + calls[2..];
    assert InUnits(estimate) && estimate > 0 && calls[..2][0] == calls[0];
    SoloConcat(p0, calls[..2], calls[2..]);
    ResolvedAndNew(s, id, budget, now, calls[..2]);
    Reserved(Solo(p0, calls[..2]), calls[2..]);
    WholeSums(s.SpentOn(DateOf(now)), estimate);
  }

  /** A new request with room on its budget: the brief that generation returns is stored and published, and the
      day's spend grows by its cost as the column stores it. There is a settlement among the calls unless the cost
      is the estimate. */
  lemma NewRequestIsAnswered(s: Store, id: RequestId, budget: Budget, now: int, calls: seq<Choice>)
    requires id !in s.rows && SoundDay(s, DateOf(now)) && |calls| >= 5 && AllSucceed(calls) && !calls[2].viaRedis
    requires |calls| == if calls[4].cost == Estimate(calls[0]) then 7 else 8
    requires Room(s.SpentOn(DateOf(now)), budget, Estimate(calls[0]))
    ensures var r, date, cost := Solo(Beginning(s, id, budget, now), calls), DateOf(now), calls[4].cost;
            var answer := Payload(id, now, Brief(calls[4].content));
            && r.job.stage.Returned?
            && r.store.rows == s.rows[id := answer] && r.store.published == s.published + [Publication(id, answer)]
            && r.store.SpentOn(date) == s.SpentOn(date) + Stored(cost)
            && r.store.charges == s.charges + [Charge(id, date, Estimate(calls[0]), cost, cost != Estimate(calls[0]), Stored(cost))]
  {
    hide ExecutionStep, Solo;
    var p0 := Beginning(s, id, budget, now);
    assert calls == calls[..4] + calls[4..];
    SoloConcat(p0, calls[..4], calls[4..]);
    Authorised(s, id, budget, now, calls[..4]);
    var p := Solo(p0, calls[..4]);
    StoredRounds(calls[4].cost);
    if calls[4].cost == Estimate(calls[0]) {
      DeliveredAtEstimate(p, calls[4..]);
    } else {
      DeliveredAndSettled(p, calls[4..]);
    }
  }

  /** A new request without room on its budget is answered `budget_exceeded`. */
  lemma NewRequestIsRefused(s: Store, id: RequestId, budget: Budget, now: int, calls: seq<Choice>)
    requires id !in s.rows && |calls| == 6 && AllSucceed(calls) && !calls[2].viaRedis
    requires !Room(s.SpentOn(DateOf(now)), budget, Estimate(calls[0]))
    ensures var r := Solo(Beginning(s, id, budget, now), calls);
            var answer := Payload(id, now, Failure("budget_exceeded", "Daily brief budget exceeded", false));
            && r.job.stage.Returned?
            && r.store.rows == s.rows[id := answer] && r.store.published == s.published + [Publication(id, answer)]
            && r.store.charges == s.charges && forall date :: r.store.SpentOn(date) == s.SpentOn(date)
  {
    hide ExecutionStep, Solo;
    var p0 := Beginning(s, id, budget, now);
    assert calls == calls[..2] + calls[2..];
    SoloConcat(p0, calls[..2], calls[2..]);
    ResolvedAndNew(s, id, budget, now, calls[..2]);
    Refused(Solo(p0, calls[..2]), calls[2..]);
  }

  /** The answer to an error of generation; other errors have none. */
  function AnswerTo(id: RequestId, now: int, error: Error): Option<Payload> {
    match error
    case NonRetryable(code, message) => Some(Payload(id, now, Failure(code, message, false)))
    case Llm(message, timedOut) => Some(Payload(id, now, Failure(if timedOut then "timeout" else "llm_error", message, true)))
    case Other => None
  }

  /** A generation that fails leaves the day's spend as it was. A non-retryable or LLM error is answered with a
      failure; any other is thrown, with nothing stored or published. */
  lemma FailedGeneration(s: Store, id: RequestId, budget: Budget, now: int, calls: seq<Choice>)
    requires id !in s.rows && SoundDay(s, DateOf(now)) && |calls| >= 5 && !calls[2].viaRedis
    requires AllSucceed(calls[..4]) && !calls[4].outcome.Succeeds? && AllSucceed(calls[5..])
    requires |calls| == if calls[4].error.Other? then 7 else 9
    requires Room(s.SpentOn(DateOf(now)), budget, Estimate(calls[0]))
    ensures var r, answer := Solo(Beginning(s, id, budget, now), calls), AnswerTo(id, now, calls[4].error);
            && (if answer.None? then r.job.stage.Threw? && r.store.rows == s.rows && r.store.published == s.published
                else r.job.stage.Returned? && r.store.rows == s.rows[id := answer.value]
                     && r.store.published == s.published + [Publication(id, answer.value)])
            && r.store.SpentOn(DateOf(now)) == s.SpentOn(DateOf(now)) && r.store.charges == s.charges
  {
    hide ExecutionStep, Solo;
    var p0 := Beginning(s, id, budget, now);
    assert calls == calls[..4] + calls[4..];
    SoloConcat(p0, calls[..4], calls[4..]);
    Authorised(s, id, budget, now, calls[..4]);
    FailedFrom(Solo(p0, calls[..4]), calls[4..]);
  }

  lemma FailedFrom(p: Step, calls: seq<Choice>)
    requires AboutToGenerate(p) && p.job.estimate > 0
    requires |calls| > 0 && !calls[0].outcome.Succeeds? && AllSucceed(calls[1..])
    requires |calls| == if calls[0].error.Other? then 3 else 5
    ensures var r, answer := Solo(p, calls), AnswerTo(p.job.id, p.job.producedAt, calls[0].error);
            && (if answer.None? then r.job.stage.Threw? && r.store.rows == p.store.rows && r.store.published == p.store.published
                else r.job.stage.Returned? && r.store.rows == p.store.rows[p.job.id := answer.value]
                     && r.store.published == p.store.published + [Publication(p.job.id, answer.value)])
            && r.store.SpentOn(p.job.Day()) == p.store.SpentOn(p.job.Day()) - p.job.estimate && r.store.charges == p.store.charges
  {
    hide ExecutionStep, Solo;
    assert calls == calls[..2] + calls[2..] && calls[1] == calls[1..][0];
    SoloConcat(p, calls[..2], calls[2..]);
    SoloTwo(p, calls[..2]);
    RolledBack(p, calls[0], calls[1]);
    var q := Solo(p, calls[..2]);
    HandlingDecides(q.store, q.job, calls[2]);
    SoloFirst(q, calls[2..]);
    if calls[0].error.Other? {
      assert calls[2..][1..] == [];
      SoloNone(Then(q, calls[2]));
    } else {
      assert calls[2..][1..] == calls[3..];
      EmittedIsPublished(Then(q, calls[2]), calls[3..], AnswerTo(p.job.id, p.job.producedAt, calls[0].error).value);
    }
  }

  // ---------------------------------------------------------------- in the batch loop

  lemma FinalStays(p: Step, c: Choice)
    requires Final(p.job.stage)
    ensures Then(p, c) == p
  {
  }

  /** The execution is final after `n` calls and not before. */
  predicate EndsAt(p: Step, calls: seq<Choice>, n: nat) {
    && n <= |calls| && Final(Solo(p, calls[..n]).job.stage)
    && forall k :: 0 <= k < n ==> !Final(Solo(p, calls[..k]).job.stage)
  }

  lemma {:induction false} FirstFinal(p: Step, calls: seq<Choice>)
    requires Final(Solo(p, calls).job.stage)
    ensures exists n: nat :: EndsAt(p, calls, n) && Solo(p, calls[..n]) == Solo(p, calls)
    decreases |calls|
  {
    hide ExecutionStep;
    if Final(p.job.stage) {
      StaysFinal(p, calls);
      assert EndsAt(p, calls, 0);
    } else {
      var q := Then(p, calls[0]);
      FirstFinal(q, calls[1..]);
      var m: nat :| EndsAt(q, calls[1..], m) && Solo(q, calls[1..][..m]) == Solo(q, calls[1..]);
      forall k | 1 <= k <= m + 1 ensures Solo(p, calls[..k]) == Solo(q, calls[1..][..k - 1]) {
        assert calls[..k][0] == calls[0] && calls[..k][1..] == calls[1..][..k - 1];
        SoloFirst(p, calls[..k]);
      }
      assert calls[..0] == [] && calls[..|calls|] == calls;
      assert EndsAt(p, calls, m + 1);
    }
  }

  lemma {:induction false} StaysFinal(p: Step, calls: seq<Choice>)
    requires Final(p.job.stage)
    ensures Solo(p, calls) == p
    decreases |calls|
  {
    if |calls| != 0 {
      FinalStays(p, calls[0]);
      StaysFinal(p, calls[1..]);
    }
  }

  function Advances(i: nat, calls: seq<Choice>): seq<Action> {
    seq(|calls|, k requires 0 <= k < |calls| => Advance(i, calls[k]))
  }

  /** A worker advanced on its own takes its execution through these calls. */
  lemma {:induction false} AdvancesAre(log: seq<Message>, w: World, i: nat, x: Execution, calls: seq<Choice>)
    requires i < |w.workers| && w.workers[i].Busy? && w.workers[i].job == Some(x)
    requires forall k :: 0 <= k < |calls| ==> !Final(Solo(Step(w.store, x), calls[..k]).job.stage)
    ensures var r := Solo(Step(w.store, x), calls);
            Run(log, w, Advances(i, calls)) == w.(store := r.store, workers := w.workers[i := w.workers[i].(job := Some(r.job))])
    decreases |calls|
  {
    hide ExecutionStep;
    if |calls| == 0 {
      assert w.workers == w.workers[i := w.workers[i].(job := Some(x))];
    } else {
      var front, last := calls[..|calls| - 1], calls[|calls| - 1];
      forall k | 0 <= k < |front| ensures !Final(Solo(Step(w.store, x), front[..k]).job.stage) {
        assert front[..k] == calls[..k];
      }
      AdvancesAre(log, w, i, x, front);
      assert Advances(i, calls)[..|calls| - 1] == Advances(i, front);
      assert calls == front + [last];
      SoloConcat(Step(w.store, x), front, [last]);
      var r := Solo(Step(w.store, x), front);
      SoloFirst(r, [last]);
      SoloNone(Then(r, last));
    }
  }

  /** The schedule of one message: start it, make its calls, and take its end over. */
  function TakenOver(i: nat, start: Choice, calls: seq<Choice>, end: Choice): seq<Action> {
    [Advance(i, start)] + Advances(i, calls) + [Advance(i, end)]
  }

  /** A request is started by the batch loop, and taken over when its execution ends: if it returned, its position
      is acknowledged and the next one is due; if it threw, the worker starts again at the request. */
  lemma RequestIsTakenOver(log: seq<Message>, w: World, i: nat, start: Choice, calls: seq<Choice>, end: Choice)
    requires i < |w.workers| && w.workers[i].Busy? && w.workers[i].job.None? && start.active
    requires w.workers[i].cur < w.workers[i].hi && w.workers[i].cur < |log| && log[w.workers[i].cur].Request?
    requires var m := log[w.workers[i].cur];
             Final(Solo(Beginning(w.store, m.id, m.budget, start.now), calls).job.stage)
    ensures var m := log[w.workers[i].cur];
            var r := Solo(Beginning(w.store, m.id, m.budget, start.now), calls);
            exists n: nat :: n <= |calls| && IsTakenOver(w, i, r, Run(log, w, TakenOver(i, start, calls[..n], end)))
  {
    var b := w.workers[i];
    var m := log[b.cur];
    var p := Beginning(w.store, m.id, m.budget, start.now);
    FirstFinal(p, calls);
    var n: nat :| EndsAt(p, calls, n) && Solo(p, calls[..n]) == Solo(p, calls);
    TakenOverIs(log, w, i, start, calls[..n], end) by {
      forall k | 0 <= k < n ensures !Final(Solo(p, calls[..n][..k]).job.stage) {
        assert calls[..n][..k] == calls[..k];
      }
    }
  }

  /** The same for the calls up to the end of the execution. */
  lemma TakenOverIs(log: seq<Message>, w: World, i: nat, start: Choice, calls: seq<Choice>, end: Choice)
    requires i < |w.workers| && w.workers[i].Busy? && w.workers[i].job.None? && start.active
    requires w.workers[i].cur < w.workers[i].hi && w.workers[i].cur < |log| && log[w.workers[i].cur].Request?
    requires var m := log[w.workers[i].cur];
             var p := Beginning(w.store, m.id, m.budget, start.now);
             Final(Solo(p, calls).job.stage) && forall k :: 0 <= k < |calls| ==> !Final(Solo(p, calls[..k]).job.stage)
    ensures var m := log[w.workers[i].cur];
            var r := Solo(Beginning(w.store, m.id, m.budget, start.now), calls);
            IsTakenOver(w, i, r, Run(log, w, TakenOver(i, start, calls, end)))
  {
    hide ExecutionStep, Solo, IsTakenOver;
    var b := w.workers[i];
    var m := log[b.cur];
    var p := Beginning(w.store, m.id, m.budget, start.now);
    var w1 := w.(workers := w.workers[i := b.(job := Some(p.job))]);
    RunOne(log, w, Advance(i, start));
    AdvancesAre(log, w1, i, p.job, calls);
    RunConcat(log, w, [Advance(i, start)], Advances(i, calls));
    RunConcat(log, w, [Advance(i, start)] + Advances(i, calls), [Advance(i, end)]);
    var w2 := Run(log, w1, Advances(i, calls));
    RunOne(log, w2, Advance(i, end));
    EndIs(log, w, i, Solo(p, calls), w2, end);
  }

  /** After the execution: what the store shows is what the execution left. */
  ghost predicate IsTakenOver(w: World, i: nat, r: Step, v: World)
    requires i < |w.workers| && w.workers[i].Busy?
  {
    var b := w.workers[i];
    && v.store.rows == r.store.rows && v.store.published == r.store.published
    && v.store.ledger == r.store.ledger && v.store.charges == r.store.charges && v.committed == w.committed
    && v.workers == w.workers[i := if r.job.stage.Returned? then b.(cur := b.cur + 1) else Idle(b.cur)]
    && v.acknowledged == w.acknowledged + if r.job.stage.Returned? then {b.cur} else {}
  }

  lemma EndIs(log: seq<Message>, w: World, i: nat, r: Step, w2: World, c: Choice)
    requires i < |w.workers| && w.workers[i].Busy? && w.workers[i].job.None? && Final(r.job.stage)
    requires w2 == w.(store := r.store, workers := w.workers[i := w.workers[i].(job := Some(r.job))])
    ensures IsTakenOver(w, i, r, Next(log, w2, Advance(i, c)))
  {
    hide ExecutionStep;
    assert w.workers[i].(job := None) == w.workers[i];
  }

  lemma RunOne(log: seq<Message>, w: World, action: Action)
    ensures Run(log, w, [action]) == Next(log, w, action)
  {
    assert [action][..0] == [];
  }

  /** A message without a request is acknowledged at once; at the end of the batch the worker commits. */
  lemma OtherMessages(log: seq<Message>, w: World, i: nat, c: Choice)
    requires i < |w.workers| && w.workers[i].Busy? && w.workers[i].job.None? && w.workers[i].hi <= |log|
    ensures var b, v := w.workers[i], Next(log, w, Advance(i, c));
            && (c.active && b.cur < b.hi && !log[b.cur].Request? ==>
                  && v.acknowledged == w.acknowledged + {b.cur} && v.workers == w.workers[i := b.(cur := b.cur + 1)]
                  && v.store == w.store && v.committed == w.committed)
            && (b.cur >= b.hi && c.outcome.Succeeds? ==> v == w.(workers := w.workers[i := Idle(b.cur)], committed := b.cur))
  {
  }

  /** A consumer between batches takes up the log where it stands, or where the group committed. */
  lemma PolledIs(log: seq<Message>, w: World, i: nat, fromCommitted: bool, count: nat)
    requires i < |w.workers| && w.workers[i].Idle?
    ensures var lo := if fromCommitted then w.committed else w.workers[i].next;
            Next(log, w, Poll(i, fromCommitted, count)) == w.(workers := w.workers[i := Busy(lo, lo, lo + count, None)])
  {
  }

  /** A crash drops the execution and sends the worker back to the committed offset; a commit of its own takes the
      worker's position over; a mirror replaces the row of a day on which Redis reserves. */
  lemma DisturbancesAre(log: seq<Message>, w: World, i: nat, date: Date, row: Row)
    requires i < |w.workers|
    ensures var v := Next(log, w, Crash(i));
            && v.workers == w.workers[i := Idle(w.committed)] && v.committed == w.committed && v.acknowledged == w.acknowledged
            && v.store.rows == w.store.rows && v.store.published == w.store.published && v.store.ledger == w.store.ledger
            && v.store.charges == w.store.charges
    ensures w.workers[i].Busy? ==> Next(log, w, AutoCommit(i)) == w.(committed := w.workers[i].cur)
    ensures w.store.BooksOf(date).mixed ==>
              Next(log, w, Mirror(date, row)) == w.(store := w.store.(ledger := w.store.ledger[date := row]))
  {
  }
}
