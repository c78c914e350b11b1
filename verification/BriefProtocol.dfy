/** The brief request protocol as a step system. Several workers consume one partition of the
    summary-request topic with at-least-once delivery. Each foreign call (Postgres, Redis, Kafka,
    generation) is one atomic step that succeeds, fails without effect, or fails after taking effect;
    a worker may crash between any two steps. */
module BriefProtocol {
  import opened BudgetLedger

  type RequestId = string

  datatype Body =
    | Brief(content: int)
    | Failure(code: string, message: string, retryable: bool)

  datatype Payload = Payload(requestId: RequestId, producedAt: int, body: Body)

  /** A message of the summary-request topic. The budget is the request's own or the configured one. */
  datatype Message = Empty | Undecodable | Request(id: RequestId, budget: Budget)

  datatype Error =
    | NonRetryable(code: string, message: string)
    | Llm(message: string, timedOut: bool)
    | Other

  datatype Outcome = Succeeds | FailsBefore | FailsAfter

  /** Who answers for a reservation an execution has made. */
  datatype Claim = Unclaimed | Held | Charged(entry: nat) | Released

  /** Where an execution stands. `inTry` says whether an error now reaches the handler chain. */
  datatype Stage =
    | Resolving
    | Loading
    | Upserting
    | Reserving
    | Generating
    | Persisting(payload: Payload, cost: nat)
    | Unreserving
    | Reloading(inTry: bool)
    | Settling(payload: Payload, cost: nat)
    | Announcing(payload: Payload, inTry: bool)
    | RollingBack(error: Error)
    | Handling(error: Error)
    | Emitting(payload: Payload)
    | Returned
    | Threw

  predicate Final(stage: Stage) {
    stage.Returned? || stage.Threw?
  }

  datatype Execution = Execution(
    id: RequestId,
    budget: Budget,
    producedAt: int,
    estimate: int,
    viaRedis: bool,
    claim: Claim,
    stage: Stage)
  {
    function Day(): Date {
      DateOf(producedAt)
    }
  }

  datatype Option<+T> = None | Some(value: T)

  /** A consumer: between batches, or inside the batch `lo..hi` with messages `lo..cur` acknowledged. */
  datatype Worker =
    | Idle(next: nat)
    | Busy(lo: nat, cur: nat, hi: nat, job: Option<Execution>)

  /** The final charge of one request: the reserved amount until settlement rewrites it. */
  datatype Charge = Charge(id: RequestId, date: Date, reserved: int, cost: nat, settled: bool, amount: int)

  /** What the history of one day says about its row; no step reads it.
      `stranded`: reservations of executions that ended holding them. `releasedTwice`: reservations
      for which release took effect a second time. `peak` and `overruns`: the spend bound. `mixed`:
      a reservation was admitted by Redis, or a mirror wrote the row. `unlimited`: a reservation had
      no budget. */
  datatype Books = Books(
    stranded: int,
    releasedTwice: int,
    peak: int,
    overruns: int,
    mixed: bool,
    unlimited: bool)

  const BLANK := Books(0, 0, 0, 0, false, false)

  datatype Publication = Publication(id: RequestId, payload: Payload)

  /** What the workers share. */
  datatype Store = Store(
    rows: map<RequestId, Payload>,
    published: seq<Publication>,
    ledger: map<Date, Row>,
    books: map<Date, Books>,
    charges: seq<Charge>)
  {
    function BooksOf(date: Date): Books {
      if date in books then books[date] else BLANK
    }

    function SpentOn(date: Date): int {
      if date in ledger then ledger[date].spent else 0
    }

    function WithBooks(date: Date, entry: Books): Store {
      this.(books := books[date := entry])
    }
  }

  datatype World = World(
    store: Store,
    workers: seq<Worker>,
    acknowledged: set<nat>,
    committed: nat)

  /** Everything a step does not decide itself. */
  datatype Choice = Choice(
    outcome: Outcome,
    active: bool,
    now: int,
    error: Error,
    topics: nat,
    evidence: nat,
    viaRedis: bool,
    content: int,
    cost: nat)

  datatype Action =
    | Poll(worker: nat, fromCommitted: bool, count: nat)
    | Advance(worker: nat, choice: Choice)
    | AutoCommit(worker: nat)
    | Crash(worker: nat)
    | Mirror(date: Date, row: Row)

  const EMPTY_STORE := Store(map[], [], map[], map[], [])

  function Initial(workers: nat): World {
    World(EMPTY_STORE, seq(workers, _ => Idle(0)), {}, 0)
  }

  // ---------------------------------------------------------------- effects of single calls

  /** A step of one execution: the store and the execution after it. */
  datatype Step = Step(store: Store, job: Execution)

  function To(s: Store, x: Execution, stage: Stage): Step {
    Step(s, x.(stage := stage))
  }

  function Inserted(rows: map<RequestId, Payload>, payload: Payload): map<RequestId, Payload> {
    if payload.requestId in rows then rows else rows[payload.requestId := payload]
  }

  function FailurePayload(x: Execution, code: string, message: string, retryable: bool): Payload {
    Payload(x.id, x.producedAt, Failure(code, message, retryable))
  }

  /** One call of `release`; the books note a second one for the same reservation. */
  function ReleaseCall(s: Store, x: Execution): Store {
    var date := x.Day();
    var s' := s.(ledger := AdjustedRows(s.ledger, date, -x.estimate));
    if x.claim.Released? then
      s'.WithBooks(date, s.BooksOf(date).(releasedTwice := s.BooksOf(date).releasedTwice + x.estimate))
    else s'
  }

  // ---------------------------------------------------------------- the execution, stage by stage

  /** `catch` of the try block: roll back if the budget decision is still pending, then handle. */
  function Caught(s: Store, x: Execution, error: Error): Step {
    To(s, x, if x.claim.Held? then RollingBack(error) else Handling(error))
  }

  function Resolve(s: Store, x: Execution, c: Choice): Step {
    if c.outcome.Succeeds? then
      To(s, x.(estimate := EstimateRequestCost(c.topics, c.evidence)), Loading)
    else if c.error.NonRetryable? then
      To(s, x, Emitting(FailurePayload(x, c.error.code, c.error.message, false)))
    else To(s, x, Threw)
  }

  function Load(s: Store, x: Execution, c: Choice): Step {
    if !c.outcome.Succeeds? then To(s, x, Threw)
    else if x.id in s.rows then To(s, x, Announcing(s.rows[x.id], false))
    else To(s, x, Upserting)
  }

  /** The Redis script comes first; when it refuses or throws, the Postgres ledger upserts the day's row. */
  function Upsert(s: Store, x: Execution, c: Choice): Step {
    if c.viaRedis then
      To(s.WithBooks(x.Day(), s.BooksOf(x.Day()).(mixed := true)),
         x.(claim := Held, viaRedis := true), Generating)
    else
      To(if c.outcome.FailsBefore? then s else s.(ledger := Upserted(s.ledger, x.Day())), x,
         if c.outcome.Succeeds? then Reserving else Threw)
  }

  function Reserve(s: Store, x: Execution, c: Choice): Step {
    var date := x.Day();
    if c.outcome.FailsBefore? then To(s, x, Threw)
    else if date in s.ledger && Fits(s.ledger[date].spent, x.budget, x.estimate) then
      var books := s.BooksOf(date);
      var books' := if x.budget.Unlimited? then books.(unlimited := true)
                    else books.(peak := Max(books.peak, Max(x.budget.limit, x.estimate)));
      To(s.(ledger := s.ledger[date := Incremented(s.ledger[date], x.estimate)]).WithBooks(date, books'),
         x.(claim := Held), if c.outcome.Succeeds? then Generating else Threw)
    else
      To(s, x, if c.outcome.Succeeds?
               then Emitting(FailurePayload(x, "budget_exceeded", "Daily brief budget exceeded", false))
               else Threw)
  }

  function Generate(s: Store, x: Execution, c: Choice): Step {
    if c.outcome.Succeeds? then
      To(s, x, Persisting(Payload(x.id, x.producedAt, Brief(c.content)), c.cost))
    else Caught(s, x, c.error)
  }

  function Persist(s: Store, x: Execution, c: Choice): Step
    requires x.stage.Persisting?
  {
    var payload, cost := x.stage.payload, x.stage.cost;
    if c.outcome.FailsBefore? then Caught(s, x, Other)
    else
      var s' := s.(rows := Inserted(s.rows, payload));
      if c.outcome.FailsAfter? then Caught(s', x, Other)
      else if payload.requestId in s.rows then
        if x.estimate <= 0 then To(s', x.(claim := Released), Reloading(true))
        else To(s', x, Unreserving)
      else
        var charge := Charge(x.id, x.Day(), x.estimate, cost, false, x.estimate);
        To(s'.(charges := s.charges + [charge]), x.(claim := Charged(|s.charges|)),
           if cost == x.estimate then Announcing(payload, true) else Settling(payload, cost))
  }

  function Unreserve(s: Store, x: Execution, c: Choice): Step {
    if c.outcome.FailsBefore? then To(s, x, RollingBack(Other))
    else
      To(ReleaseCall(s, x), x.(claim := Released),
         if c.outcome.Succeeds? then Reloading(true) else RollingBack(Other))
  }

  function Reload(s: Store, x: Execution, c: Choice): Step
    requires x.stage.Reloading?
  {
    if c.outcome.Succeeds? && x.id in s.rows then To(s, x, Announcing(s.rows[x.id], x.stage.inTry))
    else if x.stage.inTry then Caught(s, x, Other)
    else To(s, x, Threw)
  }

  function SettledCharges(charges: seq<Charge>, entry: nat, effect: int): seq<Charge> {
    if entry < |charges| then charges[entry := charges[entry].(settled := true, amount := charges[entry].amount + effect)]
    else charges
  }

  /** A settlement that throws is only logged. */
  function Settle(s: Store, x: Execution, c: Choice): Step
    requires x.stage.Settling?
  {
    var date, stage := x.Day(), Announcing(x.stage.payload, true);
    if c.outcome.FailsBefore? || !x.claim.Charged? then To(s, x, stage)
    else
      var s' := s.(ledger := AdjustedRows(s.ledger, date, x.stage.cost - x.estimate));
      var effect := s'.SpentOn(date) - s.SpentOn(date);
      var books := s.BooksOf(date);
      To(s'.(charges := SettledCharges(s.charges, x.claim.entry, effect))
           .WithBooks(date, books.(overruns := books.overruns + Max(0, effect))), x, stage)
  }

  function Announce(s: Store, x: Execution, c: Choice): Step
    requires x.stage.Announcing?
  {
    var s' := if c.outcome.FailsBefore? then s
              else s.(published := s.published + [Publication(x.id, x.stage.payload)]);
    if c.outcome.Succeeds? then To(s', x, Returned)
    else if x.stage.inTry then Caught(s', x, Other)
    else To(s', x, Threw)
  }

  /** Rollback inside `catch`; when it throws, that error leaves the execution. */
  function RollBack(s: Store, x: Execution, c: Choice): Step
    requires x.stage.RollingBack?
  {
    if x.estimate <= 0 then To(s, x.(claim := Released), Handling(x.stage.error))
    else if c.outcome.FailsBefore? then To(s, x, Threw)
    else
      To(ReleaseCall(s, x), x.(claim := Released),
         if c.outcome.Succeeds? then Handling(x.stage.error) else Threw)
  }

  /** The handler chain: non-retryable, already persisted, retryable LLM, unknown. */
  function Handle(s: Store, x: Execution): Step
    requires x.stage.Handling?
  {
    var error := x.stage.error;
    To(s, x, if error.NonRetryable? then Emitting(FailurePayload(x, error.code, error.message, false))
             else if x.claim.Charged? then Threw
             else if error.Llm? then
               Emitting(FailurePayload(x, if error.timedOut then "timeout" else "llm_error", error.message, true))
             else Threw)
  }

  function Emit(s: Store, x: Execution, c: Choice): Step
    requires x.stage.Emitting?
  {
    if c.outcome.FailsBefore? then To(s, x, Threw)
    else
      To(s.(rows := Inserted(s.rows, x.stage.payload)), x,
         if c.outcome.FailsAfter? then Threw
         else if x.stage.payload.requestId in s.rows then Reloading(false)
         else Announcing(x.stage.payload, false))
  }

  /** Every stage but the two final ones, which the batch loop takes over. */
  function ExecutionStep(s: Store, x: Execution, c: Choice): Step {
    match x.stage
    case Resolving => Resolve(s, x, c)
    case Loading => Load(s, x, c)
    case Upserting => Upsert(s, x, c)
    case Reserving => Reserve(s, x, c)
    case Generating => Generate(s, x, c)
    case Persisting(_, _) => Persist(s, x, c)
    case Unreserving => Unreserve(s, x, c)
    case Reloading(_) => Reload(s, x, c)
    case Settling(_, _) => Settle(s, x, c)
    case Announcing(_, _) => Announce(s, x, c)
    case RollingBack(_) => RollBack(s, x, c)
    case Handling(_) => Handle(s, x)
    case Emitting(_) => Emit(s, x, c)
    case Returned => Step(s, x)
    case Threw => Step(s, x)
  }

  // ---------------------------------------------------------------- workers

  /** What an execution still holds on a day's row. */
  function HoldOf(x: Execution, date: Date): int {
    if x.claim.Held? && !x.viaRedis && x.Day() == date then x.estimate else 0
  }

  function HeldBy(worker: Worker, date: Date): int {
    if worker.Busy? && worker.job.Some? then HoldOf(worker.job.value, date) else 0
  }

  /** The worker leaves its execution, if it has one; a reservation still held is stranded. */
  function Stranded(s: Store, worker: Worker): Store {
    if worker.Busy? && worker.job.Some? then
      var date := worker.job.value.Day();
      var books := s.BooksOf(date);
      s.WithBooks(date, books.(stranded := books.stranded + HeldBy(worker, date)))
    else s
  }

  function Left(w: World, i: nat, worker: Worker): World
    requires i < |w.workers|
  {
    w.(store := Stranded(w.store, w.workers[i]), workers := w.workers[i := worker])
  }

  /** A message whose handling returned normally is acknowledged and the batch moves on. */
  function Acknowledged(w: World, i: nat): World
    requires i < |w.workers| && w.workers[i].Busy?
  {
    var b := w.workers[i];
    Left(w.(acknowledged := w.acknowledged + {b.cur}), i, b.(cur := b.cur + 1, job := None))
  }

  /** The batch loop between messages: stop and commit, skip, or start an execution. */
  function BatchStep(log: seq<Message>, w: World, i: nat, c: Choice): World
    requires i < |w.workers| && w.workers[i].Busy?
  {
    var b := w.workers[i];
    if !c.active || b.cur >= b.hi || b.cur >= |log| then
      w.(workers := w.workers[i := Idle(b.cur)],
         committed := if c.outcome.FailsBefore? then w.committed else b.cur)
    else
      match log[b.cur]
      case Empty => Acknowledged(w, i)
      case Undecodable => Acknowledged(w, i)
      case Request(id, budget) =>
        var x := Execution(id, budget, c.now, 0, false, Unclaimed, Resolving);
        w.(workers := w.workers[i := b.(job := Some(x))])
  }

  function AdvanceStep(log: seq<Message>, w: World, i: nat, c: Choice): World
    requires i < |w.workers| && w.workers[i].Busy?
  {
    var b := w.workers[i];
    match b.job
    case None => BatchStep(log, w, i, c)
    case Some(x) =>
      if x.stage.Returned? then Acknowledged(w, i)
      else if x.stage.Threw? then Left(w, i, Idle(b.cur))
      else
        var step := ExecutionStep(w.store, x, c);
        w.(store := step.store, workers := w.workers[i := b.(job := Some(step.job))])
  }

  function Next(log: seq<Message>, w: World, action: Action): World {
    match action
    case Poll(i, fromCommitted, count) =>
      if i < |w.workers| && w.workers[i].Idle? then
        var lo := if fromCommitted then w.committed else w.workers[i].next;
        w.(workers := w.workers[i := Busy(lo, lo, lo + count, None)])
      else w
    case Advance(i, c) =>
      if i < |w.workers| && w.workers[i].Busy? then AdvanceStep(log, w, i, c) else w
    case AutoCommit(i) =>
      if i < |w.workers| && w.workers[i].Busy? then w.(committed := w.workers[i].cur) else w
    case Crash(i) =>
      if i < |w.workers| then Left(w, i, Idle(w.committed)) else w
    case Mirror(date, row) =>
      if w.store.BooksOf(date).mixed then w.(store := w.store.(ledger := w.store.ledger[date := row])) else w
  }

  /** The state after a schedule: any interleaving, any failures, any redelivery. */
  function Run(log: seq<Message>, w: World, schedule: seq<Action>): World
    decreases |schedule|
  {
    if |schedule| == 0 then w
    else Next(log, Run(log, w, schedule[..|schedule| - 1]), schedule[|schedule| - 1])
  }

  lemma {:induction false} RunConcat(log: seq<Message>, w: World, a: seq<Action>, b: seq<Action>)
    ensures Run(log, w, a + b) == Run(log, Run(log, w, a), b)
    decreases |b|
  {
    if |b| == 0 {
      assert a + b == a;
    } else {
      assert (a + b)[..|a + b| - 1] == a + b[..|b| - 1];
      RunConcat(log, w, a, b[..|b| - 1]);
    }
  }
}
