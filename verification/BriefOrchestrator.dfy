/** The orchestrator as the code writes it: `execute` with its try and catch phases, while other workers change
    the shared state between any two of its calls. It takes exactly the steps of the protocol (see
    BriefProtocol), so that what is proved of every schedule holds of it. */
module BriefOrchestrator {
  import opened BudgetLedger
  import opened BriefProtocol
  import BriefAgreement
  import BriefMoney

  /** What an execution meets: the shared state right before call number `j`, as other workers left it, and the
      answer to that call. */
  datatype Surroundings = Surroundings(shared: nat -> Store, answers: nat -> Choice)

  /** One call of an execution, with the state it finds. */
  function StepAt(x: Execution, around: Surroundings, j: nat): Step {
    ExecutionStep(around.shared(j), x, around.answers(j))
  }

  /** Where an execution stands after the calls numbered `from` up to `until`. */
  function Iterate(x: Execution, around: Surroundings, from: nat, until: nat): Execution {
    if until <= from then x else StepAt(Iterate(x, around, from, until - 1), around, until - 1).job
  }

  /** None of these calls is made in a final stage. */
  predicate Unfinished(x: Execution, around: Surroundings, from: nat, until: nat) {
    until <= from
    || (Unfinished(x, around, from, until - 1) && !Final(Iterate(x, around, from, until - 1).stage))
  }

  /** From here on every call succeeds, and no stored result disappears between two calls. */
  ghost predicate Answering(around: Surroundings, from: nat) {
    forall j: nat :: from <= j ==>
      around.answers(j).outcome.Succeeds? && around.shared(j).rows.Keys <= around.shared(j + 1).rows.Keys
  }

  datatype PersistOutcome = Created | Duplicate | PersistFailed

  /** How the part of `execute` inside the try block ends. */
  datatype TryEnd = Done | Caught(error: Error)

  class DefaultBriefOrchestrator {
    const around: Surroundings
    const ledger: PostgresBudgetLedger
    var rows: map<RequestId, Payload>
    var published: seq<Publication>
    var calls: nat                             // calls made so far
    ghost var start: Execution                 // the execution as it began, after `first` calls
    ghost var first: nat
    ghost var job: Execution                   // where the protocol stands
    ghost var after: Store                     // the shared state right after the last call

    ghost predicate Follows()
      reads this
    {
      && first <= calls
      && job == Iterate(start, around, first, calls)
      && Unfinished(start, around, first, calls)
    }

    ghost predicate Valid()
      reads this, ledger
    {
      Follows() && rows == after.rows && published == after.published && ledger.rows == after.ledger
    }

    ghost predicate At(stage: Stage)
      reads this, ledger
    {
      Valid() && job.stage == stage
    }

    /** The last message of the topic is this one. */
    ghost predicate LastIs(id: RequestId, payload: Payload)
      reads this
    {
      published != [] && published[|published| - 1] == Publication(id, payload)
    }

    /** The last message of the topic answers the request. */
    ghost predicate LastAnswers(id: RequestId)
      reads this
    {
      published != [] && published[|published| - 1].id == id
    }

    constructor (around: Surroundings)
      ensures this.around == around && calls == 0 && fresh(ledger)
    {
      this.around := around;
      ledger := new PostgresBudgetLedger();
      calls, first := 0, 0;
      rows, published := map[], [];
      start := Execution("", Unlimited, 0, 0, false, Unclaimed, Resolving);
      job, after := Execution("", Unlimited, 0, 0, false, Unclaimed, Resolving), EMPTY_STORE;
    }

    /** A call is answered on the state that others have left; its effect is the caller's to write down. */
    method Await() returns (c: Choice)
      requires Valid() && !Final(job.stage)
      modifies this`calls, this`job, this`after, this`rows, this`published, ledger
      ensures c == around.answers(old(calls)) && calls == old(calls) + 1 && Follows()
      ensures var s := around.shared(old(calls));
              var step := ExecutionStep(s, old(job), c);
              && job == step.job && after == step.store
              && rows == s.rows && published == s.published && ledger.rows == s.ledger
      ensures Answering(around, old(calls)) ==>
                c.outcome.Succeeds? && Answering(around, calls)
                && around.shared(old(calls)).rows.Keys <= around.shared(calls).rows.Keys
    {
      c := around.answers(calls);
      var s := around.shared(calls);
      rows, published, ledger.rows := s.rows, s.published, s.ledger;
      after := StepAt(job, around, calls).store;
      job := StepAt(job, around, calls).job;
      calls := calls + 1;
      assert Unfinished(start, around, first, calls);
    }

    method Publish(id: RequestId, payload: Payload) returns (ok: bool)
      requires Valid() && job.stage.Announcing? && job.id == id && job.stage.payload == payload
      modifies this`calls, this`job, this`after, this`rows, this`published, ledger
      ensures Valid() && job == Announce(around.shared(old(calls)), old(job), around.answers(old(calls))).job
      ensures ok <==> around.answers(old(calls)).outcome.Succeeds?
      ensures ok ==> LastIs(id, payload) && LastAnswers(id)
      ensures Answering(around, old(calls)) ==> ok
    {
      hide Iterate, Unfinished, Answering;
      var c := Await();
      if !c.outcome.FailsBefore? {
        published := published + [Publication(id, payload)];
      }
      ok := c.outcome.Succeeds?;
    }

    /** Load the stored row and publish it; outside the try block an error leaves the execution. */
    method RepublishPersistedResult(id: RequestId) returns (ok: bool)
      requires Valid() && job.stage.Reloading? && job.id == id && !job.claim.Held?
      modifies this`calls, this`job, this`after, this`rows, this`published, ledger
      ensures var inTry := old(job).stage.inTry;
              At(if ok then Returned else if inTry then Handling(Other) else Threw)
      ensures job == old(job).(stage := job.stage)
      ensures ok ==> id in around.shared(old(calls)).rows && LastIs(id, around.shared(old(calls)).rows[id])
      ensures Answering(around, old(calls)) && id in around.shared(old(calls)).rows ==> ok
    {
      hide Iterate, Unfinished, Answering;
      var c := Await();
      if !c.outcome.Succeeds? || id !in rows {
        return false;
      }
      ok := Publish(id, rows[id]);
    }

    method PersistResult(payload: Payload) returns (r: PersistOutcome)
      requires Valid() && (job.stage.Persisting? || job.stage.Emitting?) && job.stage.payload == payload
      modifies this`calls, this`job, this`after, this`rows, this`published, ledger
      ensures Valid() && job == StepAt(old(job), around, old(calls)).job
      ensures match around.answers(old(calls)).outcome
              case Succeeds => r == if payload.requestId in around.shared(old(calls)).rows then Duplicate else Created
              case FailsBefore => r == PersistFailed
              case FailsAfter => r == PersistFailed
      ensures calls == old(calls) + 1
      ensures Answering(around, old(calls)) ==>
                !r.PersistFailed? && Answering(around, calls)
                && around.shared(old(calls)).rows.Keys <= around.shared(calls).rows.Keys
    {
      hide Iterate, Unfinished, Answering;
      var c := Await();
      if c.outcome.FailsBefore? {
        return PersistFailed;
      }
      var duplicate := payload.requestId in rows;
      if !duplicate {
        rows := rows[payload.requestId := payload];
      }
      return if c.outcome.FailsAfter? then PersistFailed else if duplicate then Duplicate else Created;
    }

    /** The request is answered with this result, or with the one that was stored before call `n`. */
    ghost predicate AnsweredWith(id: RequestId, payload: Payload, n: nat)
      reads this
    {
      if id !in around.shared(n).rows then LastIs(id, payload)
      else id in around.shared(n + 1).rows && LastIs(id, around.shared(n + 1).rows[id])
    }

    method EmitFailureResult(id: RequestId, payload: Payload) returns (ok: bool)
      requires At(Emitting(payload)) && job.id == id && payload.requestId == id && !job.claim.Held?
      modifies this`calls, this`job, this`after, this`rows, this`published, ledger
      ensures At(if ok then Returned else Threw)
      ensures ok ==> AnsweredWith(id, payload, old(calls)) && LastAnswers(id)
      ensures Answering(around, old(calls)) ==> ok
    {
      hide Iterate, Unfinished, Answering;
      var persisted := PersistResult(payload);
      if persisted.PersistFailed? {
        return false;
      }
      if persisted.Duplicate? {
        ok := RepublishPersistedResult(id);
        return;
      }
      ok := Publish(id, payload);
    }

    /** The Redis reservation and, when it refuses or fails, the upsert of the day's row in Postgres. */
    method ReserveOrUpsert(date: Date) returns (ok: bool, viaRedis: bool)
      requires At(Upserting) && job.Day() == date
      modifies this`calls, this`job, this`after, this`rows, this`published, ledger
      ensures At(if viaRedis then Generating else if ok then Reserving else Threw)
      ensures viaRedis ==> ok && job.claim.Held?
      ensures !viaRedis ==> job == old(job).(stage := job.stage)
      ensures job == old(job).(stage := job.stage, claim := job.claim, viaRedis := job.viaRedis)
      ensures Answering(around, old(calls)) ==> ok && Answering(around, calls)
    {
      hide Iterate, Unfinished, Answering;
      var c := Await();
      if c.viaRedis {
        return true, true;
      }
      if !c.outcome.FailsBefore? {
        ledger.UpsertDay(date);
      }
      return c.outcome.Succeeds?, false;
    }

    /** The guarded increment of the day's row. */
    method ReserveRow(date: Date, budget: Budget, estimate: int) returns (ok: bool, authorized: bool)
      requires At(Reserving) && job.Day() == date && job.budget == budget && job.estimate == estimate
      modifies this`calls, this`job, this`after, this`rows, this`published, ledger
      ensures At(if !ok then Threw else if authorized then Generating
                 else Emitting(FailurePayload(job, "budget_exceeded", "Daily brief budget exceeded", false)))
      ensures ok && authorized ==> job.claim.Held?
      ensures ok && !authorized ==> job.claim == old(job).claim
      ensures job == old(job).(stage := job.stage, claim := job.claim)
      ensures Answering(around, old(calls)) ==> ok && Answering(around, calls)
    {
      hide Iterate, Unfinished, Answering;
      var c := Await();
      authorized := false;
      if !c.outcome.FailsBefore? {
        authorized := ledger.ReserveRow(date, budget, estimate);
      }
      ok := c.outcome.Succeeds?;
    }

    /** Reserve through Redis or, when it refuses or fails, through Postgres. */
    method Authorize(date: Date, budget: Budget, estimate: int) returns (ok: bool, authorized: bool)
      requires At(Upserting) && job.claim.Unclaimed?
      requires job.Day() == date && job.budget == budget && job.estimate == estimate
      modifies this`calls, this`job, this`after, this`rows, this`published, ledger
      ensures At(if !ok then Threw else if authorized then Generating
                 else Emitting(FailurePayload(job, "budget_exceeded", "Daily brief budget exceeded", false)))
      ensures ok && authorized ==> job.claim.Held?
      ensures ok && !authorized ==> job.claim.Unclaimed?
      ensures job.id == old(job).id && job.producedAt == old(job).producedAt
      ensures job.estimate == estimate
      ensures Answering(around, old(calls)) ==> ok && Answering(around, calls)
    {
      hide Answering;
      var viaRedis;
      ok, viaRedis := ReserveOrUpsert(date);
      authorized := viaRedis;
      if ok && !viaRedis {
        ok, authorized := ReserveRow(date, budget, estimate);
      }
    }

    /** `rollback` of the budget governor: nothing to do without a reserved amount. */
    method Rollback(date: Date, estimate: int) returns (ok: bool)
      requires Valid() && job.stage.RollingBack? && (job.claim.Held? || job.claim.Released?)
      requires job.Day() == date && job.estimate == estimate
      modifies this`calls, this`job, this`after, this`rows, this`published, ledger
      ensures At(if ok then Handling(old(job).stage.error) else Threw)
      ensures ok ==> job == old(job).(claim := Released, stage := job.stage)
    {
      hide Iterate, Unfinished;
      var c := Await();
      if estimate <= 0 {
        return true;
      }
      if !c.outcome.FailsBefore? {
        var _ := ledger.Release(date, estimate);
      }
      ok := c.outcome.Succeeds?;
    }

    /** The handlers in their order: non-retryable, already persisted, retryable LLM, unknown. */
    method HandleFailure(id: RequestId, producedAt: int, error: Error, persistedCreated: bool) returns (handled: bool)
      requires At(Handling(error)) && job.id == id && job.producedAt == producedAt && !job.claim.Held?
      requires persistedCreated <==> job.claim.Charged?
      modifies this`calls, this`job, this`after, this`rows, this`published, ledger
      ensures At(if handled then Returned else Threw)
      ensures handled ==> LastAnswers(id)
      ensures handled ==> error.NonRetryable? || (error.Llm? && !persistedCreated)
      ensures Answering(around, old(calls)) ==> (handled <==> error.NonRetryable? || (error.Llm? && !persistedCreated))
      ensures handled && error.NonRetryable? ==>
                AnsweredWith(id, Payload(id, producedAt, Failure(error.code, error.message, false)), old(calls) + 1)
      ensures handled && error.Llm? ==>
                AnsweredWith(id, Payload(id, producedAt, Failure(if error.timedOut then "timeout" else "llm_error", error.message, true)),
                             old(calls) + 1)
    {
      hide Iterate, Unfinished, Answering;
      var _ := Await();
      match error
      case NonRetryable(code, message) =>
        handled := EmitFailureResult(id, Payload(id, producedAt, Failure(code, message, false)));
      case Llm(message, timedOut) =>
        if persistedCreated {
          return false;
        }
        var code := if timedOut then "timeout" else "llm_error";
        handled := EmitFailureResult(id, Payload(id, producedAt, Failure(code, message, true)));
      case Other =>
        handled := false;
    }

    /** Release the reservation of a duplicate. */
    method ReleaseDuplicate(date: Date, estimate: int) returns (ok: bool)
      requires Valid() && job.claim.Held? && job.Day() == date && job.estimate == estimate > 0
      requires job.stage.Unreserving?
      modifies this`calls, this`job, this`after, this`rows, this`published, ledger
      ensures At(if ok then Reloading(true) else RollingBack(Other))
      ensures job == old(job).(stage := job.stage, claim := job.claim)
      ensures if ok then job.claim.Released? else job.claim.Released? || job.claim.Held?
      ensures Answering(around, old(calls)) ==>
                ok && Answering(around, calls) && around.shared(old(calls)).rows.Keys <= around.shared(calls).rows.Keys
    {
      hide Iterate, Unfinished, Answering;
      var c := Await();
      if !c.outcome.FailsBefore? {
        var _ := ledger.Release(date, estimate);
      }
      ok := c.outcome.Succeeds?;
    }

    /** A failing settlement is only logged. */
    method Settle(date: Date, estimate: int, payload: Payload, cost: nat)
      requires At(Settling(payload, cost)) && job.claim.Charged?
      requires job.Day() == date && job.estimate == estimate
      modifies this`calls, this`job, this`after, this`rows, this`published, ledger
      ensures At(Announcing(payload, true)) && job == old(job).(stage := job.stage)
      ensures Answering(around, old(calls)) ==> Answering(around, calls)
    {
      hide Iterate, Unfinished, Answering;
      var c := Await();
      if !c.outcome.FailsBefore? {
        var _ := ledger.Settle(date, cost - estimate);
      }
    }

    /** The try block: generate, persist, settle, publish. */
    method TryBlock(id: RequestId, date: Date, producedAt: int, estimate: int)
      returns (end: TryEnd, budgetDecision: bool, persistedCreated: bool)
      requires At(Generating) && job.claim.Held?
      requires job.id == id && job.Day() == date && job.producedAt == producedAt && job.estimate == estimate
      modifies this`calls, this`job, this`after, this`rows, this`published, ledger
      ensures end.Done? ==> At(Returned)
      ensures end.Caught? ==> At(if budgetDecision && !persistedCreated then RollingBack(end.error) else Handling(end.error))
      ensures persistedCreated <==> job.claim.Charged?
      ensures end.Caught? && !(budgetDecision && !persistedCreated) ==> !job.claim.Held?
      ensures end.Caught? && budgetDecision && !persistedCreated ==> job.claim.Held? || job.claim.Released?
      ensures job == old(job).(stage := job.stage, claim := job.claim)
      ensures end.Done? ==> LastAnswers(id)
      ensures end.Done? && persistedCreated ==> LastIs(id, Payload(id, producedAt, Brief(around.answers(old(calls)).content)))
      ensures Answering(around, old(calls)) ==> end.Done?
    {
      hide Iterate, Unfinished, Answering;
      budgetDecision, persistedCreated := true, false;
      var c := Await();
      if !c.outcome.Succeeds? {
        return Caught(c.error), budgetDecision, persistedCreated;
      }
      var payload, cost := Payload(id, producedAt, Brief(c.content)), c.cost;
      var persisted := PersistResult(payload);
      if persisted.PersistFailed? {
        return Caught(Other), budgetDecision, persistedCreated;
      }
      if persisted.Duplicate? {
        if estimate > 0 {
          var released := ReleaseDuplicate(date, estimate);
          if !released {
            return Caught(Other), budgetDecision, persistedCreated;
          }
        }
        budgetDecision := false;
        var republished := RepublishPersistedResult(id);
        return if republished then Done else Caught(Other), budgetDecision, persistedCreated;
      }
      persistedCreated := true;
      if cost != estimate {
        Settle(date, estimate, payload, cost);
      }
      var ok := Publish(id, payload);
      end := if ok then Done else Caught(Other);
    }

    /** `execute` after resolution. */
    method Execute(id: RequestId, budget: Budget, producedAt: int, estimate: int) returns (normally: bool)
      requires At(Loading) && job.claim.Unclaimed?
      requires job.id == id && job.budget == budget && job.producedAt == producedAt && job.estimate == estimate
      modifies this`calls, this`job, this`after, this`rows, this`published, ledger
      ensures At(if normally then Returned else Threw)
      ensures normally ==> LastAnswers(id)
      ensures Answering(around, old(calls)) ==> normally
    {
      hide Iterate, Unfinished, Answering, AnsweredWith, LastIs, LastAnswers;
      var c := Await();
      if !c.outcome.Succeeds? {
        return false;
      }
      if id in rows {
        normally := Publish(id, rows[id]);
        return;
      }
      var date := DateOf(producedAt);
      var ok, authorized := Authorize(date, budget, estimate);
      if !ok {
        return false;
      }
      if !authorized {
        normally := EmitFailureResult(id, Payload(id, producedAt, Failure("budget_exceeded", "Daily brief budget exceeded", false)));
        return;
      }
      var end, budgetDecision, persistedCreated := TryBlock(id, date, producedAt, estimate);
      if end.Done? {
        return true;
      }
      if budgetDecision && !persistedCreated {
        var rolledBack := Rollback(date, estimate);
        if !rolledBack {
          return false;
        }
      }
      normally := HandleFailure(id, producedAt, end.error, persistedCreated);
    }

    /** The processing of one request message: resolve it, then execute; a request that cannot be resolved
        for good is answered with a failure. It takes the steps of the protocol, up to its final stage. */
    method ProcessSummaryRequest(id: RequestId, budget: Budget, now: int) returns (normally: bool)
      modifies this, ledger
      ensures start == Execution(id, budget, now, 0, false, Unclaimed, Resolving) && first == old(calls)
      ensures At(if normally then Returned else Threw)
      ensures normally ==> LastAnswers(id)
      ensures Answering(around, old(calls)) ==> normally
    {
      hide Answering, AnsweredWith, LastIs, LastAnswers;
      first := calls;
      start := Execution(id, budget, now, 0, false, Unclaimed, Resolving);
      job, after := start, Store(rows, published, ledger.rows, map[], []);
      var c := Await();
      if !c.outcome.Succeeds? {
        if c.error.NonRetryable? {
          normally := EmitFailureResult(id, Payload(id, now, Failure(c.error.code, c.error.message, false)));
          return;
        }
        return false;
      }
      normally := Execute(id, budget, now, EstimateRequestCost(c.topics, c.evidence));
    }
  }

  // ---------------------------------------------------------------- the same steps in a schedule

  predicate Own(i: nat, action: Action) {
    action.Advance? && action.worker == i
  }

  /** How often worker `i` advances. */
  function OwnCount(i: nat, actions: seq<Action>): nat {
    if |actions| == 0 then 0
    else OwnCount(i, actions[..|actions| - 1]) + (if Own(i, actions[|actions| - 1]) then 1 else 0)
  }

  /** `around` is what worker `i` meets in these actions of all workers, in which it does not crash. */
  ghost predicate Meets(log: seq<Message>, w: World, i: nat, actions: seq<Action>, around: Surroundings, from: nat)
    decreases |actions|
  {
    |actions| == 0 ||
    var front, last := actions[..|actions| - 1], actions[|actions| - 1];
    && Meets(log, w, i, front, around, from)
    && last != Crash(i)
    && (Own(i, last) ==>
          && around.shared(from + OwnCount(i, front)) == Run(log, w, front).store
          && around.answers(from + OwnCount(i, front)) == last.choice)
  }

  lemma OwnStep(log: seq<Message>, w: World, i: nat, x: Execution, c: Choice)
    requires i < |w.workers| && w.workers[i].Busy? && w.workers[i].job == Some(x) && !Final(x.stage)
    ensures var w' := Next(log, w, Advance(i, c));
            |w'.workers| == |w.workers| && w'.workers[i] == w.workers[i].(job := Some(ExecutionStep(w.store, x, c).job))
  {
  }

  /** Whatever another worker does leaves this one where it is. */
  lemma OtherStep(log: seq<Message>, w: World, i: nat, action: Action)
    requires i < |w.workers| && w.workers[i].Busy? && !Own(i, action) && action != Crash(i)
    ensures var w' := Next(log, w, action); |w'.workers| == |w.workers| && w'.workers[i] == w.workers[i]
  {
  }

  /** Among any actions of other workers, worker `i` takes exactly the steps of its execution. */
  lemma {:induction false} InterleavedRun(log: seq<Message>, w: World, i: nat, x: Execution, actions: seq<Action>,
                                          around: Surroundings, from: nat)
    requires i < |w.workers| && w.workers[i].Busy? && w.workers[i].job == Some(x)
    requires Meets(log, w, i, actions, around, from) && Unfinished(x, around, from, from + OwnCount(i, actions))
    ensures var w' := Run(log, w, actions);
            && |w'.workers| == |w.workers|
            && w'.workers[i] == w.workers[i].(job := Some(Iterate(x, around, from, from + OwnCount(i, actions))))
    decreases |actions|
  {
    hide ExecutionStep, Next;
    if |actions| != 0 {
      var front, last := actions[..|actions| - 1], actions[|actions| - 1];
      var n := from + OwnCount(i, front);
      InterleavedRun(log, w, i, x, front, around, from);
      if Own(i, last) {
        OwnStep(log, Run(log, w, front), i, Iterate(x, around, from, n), last.choice);
      } else {
        OtherStep(log, Run(log, w, front), i, last);
      }
    }
  }

  // Every such run is met by some surroundings.

  function SharedAt(log: seq<Message>, w: World, i: nat, actions: seq<Action>, n: nat): Store
    decreases |actions|
  {
    if |actions| == 0 then w.store
    else
      var front := actions[..|actions| - 1];
      if Own(i, actions[|actions| - 1]) && OwnCount(i, front) == n then Run(log, w, front).store
      else SharedAt(log, w, i, front, n)
  }

  function AnswerAt(i: nat, actions: seq<Action>, n: nat): Choice
    decreases |actions|
  {
    if |actions| == 0 then Choice(Succeeds, true, 0, Other, 0, 0, false, 0, 0)
    else
      var front, last := actions[..|actions| - 1], actions[|actions| - 1];
      if Own(i, last) && OwnCount(i, front) == n then last.choice else AnswerAt(i, front, n)
  }

  lemma {:induction false} OfPrefix(log: seq<Message>, w: World, i: nat, actions: seq<Action>, k: nat, n: nat)
    requires k <= |actions| && n < OwnCount(i, actions[..k])
    ensures SharedAt(log, w, i, actions, n) == SharedAt(log, w, i, actions[..k], n)
    ensures AnswerAt(i, actions, n) == AnswerAt(i, actions[..k], n)
    ensures OwnCount(i, actions[..k]) <= OwnCount(i, actions)
    decreases |actions|
  {
    hide Run;
    if k == |actions| {
      assert actions[..k] == actions;
    } else {
      var front := actions[..|actions| - 1];
      assert front[..k] == actions[..k];
      OfPrefix(log, w, i, front, k, n);
    }
  }

  function MetIn(log: seq<Message>, w: World, i: nat, actions: seq<Action>): Surroundings {
    Surroundings((n: nat) => SharedAt(log, w, i, actions, n), (n: nat) => AnswerAt(i, actions, n))
  }

  lemma {:induction false} PrefixIsMet(log: seq<Message>, w: World, i: nat, actions: seq<Action>, k: nat)
    requires k <= |actions| && Crash(i) !in actions
    ensures Meets(log, w, i, actions[..k], MetIn(log, w, i, actions), 0)
  {
    hide Run;
    if k > 0 {
      var front, last := actions[..k - 1], actions[k - 1];
      assert actions[..k][..k - 1] == front;
      PrefixIsMet(log, w, i, actions, k - 1);
      if Own(i, last) {
        OfPrefix(log, w, i, actions, k, OwnCount(i, front));
      }
    }
  }

  lemma EveryRunIsMet(log: seq<Message>, w: World, i: nat, actions: seq<Action>)
    requires Crash(i) !in actions
    ensures Meets(log, w, i, actions, MetIn(log, w, i, actions), 0)
  {
    PrefixIsMet(log, w, i, actions, |actions|);
    assert actions[..|actions|] == actions;
  }

  /** After any schedule, and among any actions of other workers, an execution that returns normally has its
      request answered by the stored row, and holds no reservation any more. */
  lemma NormalReturnAnswers(log: seq<Message>, workers: nat, schedule: seq<Action>, actions: seq<Action>, w: World, w': World,
                            i: nat, x: Execution, around: Surroundings, from: nat)
    requires w == Run(log, Initial(workers), schedule) && w' == Run(log, w, actions)
    requires i < |w.workers| && w.workers[i].Busy? && w.workers[i].job == Some(x)
    requires Meets(log, w, i, actions, around, from) && Unfinished(x, around, from, from + OwnCount(i, actions))
    requires Iterate(x, around, from, from + OwnCount(i, actions)).stage.Returned?
    ensures var x' := Iterate(x, around, from, from + OwnCount(i, actions));
            BriefAgreement.Answered(w'.store, x'.id) && !x'.claim.Held?
  {
    hide Iterate, Unfinished, Meets, Run;
    InterleavedRun(log, w, i, x, actions, around, from);
    RunConcat(log, Initial(workers), schedule, actions);
    BriefAgreement.RunConsistent(log, workers, schedule + actions);
    BriefMoney.RunBalanced(log, workers, schedule + actions);
    assert BriefAgreement.WorkerOk(log, w'.store, w'.workers[i]) && BriefMoney.WorkerOk(w'.store, w'.workers[i]);
  }
}
