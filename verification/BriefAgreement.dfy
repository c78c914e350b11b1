/** Agreement and no lost request, over every schedule of the brief protocol. */
module BriefAgreement {
  import opened BriefProtocol

  /** What is published for a request is its stored row. */
  ghost predicate Agreed(s: Store) {
    && (forall id :: id in s.rows ==> s.rows[id].requestId == id)
    && (forall p :: p in s.published ==> p.id in s.rows && s.rows[p.id] == p.payload)
  }

  predicate Answered(s: Store, id: RequestId) {
    id in s.rows && Publication(id, s.rows[id]) in s.published
  }

  /** A message that may be acknowledged: nothing to answer, or its stored result is published. */
  predicate Settled(s: Store, message: Message) {
    message.Request? ==> Answered(s, message.id)
  }

  ghost predicate SettledBelow(log: seq<Message>, s: Store, position: nat) {
    forall p: nat :: p < position && p < |log| ==> Settled(s, log[p])
  }

  ghost predicate StageOk(s: Store, x: Execution) {
    match x.stage
    case Announcing(payload, _) => x.id in s.rows && s.rows[x.id] == payload
    case Reloading(_) => x.id in s.rows
    case Unreserving => x.id in s.rows
    case Settling(payload, _) => x.id in s.rows && s.rows[x.id] == payload
    case Persisting(payload, _) => payload.requestId == x.id
    case Emitting(payload) => payload.requestId == x.id
    case Returned => Answered(s, x.id)
    case _ => true
  }

  ghost predicate WorkerOk(log: seq<Message>, s: Store, worker: Worker) {
    match worker
    case Idle(next) => SettledBelow(log, s, next)
    case Busy(lo, cur, hi, job) =>
      && lo <= cur
      && SettledBelow(log, s, cur)
      && (job.Some? ==>
            && cur < hi && cur < |log| && log[cur].Request? && log[cur].id == job.value.id
            && StageOk(s, job.value))
  }

  ghost predicate Consistent(log: seq<Message>, w: World) {
    && Agreed(w.store)
    && (forall k :: 0 <= k < |w.workers| ==> WorkerOk(log, w.store, w.workers[k]))
    && (forall p :: p in w.acknowledged ==> p < |log| && Settled(w.store, log[p]))
    && SettledBelow(log, w.store, w.committed)
  }

  /** Rows and publications only grow; a stored row is never rewritten. */
  predicate Grows(s: Store, s': Store) {
    && (forall id :: id in s.rows ==> id in s'.rows && s'.rows[id] == s.rows[id])
    && (forall p :: p in s.published ==> p in s'.published)
  }

  lemma SettledGrows(log: seq<Message>, s: Store, s': Store, position: nat)
    requires Grows(s, s') && SettledBelow(log, s, position)
    ensures SettledBelow(log, s', position)
  {
    forall p: nat | p < position && p < |log| ensures Settled(s', log[p]) {
      assert Settled(s, log[p]);
    }
  }

  lemma WorkerStaysOk(log: seq<Message>, s: Store, s': Store, worker: Worker)
    requires Grows(s, s') && WorkerOk(log, s, worker)
    ensures WorkerOk(log, s', worker)
  {
    SettledGrows(log, s, s', if worker.Idle? then worker.next else worker.cur);
  }

  /** A step that only lets the store grow and replaces worker `i` by one that is in order. */
  lemma ReplacedConsistent(log: seq<Message>, w: World, w': World, i: nat)
    requires Consistent(log, w) && i < |w.workers| == |w'.workers|
    requires w'.workers == w.workers[i := w'.workers[i]]
    requires Agreed(w'.store) && Grows(w.store, w'.store)
    requires WorkerOk(log, w'.store, w'.workers[i])
    requires forall p :: p in w'.acknowledged ==> p in w.acknowledged || (p < |log| && Settled(w'.store, log[p]))
    requires SettledBelow(log, w'.store, w'.committed)
    ensures Consistent(log, w')
  {
    forall k | 0 <= k < |w'.workers| ensures WorkerOk(log, w'.store, w'.workers[k]) {
      if k != i {
        WorkerStaysOk(log, w.store, w'.store, w.workers[k]);
      }
    }
    forall p | p in w'.acknowledged ensures p < |log| && Settled(w'.store, log[p]) {
      if p in w.acknowledged {
        assert Settled(w.store, log[p]);
      }
    }
  }

  /** What one step of execution `x` may do: move on, insert its own row, or publish its stored row. */
  predicate StepEffect(s: Store, x: Execution, step: Step) {
    && step.job.id == x.id
    && (|| (step.store.rows == s.rows && step.store.published == s.published)
        || (&& step.store.published == s.published
            && x.id !in s.rows && x.id in step.store.rows && step.store.rows[x.id].requestId == x.id
            && step.store.rows == s.rows[x.id := step.store.rows[x.id]])
        || (&& step.store.rows == s.rows && x.id in s.rows
            && step.store.published == s.published + [Publication(x.id, s.rows[x.id])]))
  }

  ghost predicate Moves(s: Store, x: Execution, step: Step) {
    StepEffect(s, x, step) && StageOk(step.store, step.job)
  }

  lemma BudgetStagesMove(s: Store, x: Execution, c: Choice)
    requires StageOk(s, x)
    requires x.stage.Upserting? || x.stage.Reserving? || x.stage.Settling?
    ensures Moves(s, x, ExecutionStep(s, x, c))
  {
    var s' := ExecutionStep(s, x, c).store;
    assert s'.rows == s.rows && s'.published == s.published;
  }

  lemma ReleaseStagesMove(s: Store, x: Execution, c: Choice)
    requires StageOk(s, x)
    requires x.stage.Unreserving? || x.stage.RollingBack?
    ensures Moves(s, x, ExecutionStep(s, x, c))
  {
    var s' := ExecutionStep(s, x, c).store;
    assert s'.rows == s.rows && s'.published == s.published;
  }

  lemma RowStagesMove(s: Store, x: Execution, c: Choice)
    requires StageOk(s, x)
    requires x.stage.Persisting? || x.stage.Emitting?
    ensures Moves(s, x, ExecutionStep(s, x, c))
  {
  }

  lemma OtherStagesMove(s: Store, x: Execution, c: Choice)
    requires StageOk(s, x)
    requires x.stage.Resolving? || x.stage.Loading? || x.stage.Generating? || x.stage.Reloading?
             || x.stage.Handling? || x.stage.Announcing? || x.stage.Returned? || x.stage.Threw?
    ensures Moves(s, x, ExecutionStep(s, x, c))
  {
  }

  lemma ExecutionStepMoves(s: Store, x: Execution, c: Choice)
    requires StageOk(s, x)
    ensures Moves(s, x, ExecutionStep(s, x, c))
  {
    if x.stage.Upserting? || x.stage.Reserving? || x.stage.Settling? {
      BudgetStagesMove(s, x, c);
    } else if x.stage.Unreserving? || x.stage.RollingBack? {
      ReleaseStagesMove(s, x, c);
    } else if x.stage.Persisting? || x.stage.Emitting? {
      RowStagesMove(s, x, c);
    } else {
      OtherStagesMove(s, x, c);
    }
  }

  lemma StepGrows(s: Store, x: Execution, step: Step)
    requires Agreed(s) && StepEffect(s, x, step)
    ensures Agreed(step.store) && Grows(s, step.store)
  {
  }

  lemma LeftConsistent(log: seq<Message>, w: World, i: nat, worker: Worker)
    requires Consistent(log, w) && i < |w.workers| && WorkerOk(log, w.store, worker)
    ensures Consistent(log, Left(w, i, worker)) && Grows(w.store, Left(w, i, worker).store)
  {
    var w' := Left(w, i, worker);
    WorkerStaysOk(log, w.store, w'.store, worker);
    SettledGrows(log, w.store, w'.store, w.committed);
    ReplacedConsistent(log, w, w', i);
  }

  lemma AcknowledgedConsistent(log: seq<Message>, w: World, i: nat)
    requires Consistent(log, w)
    requires i < |w.workers| && w.workers[i].Busy? && w.workers[i].cur < |log|
    requires Settled(w.store, log[w.workers[i].cur])
    ensures Consistent(log, Acknowledged(w, i)) && Grows(w.store, Acknowledged(w, i).store)
  {
    var b := w.workers[i];
    assert WorkerOk(log, w.store, b);
    LeftConsistent(log, w.(acknowledged := w.acknowledged + {b.cur}), i, b.(cur := b.cur + 1, job := None));
  }

  lemma BatchStepConsistent(log: seq<Message>, w: World, i: nat, c: Choice)
    requires Consistent(log, w)
    requires i < |w.workers| && w.workers[i].Busy? && w.workers[i].job.None?
    ensures Consistent(log, BatchStep(log, w, i, c)) && Grows(w.store, BatchStep(log, w, i, c).store)
  {
    var b := w.workers[i];
    assert WorkerOk(log, w.store, b);
    if c.active && b.cur < b.hi && b.cur < |log| && !log[b.cur].Request? {
      AcknowledgedConsistent(log, w, i);
    } else {
      ReplacedConsistent(log, w, BatchStep(log, w, i, c), i);
    }
  }

  lemma AdvanceConsistent(log: seq<Message>, w: World, i: nat, c: Choice)
    requires Consistent(log, w) && i < |w.workers| && w.workers[i].Busy?
    ensures Consistent(log, AdvanceStep(log, w, i, c)) && Grows(w.store, AdvanceStep(log, w, i, c).store)
  {
    var b := w.workers[i];
    assert WorkerOk(log, w.store, b);
    match b.job
    case None => BatchStepConsistent(log, w, i, c);
    case Some(x) =>
      if x.stage.Returned? {
        AcknowledgedConsistent(log, w, i);
      } else if x.stage.Threw? {
        LeftConsistent(log, w, i, Idle(b.cur));
      } else {
        ExecutionStepMoves(w.store, x, c);
        var step := ExecutionStep(w.store, x, c);
        StepGrows(w.store, x, step);
        SettledGrows(log, w.store, step.store, b.cur);
        SettledGrows(log, w.store, step.store, w.committed);
        ReplacedConsistent(log, w, AdvanceStep(log, w, i, c), i);
      }
  }

  lemma StepConsistent(log: seq<Message>, w: World, action: Action)
    requires Consistent(log, w)
    ensures Consistent(log, Next(log, w, action)) && Grows(w.store, Next(log, w, action).store)
  {
    if !action.Mirror? && action.worker < |w.workers| {
      var i := action.worker;
      assert WorkerOk(log, w.store, w.workers[i]);
      if action.Advance? && w.workers[i].Busy? {
        AdvanceConsistent(log, w, i, action.choice);
      } else if action.Crash? {
        LeftConsistent(log, w, i, Idle(w.committed));
      } else {
        ReplacedConsistent(log, w, Next(log, w, action), i);
      }
    } else if action.Mirror? {
      var w' := Next(log, w, action);
      SettledGrows(log, w.store, w'.store, w.committed);
      forall k | 0 <= k < |w'.workers| ensures WorkerOk(log, w'.store, w'.workers[k]) {
        WorkerStaysOk(log, w.store, w'.store, w.workers[k]);
      }
    }
  }

  lemma {:induction false} RunConsistent(log: seq<Message>, workers: nat, schedule: seq<Action>)
    ensures Consistent(log, Run(log, Initial(workers), schedule))
    decreases |schedule|
  {
    if |schedule| != 0 {
      var front := schedule[..|schedule| - 1];
      RunConsistent(log, workers, front);
      StepConsistent(log, Run(log, Initial(workers), front), schedule[|schedule| - 1]);
    }
  }

  /** Agreement: whatever is ever published for a request equals its one stored row, so two
      publications for the same request are equal, and nothing is published before a row exists. */
  lemma Agreement(log: seq<Message>, workers: nat, schedule: seq<Action>, w: World)
    requires w == Run(log, Initial(workers), schedule)
    ensures forall p, q :: p in w.store.published && q in w.store.published && p.id == q.id ==>
              && p.payload == q.payload && p.payload.requestId == p.id
              && p.id in w.store.rows && w.store.rows[p.id] == p.payload
  {
    RunConsistent(log, workers, schedule);
  }

  /** A stored row survives every continuation of the schedule unchanged. */
  lemma {:induction false} RowsAreFinal(log: seq<Message>, workers: nat, schedule: seq<Action>, more: seq<Action>)
    ensures Grows(Run(log, Initial(workers), schedule).store, Run(log, Initial(workers), schedule + more).store)
    decreases |more|
  {
    if |more| == 0 {
      assert schedule + more == schedule;
    } else {
      var front := more[..|more| - 1];
      var all := schedule + more;
      assert all[..|all| - 1] == schedule + front;
      RowsAreFinal(log, workers, schedule, front);
      RunConsistent(log, workers, schedule + front);
      StepConsistent(log, Run(log, Initial(workers), schedule + front), all[|all| - 1]);
    }
  }

  /** No lost request: an acknowledged message, and every message below the committed offset, was
      empty, undecodable, or has its stored result published. */
  lemma NoLostRequest(log: seq<Message>, workers: nat, schedule: seq<Action>, w: World, position: nat)
    requires w == Run(log, Initial(workers), schedule)
    requires position < |log| && (position in w.acknowledged || position < w.committed)
    ensures log[position] == Empty || log[position] == Undecodable
            || (log[position].Request? && Answered(w.store, log[position].id))
  {
    RunConsistent(log, workers, schedule);
    assert Settled(w.store, log[position]);
  }

  // ---------------------------------------------------------------- acknowledged by a normal return

  /** Everything below a worker's position and below the committed offset has been acknowledged. */
  ghost predicate AcknowledgedBelow(log: seq<Message>, w: World, position: nat) {
    forall p: nat :: p < position && p < |log| ==> p in w.acknowledged
  }

  ghost predicate PositionsAcknowledged(log: seq<Message>, w: World) {
    && AcknowledgedBelow(log, w, w.committed)
    && forall k :: 0 <= k < |w.workers| ==>
         AcknowledgedBelow(log, w, if w.workers[k].Idle? then w.workers[k].next else w.workers[k].cur)
  }

  /** A worker is about to acknowledge this position because its execution of the request there has returned. */
  ghost predicate ReturnedAt(log: seq<Message>, w: World, position: nat) {
    exists i: nat :: i < |w.workers| && w.workers[i].Busy? && w.workers[i].cur == position && w.workers[i].job.Some?
                     && w.workers[i].job.value.stage.Returned? && position < |log|
                     && log[position].Request? && log[position].id == w.workers[i].job.value.id
  }

  lemma NextAcknowledges(log: seq<Message>, w: World, action: Action)
    requires Consistent(log, w) && PositionsAcknowledged(log, w)
    ensures var w' := Next(log, w, action);
            && PositionsAcknowledged(log, w') && w.acknowledged <= w'.acknowledged
            && forall p :: p in w'.acknowledged && p !in w.acknowledged && p < |log| && log[p].Request? ==> ReturnedAt(log, w, p)
  {
    hide ExecutionStep;
    var w' := Next(log, w, action);
    if !action.Mirror? && action.worker < |w.workers| {
      var b := w.workers[action.worker];
      assert WorkerOk(log, w.store, b);
      forall k | 0 <= k < |w'.workers|
        ensures AcknowledgedBelow(log, w', if w'.workers[k].Idle? then w'.workers[k].next else w'.workers[k].cur)
      {
        assert AcknowledgedBelow(log, w, if w.workers[k].Idle? then w.workers[k].next else w.workers[k].cur);
      }
    }
  }

  lemma {:induction false} RunAcknowledges(log: seq<Message>, workers: nat, schedule: seq<Action>)
    ensures PositionsAcknowledged(log, Run(log, Initial(workers), schedule))
    decreases |schedule|
  {
    if |schedule| != 0 {
      var front := schedule[..|schedule| - 1];
      RunAcknowledges(log, workers, front);
      RunConsistent(log, workers, front);
      NextAcknowledges(log, Run(log, Initial(workers), front), schedule[|schedule| - 1]);
    }
  }

  /** A request at an acknowledged position, or below the committed offset, was answered by an execution that
      returned normally: at some earlier point of the schedule a worker was about to acknowledge it for that. */
  lemma {:induction false} AcknowledgedByReturn(log: seq<Message>, workers: nat, schedule: seq<Action>, w: World, position: nat)
      returns (k: nat)
    requires w == Run(log, Initial(workers), schedule)
    requires position < |log| && log[position].Request? && (position in w.acknowledged || position < w.committed)
    ensures k < |schedule| && ReturnedAt(log, Run(log, Initial(workers), schedule[..k]), position)
    decreases |schedule|
  {
    RunAcknowledges(log, workers, schedule);
    var front := schedule[..|schedule| - 1];
    var before := Run(log, Initial(workers), front);
    RunAcknowledges(log, workers, front);
    RunConsistent(log, workers, front);
    NextAcknowledges(log, before, schedule[|schedule| - 1]);
    if position in before.acknowledged {
      k := AcknowledgedByReturn(log, workers, front, before, position);
      assert front[..k] == schedule[..k];
    } else {
      k := |front|;
    }
  }

  /** The branch that reports a missing row after a duplicate insert is never taken. */
  lemma DuplicateRowIsFound(log: seq<Message>, workers: nat, schedule: seq<Action>, w: World, i: nat, x: Execution)
    requires w == Run(log, Initial(workers), schedule)
    requires i < |w.workers| && w.workers[i].Busy? && w.workers[i].job == Some(x) && x.stage.Reloading?
    ensures x.id in w.store.rows
  {
    RunConsistent(log, workers, schedule);
    assert WorkerOk(log, w.store, w.workers[i]);
  }
}
