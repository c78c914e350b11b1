/** The persister as a step system: several consumers (one active, others stale or restarted) read one
    partition of raw events, write Postgres rows per source, mark the events as seen in Redis, and only
    then acknowledge and commit. Every foreign call succeeds, fails without effect or fails after taking
    effect, and a consumer may crash between any two steps. */
module Persister {
  import opened PersistBatch
  import CB = CircuitBreaker

  datatype Option<+T> = None | Some(value: T)

  datatype Outcome = Succeeds | FailsBefore | FailsAfter

  /** A message of the partition: an event, or one that is empty or does not decode. */
  type Log = seq<Option<Event>>

  datatype Stage =
    | Gate
    | Writing(pending: seq<seq<Event>>)
    | Marking(next: nat, failed: bool)
    | Acknowledging(position: nat)
    | Committing

  datatype Consumer =
    | Idle(next: nat)
    | Busy(lo: nat, hi: nat, stage: Stage)

  /** A consumer process: its position and its own circuit breaker, read through its history. */
  datatype Process = Process(consumer: Consumer, breaker: seq<CB.Event>)

  datatype World = World(
    rows: Table,
    seen: set<(Source, EventId)>,
    processes: seq<Process>,
    acknowledged: set<nat>,
    committed: nat)

  datatype Choice = Choice(outcome: Outcome, active: bool, now: nat)

  datatype Action =
    | Poll(process: nat, fromCommitted: bool, count: nat)
    | Advance(process: nat, choice: Choice)
    | AutoCommit(process: nat)
    | Crash(process: nat)

  function Initial(processes: nat): World {
    World(map[], {}, seq(processes, _ => Process(Idle(0), [])), {}, 0)
  }

  /** The decodable events of a stretch of the partition. */
  function Events(log: Log, lo: nat, hi: nat): (r: seq<Event>)
    decreases hi
  {
    if hi <= lo then []
    else
      var front := Events(log, lo, hi - 1);
      if hi - 1 < |log| && log[hi - 1].Some? then front + [log[hi - 1].value] else front
  }

  /** What a step of one batch does: to the store, to the breaker, and to where the consumer stands. */
  datatype Step = Step(rows: Table, seen: set<(Source, EventId)>, process: Process)

  function BatchStep(log: Log, s: CB.Settings, w: World, p: Process, c: Choice): Step
    requires p.consumer.Busy?
  {
    var lo, hi, stage := p.consumer.lo, p.consumer.hi, p.consumer.stage;
    var events := Events(log, lo, hi);
    match stage
    case Gate =>
      if !c.active then Step(w.rows, w.seen, p.(consumer := Idle(lo)))
      else
        var breaker := p.breaker + [CB.Probe(c.now)];
        // an open circuit pauses the partition; a batch that goes stale while messages are collected is dropped
        if c.now < CB.OpenUntil(s, p.breaker) || !c.outcome.Succeeds? then
          Step(w.rows, w.seen, Process(Idle(lo), breaker))
        else
          Step(w.rows, w.seen, Process(Busy(lo, hi, if |events| == 0 then Acknowledging(lo)
                                                     else Writing(GroupBySource(events))), breaker))
    case Writing(pending) =>
      if |pending| == 0 then Step(w.rows, w.seen, p.(consumer := Busy(lo, hi, Marking(0, false))))
      else
        var rows := if c.outcome.FailsBefore? then w.rows else InsertAll(w.rows, pending[0]);
        if c.outcome.Succeeds? then Step(rows, w.seen, p.(consumer := Busy(lo, hi, Writing(pending[1..]))))
        else Step(rows, w.seen, Process(Idle(lo), p.breaker + [CB.Failure(c.now)]))
    case Marking(next, failed) =>
      if next < |events| then
        var seen := if c.outcome.FailsBefore? then w.seen else w.seen + {(events[next].source, events[next].id)};
        Step(w.rows, seen, p.(consumer := Busy(lo, hi, Marking(next + 1, failed || !c.outcome.Succeeds?))))
      else
        // Postgres took the batch either way, so the breaker records a success
        Step(w.rows, w.seen, Process(if failed || !c.outcome.Succeeds? then Idle(lo) else Busy(lo, hi, Acknowledging(lo)),
                                     p.breaker + [CB.Success]))
    case Acknowledging(position) =>
      Step(w.rows, w.seen, p.(consumer := Busy(lo, hi, if position < hi then Acknowledging(position + 1) else Committing)))
    case Committing =>
      Step(w.rows, w.seen, p.(consumer := Idle(hi)))
  }

  function Next(log: Log, s: CB.Settings, w: World, action: Action): World {
    var i := action.process;
    if i >= |w.processes| then w
    else
      var p := w.processes[i];
      match action
      case Poll(_, fromCommitted, count) =>
        if p.consumer.Idle? then
          var lo := if fromCommitted then w.committed else p.consumer.next;
          if lo + count <= |log| then w.(processes := w.processes[i := p.(consumer := Busy(lo, lo + count, Gate))]) else w
        else w
      case Advance(_, c) =>
        if p.consumer.Busy? then
          var step := BatchStep(log, s, w, p, c);
          var stage := p.consumer.stage;
          w.(rows := step.rows, seen := step.seen,
             processes := w.processes[i := step.process],
             acknowledged := if stage.Acknowledging? && stage.position < p.consumer.hi
                             then w.acknowledged + {stage.position} else w.acknowledged,
             committed := if stage.Committing? && !c.outcome.FailsBefore? then p.consumer.hi else w.committed)
        else w
      case AutoCommit(_) =>
        if p.consumer.Busy? && p.consumer.stage.Acknowledging? then w.(committed := p.consumer.stage.position)
        else w
      case Crash(_) => w.(processes := w.processes[i := Process(Idle(w.committed), [])])
  }

  /** The state after a schedule: any interleaving, failures, redeliveries and crashes. */
  function Run(log: Log, s: CB.Settings, w: World, schedule: seq<Action>): World
    decreases |schedule|
  {
    if |schedule| == 0 then w
    else Next(log, s, Run(log, s, w, schedule[..|schedule| - 1]), schedule[|schedule| - 1])
  }

  // ---------------------------------------------------------------- durable before commit

  /** The event has its one row and its seen mark. */
  predicate Durable(rows: Table, seen: set<(Source, EventId)>, event: Event) {
    event.id in rows && (event.source, event.id) in seen
  }

  ghost predicate DurableBelow(log: Log, w: World, position: nat) {
    forall p: nat :: p < position && p < |log| && log[p].Some? ==> Durable(w.rows, w.seen, log[p].value)
  }

  ghost predicate InRows(rows: Table, events: seq<Event>) {
    forall e :: e in events ==> e.id in rows
  }

  ghost predicate StageOk(log: Log, w: World, consumer: Consumer)
    requires consumer.Busy?
  {
    var events := Events(log, consumer.lo, consumer.hi);
    match consumer.stage
    case Gate => true
    case Writing(pending) => forall e :: e in events ==> e.id in w.rows || (exists g :: 0 <= g < |pending| && e in pending[g])
    case Marking(next, failed) =>
      && InRows(w.rows, events) && next <= |events|
      && (!failed ==> forall k :: 0 <= k < next ==> (events[k].source, events[k].id) in w.seen)
    case Acknowledging(position) =>
      consumer.lo <= position <= consumer.hi && DurableBelow(log, w, consumer.hi)
    case Committing => DurableBelow(log, w, consumer.hi)
  }

  ghost predicate ProcessOk(log: Log, w: World, p: Process) {
    match p.consumer
    case Idle(next) => DurableBelow(log, w, next)
    case Busy(lo, hi, _) => lo <= hi && DurableBelow(log, w, lo) && StageOk(log, w, p.consumer)
  }

  ghost predicate Consistent(log: Log, w: World) {
    && (forall id :: id in w.rows ==> w.rows[id].id == id)
    && (forall i :: 0 <= i < |w.processes| ==> ProcessOk(log, w, w.processes[i]))
    && (forall p :: p in w.acknowledged ==> p < |log| && (log[p].Some? ==> Durable(w.rows, w.seen, log[p].value)))
    && DurableBelow(log, w, w.committed)
  }

  /** Rows are never rewritten and marks never removed. */
  predicate Grows(w: World, w': World) {
    && (forall id :: id in w.rows ==> id in w'.rows && w'.rows[id] == w.rows[id])
    && w.seen <= w'.seen
  }

  lemma {:induction false} EventsAre(log: Log, lo: nat, hi: nat)
    requires lo <= hi <= |log|
    ensures forall e :: e in Events(log, lo, hi) <==> exists p :: lo <= p < hi && log[p] == Some(e)
    decreases hi
  {
    if lo < hi {
      EventsAre(log, lo, hi - 1);
    }
  }

  lemma ProcessStaysOk(log: Log, w: World, w': World, p: Process)
    requires Grows(w, w') && ProcessOk(log, w, p)
    ensures ProcessOk(log, w', p)
  {
  }

  /** A step of process `i` that lets the store grow and leaves that process in order. */
  lemma ReplacedConsistent(log: Log, w: World, w': World, i: nat)
    requires Consistent(log, w) && i < |w.processes| == |w'.processes|
    requires w'.processes == w.processes[i := w'.processes[i]]
    requires forall id :: id in w'.rows ==> w'.rows[id].id == id
    requires Grows(w, w') && ProcessOk(log, w', w'.processes[i])
    requires forall p :: p in w'.acknowledged ==>
               p in w.acknowledged || (p < |log| && (log[p].Some? ==> Durable(w'.rows, w'.seen, log[p].value)))
    requires DurableBelow(log, w', w'.committed)
    ensures Consistent(log, w')
  {
    forall j | 0 <= j < |w'.processes| ensures ProcessOk(log, w', w'.processes[j]) {
      if j != i {
        ProcessStaysOk(log, w, w', w.processes[j]);
      }
    }
  }

  /** What an advanced process may do to the store, and that it stays in order. */
  ghost predicate BatchStepOk(log: Log, w: World, w': World, i: nat) {
    && i < |w.processes| == |w'.processes|
    && Grows(w, w') && (forall id :: id in w'.rows ==> w'.rows[id].id == id)
    && ProcessOk(log, w', w'.processes[i])
  }

  ghost predicate Ready(log: Log, w: World, i: nat) {
    Consistent(log, w) && i < |w.processes| && w.processes[i].consumer.Busy? && w.processes[i].consumer.hi <= |log|
  }

  lemma GateOk(log: Log, s: CB.Settings, w: World, i: nat, c: Choice)
    requires Ready(log, w, i) && w.processes[i].consumer.stage.Gate?
    ensures BatchStepOk(log, w, Next(log, s, w, Advance(i, c)), i)
  {
    var b := w.processes[i].consumer;
    assert ProcessOk(log, w, w.processes[i]);
    var events := Events(log, b.lo, b.hi);
    GroupsPartition(events);
    EventsAre(log, b.lo, b.hi);
    assert forall p: nat :: b.lo <= p < b.hi && log[p].Some? ==> log[p].value in events;
  }

  lemma WritingOk(log: Log, s: CB.Settings, w: World, i: nat, c: Choice)
    requires Ready(log, w, i) && w.processes[i].consumer.stage.Writing?
    ensures BatchStepOk(log, w, Next(log, s, w, Advance(i, c)), i)
    ensures |w.processes[i].consumer.stage.pending| > 0 && !c.outcome.Succeeds? ==>
              var b, w' := w.processes[i].consumer, Next(log, s, w, Advance(i, c));
              && w'.processes[i].consumer == Idle(b.lo) && w'.acknowledged == w.acknowledged && w'.committed == w.committed
              && w'.processes[i].breaker == w.processes[i].breaker + [CB.Failure(c.now)]
              && (forall p: nat :: p < b.lo && log[p].Some? ==> Durable(w'.rows, w'.seen, log[p].value))
  {
    var b := w.processes[i].consumer;
    assert ProcessOk(log, w, w.processes[i]);
    var pending, events := b.stage.pending, Events(log, b.lo, b.hi);
    var w' := Next(log, s, w, Advance(i, c));
    if |pending| > 0 {
      InsertAllContents(w.rows, pending[0]);
      forall e | e in events && c.outcome.Succeeds?
        ensures e.id in w'.rows || (exists g :: 0 <= g < |pending[1..]| && e in pending[1..][g])
      {
        if e.id !in w.rows {
          var g :| 0 <= g < |pending| && e in pending[g];
          if g > 0 {
            assert e in pending[1..][g - 1];
          } else {
            assert e.id in Ids(pending[0]);
          }
        }
      }
    }
  }

  lemma MarkingOk(log: Log, s: CB.Settings, w: World, i: nat, c: Choice)
    requires Ready(log, w, i) && w.processes[i].consumer.stage.Marking?
    ensures BatchStepOk(log, w, Next(log, s, w, Advance(i, c)), i)
  {
    var b := w.processes[i].consumer;
    assert ProcessOk(log, w, w.processes[i]);
    var events := Events(log, b.lo, b.hi);
    EventsAre(log, b.lo, b.hi);
    if b.stage.next >= |events| && !b.stage.failed {
      forall p: nat | p < b.hi && p < |log| && log[p].Some? ensures Durable(w.rows, w.seen, log[p].value) {
        if p >= b.lo {
          var k :| 0 <= k < |events| && events[k] == log[p].value;
        }
      }
    }
  }

  lemma FinishingOk(log: Log, s: CB.Settings, w: World, i: nat, c: Choice)
    requires Ready(log, w, i) && (w.processes[i].consumer.stage.Acknowledging? || w.processes[i].consumer.stage.Committing?)
    ensures BatchStepOk(log, w, Next(log, s, w, Advance(i, c)), i)
  {
    assert ProcessOk(log, w, w.processes[i]);
  }

  ghost predicate WithinLog(log: Log, w: World) {
    && w.committed <= |log|
    && (forall i :: 0 <= i < |w.processes| ==>
          var b := w.processes[i].consumer;
          if b.Idle? then b.next <= |log|
          else b.lo <= b.hi <= |log| && (b.stage.Acknowledging? ==> b.stage.position <= b.hi))
  }

  lemma AdvanceConsistent(log: Log, s: CB.Settings, w: World, i: nat, c: Choice)
    requires Ready(log, w, i)
    ensures Consistent(log, Next(log, s, w, Advance(i, c)))
  {
    var w' := Next(log, s, w, Advance(i, c));
    var stage := w.processes[i].consumer.stage;
    assert ProcessOk(log, w, w.processes[i]);
    if stage.Gate? {
      GateOk(log, s, w, i, c);
    } else if stage.Writing? {
      WritingOk(log, s, w, i, c);
    } else if stage.Marking? {
      MarkingOk(log, s, w, i, c);
    } else {
      FinishingOk(log, s, w, i, c);
    }
    ReplacedConsistent(log, w, w', i);
  }

  lemma NextConsistent(log: Log, s: CB.Settings, w: World, action: Action)
    requires Consistent(log, w) && WithinLog(log, w)
    ensures Consistent(log, Next(log, s, w, action))
  {
    var i := action.process;
    if i < |w.processes| {
      assert ProcessOk(log, w, w.processes[i]);
      if action.Advance? && w.processes[i].consumer.Busy? {
        AdvanceConsistent(log, s, w, i, action.choice);
      } else {
        var w' := Next(log, s, w, action);
        ReplacedConsistent(log, w, w', i);
      }
    }
  }

  lemma NextWithinLog(log: Log, s: CB.Settings, w: World, action: Action)
    requires WithinLog(log, w)
    ensures WithinLog(log, Next(log, s, w, action))
  {
  }

  lemma {:induction false} RunConsistent(log: Log, s: CB.Settings, processes: nat, schedule: seq<Action>)
    ensures Consistent(log, Run(log, s, Initial(processes), schedule))
    ensures WithinLog(log, Run(log, s, Initial(processes), schedule))
    decreases |schedule|
  {
    if |schedule| != 0 {
      var front := schedule[..|schedule| - 1];
      RunConsistent(log, s, processes, front);
      var w := Run(log, s, Initial(processes), front);
      NextConsistent(log, s, w, schedule[|schedule| - 1]);
      NextWithinLog(log, s, w, schedule[|schedule| - 1]);
    }
  }

  /** Durable before commit: a message that was acknowledged, or lies below the committed offset, carries
      no event or an event with its one row and its seen mark. */
  lemma DurableBeforeCommit(log: Log, s: CB.Settings, processes: nat, schedule: seq<Action>, position: nat)
    requires position < |log| && log[position].Some?
    requires var w := Run(log, s, Initial(processes), schedule);
             position in w.acknowledged || position < w.committed
    ensures var w := Run(log, s, Initial(processes), schedule);
            var event := log[position].value;
            event.id in w.rows && w.rows[event.id].id == event.id && (event.source, event.id) in w.seen
  {
    RunConsistent(log, s, processes, schedule);
    assert Durable(Run(log, s, Initial(processes), schedule).rows, Run(log, s, Initial(processes), schedule).seen,
                   log[position].value);
  }

  /** While an opening of its breaker runs, a batch that a process starts ends at the gate: nothing is
      written, marked, acknowledged or committed, and the process goes back to where it began. */
  lemma OpenBreakerBlocksBatch(log: Log, s: CB.Settings, w: World, i: nat, c: Choice,
                               before: seq<CB.Event>, at: nat, probes: seq<CB.Event>)
    requires i < |w.processes| && w.processes[i].consumer.Busy? && w.processes[i].consumer.stage.Gate?
    requires w.processes[i].breaker == before + [CB.Failure(at)] + probes
    requires CB.Opens(s, before + [CB.Failure(at)]) && c.now < at + s.openMs
    requires forall k :: 0 <= k < |probes| ==> probes[k].Probe? && probes[k].at <= c.now
    ensures var w' := Next(log, s, w, Advance(i, c));
            && w' == w.(processes := w'.processes)
            && w'.processes == w.processes[i := w'.processes[i]]
            && w'.processes[i].consumer == Idle(w.processes[i].consumer.lo)
  {
    CB.StaysOpenWhileItRuns(s, before, at, probes, c.now);
  }
}
