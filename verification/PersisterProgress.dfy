/** What the persister achieves when nothing fails: a batch is written, marked, acknowledged and committed whole. */
module PersisterProgress {
  import opened PersistBatch
  import opened Persister
  import CB = CircuitBreaker

  lemma {:induction false} RunConcat(log: Log, s: CB.Settings, w: World, a: seq<Action>, b: seq<Action>)
    ensures Run(log, s, w, a + b) == Run(log, s, Run(log, s, w, a), b)
    decreases |b|
  {
    hide Next;
    if |b| == 0 {
      assert a + b == a;
    } else {
      assert (a + b)[..|a + b| - 1] == a + b[..|b| - 1];
      RunConcat(log, s, w, a, b[..|b| - 1]);
    }
  }

  /** Process `i` goes on by itself. */
  function Advances(i: nat, calls: seq<Choice>): seq<Action> {
    seq(|calls|, k requires 0 <= k < |calls| => Advance(i, calls[k]))
  }

  predicate AllSucceed(calls: seq<Choice>) {
    forall k :: 0 <= k < |calls| ==> calls[k].outcome.Succeeds? && calls[k].active
  }

  lemma SplitRun(log: Log, s: CB.Settings, w: World, i: nat, calls: seq<Choice>, n: nat)
    requires n <= |calls|
    ensures Run(log, s, w, Advances(i, calls))
         == Run(log, s, Run(log, s, w, Advances(i, calls[..n])), Advances(i, calls[n..]))
  {
    assert Advances(i, calls) == Advances(i, calls[..n]) + Advances(i, calls[n..]);
    RunConcat(log, s, w, Advances(i, calls[..n]), Advances(i, calls[n..]));
  }

  lemma LastStep(log: Log, s: CB.Settings, w: World, i: nat, calls: seq<Choice>)
    requires |calls| > 0
    ensures var n := |calls| - 1;
            Run(log, s, w, Advances(i, calls)) == Next(log, s, Run(log, s, w, Advances(i, calls[..n])), Advance(i, calls[n]))
  {
    hide Next;
    assert Advances(i, calls)[..|calls| - 1] == Advances(i, calls[..|calls| - 1]);
  }

  ghost predicate BusyAt(w: World, i: nat, lo: nat, hi: nat, stage: Stage) {
    i < |w.processes| && w.processes[i].consumer == Busy(lo, hi, stage)
  }

  function With(w: World, i: nat, consumer: Consumer): World
    requires i < |w.processes|
  {
    w.(processes := w.processes[i := w.processes[i].(consumer := consumer)])
  }

  function Recorded(w: World, i: nat, event: CB.Event): World
    requires i < |w.processes|
  {
    w.(processes := w.processes[i := w.processes[i].(breaker := w.processes[i].breaker + [event])])
  }

  /** An idle process takes up the log where it stands, or where the group committed. */
  lemma PolledIs(log: Log, s: CB.Settings, w: World, i: nat, fromCommitted: bool, count: nat)
    requires i < |w.processes| && w.processes[i].consumer.Idle?
    ensures var lo := if fromCommitted then w.committed else w.processes[i].consumer.next;
            lo + count <= |log| ==>
              Next(log, s, w, Poll(i, fromCommitted, count)) == With(w, i, Busy(lo, lo + count, Gate))
  {
  }

  /** An active batch passes the gate if and only if no opening of the breaker runs; with events its groups are
      written next, without any its messages are acknowledged at once. */
  lemma GateDecides(log: Log, s: CB.Settings, w: World, i: nat, lo: nat, hi: nat, c: Choice)
    requires BusyAt(w, i, lo, hi, Gate) && c.active && c.outcome.Succeeds?
    ensures var w', events := Next(log, s, w, Advance(i, c)), Events(log, lo, hi);
            w' == if c.now < CB.OpenUntil(s, w.processes[i].breaker) then Recorded(With(w, i, Idle(lo)), i, CB.Probe(c.now))
                  else if |events| == 0 then Recorded(With(w, i, Busy(lo, hi, Acknowledging(lo))), i, CB.Probe(c.now))
                  else Recorded(With(w, i, Busy(lo, hi, Writing(GroupBySource(events)))), i, CB.Probe(c.now))
  {
  }

  /** The ids of the first `n` groups. */
  function GroupIds(groups: seq<seq<Event>>, n: nat): set<EventId>
    requires n <= |groups|
  {
    set g, e | 0 <= g < n && e in groups[g] :: e.id
  }

  lemma OneGroupMore(groups: seq<seq<Event>>, n: nat)
    requires n < |groups|
    ensures GroupIds(groups, n + 1) == GroupIds(groups, n) + Ids(groups[n])
  {
  }

  /** The rows hold these ids besides the old ones, whose rows are as they were. */
  predicate RowsAdded(rows: Table, rows': Table, ids: set<EventId>) {
    rows'.Keys == rows.Keys + ids && forall id :: id in rows ==> rows'[id] == rows[id]
  }

  lemma OneGroup(log: Log, s: CB.Settings, w: World, i: nat, lo: nat, hi: nat, pending: seq<seq<Event>>, c: Choice)
    requires BusyAt(w, i, lo, hi, Writing(pending)) && |pending| > 0 && c.outcome.Succeeds?
    ensures var w' := Next(log, s, w, Advance(i, c));
            && w' == With(w, i, Busy(lo, hi, Writing(pending[1..]))).(rows := w'.rows)
            && RowsAdded(w.rows, w'.rows, Ids(pending[0]))
  {
    InsertAllContents(w.rows, pending[0]);
  }

  lemma {:induction false} GroupsAreWritten(log: Log, s: CB.Settings, w: World, i: nat, lo: nat, hi: nat,
                                            groups: seq<seq<Event>>, calls: seq<Choice>)
    requires BusyAt(w, i, lo, hi, Writing(groups)) && AllSucceed(calls) && |calls| <= |groups|
    ensures var v := Run(log, s, w, Advances(i, calls));
            && v == With(w, i, Busy(lo, hi, Writing(groups[|calls|..]))).(rows := v.rows)
            && RowsAdded(w.rows, v.rows, GroupIds(groups, |calls|))
    decreases |calls|
  {
    hide Next, Ids;
    if |calls| == 0 {
      assert groups[0..] == groups;
      assert w == With(w, i, Busy(lo, hi, Writing(groups)));
    } else {
      var n := |calls| - 1;
      GroupsAreWritten(log, s, w, i, lo, hi, groups, calls[..n]);
      LastStep(log, s, w, i, calls);
      OneGroup(log, s, Run(log, s, w, Advances(i, calls[..n])), i, lo, hi, groups[n..], calls[n]);
      OneGroupMore(groups, n);
      assert groups[n..][1..] == groups[n + 1..];
    }
  }

  function Marks(events: seq<Event>, n: nat): set<(Source, EventId)>
    requires n <= |events|
  {
    set k | 0 <= k < n :: (events[k].source, events[k].id)
  }

  lemma {:induction false} EventsAreMarked(log: Log, s: CB.Settings, w: World, i: nat, lo: nat, hi: nat, calls: seq<Choice>)
    requires BusyAt(w, i, lo, hi, Marking(0, false)) && AllSucceed(calls) && |calls| <= |Events(log, lo, hi)|
    ensures Run(log, s, w, Advances(i, calls))
         == With(w, i, Busy(lo, hi, Marking(|calls|, false))).(seen := w.seen + Marks(Events(log, lo, hi), |calls|))
    decreases |calls|
  {
    var events := Events(log, lo, hi);
    if |calls| == 0 {
      assert Marks(events, 0) == {};
      assert w == With(w, i, Busy(lo, hi, Marking(0, false)));
    } else {
      var n := |calls| - 1;
      EventsAreMarked(log, s, w, i, lo, hi, calls[..n]);
      LastStep(log, s, w, i, calls);
      assert Marks(events, n + 1) == Marks(events, n) + {(events[n].source, events[n].id)};
    }
  }

  /** After the marks the breaker records a success, whatever became of them; the batch is acknowledged if and only
      if none failed. */
  lemma MarkingDecides(log: Log, s: CB.Settings, w: World, i: nat, lo: nat, hi: nat, next: nat, failed: bool, c: Choice)
    requires BusyAt(w, i, lo, hi, Marking(next, failed)) && next >= |Events(log, lo, hi)|
    ensures Next(log, s, w, Advance(i, c))
         == Recorded(With(w, i, if failed || !c.outcome.Succeeds? then Idle(lo) else Busy(lo, hi, Acknowledging(lo))), i, CB.Success)
  {
  }

  /** The positions of a batch. */
  function Positions(lo: nat, hi: nat): (r: set<nat>)
    ensures forall p :: p in r <==> lo <= p < hi
    decreases hi
  {
    if hi <= lo then {} else Positions(lo, hi - 1) + {hi - 1}
  }

  lemma OneAcknowledged(log: Log, s: CB.Settings, w: World, i: nat, lo: nat, hi: nat, position: nat, c: Choice)
    requires BusyAt(w, i, lo, hi, Acknowledging(position)) && position <= hi
    ensures Next(log, s, w, Advance(i, c))
         == if position < hi
            then With(w, i, Busy(lo, hi, Acknowledging(position + 1))).(acknowledged := w.acknowledged + {position})
            else With(w, i, Busy(lo, hi, Committing))
  {
  }

  lemma Committed(log: Log, s: CB.Settings, w: World, i: nat, lo: nat, hi: nat, c: Choice)
    requires BusyAt(w, i, lo, hi, Committing) && c.outcome.Succeeds?
    ensures Next(log, s, w, Advance(i, c)) == With(w, i, Idle(hi)).(committed := hi)
  {
  }

  lemma {:induction false} MessagesAreAcknowledged(log: Log, s: CB.Settings, w: World, i: nat, lo: nat, hi: nat, calls: seq<Choice>)
    requires BusyAt(w, i, lo, hi, Acknowledging(lo)) && AllSucceed(calls) && |calls| <= hi - lo
    ensures Run(log, s, w, Advances(i, calls))
         == With(w, i, Busy(lo, hi, Acknowledging(lo + |calls|)))
              .(acknowledged := w.acknowledged + Positions(lo, lo + |calls|))
    decreases |calls|
  {
    hide Next;
    if |calls| == 0 {
      assert w == With(w, i, Busy(lo, hi, Acknowledging(lo)));
      assert w.acknowledged + {} == w.acknowledged;
    } else {
      var n := |calls| - 1;
      MessagesAreAcknowledged(log, s, w, i, lo, hi, calls[..n]);
      LastStep(log, s, w, i, calls);
      OneAcknowledged(log, s, Run(log, s, w, Advances(i, calls[..n])), i, lo, hi, lo + n, calls[n]);
      assert w.acknowledged + Positions(lo, lo + n) + {lo + n} == w.acknowledged + (Positions(lo, lo + n) + {lo + n});
    }
  }

  /** From the first acknowledgement to the commit. */
  lemma BatchIsFinished(log: Log, s: CB.Settings, w: World, i: nat, lo: nat, hi: nat, calls: seq<Choice>)
    requires lo <= hi && BusyAt(w, i, lo, hi, Acknowledging(lo)) && AllSucceed(calls) && |calls| == hi - lo + 2
    ensures Run(log, s, w, Advances(i, calls))
         == With(w, i, Idle(hi)).(acknowledged := w.acknowledged + Positions(lo, hi), committed := hi)
  {
    hide Next;
    var n := hi - lo;
    MessagesAreAcknowledged(log, s, w, i, lo, hi, calls[..n]);
    assert calls[..n + 1][..n] == calls[..n];
    LastStep(log, s, w, i, calls[..n + 1]);
    LastStep(log, s, w, i, calls);
    OneAcknowledged(log, s, Run(log, s, w, Advances(i, calls[..n])), i, lo, hi, hi, calls[n]);
    Committed(log, s, Run(log, s, w, Advances(i, calls[..n + 1])), i, lo, hi, calls[n + 1]);
  }

  /** From the first insert to the success that the breaker records. */
  lemma BatchIsStored(log: Log, s: CB.Settings, w: World, i: nat, lo: nat, hi: nat, calls: seq<Choice>)
    requires var events := Events(log, lo, hi);
             && BusyAt(w, i, lo, hi, Writing(GroupBySource(events))) && AllSucceed(calls)
             && |calls| == |GroupBySource(events)| + |events| + 2
    ensures var events, v := Events(log, lo, hi), Run(log, s, w, Advances(i, calls));
            && v == Recorded(With(w, i, Busy(lo, hi, Acknowledging(lo))), i, CB.Success)
                      .(rows := v.rows, seen := w.seen + Marks(events, |events|))
            && RowsAdded(w.rows, v.rows, Ids(events))
  {
    var events := Events(log, lo, hi);
    var groups := GroupBySource(events);
    var n, m := |groups|, |groups| + 1 + |events|;
    hide Next, GroupBySource, Events;
    SplitRun(log, s, w, i, calls, n);
    GroupsAreWritten(log, s, w, i, lo, hi, groups, calls[..n]);
    var w1 := Run(log, s, w, Advances(i, calls[..n]));
    assert groups[n..] == [];
    IdsOfGroups(events);
    StartsMarking(log, s, w1, i, lo, hi, calls[n..]);
    SplitRun(log, s, w1, i, calls[n..], 1);
    var w2 := Run(log, s, w1, Advances(i, calls[n..][..1]));
    var rest := calls[n..][1..];
    EventsAreMarked(log, s, w2, i, lo, hi, rest[..|events|]);
    var w3 := Run(log, s, w2, Advances(i, rest[..|events|]));
    LastStep(log, s, w2, i, rest);
    assert rest[..|rest| - 1] == rest[..|events|];
    MarkingDecides(log, s, w3, i, lo, hi, |events|, false, rest[|events|]);
  }

  lemma StartsMarking(log: Log, s: CB.Settings, w: World, i: nat, lo: nat, hi: nat, calls: seq<Choice>)
    requires BusyAt(w, i, lo, hi, Writing([])) && |calls| > 0
    ensures Run(log, s, w, Advances(i, calls[..1])) == With(w, i, Busy(lo, hi, Marking(0, false)))
  {
    LastStep(log, s, w, i, calls[..1]);
    assert calls[..1][..0] == [];
  }

  /** The groups of a batch carry the ids of its events. */
  lemma IdsOfGroups(events: seq<Event>)
    ensures var groups := GroupBySource(events); GroupIds(groups, |groups|) == Ids(events)
  {
    var groups: seq<seq<Event>> := GroupBySource(events);
    GroupsPartition(events);
    forall g, e | 0 <= g < |groups| && e in groups[g] ensures e in events {
      InOfSource(events, groups[g][0].source);
    }
    forall id | id in Ids(events) ensures id in GroupIds(groups, |groups|) {
      var e :| e in events && e.id == id;
      var g :| 0 <= g < |groups| && e in groups[g];
    }
  }

  /** How many calls a batch takes: the gate, one per group and one more, one per event and one more if there are
      events, one per message, and two to end. */
  function BatchCalls(log: Log, lo: nat, hi: nat): nat
    requires lo <= hi
  {
    var events := Events(log, lo, hi);
    1 + (if |events| == 0 then 0 else |GroupBySource(events)| + |events| + 2) + (hi - lo + 2)
  }

  /** An active batch that finds the breaker closed, and all of whose calls succeed, is done to its end: every event
      has its row and its seen mark, every position is acknowledged, and the end of the batch is committed. Nothing
      else is stored or marked, rows stored before stay, and the breaker has recorded the probe and, if there were
      events, one success. */
  lemma BatchIsPersisted(log: Log, s: CB.Settings, w: World, i: nat, lo: nat, hi: nat, calls: seq<Choice>)
    requires lo <= hi <= |log| && BusyAt(w, i, lo, hi, Gate) && AllSucceed(calls) && |calls| == BatchCalls(log, lo, hi)
    requires calls[0].now >= CB.OpenUntil(s, w.processes[i].breaker)
    ensures var events, v := Events(log, lo, hi), Run(log, s, w, Advances(i, calls));
            && v.processes == w.processes[i := Process(Idle(hi), w.processes[i].breaker + [CB.Probe(calls[0].now)]
                                                                 + if |events| == 0 then [] else [CB.Success])]
            && RowsAdded(w.rows, v.rows, Ids(events)) && v.seen == w.seen + Marks(events, |events|)
            && v.acknowledged == w.acknowledged + Positions(lo, hi) && v.committed == hi
  {
    var events := Events(log, lo, hi);
    hide Next, GroupBySource, Events, Positions;
    SplitRun(log, s, w, i, calls, 1);
    LastStep(log, s, w, i, calls[..1]);
    assert calls[..1][..0] == [];
    GateDecides(log, s, w, i, lo, hi, calls[0]);
    var w1 := Run(log, s, w, Advances(i, calls[..1]));
    var rest := calls[1..];
    if |events| == 0 {
      BatchIsFinished(log, s, w1, i, lo, hi, rest);
      var breaker := w.processes[i].breaker + [CB.Probe(calls[0].now)];
      assert breaker + [] == breaker;
    } else {
      var n := |GroupBySource(events)| + |events| + 2;
      SplitRun(log, s, w1, i, rest, n);
      BatchIsStored(log, s, w1, i, lo, hi, rest[..n]);
      BatchIsFinished(log, s, Run(log, s, w1, Advances(i, rest[..n])), i, lo, hi, rest[n..]);
    }
  }

  /** After such a batch every event of it has its row and its seen mark, and nothing else was stored or marked. */
  lemma BatchIsDurable(log: Log, s: CB.Settings, w: World, i: nat, lo: nat, hi: nat, calls: seq<Choice>)
    requires lo <= hi <= |log| && BusyAt(w, i, lo, hi, Gate) && AllSucceed(calls) && |calls| == BatchCalls(log, lo, hi)
    requires calls[0].now >= CB.OpenUntil(s, w.processes[i].breaker)
    ensures var v := Run(log, s, w, Advances(i, calls));
            && (forall p :: lo <= p < hi && log[p].Some? ==> Durable(v.rows, v.seen, log[p].value) && p in v.acknowledged)
            && (forall id :: id in v.rows ==> id in w.rows || exists p :: lo <= p < hi && log[p].Some? && log[p].value.id == id)
            && (forall k :: k in v.seen ==>
                  k in w.seen || exists p :: lo <= p < hi && log[p].Some? && (log[p].value.source, log[p].value.id) == k)
  {
    var events, v := Events(log, lo, hi), Run(log, s, w, Advances(i, calls));
    hide Run, Events, AllSucceed;
    BatchIsPersisted(log, s, w, i, lo, hi, calls);
    EventsAre(log, lo, hi);
    forall p | lo <= p < hi && log[p].Some? ensures Durable(v.rows, v.seen, log[p].value) {
      assert log[p].value in events && log[p].value.id in Ids(events);
      var k :| 0 <= k < |events| && events[k] == log[p].value;
      assert (events[k].source, events[k].id) in Marks(events, |events|);
    }
  }

  /** A call that throws after its effect has stored or marked what it would have, had it returned. */
  lemma EffectIsTaken(log: Log, s: CB.Settings, w: World, i: nat, c: Choice)
    ensures var v, v' := Next(log, s, w, Advance(i, c.(outcome := Succeeds))), Next(log, s, w, Advance(i, c.(outcome := FailsAfter)));
            v.rows == v'.rows && v.seen == v'.seen && v.committed == v'.committed
  {
  }

  /** A crash sends the process back to the committed offset with a fresh breaker; while it acknowledges, a commit of
      its own takes its position over. */
  lemma DisturbancesAre(log: Log, s: CB.Settings, w: World, i: nat)
    requires i < |w.processes|
    ensures Next(log, s, w, Crash(i)) == w.(processes := w.processes[i := Process(Idle(w.committed), [])])
    ensures var b := w.processes[i].consumer;
            b.Busy? && b.stage.Acknowledging? ==> Next(log, s, w, AutoCommit(i)) == w.(committed := b.stage.position)
  {
  }
}
