/** Reservations admitted by the Redis script, and the mirror commands that copy the spend to Postgres
    afterwards, in any order. A mirror's calls interleave freely with those of the others. */
module BudgetMirror {

  datatype Row = Absent | Present(spent: int, requests: nat)

  /** A call fails without effect, or after it took effect. */
  datatype Outcome = Succeeds | FailsBefore | FailsAfter

  /** Where a mirror stands. Its errors are only logged, so a failed call ends it; `tookEffect` is whether its
      create or update was made all the same. */
  datatype Stage =
    | Reading
    | Creating
    | Rereading
    | CreatingLate
    | Writing(latest: int)
    | Done
    | Failed(tookEffect: bool)

  datatype Mirror = Mirror(cached: int, stage: Stage)

  datatype State = State(counter: int, row: Row, mirrors: seq<Mirror>)

  datatype Action =
    | Reserve(amount: nat)
    | Step(mirror: nat, outcome: Outcome)

  function Max(a: int, b: int): int {
    if a >= b then a else b
  }

  /** The Redis script: refuse what would pass the budget, otherwise count it and report the new total. */
  function Reserved(s: State, budget: int, amount: nat): State {
    if s.counter + amount > budget then s
    else s.(counter := s.counter + amount, mirrors := s.mirrors + [Mirror(s.counter + amount, Reading)])
  }

  /** The stage after a create or update that was made. */
  function Made(outcome: Outcome): Stage {
    if outcome.Succeeds? then Done else Failed(true)
  }

  /** One call of a mirror: the row and the stage after it. A create that meets a row fails as a duplicate,
      unless the call fails for another reason. */
  function Call(row: Row, m: Mirror, outcome: Outcome): (Row, Stage) {
    if m.stage.Done? || m.stage.Failed? then (row, m.stage)
    else if outcome.FailsBefore? then (row, Failed(false))
    else
      match m.stage
      case Reading =>
        (row, if outcome.FailsAfter? then Failed(false) else if row.Absent? then Creating else Rereading)
      case Creating =>
        if row.Absent? then (Present(m.cached, 1), Made(outcome))
        else (row, if outcome.FailsAfter? then Failed(false) else Rereading)
      case Rereading =>
        (row, if outcome.FailsAfter? then Failed(false) else if row.Absent? then CreatingLate else Writing(row.spent))
      case CreatingLate => if row.Absent? then (Present(m.cached, 1), Made(outcome)) else (row, Failed(false))
      case Writing(latest) =>
        if row.Absent? then (row, Failed(false)) else (Present(Max(latest, m.cached), row.requests + 1), Made(outcome))
      case Done => (row, Done)
      case Failed(_) => (row, m.stage)
  }

  /** The mirror has made its create or update. */
  predicate TookEffect(m: Mirror) {
    m.stage.Done? || m.stage == Failed(true)
  }

  function Next(s: State, budget: int, action: Action): State {
    match action
    case Reserve(amount) => Reserved(s, budget, amount)
    case Step(i, outcome) =>
      if i < |s.mirrors| then
        var (row, stage) := Call(s.row, s.mirrors[i], outcome);
        s.(row := row, mirrors := s.mirrors[i := s.mirrors[i].(stage := stage)])
      else s
  }

  function Run(start: State, budget: int, schedule: seq<Action>): State
    decreases |schedule|
  {
    if |schedule| == 0 then start
    else Next(Run(start, budget, schedule[..|schedule| - 1]), budget, schedule[|schedule| - 1])
  }

  /** The largest cached total of the mirrors that took effect, on top of what the row showed at the start. */
  function Highest(start: Row, mirrors: seq<Mirror>): int {
    if |mirrors| == 0 then (if start.Present? then start.spent else 0)
    else
      var front, last := Highest(start, mirrors[..|mirrors| - 1]), mirrors[|mirrors| - 1];
      if TookEffect(last) then Max(front, last.cached) else front
  }

  function EffectCount(mirrors: seq<Mirror>): nat {
    if |mirrors| == 0 then 0
    else EffectCount(mirrors[..|mirrors| - 1]) + (if TookEffect(mirrors[|mirrors| - 1]) then 1 else 0)
  }

  function Requests(row: Row): nat {
    if row.Present? then row.requests else 0
  }

  function Spent(row: Row): int {
    if row.Present? then row.spent else 0
  }

  /** Starting points: no mirror under way, and no negative spend in Redis or Postgres. */
  predicate Fresh(start: State) {
    start.mirrors == [] && 0 <= start.counter && 0 <= Spent(start.row)
  }

  // ---------------------------------------------------------------- one reservation

  /** The script admits an amount if and only if the total stays within the budget; then the total grows by it and one
      mirror starts with the new total, and otherwise nothing happens. */
  lemma ReservationIs(s: State, budget: int, amount: nat)
    ensures var s' := Reserved(s, budget, amount);
            if s.counter + amount <= budget
            then s' == State(s.counter + amount, s.row, s.mirrors + [Mirror(s.counter + amount, Reading)])
            else s' == s
  {
  }

  /** Calls of one mirror that succeed, with no other in between. */
  function Alone(row: Row, m: Mirror, calls: nat): (Row, Stage) {
    if calls == 0 then (row, m.stage)
    else
      var (row', stage) := Alone(row, m, calls - 1);
      Call(row', m.(stage := stage), Succeeds)
  }

  /** A mirror that runs alone and succeeds makes the row when there is none, and otherwise raises it to its total if
      that is larger; either way it counts one more request. */
  lemma MirrorAlone(row: Row, cached: int)
    ensures var m := Mirror(cached, Reading);
            match row
            case Absent => Alone(row, m, 2) == (Present(cached, 1), Done)
            case Present(spent, requests) =>
              Alone(row, m, 3) == (Present(if spent >= cached then spent else cached, requests + 1), Done)
  {
    var m := Mirror(cached, Reading);
    assert Alone(row, m, 1) == Call(row, m, Succeeds);
    assert Alone(row, m, 2) == Call(row, m.(stage := Alone(row, m, 1).1), Succeeds);
    assert row.Present? ==> Alone(row, m, 3) == Call(row, m.(stage := Alone(row, m, 2).1), Succeeds);
  }

  /** A call that throws after its effect has made the row it would have, had it returned. */
  lemma EffectIsTaken(row: Row, m: Mirror)
    ensures Call(row, m, FailsAfter).0 == Call(row, m, Succeeds).0
    ensures TookEffect(m.(stage := Call(row, m, Succeeds).1)) <==> TookEffect(m.(stage := Call(row, m, FailsAfter).1))
  {
  }

  // ---------------------------------------------------------------- every run

  /** While the row is absent no mirror has got past the first read; the late create is never reached. */
  predicate MirrorSound(start: State, s: State, m: Mirror) {
    && 0 <= m.cached <= s.counter
    && !m.stage.CreatingLate?
    && (s.row.Absent? ==> m.stage.Reading? || m.stage.Creating? || m.stage.Failed?)
    && (m.stage.Writing? ==> 0 <= m.stage.latest <= Highest(start.row, s.mirrors))
  }

  ghost predicate Sound(start: State, budget: int, s: State) {
    && 0 <= start.counter
    && start.counter <= s.counter <= Max(start.counter, budget)
    && (forall i :: 0 <= i < |s.mirrors| ==> MirrorSound(start, s, s.mirrors[i]))
    && (|s.mirrors| > 0 ==> s.mirrors[|s.mirrors| - 1].cached == s.counter)
    && (|s.mirrors| == 0 ==> s.counter == start.counter)
    && (s.row.Absent? ==> start.row.Absent?)
    && Requests(s.row) == Requests(start.row) + EffectCount(s.mirrors)
    && 0 <= Spent(s.row) <= Highest(start.row, s.mirrors)
  }

  lemma {:induction false} EffectUpdate(start: Row, mirrors: seq<Mirror>, i: nat, stage: Stage)
    requires i < |mirrors| && !TookEffect(mirrors[i])
    ensures var m := mirrors[i].(stage := stage);
            var after := mirrors[i := m];
            && EffectCount(after) == EffectCount(mirrors) + (if TookEffect(m) then 1 else 0)
            && Highest(start, after) == if TookEffect(m) then Max(Highest(start, mirrors), m.cached) else Highest(start, mirrors)
  {
    var last := |mirrors| - 1;
    var after := mirrors[i := mirrors[i].(stage := stage)];
    if i < last {
      assert after[..last] == mirrors[..last][i := mirrors[i].(stage := stage)];
      EffectUpdate(start, mirrors[..last], i, stage);
    } else {
      assert after[..last] == mirrors[..last];
    }
  }

  lemma ReserveSound(start: State, budget: int, s: State, amount: nat)
    requires Sound(start, budget, s)
    ensures Sound(start, budget, Reserved(s, budget, amount))
  {
    var s' := Reserved(s, budget, amount);
    if s' != s {
      assert s'.mirrors[..|s.mirrors|] == s.mirrors;
      forall k | 0 <= k < |s'.mirrors| ensures MirrorSound(start, s', s'.mirrors[k]) {
        if k < |s.mirrors| {
          assert MirrorSound(start, s, s.mirrors[k]);
        }
      }
    }
  }

  lemma CallSound(start: State, budget: int, s: State, i: nat, outcome: Outcome)
    requires Sound(start, budget, s) && i < |s.mirrors| && !s.mirrors[i].stage.Done? && !s.mirrors[i].stage.Failed?
    ensures Sound(start, budget, Next(s, budget, Step(i, outcome)))
  {
    var m, s' := s.mirrors[i], Next(s, budget, Step(i, outcome));
    assert MirrorSound(start, s, m);
    var stage := Call(s.row, m, outcome).1;
    assert s'.mirrors == s.mirrors[i := m.(stage := stage)];
    EffectUpdate(start.row, s.mirrors, i, stage);
    forall k | 0 <= k < |s'.mirrors| ensures MirrorSound(start, s', s'.mirrors[k]) {
      assert MirrorSound(start, s, s.mirrors[k]);
    }
  }

  lemma SoundStep(start: State, budget: int, s: State, action: Action)
    requires Sound(start, budget, s)
    ensures Sound(start, budget, Next(s, budget, action))
  {
    match action
    case Reserve(amount) => ReserveSound(start, budget, s, amount);
    case Step(i, outcome) =>
      if i < |s.mirrors| {
        if s.mirrors[i].stage.Done? || s.mirrors[i].stage.Failed? {
          assert s.mirrors[i := s.mirrors[i].(stage := s.mirrors[i].stage)] == s.mirrors;
        } else {
          CallSound(start, budget, s, i, outcome);
        }
      }
  }

  /** In every run, whatever fails or overlaps: Redis stays within the budget (or where it was), the request
      count grows by one per mirror that took effect, and the row never shows more than the highest mirrored total. */
  lemma {:induction false} RunSound(start: State, budget: int, schedule: seq<Action>)
    requires Fresh(start)
    ensures Sound(start, budget, Run(start, budget, schedule))
    decreases |schedule|
  {
    if |schedule| > 0 {
      RunSound(start, budget, schedule[..|schedule| - 1]);
      SoundStep(start, budget, Run(start, budget, schedule[..|schedule| - 1]), schedule[|schedule| - 1]);
    }
  }

  // ---------------------------------------------------------------- when the maximum survives

  /** A write is made over a re-read that is not behind what the row has become since, or covers it anyway. */
  predicate Covers(s: State, action: Action) {
    action.Step? && !action.outcome.FailsBefore? && action.mirror < |s.mirrors| && s.mirrors[action.mirror].stage.Writing? ==>
      Spent(s.row) <= Max(s.mirrors[action.mirror].stage.latest, s.mirrors[action.mirror].cached)
  }

  predicate AllCover(start: State, budget: int, schedule: seq<Action>)
    decreases |schedule|
  {
    |schedule| == 0 ||
    var front := schedule[..|schedule| - 1];
    AllCover(start, budget, front) && Covers(Run(start, budget, front), schedule[|schedule| - 1])
  }

  /** The row shows the maximum of its start and all mirrors that took effect. */
  predicate Exact(start: State, s: State) {
    Spent(s.row) == Highest(start.row, s.mirrors)
  }

  predicate AlwaysExact(start: State, budget: int, schedule: seq<Action>)
    decreases |schedule|
  {
    && Exact(start, Run(start, budget, schedule))
    && (|schedule| == 0 || AlwaysExact(start, budget, schedule[..|schedule| - 1]))
  }

  lemma ExactStep(start: State, budget: int, s: State, action: Action)
    requires Sound(start, budget, s) && Exact(start, s)
    ensures Exact(start, Next(s, budget, action)) <==> Covers(s, action)
  {
    var s' := Next(s, budget, action);
    match action
    case Reserve(amount) =>
      if s' != s {
        assert s'.mirrors[..|s.mirrors|] == s.mirrors;
      }
    case Step(i, _) =>
      if i < |s.mirrors| && !s.mirrors[i].stage.Done? && !s.mirrors[i].stage.Failed? {
        EffectUpdate(start.row, s.mirrors, i, s'.mirrors[i].stage);
      } else {
        assert s'.mirrors == s.mirrors;
      }
  }

  /** Mirror confluence, exactly: the row shows the maximum throughout a run if and only if no write was
      made over a re-read that another mirror had outdated with a larger total. */
  lemma {:induction false} Confluence(start: State, budget: int, schedule: seq<Action>)
    requires Fresh(start)
    ensures AlwaysExact(start, budget, schedule) <==> AllCover(start, budget, schedule)
    decreases |schedule|
  {
    if |schedule| > 0 {
      var front := schedule[..|schedule| - 1];
      Confluence(start, budget, front);
      RunSound(start, budget, front);
      if AlwaysExact(start, budget, front) {
        ExactStep(start, budget, Run(start, budget, front), schedule[|schedule| - 1]);
      }
    }
  }

  lemma {:induction false} HighestIsCounter(start: Row, mirrors: seq<Mirror>, counter: int)
    requires forall i :: 0 <= i < |mirrors| ==> TookEffect(mirrors[i]) && mirrors[i].cached <= counter
    ensures Highest(start, mirrors) <= Max(Spent(start), counter)
    ensures Spent(start) <= Highest(start, mirrors)
    ensures |mirrors| > 0 ==> mirrors[|mirrors| - 1].cached <= Highest(start, mirrors)
  {
    if |mirrors| > 0 {
      HighestIsCounter(start, mirrors[..|mirrors| - 1], counter);
    }
  }

  /** Every mirror has taken effect. */
  predicate Drained(s: State) {
    forall i :: 0 <= i < |s.mirrors| ==> TookEffect(s.mirrors[i])
  }

  /** What a drained row shows: the Redis counter, unless it showed more, or nothing was reserved. */
  function DrainedSpendOf(start: State, s: State): int {
    if |s.mirrors| == 0 then Spent(start.row) else Max(Spent(start.row), s.counter)
  }

  lemma DrainedState(start: State, budget: int, s: State)
    requires Fresh(start) && Sound(start, budget, s) && Exact(start, s) && Drained(s)
    ensures Spent(s.row) == DrainedSpendOf(start, s)
    ensures Requests(s.row) == Requests(start.row) + |s.mirrors| && s.counter <= Max(start.counter, budget)
  {
    forall i | 0 <= i < |s.mirrors| ensures s.mirrors[i].cached <= s.counter {
      assert MirrorSound(start, s, s.mirrors[i]);
    }
    HighestIsCounter(start.row, s.mirrors, s.counter);
    AllDone(s.mirrors);
  }

  /** Once every mirror of such a run has taken effect, Postgres shows the larger of its start and the Redis
      counter, and one more request per admitted reservation. */
  lemma DrainedSpend(start: State, budget: int, schedule: seq<Action>)
    requires Fresh(start) && AllCover(start, budget, schedule)
    requires Drained(Run(start, budget, schedule))
    ensures var s := Run(start, budget, schedule);
            && Spent(s.row) == DrainedSpendOf(start, s)
            && Requests(s.row) == Requests(start.row) + |s.mirrors|
            && s.counter <= Max(start.counter, budget)
  {
    RunSound(start, budget, schedule);
    Confluence(start, budget, schedule);
    DrainedState(start, budget, Run(start, budget, schedule));
  }

  lemma {:induction false} AllDone(mirrors: seq<Mirror>)
    requires forall i :: 0 <= i < |mirrors| ==> TookEffect(mirrors[i])
    ensures EffectCount(mirrors) == |mirrors|
  {
    if |mirrors| > 0 {
      AllDone(mirrors[..|mirrors| - 1]);
    }
  }

  // ---------------------------------------------------------------- the re-read and the write as one step

  /** A mirror that has re-read the row is the next to move. */
  ghost predicate Uninterrupted(s: State, action: Action) {
    forall i :: 0 <= i < |s.mirrors| && s.mirrors[i].stage.Writing? ==> action.Step? && action.mirror == i
  }

  /** Re-read and write are one step throughout, while earlier reads and creates race. */
  ghost predicate Atomic(start: State, budget: int, schedule: seq<Action>)
    decreases |schedule|
  {
    |schedule| == 0 ||
    var front := schedule[..|schedule| - 1];
    Atomic(start, budget, front) && Uninterrupted(Run(start, budget, front), schedule[|schedule| - 1])
  }

  /** What was re-read is what the row still shows. */
  ghost predicate UpToDate(s: State) {
    forall i :: 0 <= i < |s.mirrors| && s.mirrors[i].stage.Writing? ==> s.mirrors[i].stage.latest == Spent(s.row)
  }

  lemma UninterruptedStep(s: State, budget: int, action: Action)
    requires UpToDate(s) && Uninterrupted(s, action)
    ensures Covers(s, action) && UpToDate(Next(s, budget, action))
  {
  }

  lemma {:induction false} AtomicCovers(start: State, budget: int, schedule: seq<Action>)
    requires Fresh(start) && Atomic(start, budget, schedule)
    ensures AllCover(start, budget, schedule) && UpToDate(Run(start, budget, schedule))
    decreases |schedule|
  {
    if |schedule| > 0 {
      var front := schedule[..|schedule| - 1];
      AtomicCovers(start, budget, front);
      UninterruptedStep(Run(start, budget, front), budget, schedule[|schedule| - 1]);
    }
  }

  /** Mirror confluence: with the re-read and the write as one step, every completion order shows the maximum
      of the start and all mirrors that took effect throughout, and once all have the larger of the start and
      the Redis counter, with one more request per admitted reservation. */
  lemma AtomicConfluence(start: State, budget: int, schedule: seq<Action>)
    requires Fresh(start) && Atomic(start, budget, schedule)
    ensures AlwaysExact(start, budget, schedule)
    ensures var s := Run(start, budget, schedule);
            Drained(s) ==>
              && Spent(s.row) == DrainedSpendOf(start, s)
              && Requests(s.row) == Requests(start.row) + |s.mirrors|
              && s.counter <= Max(start.counter, budget)
  {
    AtomicCovers(start, budget, schedule);
    Confluence(start, budget, schedule);
    if Drained(Run(start, budget, schedule)) {
      DrainedSpend(start, budget, schedule);
    }
  }

  // ---------------------------------------------------------------- a lost update

  const RACE_START := State(0, Present(0, 0), [])

  /** Two reservations of 30 and 20; both mirrors re-read, the later one writes 50, the earlier one 30. */
  const RACE := [Reserve(30), Reserve(20), Step(0, Succeeds), Step(1, Succeeds), Step(0, Succeeds), Step(1, Succeeds),
                 Step(1, Succeeds), Step(0, Succeeds)]

  lemma {:induction false} RunPrefix(start: State, budget: int, a: seq<Action>, action: Action)
    ensures Run(start, budget, a + [action]) == Next(Run(start, budget, a), budget, action)
  {
    assert (a + [action])[..|a|] == a;
  }

  /** Two more actions of the race. */
  lemma RaceOn(n: nat, s: State)
    requires n + 2 <= |RACE| && Run(RACE_START, 100, RACE[..n]) == s
    ensures Run(RACE_START, 100, RACE[..n + 2]) == Next(Next(s, 100, RACE[n]), 100, RACE[n + 1])
  {
    hide Next;
    RunPrefix(RACE_START, 100, RACE[..n], RACE[n]);
    RunPrefix(RACE_START, 100, RACE[..n + 1], RACE[n + 1]);
    assert RACE[..n] + [RACE[n]] == RACE[..n + 1] && RACE[..n + 1] + [RACE[n + 1]] == RACE[..n + 2];
  }

  /** With the re-read and the write apart, the row can end below the Redis counter although every mirror
      is done. */
  lemma LostUpdate()
    ensures var s := Run(RACE_START, 100, RACE);
            s.counter == 50 && s.row == Present(30, 2) && s.mirrors == [Mirror(30, Done), Mirror(50, Done)]
  {
    assert Run(RACE_START, 100, []) == RACE_START && RACE[..0] == [] && RACE[..8] == RACE;
    hide Run;
    RaceOn(0, RACE_START);
    RaceOn(2, State(50, Present(0, 0), [Mirror(30, Reading), Mirror(50, Reading)]));
    RaceOn(4, State(50, Present(0, 0), [Mirror(30, Rereading), Mirror(50, Rereading)]));
    RaceOn(6, State(50, Present(0, 0), [Mirror(30, Writing(0)), Mirror(50, Writing(0))]));
  }
}
