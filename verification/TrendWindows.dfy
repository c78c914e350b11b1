/** The trend windows in Redis: one atomic script per event updates dedup sets, per-bucket counters,
    story sets and evidence, for every configured window and every topic of the event. */
module TrendWindows {
  import opened Evidence

  datatype Window = M15 | M60

  const QUARTER := 900_000
  const HOUR := 3_600_000

  function Millis(window: Window): int {
    if window.M15? then QUARTER else HOUR
  }

  function BucketStart(at: int, window: Window): int {
    at / Millis(window) * Millis(window)
  }

  /** An event after preparation; `url` is empty when the event has none. Clocks are epoch milliseconds. */
  datatype Event = Event(
    id: string,
    fetchedAt: int,
    publishedAt: Published,
    url: string,
    engagement: int,
    feedPriority: int,
    topics: seq<string>)

  datatype Published = Unknown | At(ms: int)

  datatype Config = Config(windows: seq<Window>, maxEvidence: nat, maxAge: int)

  /** `Math.round(engagement * priority / 50)`: the nearest integer, halves up. */
  function EngagementScore(e: Event): int {
    (e.engagement * e.feedPriority + 25) / 50
  }

  function VolumeWeight(e: Event): int {
    var rounded := (e.feedPriority + 25) / 50;
    if rounded < 1 then 1 else rounded
  }

  predicate FreshEnough(e: Event, maxAge: int) {
    e.publishedAt.At? ==> e.fetchedAt - e.publishedAt.ms <= 0 || e.fetchedAt - e.publishedAt.ms <= maxAge
  }

  /** The event reaches the script. */
  predicate Tracked(e: Event, cfg: Config) {
    |e.topics| > 0 && FreshEnough(e, cfg.maxAge) && |cfg.windows| > 0
  }

  /** The longest configured window. */
  function DedupWindow(windows: seq<Window>): Window {
    if M60 in windows then M60 else M15
  }

  /** A window's bucket of a topic: the key of its counter and of its story set. */
  datatype Slot = Slot(window: Window, topic: string, bucket: int)

  datatype Redis = Redis(
    dedup: map<(Window, int), set<string>>,
    counters: map<Slot, int>,
    stories: map<Slot, set<string>>,
    evidence: map<(Window, string), ZSet>)
  {
    function Count(slot: Slot): int {
      if slot in counters then counters[slot] else 0
    }

    function Stories(slot: Slot): set<string> {
      if slot in stories then stories[slot] else {}
    }

    function EvidenceOf(window: Window, topic: string): ZSet {
      if (window, topic) in evidence then evidence[(window, topic)] else []
    }

    function Deduped(key: (Window, int)): set<string> {
      if key in dedup then dedup[key] else {}
    }
  }

  const EMPTY := Redis(map[], map[], map[], map[])

  // ---------------------------------------------------------------- the script

  function TopicPlans(e: Event, window: Window, topics: seq<string>): seq<Slot> {
    if |topics| == 0 then []
    else TopicPlans(e, window, topics[..|topics| - 1])
         + [Slot(window, topics[|topics| - 1], BucketStart(e.fetchedAt, window))]
  }

  /** One plan per window and topic. */
  function Plans(e: Event, windows: seq<Window>): seq<Slot> {
    if |windows| == 0 then []
    else Plans(e, windows[..|windows| - 1]) + TopicPlans(e, windows[|windows| - 1], e.topics)
  }

  /** One round of the script's loop. */
  function ApplyPlan(r: Redis, e: Event, slot: Slot, maxEvidence: nat): Redis {
    var isNew := e.url == "" || e.url !in r.Stories(slot);
    r.(stories := if e.url == "" then r.stories else r.stories[slot := r.Stories(slot) + {e.url}],
       counters := if isNew then r.counters[slot := r.Count(slot) + VolumeWeight(e)] else r.counters,
       evidence := r.evidence[(slot.window, slot.topic) :=
         AddTrim(r.EvidenceOf(slot.window, slot.topic), Entry(EngagementScore(e), e.id), maxEvidence)])
  }

  function ApplyPlans(r: Redis, e: Event, plans: seq<Slot>, maxEvidence: nat): Redis {
    if |plans| == 0 then r
    else ApplyPlan(ApplyPlans(r, e, plans[..|plans| - 1], maxEvidence), e, plans[|plans| - 1], maxEvidence)
  }

  function DedupKey(e: Event, cfg: Config): (Window, int) {
    var window := DedupWindow(cfg.windows);
    (window, BucketStart(e.fetchedAt, window))
  }

  function Remembered(r: Redis, key: (Window, int), id: string): Redis {
    r.(dedup := r.dedup[key := r.Deduped(key) + {id}])
  }

  /** What consuming one event does to Redis. */
  function Consume(r: Redis, e: Event, cfg: Config): Redis {
    var key := DedupKey(e, cfg);
    if !Tracked(e, cfg) || e.id in r.Deduped(key) then r
    else ApplyPlans(Remembered(r, key, e.id), e, Plans(e, cfg.windows), cfg.maxEvidence)
  }

  function Run(trace: seq<Event>, cfg: Config): Redis {
    if |trace| == 0 then EMPTY
    else Consume(Run(trace[..|trace| - 1], cfg), trace[|trace| - 1], cfg)
  }

  /** The consumer's side of the script: plans are built window by window and executed in one call. */
  class WindowStore {
    var redis: Redis

    constructor ()
      ensures redis == EMPTY
    {
      redis := EMPTY;
    }

    method OnMessage(e: Event, cfg: Config) returns (duplicate: bool)
      modifies this
      ensures redis == Consume(old(redis), e, cfg)
      ensures duplicate <==> Tracked(e, cfg) && e.id in old(redis).Deduped(DedupKey(e, cfg))
    {
      if |e.topics| == 0 || !FreshEnough(e, cfg.maxAge) || |cfg.windows| == 0 {
        return false;
      }
      var plans := [];
      for i := 0 to |cfg.windows|
        invariant plans == Plans(e, cfg.windows[..i])
      {
        var window := cfg.windows[i];
        ghost var before := plans;
        var bucket := BucketStart(e.fetchedAt, window);
        for j := 0 to |e.topics|
          invariant plans == before + TopicPlans(e, window, e.topics[..j])
        {
          assert e.topics[..j + 1][..j] == e.topics[..j];
          plans := plans + [Slot(window, e.topics[j], bucket)];
        }
        assert e.topics[..|e.topics|] == e.topics;
        assert cfg.windows[..i + 1][..i] == cfg.windows[..i];
      }
      assert cfg.windows[..|cfg.windows|] == cfg.windows;
      duplicate := Execute(e, DedupKey(e, cfg), plans, cfg.maxEvidence);
    }

    /** The Lua script. */
    method Execute(e: Event, dedupKey: (Window, int), plans: seq<Slot>, maxEvidence: nat) returns (duplicate: bool)
      modifies this
      ensures duplicate <==> e.id in old(redis).Deduped(dedupKey)
      ensures redis == if duplicate then old(redis) else ApplyPlans(Remembered(old(redis), dedupKey, e.id), e, plans, maxEvidence)
    {
      if e.id in redis.Deduped(dedupKey) {
        return true;
      }
      redis := Remembered(redis, dedupKey, e.id);
      ghost var start := redis;
      for i := 0 to |plans|
        invariant redis == ApplyPlans(start, e, plans[..i], maxEvidence)
      {
        assert plans[..i + 1][..i] == plans[..i];
        ExecutePlan(e, plans[i], maxEvidence);
      }
      assert plans[..|plans|] == plans;
      duplicate := false;
    }

    method ExecutePlan(e: Event, slot: Slot, maxEvidence: nat)
      modifies this
      ensures redis == ApplyPlan(old(redis), e, slot, maxEvidence)
    {
      var shouldIncrement := true;
      if e.url != "" {
        shouldIncrement := e.url !in redis.Stories(slot);
        redis := redis.(stories := redis.stories[slot := redis.Stories(slot) + {e.url}]);
      }
      if shouldIncrement {
        redis := redis.(counters := redis.counters[slot := redis.Count(slot) + VolumeWeight(e)]);
      }
      var members := ZAdd(redis.EvidenceOf(slot.window, slot.topic), Entry(EngagementScore(e), e.id));
      redis := redis.(evidence := redis.evidence[(slot.window, slot.topic) := Trim(members, maxEvidence)]);
    }
  }

  // ---------------------------------------------------------------- exactly once

  /** The dedup keys of the tracked events of a trace. */
  function Keys(trace: seq<Event>, cfg: Config): set<((Window, int), string)> {
    if |trace| == 0 then {}
    else
      var last := trace[|trace| - 1];
      Keys(trace[..|trace| - 1], cfg) + (if Tracked(last, cfg) then {(DedupKey(last, cfg), last.id)} else {})
  }

  /** The tracked events of a trace, each only at its first occurrence per dedup bucket and id. */
  function FirstOccurrences(trace: seq<Event>, cfg: Config): seq<Event> {
    if |trace| == 0 then []
    else
      var front, last := trace[..|trace| - 1], trace[|trace| - 1];
      FirstOccurrences(front, cfg)
      + (if Tracked(last, cfg) && (DedupKey(last, cfg), last.id) !in Keys(front, cfg) then [last] else [])
  }

  lemma {:induction false} ApplyPlansKeepsDedup(r: Redis, e: Event, plans: seq<Slot>, maxEvidence: nat)
    ensures ApplyPlans(r, e, plans, maxEvidence).dedup == r.dedup
  {
    if |plans| > 0 {
      ApplyPlansKeepsDedup(r, e, plans[..|plans| - 1], maxEvidence);
    }
  }

  /** The dedup sets record exactly the keys of the events consumed. */
  lemma {:induction false} DedupRecordsKeys(trace: seq<Event>, cfg: Config)
    ensures forall key, id :: id in Run(trace, cfg).Deduped(key) <==> (key, id) in Keys(trace, cfg)
  {
    if |trace| > 0 {
      var front, last := trace[..|trace| - 1], trace[|trace| - 1];
      DedupRecordsKeys(front, cfg);
      var r, key := Run(front, cfg), DedupKey(last, cfg);
      if Tracked(last, cfg) && last.id !in r.Deduped(key) {
        ApplyPlansKeepsDedup(Remembered(r, key, last.id), last, Plans(last, cfg.windows), cfg.maxEvidence);
      }
    }
  }

  lemma {:induction false} KeysOfFirstOccurrences(trace: seq<Event>, cfg: Config)
    ensures Keys(FirstOccurrences(trace, cfg), cfg) == Keys(trace, cfg)
  {
    if |trace| > 0 {
      var front, last := trace[..|trace| - 1], trace[|trace| - 1];
      KeysOfFirstOccurrences(front, cfg);
      var first := FirstOccurrences(front, cfg);
      assert (first + [last])[..|first|] == first;
      assert first + [] == first;
    }
  }

  /** Exactly-once effect: redelivering events in any way leaves Redis as if each event had come once. */
  lemma {:induction false} ExactlyOnce(trace: seq<Event>, cfg: Config)
    ensures Run(trace, cfg) == Run(FirstOccurrences(trace, cfg), cfg)
  {
    if |trace| > 0 {
      var front, last := trace[..|trace| - 1], trace[|trace| - 1];
      ExactlyOnce(front, cfg);
      DedupRecordsKeys(front, cfg);
      var first := FirstOccurrences(front, cfg);
      assert (first + [last])[..|first|] == first;
      assert first + [] == first;
    }
  }

  // ---------------------------------------------------------------- what one event does to one slot

  function Occurrences(plans: seq<Slot>, slot: Slot): nat {
    multiset(plans)[slot]
  }

  function Repeated(n: nat, amount: int): int {
    if n == 0 then 0 else Repeated(n - 1, amount) + amount
  }

  /** What `n` plans of an event add to a slot's counter. */
  function Added(e: Event, n: nat, known: set<string>): int {
    if e.url == "" then Repeated(n, VolumeWeight(e))
    else if n > 0 && e.url !in known then VolumeWeight(e)
    else 0
  }

  function StoriesAdded(e: Event, n: nat): set<string> {
    if n > 0 && e.url != "" then {e.url} else {}
  }

  /** `n` plans of the event took a slot from the first stories and count to the second. */
  predicate Hit(e: Event, n: nat, stories: set<string>, count: int, stories': set<string>, count': int) {
    stories' == stories + StoriesAdded(e, n) && count' == count + Added(e, n, stories)
  }

  predicate SlotHit(r: Redis, r': Redis, e: Event, n: nat, slot: Slot) {
    Hit(e, n, r.Stories(slot), r.Count(slot), r'.Stories(slot), r'.Count(slot))
  }

  lemma OnePlan(r: Redis, e: Event, plan: Slot, maxEvidence: nat, slot: Slot)
    ensures SlotHit(r, ApplyPlan(r, e, plan, maxEvidence), e, if plan == slot then 1 else 0, slot)
  {
    assert Repeated(1, VolumeWeight(e)) == Repeated(0, VolumeWeight(e)) + VolumeWeight(e);
  }

  lemma HitAgain(e: Event, n: nat, m: nat, s0: set<string>, c0: int, s1: set<string>, c1: int, s2: set<string>, c2: int)
    requires Hit(e, n, s0, c0, s1, c1) && Hit(e, m, s1, c1, s2, c2) && m <= 1
    ensures Hit(e, n + m, s0, c0, s2, c2)
  {
    assert Repeated(1, VolumeWeight(e)) == Repeated(0, VolumeWeight(e)) + VolumeWeight(e);
  }

  /** The script seen from one slot: events without a url count once per plan; a url counts once. */
  lemma {:induction false} SlotEffect(r: Redis, e: Event, plans: seq<Slot>, maxEvidence: nat, slot: Slot)
    ensures SlotHit(r, ApplyPlans(r, e, plans, maxEvidence), e, Occurrences(plans, slot), slot)
  {
    if |plans| > 0 {
      var front, last := plans[..|plans| - 1], plans[|plans| - 1];
      var r1 := ApplyPlans(r, e, front, maxEvidence);
      var r2 := ApplyPlan(r1, e, last, maxEvidence);
      SlotEffect(r, e, front, maxEvidence, slot);
      assert plans == front + [last];
      OnePlan(r1, e, last, maxEvidence, slot);
      HitAgain(e, Occurrences(front, slot), if last == slot then 1 else 0, r.Stories(slot), r.Count(slot),
               r1.Stories(slot), r1.Count(slot), r2.Stories(slot), r2.Count(slot));
    }
  }

  lemma {:induction false} TopicPlansCount(e: Event, window: Window, topics: seq<string>, slot: Slot)
    ensures Occurrences(TopicPlans(e, window, topics), slot)
         == if slot.window == window && slot.bucket == BucketStart(e.fetchedAt, window)
            then multiset(topics)[slot.topic] else 0
  {
    if |topics| > 0 {
      var front, last := topics[..|topics| - 1], topics[|topics| - 1];
      TopicPlansCount(e, window, front, slot);
      assert topics == front + [last];
    }
  }

  /** An event plans a slot of a configured window as often as it names the topic. */
  lemma {:induction false} PlansCount(e: Event, windows: seq<Window>, slot: Slot)
    requires forall w :: multiset(windows)[w] <= 1
    ensures Occurrences(Plans(e, windows), slot)
         == if slot.bucket == BucketStart(e.fetchedAt, slot.window) && slot.window in windows
            then multiset(e.topics)[slot.topic] else 0
  {
    if |windows| > 0 {
      var front, last := windows[..|windows| - 1], windows[|windows| - 1];
      assert windows == front + [last];
      assert last !in front by {
        assert multiset(windows)[last] == multiset(front)[last] + 1;
      }
      forall w ensures multiset(front)[w] <= 1 {
        assert multiset(windows)[w] <= 1;
      }
      PlansCount(e, front, slot);
      TopicPlansCount(e, last, e.topics, slot);
    }
  }

  // ---------------------------------------------------------------- window nesting

  function Quarter(topic: string, hour: int, k: int): Slot {
    Slot(M15, topic, hour + k * QUARTER)
  }

  function QuarterSum(r: Redis, topic: string, hour: int): int {
    r.Count(Quarter(topic, hour, 0)) + r.Count(Quarter(topic, hour, 1))
    + r.Count(Quarter(topic, hour, 2)) + r.Count(Quarter(topic, hour, 3))
  }

  function QuarterStories(r: Redis, topic: string, hour: int): set<string> {
    r.Stories(Quarter(topic, hour, 0)) + r.Stories(Quarter(topic, hour, 1))
    + r.Stories(Quarter(topic, hour, 2)) + r.Stories(Quarter(topic, hour, 3))
  }

  predicate Nested(r: Redis, topic: string, hour: int) {
    && r.Stories(Slot(M60, topic, hour)) == QuarterStories(r, topic, hour)
    && r.Count(Slot(M60, topic, hour)) <= QuarterSum(r, topic, hour)
  }

  /** Each configured window is configured once. */
  predicate BothWindows(cfg: Config) {
    multiset(cfg.windows) == multiset{M15, M60}
  }

  /** The quarter of a moment is one of the four quarters of its hour, and of no other hour. */
  lemma QuarterInHour(at: int, hour: int)
    requires hour % HOUR == 0
    ensures var k := (BucketStart(at, M15) - hour) / QUARTER;
            && (BucketStart(at, M60) == hour ==> 0 <= k < 4 && BucketStart(at, M15) == hour + k * QUARTER)
            && (BucketStart(at, M60) != hour ==> forall j :: 0 <= j < 4 ==> BucketStart(at, M15) != hour + j * QUARTER)
  {
    var q, h, g := at / QUARTER, at / HOUR, hour / HOUR;
    assert 4 * h <= q < 4 * h + 4;
    assert hour == 4 * g * QUARTER && BucketStart(at, M60) == 4 * h * QUARTER && BucketStart(at, M15) == q * QUARTER;
    assert (BucketStart(at, M15) - hour) / QUARTER == q - 4 * g;
  }

  /** A slot that is new to a url adds at least as much as a slot that knows more urls. */
  lemma AddedShrinks(e: Event, n: nat, known: set<string>, more: set<string>)
    requires known <= more
    ensures Added(e, n, more) <= Added(e, n, known)
  {
  }

  lemma AddedNothing(e: Event, known: set<string>)
    ensures Added(e, 0, known) == 0 && StoriesAdded(e, 0) == {}
  {
  }

  /** An event that falls into the hour hits the hour and one of its quarters equally often. */
  lemma NestedHit(r: Redis, r': Redis, e: Event, topic: string, hour: int, k: int, n: nat)
    requires Nested(r, topic, hour) && 0 <= k < 4
    requires forall j :: 0 <= j < 4 ==> SlotHit(r, r', e, if j == k then n else 0, Quarter(topic, hour, j))
    requires SlotHit(r, r', e, n, Slot(M60, topic, hour))
    ensures Nested(r', topic, hour)
  {
    var h := Slot(M60, topic, hour);
    forall j | 0 <= j < 4
      ensures var q := Quarter(topic, hour, j);
              && r'.Stories(q) == r.Stories(q) + (if j == k then StoriesAdded(e, n) else {})
              && r'.Count(q) == r.Count(q) + (if j == k then Added(e, n, r.Stories(q)) else 0)
    {
      assert SlotHit(r, r', e, if j == k then n else 0, Quarter(topic, hour, j));
      AddedNothing(e, r.Stories(Quarter(topic, hour, j)));
    }
    AddedShrinks(e, n, r.Stories(Quarter(topic, hour, k)), r.Stories(h));
    assert r'.Stories(h) == r.Stories(h) + StoriesAdded(e, n);
    assert QuarterStories(r', topic, hour) == QuarterStories(r, topic, hour) + StoriesAdded(e, n);
    assert QuarterSum(r', topic, hour) == QuarterSum(r, topic, hour) + Added(e, n, r.Stories(Quarter(topic, hour, k)));
  }

  lemma PlannedSlot(r: Redis, e: Event, cfg: Config, slot: Slot)
    requires BothWindows(cfg)
    ensures SlotHit(r, ApplyPlans(r, e, Plans(e, cfg.windows), cfg.maxEvidence), e,
                    if slot.bucket == BucketStart(e.fetchedAt, slot.window) then multiset(e.topics)[slot.topic] else 0, slot)
  {
    assert multiset{M15, M60}[M15] == 1 && multiset{M15, M60}[M60] == 1;
    assert slot.window == M15 || slot.window == M60;
    assert multiset(cfg.windows)[slot.window] == 1;
    SlotEffect(r, e, Plans(e, cfg.windows), cfg.maxEvidence, slot);
    PlansCount(e, cfg.windows, slot);
  }

  lemma NestedStep(r: Redis, e: Event, cfg: Config, topic: string, hour: int)
    requires BothWindows(cfg) && Nested(r, topic, hour) && hour % HOUR == 0
    ensures Nested(ApplyPlans(r, e, Plans(e, cfg.windows), cfg.maxEvidence), topic, hour)
  {
    var r', n := ApplyPlans(r, e, Plans(e, cfg.windows), cfg.maxEvidence), multiset(e.topics)[topic];
    QuarterInHour(e.fetchedAt, hour);
    PlannedSlot(r, e, cfg, Slot(M60, topic, hour));
    forall j | 0 <= j < 4
      ensures SlotHit(r, r', e, if hour + j * QUARTER == BucketStart(e.fetchedAt, M15) then n else 0, Quarter(topic, hour, j))
    {
      PlannedSlot(r, e, cfg, Quarter(topic, hour, j));
    }
    if BucketStart(e.fetchedAt, M60) == hour {
      NestedHit(r, r', e, topic, hour, (BucketStart(e.fetchedAt, M15) - hour) / QUARTER, n);
    } else {
      NestedHit(r, r', e, topic, hour, 0, 0);
    }
  }

  /** Window nesting: after any trace, the stories of an hour are those of its four quarters, and the
      hour's counter is at most the sum of theirs. */
  lemma {:induction false} WindowNesting(trace: seq<Event>, cfg: Config, topic: string, hour: int)
    requires BothWindows(cfg) && hour % HOUR == 0
    ensures Nested(Run(trace, cfg), topic, hour)
  {
    if |trace| > 0 {
      var front, last := trace[..|trace| - 1], trace[|trace| - 1];
      WindowNesting(front, cfg, topic, hour);
      var r, key := Run(front, cfg), DedupKey(last, cfg);
      if Tracked(last, cfg) && last.id !in r.Deduped(key) {
        NestedStep(Remembered(r, key, last.id), last, cfg, topic, hour);
      }
    }
  }

  // ---------------------------------------------------------------- streaming top-K

  function EntryOf(e: Event): Entry {
    Entry(EngagementScore(e), e.id)
  }

  /** Everything a trace of applied events contributes to a topic's evidence in a window. */
  function Applied(events: seq<Event>, cfg: Config, window: Window, topic: string): set<Entry> {
    set e | e in events && window in cfg.windows && topic in e.topics :: EntryOf(e)
  }

  predicate Names(plan: Slot, window: Window, topic: string) {
    plan.window == window && plan.topic == topic
  }

  predicate Named(plans: seq<Slot>, window: Window, topic: string) {
    exists p :: p in plans && Names(p, window, topic)
  }

  lemma NamedAppend(a: seq<Slot>, b: seq<Slot>, window: Window, topic: string)
    ensures Named(a + b, window, topic) <==> Named(a, window, topic) || Named(b, window, topic)
  {
    assert forall p :: p in a + b <==> p in a || p in b;
  }

  lemma {:induction false} TopicPlansName(e: Event, w: Window, topics: seq<string>, window: Window, topic: string)
    ensures Named(TopicPlans(e, w, topics), window, topic) <==> w == window && topic in topics
  {
    if |topics| > 0 {
      var front, last := topics[..|topics| - 1], topics[|topics| - 1];
      TopicPlansName(e, w, front, window, topic);
      assert topics == front + [last];
      var plan := Slot(w, last, BucketStart(e.fetchedAt, w));
      NamedAppend(TopicPlans(e, w, front), [plan], window, topic);
      assert plan in [plan];
    }
  }

  lemma {:induction false} PlansName(e: Event, windows: seq<Window>, window: Window, topic: string)
    ensures Named(Plans(e, windows), window, topic) <==> window in windows && topic in e.topics
  {
    if |windows| > 0 {
      var front, last := windows[..|windows| - 1], windows[|windows| - 1];
      PlansName(e, front, window, topic);
      TopicPlansName(e, last, e.topics, window, topic);
      assert windows == front + [last];
      NamedAppend(Plans(e, front), TopicPlans(e, last, e.topics), window, topic);
    }
  }

  lemma EvidenceAfterPlan(r: Redis, e: Event, plan: Slot, k: nat, window: Window, topic: string)
    ensures ApplyPlan(r, e, plan, k).EvidenceOf(window, topic)
         == if Names(plan, window, topic) then AddTrim(r.EvidenceOf(window, topic), EntryOf(e), k)
            else r.EvidenceOf(window, topic)
  {
  }

  lemma NamedOne(plan: Slot, window: Window, topic: string)
    ensures Named([plan], window, topic) <==> Names(plan, window, topic)
  {
    assert plan in [plan];
  }

  /** What one event does to the evidence of a topic in a window, however often it names the topic. */
  lemma {:induction false} EvidenceAfterPlans(r: Redis, e: Event, plans: seq<Slot>, k: nat, window: Window, topic: string)
    requires Listed(r.EvidenceOf(window, topic))
    ensures ApplyPlans(r, e, plans, k).EvidenceOf(window, topic)
         == if Named(plans, window, topic) then AddTrim(r.EvidenceOf(window, topic), EntryOf(e), k)
            else r.EvidenceOf(window, topic)
  {
    if |plans| > 0 {
      var front, last := plans[..|plans| - 1], plans[|plans| - 1];
      var z := r.EvidenceOf(window, topic);
      NamedAppend(front, [last], window, topic);
      NamedOne(last, window, topic);
      assert plans == front + [last];
      EvidenceAfterPlans(r, e, front, k, window, topic);
      EvidenceAfterPlan(ApplyPlans(r, e, front, k), e, last, k, window, topic);
      AddTrimTwice(z, EntryOf(e), k);
    }
  }

  /** The event is applied to the evidence of the topic in the window. */
  predicate Applies(e: Event, cfg: Config, window: Window, topic: string) {
    window in cfg.windows && topic in e.topics
  }

  /** The last score of every id that a list of events applies. */
  function LastScores(events: seq<Event>, cfg: Config, window: Window, topic: string): set<Entry> {
    if |events| == 0 then {}
    else
      var front, last := LastScores(events[..|events| - 1], cfg, window, topic), events[|events| - 1];
      if Applies(last, cfg, window, topic) then Rescored(front, EntryOf(last)) else front
  }

  ghost predicate IsLastScore(events: seq<Event>, cfg: Config, window: Window, topic: string, j: nat)
    requires j < |events|
  {
    && Applies(events[j], cfg, window, topic)
    && forall l :: j < l < |events| && Applies(events[l], cfg, window, topic) ==> events[l].id != events[j].id
  }

  /** `LastScores` holds one entry per id: that of the last event that applies it. */
  lemma {:induction false} LastScoresAre(events: seq<Event>, cfg: Config, window: Window, topic: string)
    ensures UniqueIds(LastScores(events, cfg, window, topic))
    ensures forall x :: x in LastScores(events, cfg, window, topic) <==>
              exists j: nat :: j < |events| && IsLastScore(events, cfg, window, topic, j) && EntryOf(events[j]) == x
  {
    if |events| > 0 {
      var front, last := events[..|events| - 1], events[|events| - 1];
      LastScoresAre(front, cfg, window, topic);
      forall x
        ensures x in LastScores(events, cfg, window, topic) <==>
                exists j: nat :: j < |events| && IsLastScore(events, cfg, window, topic, j) && EntryOf(events[j]) == x
      {
        LastScoreStep(front, last, cfg, window, topic, x);
        assert events == front + [last];
      }
    }
  }

  lemma LastScoreStep(front: seq<Event>, last: Event, cfg: Config, window: Window, topic: string, x: Entry)
    ensures var events := front + [last];
            (exists j: nat :: j < |events| && IsLastScore(events, cfg, window, topic, j) && EntryOf(events[j]) == x)
            <==> (Applies(last, cfg, window, topic) && EntryOf(last) == x)
                 || ((exists j: nat :: j < |front| && IsLastScore(front, cfg, window, topic, j) && EntryOf(front[j]) == x)
                     && (Applies(last, cfg, window, topic) ==> x.id != last.id))
  {
    var events := front + [last];
    forall j: nat | j < |front|
      ensures IsLastScore(events, cfg, window, topic, j)
              <==> IsLastScore(front, cfg, window, topic, j) && (Applies(last, cfg, window, topic) ==> last.id != front[j].id)
    {
      assert forall l :: 0 <= l < |front| ==> events[l] == front[l];
      assert events[|front|] == last;
    }
    assert events[|front|] == last;
    assert IsLastScore(events, cfg, window, topic, |front|) <==> Applies(last, cfg, window, topic);
  }

  lemma FirstOccurrencesStep(trace: seq<Event>, last: Event, cfg: Config)
    ensures var before, after := FirstOccurrences(trace, cfg), FirstOccurrences(trace + [last], cfg);
            if Tracked(last, cfg) && last.id !in Run(trace, cfg).Deduped(DedupKey(last, cfg))
            then after == before + [last] else after == before
  {
    DedupRecordsKeys(trace, cfg);
    assert (trace + [last])[..|trace|] == trace;
  }

  /** Without an event that buries an entry, the evidence stays the top of the last scores; an event that does
      so takes it away. */
  lemma EvidenceStep(r: Redis, e: Event, cfg: Config, window: Window, topic: string, before: seq<Event>)
    requires Listed(r.EvidenceOf(window, topic))
    requires IsTopK(r.EvidenceOf(window, topic), LastScores(before, cfg, window, topic), cfg.maxEvidence)
    ensures var z := ApplyPlans(r, e, Plans(e, cfg.windows), cfg.maxEvidence).EvidenceOf(window, topic);
            IsTopK(z, LastScores(before + [e], cfg, window, topic), cfg.maxEvidence)
            <==> !(Applies(e, cfg, window, topic)
                   && Buries(r.EvidenceOf(window, topic), LastScores(before, cfg, window, topic), EntryOf(e)))
  {
    var z, scores := r.EvidenceOf(window, topic), LastScores(before, cfg, window, topic);
    assert (before + [e])[..|before|] == before;
    PlansName(e, cfg.windows, window, topic);
    EvidenceAfterPlans(r, e, Plans(e, cfg.windows), cfg.maxEvidence, window, topic);
    LastScoresAre(before, cfg, window, topic);
    AddTrimExactly(z, scores, EntryOf(e), cfg.maxEvidence);
  }

  /** The event is applied, and moves a listed member of the evidence below an entry trimmed away before. */
  ghost predicate BuriesIn(trace: seq<Event>, e: Event, cfg: Config, window: Window, topic: string) {
    var r := Run(trace, cfg);
    && Tracked(e, cfg) && e.id !in r.Deduped(DedupKey(e, cfg)) && Applies(e, cfg, window, topic)
    && Buries(r.EvidenceOf(window, topic), LastScores(FirstOccurrences(trace, cfg), cfg, window, topic), EntryOf(e))
  }

  ghost predicate NeverBuries(trace: seq<Event>, cfg: Config, window: Window, topic: string) {
    |trace| == 0 ||
    var front, last := trace[..|trace| - 1], trace[|trace| - 1];
    NeverBuries(front, cfg, window, topic) && !BuriesIn(front, last, cfg, window, topic)
  }

  /** The evidence is the K greatest of the last scores. */
  ghost predicate ShowsTop(trace: seq<Event>, cfg: Config, window: Window, topic: string) {
    IsTopK(Run(trace, cfg).EvidenceOf(window, topic),
           LastScores(FirstOccurrences(trace, cfg), cfg, window, topic), cfg.maxEvidence)
  }

  ghost predicate AlwaysShowsTop(trace: seq<Event>, cfg: Config, window: Window, topic: string) {
    && ShowsTop(trace, cfg, window, topic)
    && (|trace| == 0 || AlwaysShowsTop(trace[..|trace| - 1], cfg, window, topic))
  }

  lemma {:induction false} EvidenceIsListed(trace: seq<Event>, cfg: Config, window: Window, topic: string)
    ensures Listed(Run(trace, cfg).EvidenceOf(window, topic))
  {
    if |trace| > 0 {
      var front, last := trace[..|trace| - 1], trace[|trace| - 1];
      EvidenceIsListed(front, cfg, window, topic);
      var r, key := Run(front, cfg), DedupKey(last, cfg);
      if Tracked(last, cfg) && last.id !in r.Deduped(key) {
        EvidenceAfterPlans(Remembered(r, key, last.id), last, Plans(last, cfg.windows), cfg.maxEvidence, window, topic);
        AddTrimListed(r.EvidenceOf(window, topic), EntryOf(last), cfg.maxEvidence);
      }
    }
  }

  lemma TraceStep(front: seq<Event>, last: Event, cfg: Config, window: Window, topic: string)
    requires ShowsTop(front, cfg, window, topic)
    ensures ShowsTop(front + [last], cfg, window, topic) <==> !BuriesIn(front, last, cfg, window, topic)
  {
    var r, key := Run(front, cfg), DedupKey(last, cfg);
    assert (front + [last])[..|front|] == front;
    FirstOccurrencesStep(front, last, cfg);
    EvidenceIsListed(front, cfg, window, topic);
    if Tracked(last, cfg) && last.id !in r.Deduped(key) {
      EvidenceStep(Remembered(r, key, last.id), last, cfg, window, topic, FirstOccurrences(front, cfg));
    }
  }

  /** Streaming top-K, exactly: over any trace, a topic's evidence is the K greatest of the last scores of all
      ids applied to it throughout, by score and then id, if and only if no applied event scores a listed
      member below an entry that was trimmed away. */
  lemma {:induction false} TopKExactly(trace: seq<Event>, cfg: Config, window: Window, topic: string)
    ensures AlwaysShowsTop(trace, cfg, window, topic) <==> NeverBuries(trace, cfg, window, topic)
  {
    if |trace| > 0 {
      var front, last := trace[..|trace| - 1], trace[|trace| - 1];
      assert trace == front + [last];
      TopKExactly(front, cfg, window, topic);
      if AlwaysShowsTop(front, cfg, window, topic) {
        TraceStep(front, last, cfg, window, topic);
      }
    }
  }

  lemma {:induction false} AppliedAre(events: seq<Event>, cfg: Config, window: Window, topic: string)
    requires UniqueIds(Applied(events, cfg, window, topic))
    ensures LastScores(events, cfg, window, topic) == Applied(events, cfg, window, topic)
  {
    if |events| > 0 {
      var front, last := events[..|events| - 1], events[|events| - 1];
      assert events == front + [last];
      var all, before := Applied(events, cfg, window, topic), Applied(front, cfg, window, topic);
      assert all == if Applies(last, cfg, window, topic) then before + {EntryOf(last)} else before;
      AppliedAre(front, cfg, window, topic);
      if Applies(last, cfg, window, topic) {
        assert Rescored(before, EntryOf(last)) == before + {EntryOf(last)};
      }
    }
  }

  lemma SameScoreBuriesNothing(front: seq<Event>, last: Event, cfg: Config, window: Window, topic: string)
    requires UniqueIds(Applied(FirstOccurrences(front + [last], cfg), cfg, window, topic))
    requires ShowsTop(front, cfg, window, topic)
    ensures !BuriesIn(front, last, cfg, window, topic)
  {
    FirstOccurrencesStep(front, last, cfg);
    if BuriesIn(front, last, cfg, window, topic) {
      var before := FirstOccurrences(front, cfg);
      AppliedGrows(before, last, cfg, window, topic);
      AppliedAre(before, cfg, window, topic);
      assert last in before + [last];
      SameScoreBuries(Run(front, cfg).EvidenceOf(window, topic), Applied(before, cfg, window, topic), EntryOf(last),
                      cfg.maxEvidence);
    }
  }

  /** Streaming top-K: when an id is applied with one score only, a topic's evidence after any trace is exactly
      the K greatest of all events applied to it, by score and then id. */
  lemma {:induction false} StreamingTopK(trace: seq<Event>, cfg: Config, window: Window, topic: string)
    requires UniqueIds(Applied(FirstOccurrences(trace, cfg), cfg, window, topic))
    ensures IsTopK(Run(trace, cfg).EvidenceOf(window, topic),
                   Applied(FirstOccurrences(trace, cfg), cfg, window, topic), cfg.maxEvidence)
  {
    AppliedAre(FirstOccurrences(trace, cfg), cfg, window, topic);
    if |trace| > 0 {
      var front, last := trace[..|trace| - 1], trace[|trace| - 1];
      assert trace == front + [last];
      FirstOccurrencesStep(front, last, cfg);
      AppliedGrows(FirstOccurrences(front, cfg), last, cfg, window, topic);
      StreamingTopK(front, cfg, window, topic);
      AppliedAre(FirstOccurrences(front, cfg), cfg, window, topic);
      SameScoreBuriesNothing(front, last, cfg, window, topic);
      TraceStep(front, last, cfg, window, topic);
    }
  }

  lemma AppliedGrows(events: seq<Event>, last: Event, cfg: Config, window: Window, topic: string)
    ensures Applied(events, cfg, window, topic) <= Applied(events + [last], cfg, window, topic)
  {
  }

  // ---------------------------------------------------------------- an id scored again

  const ONE_QUARTER := Config([M15], 1, 0)

  function Scored(id: string, at: int, engagement: int): Event {
    Event(id, at, Unknown, "", engagement, 50, ["t"])
  }

  const A := Scored("a", 0, 5)
  const B := Scored("b", 0, 3)
  const LATER_A := Scored("a", QUARTER, 1)

  lemma ExampleEvents()
    ensures DedupKey(A, ONE_QUARTER) == DedupKey(B, ONE_QUARTER) == (M15, 0) && DedupKey(LATER_A, ONE_QUARTER) == (M15, QUARTER)
    ensures EntryOf(A) == Entry(5, "a") && EntryOf(B) == Entry(3, "b") && EntryOf(LATER_A) == Entry(1, "a")
  {
  }

  predicate InExample(e: Event) {
    e.topics == ["t"] && e.publishedAt == Unknown
  }

  lemma RunOfThree(a: Event, b: Event, c: Event)
    requires InExample(a) && InExample(b) && InExample(c) && a.id != b.id && c.id != b.id
    requires DedupKey(a, ONE_QUARTER) != DedupKey(c, ONE_QUARTER)
    ensures Run([a, b, c], ONE_QUARTER).EvidenceOf(M15, "t")
         == AddTrim(AddTrim(AddTrim([], EntryOf(a), 1), EntryOf(b), 1), EntryOf(c), 1)
    ensures LastScores(FirstOccurrences([a, b, c], ONE_QUARTER), ONE_QUARTER, M15, "t")
         == Rescored(Rescored(Rescored({}, EntryOf(a)), EntryOf(b)), EntryOf(c))
  {
    var none: seq<Event> := [];
    OneEvent(none, a);
    assert none + [a] == [a];
    OneEvent([a], b);
    assert [a] + [b] == [a, b];
    OneEvent([a, b], c);
    assert [a, b] + [c] == [a, b, c];
  }

  /** `a` comes back in the next dedup bucket with a lower score than `b`, which was trimmed away. */
  lemma RescoringLosesTheTop()
    ensures !ShowsTop([A, B, LATER_A], ONE_QUARTER, M15, "t")
  {
    ExampleEvents();
    RunOfThree(A, B, LATER_A);
    Rescoring(EntryOf(A), EntryOf(B), EntryOf(LATER_A));
  }

  /** One event that is not a duplicate, in a window and topic of the example. */
  lemma OneEvent(trace: seq<Event>, e: Event)
    requires InExample(e) && (DedupKey(e, ONE_QUARTER), e.id) !in Keys(trace, ONE_QUARTER)
    ensures Run(trace + [e], ONE_QUARTER).EvidenceOf(M15, "t")
         == AddTrim(Run(trace, ONE_QUARTER).EvidenceOf(M15, "t"), EntryOf(e), 1)
    ensures LastScores(FirstOccurrences(trace + [e], ONE_QUARTER), ONE_QUARTER, M15, "t")
         == Rescored(LastScores(FirstOccurrences(trace, ONE_QUARTER), ONE_QUARTER, M15, "t"), EntryOf(e))
    ensures Keys(trace + [e], ONE_QUARTER) == Keys(trace, ONE_QUARTER) + {(DedupKey(e, ONE_QUARTER), e.id)}
  {
    var cfg := ONE_QUARTER;
    assert (trace + [e])[..|trace|] == trace;
    DedupRecordsKeys(trace, cfg);
    EvidenceIsListed(trace, cfg, M15, "t");
    PlansName(e, cfg.windows, M15, "t");
    var key := DedupKey(e, cfg);
    EvidenceAfterPlans(Remembered(Run(trace, cfg), key, e.id), e, Plans(e, cfg.windows), 1, M15, "t");
    var first := FirstOccurrences(trace, cfg);
    assert (first + [e])[..|first|] == first;
  }
}
