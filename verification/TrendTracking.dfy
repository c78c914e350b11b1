/** What one event does to the windows, said without the script: when it counts, in which buckets, with which
    weight, and what it does to the evidence. */
module TrendTracking {
  import opened Evidence
  import opened Ordering
  import opened TrendWindows

  /** The length of a window. */
  function Length(window: Window): int {
    match window
    case M15 => 900_000
    case M60 => 3_600_000
  }

  /** A moment lies in the bucket that starts at a multiple of the window's length. */
  predicate Within(at: int, window: Window, start: int) {
    start % Length(window) == 0 && start <= at < start + Length(window)
  }

  lemma BucketStartIs(at: int, window: Window, start: int)
    ensures BucketStart(at, window) == start <==> Within(at, window, start)
  {
    var n := Length(window);
    assert at == at / n * n + at % n;
    if Within(at, window, start) {
      assert start == start / n * n;
      assert start / n == at / n;
    }
  }

  /** The weight of an event in a counter is its feed's priority in fiftieths, rounded to the nearest whole number
      with halves up, and at least one. */
  predicate Weighs(e: Event, weight: int) {
    && weight >= 1 && 2 * e.feedPriority < 100 * weight + 50
    && (weight == 1 || 100 * weight - 50 <= 2 * e.feedPriority)
  }

  lemma VolumeWeightIs(e: Event, weight: int)
    ensures VolumeWeight(e) == weight <==> Weighs(e, weight)
  {
  }

  /** The score of an event is its engagement times its feed's priority in fiftieths, rounded to the nearest whole
      number with halves up. */
  predicate Scores(e: Event, score: int) {
    100 * score - 50 <= 2 * (e.engagement * e.feedPriority) < 100 * score + 50
  }

  lemma EngagementScoreIs(e: Event, score: int)
    ensures EngagementScore(e) == score <==> Scores(e, score)
  {
    var n := e.engagement * e.feedPriority;
  }

  /** An event is too old when it was published longer than the limit before it was fetched. */
  predicate Stale(e: Event, maxAge: int) {
    e.publishedAt.At? && e.publishedAt.ms < e.fetchedAt && e.publishedAt.ms + maxAge < e.fetchedAt
  }

  /** The bucket in which ids are remembered: of an hour if that window is configured, of a quarter otherwise. */
  predicate DedupBucket(e: Event, cfg: Config, key: (Window, int)) {
    (M60 in cfg.windows <==> key.0 == M60) && Within(e.fetchedAt, key.0, key.1)
  }

  lemma DedupKeyIs(e: Event, cfg: Config, key: (Window, int))
    ensures DedupKey(e, cfg) == key <==> DedupBucket(e, cfg, key)
  {
    BucketStartIs(e.fetchedAt, key.0, key.1);
  }

  /** A stale event, one without topics, and an id that its dedup bucket knows leave Redis as it is; and so
      does every event when no window is configured. */
  lemma DroppedChangesNothing(r: Redis, e: Event, cfg: Config, key: (Window, int))
    requires DedupBucket(e, cfg, key)
    requires Stale(e, cfg.maxAge) || |e.topics| == 0 || |cfg.windows| == 0 || e.id in r.Deduped(key)
    ensures Consume(r, e, cfg) == r
  {
    DedupKeyIs(e, cfg, key);
  }

  /** Each window is configured at most once. */
  ghost predicate WindowsOnce(cfg: Config) {
    forall w :: multiset(cfg.windows)[w] <= 1
  }

  /** How much an event of this weight adds to a counter whose stories are these. */
  function Gain(e: Event, times: nat, known: set<string>, weight: int): int {
    if times == 0 then 0 else if e.url == "" then times * weight else if e.url in known then 0 else weight
  }

  lemma {:induction false} RepeatedIs(n: nat, amount: int)
    ensures Repeated(n, amount) == n * amount
  {
    if n > 0 {
      RepeatedIs(n - 1, amount);
    }
  }

  /** An event that is not stale, whose id its dedup bucket does not know, counts: in the bucket of every configured
      window that its fetch falls into, for every topic it names, by its weight, once for a url that is new there and
      as often as it names the topic without a url. No other counter or story set changes, and its id is remembered
      in its dedup bucket only. */
  lemma FreshEventCounts(r: Redis, e: Event, cfg: Config, key: (Window, int), slot: Slot, weight: int)
    requires WindowsOnce(cfg) && DedupBucket(e, cfg, key) && Weighs(e, weight)
    requires !Stale(e, cfg.maxAge) && |e.topics| > 0 && |cfg.windows| > 0 && e.id !in r.Deduped(key)
    ensures var r' := Consume(r, e, cfg);
            var times: nat := if slot.window in cfg.windows && Within(e.fetchedAt, slot.window, slot.bucket)
                              then multiset(e.topics)[slot.topic] else 0;
            && r'.Count(slot) == r.Count(slot) + Gain(e, times, r.Stories(slot), weight)
            && r'.Stories(slot) == r.Stories(slot) + (if times > 0 && e.url != "" then {e.url} else {})
            && r'.Deduped(key) == r.Deduped(key) + {e.id}
            && (forall other :: other != key ==> r'.Deduped(other) == r.Deduped(other))
  {
    DedupKeyIs(e, cfg, key);
    VolumeWeightIs(e, weight);
    var r1 := Remembered(r, key, e.id);
    SlotEffect(r1, e, Plans(e, cfg.windows), cfg.maxEvidence, slot);
    PlansCount(e, cfg.windows, slot);
    BucketStartIs(e.fetchedAt, slot.window, slot.bucket);
    ApplyPlansKeepsDedup(r1, e, Plans(e, cfg.windows), cfg.maxEvidence);
    RepeatedIs(multiset(e.topics)[slot.topic], weight);
    RepeatedIs(0, weight);
  }

  /** Such an event enters the evidence of every topic it names, in every configured window, with its score in place
      of any former one, and is left out only below as many others as the evidence may hold; what was there stays
      unless the evidence is full of greater entries. The evidence of no other topic changes. */
  lemma FreshEventIsEvidence(r: Redis, e: Event, cfg: Config, key: (Window, int), window: Window, topic: string, score: int)
    requires DedupBucket(e, cfg, key) && Scores(e, score) && Listed(r.EvidenceOf(window, topic))
    requires !Stale(e, cfg.maxAge) && |e.topics| > 0 && |cfg.windows| > 0 && e.id !in r.Deduped(key)
    ensures var z, z' := r.EvidenceOf(window, topic), Consume(r, e, cfg).EvidenceOf(window, topic);
            if window in cfg.windows && topic in e.topics then IsAdded(z, z', Entry(score, e.id), cfg.maxEvidence)
            else z' == z
  {
    hide Listed, IsAdded;
    DedupKeyIs(e, cfg, key);
    EngagementScoreIs(e, score);
    PlansName(e, cfg.windows, window, topic);
    EvidenceAfterPlans(Remembered(r, key, e.id), e, Plans(e, cfg.windows), cfg.maxEvidence, window, topic);
    AddTrimIs(r.EvidenceOf(window, topic), EntryOf(e), cfg.maxEvidence);
  }

  lemma NthBucket(at: int, window: Window, n: int)
    requires n * Length(window) <= at < (n + 1) * Length(window)
    ensures Within(at, window, n * Length(window))
  {
  }

  /** With an hourly window an id counts once per hour, otherwise once per quarter of an hour. */
  lemma OncePerBucket(r: Redis, a: Event, b: Event, cfg: Config, bucket: int)
    requires a.id == b.id && |a.topics| > 0 && |cfg.windows| > 0 && !Stale(a, cfg.maxAge)
    requires var length := if M60 in cfg.windows then 3_600_000 else 900_000;
             bucket * length <= a.fetchedAt < (bucket + 1) * length && bucket * length <= b.fetchedAt < (bucket + 1) * length
    ensures Consume(Consume(r, a, cfg), b, cfg) == Consume(r, a, cfg)
  {
    var window := if M60 in cfg.windows then M60 else M15;
    var key := (window, bucket * Length(window));
    NthBucket(a.fetchedAt, window, bucket);
    NthBucket(b.fetchedAt, window, bucket);
    hide Within, Length;
    DedupKeyIs(a, cfg, key);
    DedupKeyIs(b, cfg, key);
    assert DedupKey(a, cfg) == key && DedupKey(b, cfg) == key;
    hide DedupKey, Plans, ApplyPlans, Remembered, DedupBucket;
    IsRemembered(r, a, cfg);
  }

  lemma IsRemembered(r: Redis, e: Event, cfg: Config)
    requires |e.topics| > 0 && |cfg.windows| > 0 && !Stale(e, cfg.maxAge)
    ensures e.id in Consume(r, e, cfg).Deduped(DedupKey(e, cfg))
  {
    var key := DedupKey(e, cfg);
    ApplyPlansKeepsDedup(Remembered(r, key, e.id), e, Plans(e, cfg.windows), cfg.maxEvidence);
  }
}
