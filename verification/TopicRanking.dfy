/** Recency-weighted ranking of topics over trend snapshots, and the cap on top-level topic groups.
    Scores are reals; string collation, trimming, glob matching and grouping are parameters. */
module TopicRanking {
  import opened Ordering

  datatype Option<+T> = None | Some(value: T)

  datatype Metric = Metric(topic: string, score: real, volume: real, acceleration: real)

  datatype Snapshot = Snapshot(generatedAt: int, valid: bool, metrics: seq<Metric>)

  datatype Text = Text(trim: string -> string, matches: string -> bool, group: string -> string)

  const HOUR_MS := 3_600_000.0

  /** One over one plus the age in hours; a snapshot from the future has age zero. */
  function Weight(generatedAt: int, requestedAt: int): (w: real)
    ensures 0.0 < w <= 1.0
  {
    var ageMs := if requestedAt > generatedAt then requestedAt - generatedAt else 0;
    var ageHours := ageMs as real / HOUR_MS;
    1.0 / (1.0 + ageHours)
  }

  /** What one metric of one snapshot adds to its topic. */
  datatype Contribution = Contribution(key: string, weight: real, score: real, volume: real, acceleration: real, at: int)

  function MetricContribution(m: Metric, s: Snapshot, requestedAt: int, t: Text): seq<Contribution> {
    var topic := t.trim(m.topic);
    if topic == "" || !t.matches(topic) then []
    else [Contribution(topic, Weight(s.generatedAt, requestedAt), m.score, m.volume, m.acceleration, s.generatedAt)]
  }

  function MetricContributions(metrics: seq<Metric>, s: Snapshot, requestedAt: int, t: Text): seq<Contribution> {
    if |metrics| == 0 then []
    else MetricContributions(metrics[..|metrics| - 1], s, requestedAt, t)
         + MetricContribution(metrics[|metrics| - 1], s, requestedAt, t)
  }

  function SnapshotContributions(s: Snapshot, requestedAt: int, t: Text): seq<Contribution> {
    if s.valid then MetricContributions(s.metrics, s, requestedAt, t) else []
  }

  function Contributions(snapshots: seq<Snapshot>, requestedAt: int, t: Text): seq<Contribution> {
    if |snapshots| == 0 then []
    else Contributions(snapshots[..|snapshots| - 1], requestedAt, t)
         + SnapshotContributions(snapshots[|snapshots| - 1], requestedAt, t)
  }

  // ---------------------------------------------------------------- accumulation

  datatype Acc = Acc(score: real, volume: real, acceleration: real, weight: real, latest: Option<int>)

  const ZERO := Acc(0.0, 0.0, 0.0, 0.0, None)

  function Later(latest: Option<int>, at: int): Option<int> {
    if latest.Some? && latest.value >= at then latest else Some(at)
  }

  function Add(a: Acc, c: Contribution): Acc {
    Acc(a.score + c.score * c.weight, a.volume + c.volume * c.weight, a.acceleration + c.acceleration * c.weight,
        a.weight + c.weight, Later(a.latest, c.at))
  }

  function AccOf(cs: seq<Contribution>, key: string): Acc {
    if |cs| == 0 then ZERO
    else
      var front, last := AccOf(cs[..|cs| - 1], key), cs[|cs| - 1];
      if last.key == key then Add(front, last) else front
  }

  /** The keys of the contributions in order of first occurrence. */
  function Keys(cs: seq<Contribution>): seq<string> {
    if |cs| == 0 then []
    else
      var front, key := Keys(cs[..|cs| - 1]), cs[|cs| - 1].key;
      if key in front then front else front + [key]
  }

  predicate Distinct(keys: seq<string>) {
    forall i, j :: 0 <= i < j < |keys| ==> keys[i] != keys[j]
  }

  function KeySet(cs: seq<Contribution>): set<string> {
    set c | c in cs :: c.key
  }

  lemma KeySetFront(front: seq<Contribution>, last: Contribution)
    ensures KeySet(front + [last]) == KeySet(front) + {last.key}
  {
  }

  lemma {:induction false} KeysAre(cs: seq<Contribution>)
    ensures Distinct(Keys(cs))
    ensures forall k :: k in Keys(cs) <==> k in KeySet(cs)
  {
    if |cs| > 0 {
      var front, last := cs[..|cs| - 1], cs[|cs| - 1];
      KeysAre(front);
      assert cs == front + [last];
      assert KeySet(cs) == KeySet(front) + {last.key};
    }
  }

  /** The accumulators a scan over the snapshots builds, keyed by topic. */
  method AccumulateTopics(snapshots: seq<Snapshot>, requestedAt: int, t: Text) returns (keys: seq<string>, byTopic: map<string, Acc>)
    ensures Accumulated(Contributions(snapshots, requestedAt, t), keys, byTopic)
  {
    keys, byTopic := [], map[];
    ghost var cs: seq<Contribution> := [];
    for i := 0 to |snapshots|
      invariant cs == Contributions(snapshots[..i], requestedAt, t)
      invariant Accumulated(cs, keys, byTopic)
    {
      assert snapshots[..i + 1][..i] == snapshots[..i];
      if snapshots[i].valid {
        keys, byTopic := AccumulateSnapshot(snapshots[i], requestedAt, t, keys, byTopic, cs);
      } else {
        assert cs + SnapshotContributions(snapshots[i], requestedAt, t) == cs;
      }
      cs := cs + SnapshotContributions(snapshots[i], requestedAt, t);
    }
    assert snapshots[..|snapshots|] == snapshots;
  }

  method AccumulateSnapshot(s: Snapshot, requestedAt: int, t: Text, keys: seq<string>, byTopic: map<string, Acc>,
                            ghost cs: seq<Contribution>) returns (keys': seq<string>, byTopic': map<string, Acc>)
    requires Accumulated(cs, keys, byTopic)
    ensures Accumulated(cs + MetricContributions(s.metrics, s, requestedAt, t), keys', byTopic')
  {
    keys', byTopic' := keys, byTopic;
    assert cs + [] == cs;
    for j := 0 to |s.metrics|
      invariant Accumulated(cs + MetricContributions(s.metrics[..j], s, requestedAt, t), keys', byTopic')
    {
      assert s.metrics[..j + 1][..j] == s.metrics[..j];
      var m := s.metrics[j];
      var topic := t.trim(m.topic);
      ghost var before := cs + MetricContributions(s.metrics[..j], s, requestedAt, t);
      ghost var added := MetricContribution(m, s, requestedAt, t);
      assert before + added == cs + MetricContributions(s.metrics[..j + 1], s, requestedAt, t);
      if topic == "" || !t.matches(topic) {
        assert before + added == before;
        continue;
      }
      var c := Contribution(topic, Weight(s.generatedAt, requestedAt), m.score, m.volume, m.acceleration, s.generatedAt);
      OneMore(before, keys', byTopic', c);
      var existing := if topic in byTopic' then byTopic'[topic] else ZERO;
      if topic !in byTopic' {
        keys' := keys' + [topic];
      }
      byTopic' := byTopic'[topic := Add(existing, c)];
    }
    assert s.metrics[..|s.metrics|] == s.metrics;
  }

  lemma OneMore(cs: seq<Contribution>, keys: seq<string>, byTopic: map<string, Acc>, c: Contribution)
    requires Accumulated(cs, keys, byTopic)
    ensures Accumulated(cs + [c], if c.key in byTopic then keys else keys + [c.key],
                        byTopic[c.key := Add(if c.key in byTopic then byTopic[c.key] else ZERO, c)])
  {
    assert (cs + [c])[..|cs|] == cs;
    UntouchedIsZero(cs, c.key);
  }

  ghost predicate Accumulated(cs: seq<Contribution>, keys: seq<string>, byTopic: map<string, Acc>) {
    && keys == Keys(cs)
    && (forall k :: k in byTopic <==> k in keys)
    && (forall k :: k in byTopic ==> byTopic[k] == AccOf(cs, k))
  }

  lemma {:induction false} UntouchedIsZero(cs: seq<Contribution>, key: string)
    ensures key !in Keys(cs) ==> AccOf(cs, key) == ZERO
  {
    if |cs| > 0 {
      UntouchedIsZero(cs[..|cs| - 1], key);
    }
  }

  // ---------------------------------------------------------------- independence of order

  lemma AddSwaps(a: Acc, c: Contribution, d: Contribution)
    ensures Add(Add(a, c), d) == Add(Add(a, d), c)
  {
  }

  function Drop<T>(s: seq<T>, i: nat): seq<T>
    requires i < |s|
  {
    s[..i] + s[i + 1..]
  }

  lemma {:induction false} AccWithout(cs: seq<Contribution>, i: nat, key: string)
    requires i < |cs|
    ensures AccOf(cs, key) == if cs[i].key == key then Add(AccOf(Drop(cs, i), key), cs[i]) else AccOf(Drop(cs, i), key)
  {
    var last := |cs| - 1;
    if i < last {
      assert Drop(cs, i)[..last - 1] == Drop(cs[..last], i);
      AccWithout(cs[..last], i, key);
      AddSwaps(AccOf(Drop(cs[..last], i), key), cs[i], cs[last]);
    } else {
      assert Drop(cs, i) == cs[..last];
    }
  }

  /** Taking the same element off two equal multisets leaves them equal. */
  lemma SameRest<T>(a: seq<T>, b: seq<T>, i: nat)
    requires |a| > 0 && multiset(a) == multiset(b) && i < |b| && b[i] == a[|a| - 1]
    ensures multiset(a[..|a| - 1]) == multiset(Drop(b, i))
  {
    var front, last := a[..|a| - 1], a[|a| - 1];
    assert a == front + [last];
    DropMultiset(b, i);
    assert multiset(front) == multiset(a) - multiset{last};
    assert multiset(Drop(b, i)) == multiset(b) - multiset{last};
  }

  lemma DropMultiset<T>(s: seq<T>, i: nat)
    requires i < |s|
    ensures multiset(s) == multiset(Drop(s, i)) + multiset{s[i]}
  {
    assert s == s[..i] + [s[i]] + s[i + 1..];
  }

  lemma {:induction false} AccIgnoresOrder(a: seq<Contribution>, b: seq<Contribution>, key: string)
    requires multiset(a) == multiset(b)
    ensures AccOf(a, key) == AccOf(b, key)
    decreases |a|
  {
    assert |a| == |multiset(a)| == |multiset(b)| == |b|;
    if |a| > 0 {
      var front, last := a[..|a| - 1], a[|a| - 1];
      assert last in multiset(a) && last in b;
      var i :| 0 <= i < |b| && b[i] == last;
      SameRest(a, b, i);
      AccIgnoresOrder(front, Drop(b, i), key);
      AccWithout(b, i, key);
    }
  }

  lemma ContributionsAppend(ss: seq<Snapshot>, s: Snapshot, requestedAt: int, t: Text)
    ensures multiset(Contributions(ss + [s], requestedAt, t))
         == multiset(Contributions(ss, requestedAt, t)) + multiset(SnapshotContributions(s, requestedAt, t))
  {
    assert (ss + [s])[..|ss|] == ss;
  }

  lemma DropInFront<T>(front: seq<T>, last: T, i: nat)
    requires i <= |front|
    ensures Drop(front + [last], i) == if i < |front| then Drop(front, i) + [last] else front
  {
  }

  lemma SwapParts<T>(a: multiset<T>, b: multiset<T>, c: multiset<T>)
    ensures a + b + c == a + c + b
  {
  }

  lemma {:induction false} ContributionsWithout(ss: seq<Snapshot>, i: nat, requestedAt: int, t: Text)
    requires i < |ss|
    ensures multiset(Contributions(ss, requestedAt, t))
         == multiset(Contributions(Drop(ss, i), requestedAt, t)) + multiset(SnapshotContributions(ss[i], requestedAt, t))
  {
    var front, last := ss[..|ss| - 1], ss[|ss| - 1];
    ContributionsAppend(front, last, requestedAt, t);
    DropInFront(front, last, i);
    assert ss == front + [last];
    if i < |front| {
      ContributionsWithout(front, i, requestedAt, t);
      ContributionsAppend(Drop(front, i), last, requestedAt, t);
      SwapParts(multiset(Contributions(Drop(front, i), requestedAt, t)),
                multiset(SnapshotContributions(ss[i], requestedAt, t)),
                multiset(SnapshotContributions(last, requestedAt, t)));
    }
  }

  lemma {:induction false} ContributionsIgnoreOrder(a: seq<Snapshot>, b: seq<Snapshot>, requestedAt: int, t: Text)
    requires multiset(a) == multiset(b)
    ensures multiset(Contributions(a, requestedAt, t)) == multiset(Contributions(b, requestedAt, t))
    decreases |a|
  {
    assert |a| == |multiset(a)| == |multiset(b)| == |b|;
    if |a| > 0 {
      var front, last := a[..|a| - 1], a[|a| - 1];
      assert last in multiset(a) && last in b;
      var i :| 0 <= i < |b| && b[i] == last;
      SameRest(a, b, i);
      ContributionsIgnoreOrder(front, Drop(b, i), requestedAt, t);
      ContributionsWithout(b, i, requestedAt, t);
    }
  }

  // ---------------------------------------------------------------- the ranking

  datatype RankedTopic = RankedTopic(topic: string, score: real, volume: real, acceleration: real, latest: int)

  function RankedOf(cs: seq<Contribution>, topic: string): RankedTopic {
    var acc := AccOf(cs, topic);
    var denominator := if acc.weight <= 0.0 then 1.0 else acc.weight;
    RankedTopic(topic, acc.score / denominator, acc.volume / denominator, acc.acceleration / denominator,
                if acc.latest.Some? then acc.latest.value else 0)
  }

  /** Higher score first, then the more recent, then by collation. */
  predicate Outranks(score: real, latest: int, name: string, score': real, latest': int, name': string,
                     collate: (string, string) -> bool) {
    score > score' || (score == score' && (latest > latest' || (latest == latest' && collate(name, name'))))
  }

  function TopicOrder(cs: seq<Contribution>, collate: (string, string) -> bool): (string, string) -> bool {
    (a: string, b: string) =>
      var x, y := RankedOf(cs, a), RankedOf(cs, b);
      Outranks(x.score, x.latest, a, y.score, y.latest, b, collate)
  }

  function Map<A, B>(f: A -> B, s: seq<A>): (r: seq<B>)
    ensures |r| == |s|
    ensures forall i :: 0 <= i < |s| ==> r[i] == f(s[i])
  {
    seq(|s|, i requires 0 <= i < |s| => f(s[i]))
  }

  function RankedTopics(cs: seq<Contribution>, collate: (string, string) -> bool): seq<RankedTopic> {
    Map(topic => RankedOf(cs, topic), Sort(TopicOrder(cs, collate), Keys(cs)))
  }

  function Ranking(snapshots: seq<Snapshot>, requestedAt: int, t: Text, collate: (string, string) -> bool): seq<RankedTopic> {
    RankedTopics(Contributions(snapshots, requestedAt, t), collate)
  }

  lemma TopicOrderIsTotal(cs: seq<Contribution>, collate: (string, string) -> bool)
    requires StrictTotalOrder(collate)
    ensures StrictTotalOrder(TopicOrder(cs, collate))
  {
  }

  /** The ranking does not depend on the order of the snapshots. */
  lemma RankingIgnoresOrder(a: seq<Snapshot>, b: seq<Snapshot>, requestedAt: int, t: Text, collate: (string, string) -> bool)
    requires multiset(a) == multiset(b) && StrictTotalOrder(collate)
    ensures Ranking(a, requestedAt, t, collate) == Ranking(b, requestedAt, t, collate)
  {
    ContributionsIgnoreOrder(a, b, requestedAt, t);
    SameRanking(Contributions(a, requestedAt, t), Contributions(b, requestedAt, t), collate);
  }

  lemma SameKeys(a: seq<Contribution>, b: seq<Contribution>)
    requires multiset(a) == multiset(b)
    ensures multiset(Keys(a)) == multiset(Keys(b))
  {
    KeysAre(a);
    KeysAre(b);
    assert forall c :: c in a <==> c in multiset(a);
    assert forall c :: c in b <==> c in multiset(b);
    assert KeySet(a) == KeySet(b);
    DistinctMultiset(Keys(a));
    DistinctMultiset(Keys(b));
    assert multiset(Keys(a)) == multiset(Keys(b));
  }

  lemma {:induction false} DistinctMultiset(keys: seq<string>)
    requires Distinct(keys)
    ensures forall k :: multiset(keys)[k] == if k in keys then 1 else 0
  {
    if |keys| > 0 {
      var front, last := keys[..|keys| - 1], keys[|keys| - 1];
      assert keys == front + [last];
      DistinctMultiset(front);
      assert last !in front;
    }
  }

  lemma SameRanking(a: seq<Contribution>, b: seq<Contribution>, collate: (string, string) -> bool)
    requires multiset(a) == multiset(b) && StrictTotalOrder(collate)
    ensures RankedTopics(a, collate) == RankedTopics(b, collate)
  {
    forall key ensures RankedOf(a, key) == RankedOf(b, key) {
      AccIgnoresOrder(a, b, key);
    }
    SameKeys(a, b);
    TopicOrderIsTotal(a, collate);
    TopicOrderIsTotal(b, collate);
    var sa, sb := Sort(TopicOrder(a, collate), Keys(a)), Sort(TopicOrder(b, collate), Keys(b));
    SortSorts(TopicOrder(a, collate), Keys(a));
    SortSorts(TopicOrder(b, collate), Keys(b));
    assert Sorted(TopicOrder(a, collate), sb);
    SortedUnique(TopicOrder(a, collate), sa, sb);
  }

  // ---------------------------------------------------------------- the score is an average

  /** All scores a topic has across the contributions lie within bounds. */
  ghost predicate ScoresWithin(cs: seq<Contribution>, topic: string, lo: real, hi: real) {
    forall i :: 0 <= i < |cs| && cs[i].key == topic ==> lo <= cs[i].score <= hi
  }

  ghost predicate PositiveWeights(cs: seq<Contribution>) {
    forall i :: 0 <= i < |cs| ==> cs[i].weight > 0.0
  }

  lemma ScaledBounds(lo: real, x: real, hi: real, w: real)
    requires lo <= x <= hi && w > 0.0
    ensures lo * w <= x * w <= hi * w
  {
  }

  lemma Distributes(x: real, v: real, w: real)
    ensures x * (v + w) == x * v + x * w
  {
  }

  lemma SumWithin(lo: real, sum: real, hi: real, weight: real, x: real, w: real)
    requires lo * weight <= sum <= hi * weight && lo <= x <= hi && w > 0.0
    ensures lo * (weight + w) <= sum + x * w <= hi * (weight + w)
  {
    ScaledBounds(lo, x, hi, w);
    Distributes(lo, weight, w);
    Distributes(hi, weight, w);
  }

  /** The accumulated score is a weighted sum of scores within the bounds. */
  predicate Bounded(acc: Acc, lo: real, hi: real) {
    lo * acc.weight <= acc.score <= hi * acc.weight
  }

  lemma AddBounded(acc: Acc, c: Contribution, lo: real, hi: real)
    requires Bounded(acc, lo, hi) && lo <= c.score <= hi && c.weight > 0.0
    ensures Bounded(Add(acc, c), lo, hi)
  {
    SumWithin(lo, acc.score, hi, acc.weight, c.score, c.weight);
  }

  lemma {:induction false} AccWithinBounds(cs: seq<Contribution>, topic: string, lo: real, hi: real)
    requires ScoresWithin(cs, topic, lo, hi) && PositiveWeights(cs)
    ensures Bounded(AccOf(cs, topic), lo, hi)
  {
    if |cs| > 0 {
      var front, last := cs[..|cs| - 1], cs[|cs| - 1];
      assert forall i :: 0 <= i < |front| ==> front[i] == cs[i];
      AccWithinBounds(front, topic, lo, hi);
      if last.key == topic {
        AddBounded(AccOf(front, topic), last, lo, hi);
      }
    }
  }

  lemma {:induction false} WeightIsPositive(cs: seq<Contribution>, topic: string)
    requires PositiveWeights(cs)
    ensures AccOf(cs, topic).weight >= 0.0
    ensures topic in KeySet(cs) ==> AccOf(cs, topic).weight > 0.0
  {
    if |cs| > 0 {
      var front, last := cs[..|cs| - 1], cs[|cs| - 1];
      assert forall i :: 0 <= i < |front| ==> front[i] == cs[i];
      WeightIsPositive(front, topic);
      KeySetFront(front, last);
      assert cs == front + [last];
    }
  }

  lemma ScaledOrder(a: real, b: real, w: real)
    requires w > 0.0
    ensures a * w <= b * w <==> a <= b
  {
  }

  lemma DivideBounds(lo: real, sum: real, hi: real, w: real)
    requires w > 0.0 && lo * w <= sum <= hi * w
    ensures lo <= sum / w <= hi
  {
    var q := sum / w;
    assert q * w == sum;
    ScaledOrder(lo, q, w);
    ScaledOrder(q, hi, w);
  }

  lemma {:induction false} ContributionWeights(snapshots: seq<Snapshot>, requestedAt: int, t: Text)
    ensures PositiveWeights(Contributions(snapshots, requestedAt, t))
  {
    if |snapshots| > 0 {
      ContributionWeights(snapshots[..|snapshots| - 1], requestedAt, t);
      var s := snapshots[|snapshots| - 1];
      MetricWeights(s.metrics, s, requestedAt, t);
    }
  }

  lemma {:induction false} MetricWeights(metrics: seq<Metric>, s: Snapshot, requestedAt: int, t: Text)
    ensures PositiveWeights(MetricContributions(metrics, s, requestedAt, t))
  {
    if |metrics| > 0 {
      MetricWeights(metrics[..|metrics| - 1], s, requestedAt, t);
    }
  }

  lemma TopicScoreWithin(cs: seq<Contribution>, topic: string, lo: real, hi: real)
    requires ScoresWithin(cs, topic, lo, hi) && PositiveWeights(cs) && topic in KeySet(cs)
    ensures lo <= RankedOf(cs, topic).score <= hi
  {
    var acc := AccOf(cs, topic);
    AccWithinBounds(cs, topic, lo, hi);
    WeightIsPositive(cs, topic);
    DivideBounds(lo, acc.score, hi, acc.weight);
  }

  lemma RankedTopicsAre(cs: seq<Contribution>, collate: (string, string) -> bool, r: RankedTopic)
    requires StrictTotalOrder(collate) && r in RankedTopics(cs, collate)
    ensures r.topic in KeySet(cs) && r == RankedOf(cs, r.topic)
  {
    var sorted := Sort(TopicOrder(cs, collate), Keys(cs));
    TopicOrderIsTotal(cs, collate);
    SortSorts(TopicOrder(cs, collate), Keys(cs));
    KeysAre(cs);
    var i :| 0 <= i < |sorted| && RankedTopics(cs, collate)[i] == r;
    assert sorted[i] in sorted;
  }

  /** A ranked topic occurs in some snapshot, and its score lies between the least and the greatest score
      it has across the snapshots. */
  lemma ScoreIsAverage(snapshots: seq<Snapshot>, requestedAt: int, t: Text, collate: (string, string) -> bool,
                       r: RankedTopic, lo: real, hi: real)
    requires StrictTotalOrder(collate) && r in Ranking(snapshots, requestedAt, t, collate)
    requires ScoresWithin(Contributions(snapshots, requestedAt, t), r.topic, lo, hi)
    ensures r.topic in KeySet(Contributions(snapshots, requestedAt, t)) && lo <= r.score <= hi
  {
    var cs := Contributions(snapshots, requestedAt, t);
    RankedTopicsAre(cs, collate, r);
    ContributionWeights(snapshots, requestedAt, t);
    TopicScoreWithin(cs, r.topic, lo, hi);
  }

  // ---------------------------------------------------------------- the cap on topic groups

  /** What the ranked topics add to their top-level groups; topics with a blank group add nothing. */
  function GroupContributions(ranked: seq<RankedTopic>, t: Text): seq<Contribution> {
    if |ranked| == 0 then []
    else
      var front, r := GroupContributions(ranked[..|ranked| - 1], t), ranked[|ranked| - 1];
      if t.group(r.topic) == "" then front
      else front + [Contribution(t.group(r.topic), 1.0, r.score, 0.0, 0.0, r.latest)]
  }

  /** The summed score of a group and its latest snapshot. */
  function GroupOf(gs: seq<Contribution>, group: string): RankedTopic {
    var acc := AccOf(gs, group);
    RankedTopic(group, acc.score, 0.0, 0.0, if acc.latest.Some? then acc.latest.value else 0)
  }

  function GroupOrder(gs: seq<Contribution>, collate: (string, string) -> bool): (string, string) -> bool {
    (a: string, b: string) =>
      var x, y := GroupOf(gs, a), GroupOf(gs, b);
      Outranks(x.score, x.latest, a, y.score, y.latest, b, collate)
  }

  /** The best `n` groups. */
  function BestGroups(gs: seq<Contribution>, n: nat, collate: (string, string) -> bool): seq<string> {
    var sorted := Sort(GroupOrder(gs, collate), Keys(gs));
    if |sorted| <= n then sorted else sorted[..n]
  }

  /** The kept groups, best first; `None` is a maximum that is not finite. */
  function SelectGroups(ranked: seq<RankedTopic>, max: Option<real>, t: Text, collate: (string, string) -> bool): seq<string> {
    if max.None? || max.value <= 0.0 then []
    else BestGroups(GroupContributions(ranked, t), max.value.Floor, collate)
  }

  function InGroups(ranked: seq<RankedTopic>, groups: seq<string>, t: Text): seq<RankedTopic> {
    if |ranked| == 0 then []
    else InGroups(ranked[..|ranked| - 1], groups, t)
         + (if t.group(ranked[|ranked| - 1].topic) in groups then [ranked[|ranked| - 1]] else [])
  }

  lemma GroupOrderIsTotal(gs: seq<Contribution>, collate: (string, string) -> bool)
    requires StrictTotalOrder(collate)
    ensures StrictTotalOrder(GroupOrder(gs, collate))
  {
  }

  lemma {:induction false} GroupsOfRanked(ranked: seq<RankedTopic>, t: Text)
    ensures KeySet(GroupContributions(ranked, t)) == set r | r in ranked && t.group(r.topic) != "" :: t.group(r.topic)
  {
    if |ranked| > 0 {
      var front, last := ranked[..|ranked| - 1], ranked[|ranked| - 1];
      assert ranked == front + [last];
      GroupsOfRanked(front, t);
      if t.group(last.topic) != "" {
        KeySetFront(GroupContributions(front, t), Contribution(t.group(last.topic), 1.0, last.score, 0.0, 0.0, last.latest));
      }
    }
  }

  lemma BestGroupsAre(gs: seq<Contribution>, n: nat, collate: (string, string) -> bool)
    requires StrictTotalOrder(collate)
    ensures var kept := BestGroups(gs, n, collate);
            && |kept| <= n
            && (forall g :: g in kept ==> g in KeySet(gs))
            && (forall g, k :: g in KeySet(gs) && g !in kept && k in kept ==> GroupOrder(gs, collate)(k, g))
            && (forall g :: g in KeySet(gs) && g !in kept ==> |kept| == n)
  {
    var less := GroupOrder(gs, collate);
    var sorted, kept := Sort(less, Keys(gs)), BestGroups(gs, n, collate);
    GroupOrderIsTotal(gs, collate);
    SortSorts(less, Keys(gs));
    KeysAre(gs);
    assert kept == sorted[..|kept|];
    TakeIsBest(less, sorted, |kept|);
  }

  /** At most `floor(max)` groups are kept, each the group of a ranked topic and none blank; a group that is
      left out is outranked by every kept one, and is left out only because the cap is reached. */
  lemma GroupCap(ranked: seq<RankedTopic>, max: real, t: Text, collate: (string, string) -> bool)
    requires StrictTotalOrder(collate) && max > 0.0
    ensures var kept := SelectGroups(ranked, Some(max), t, collate);
            && |kept| <= max.Floor
            && (forall g :: g in kept ==> g != "" && exists r :: r in ranked && t.group(r.topic) == g)
            && (forall r :: r in ranked && t.group(r.topic) != "" && t.group(r.topic) !in kept ==>
                  && |kept| == max.Floor
                  && forall g :: g in kept ==> GroupOrder(GroupContributions(ranked, t), collate)(g, t.group(r.topic)))
  {
    BestGroupsAre(GroupContributions(ranked, t), max.Floor, collate);
    GroupsOfRanked(ranked, t);
  }

  /** The filter keeps exactly the ranked topics of the kept groups, in rank order. */
  lemma {:induction false} FilterKeepsRankOrder(ranked: seq<RankedTopic>, groups: seq<string>, t: Text)
    ensures var r := InGroups(ranked, groups, t);
            && (forall x :: x in r <==> x in ranked && t.group(x.topic) in groups)
            && (forall i, j :: 0 <= i < j < |r| ==> exists a, b :: 0 <= a < b < |ranked| && ranked[a] == r[i] && ranked[b] == r[j])
  {
    if |ranked| > 0 {
      var front, last := ranked[..|ranked| - 1], ranked[|ranked| - 1];
      assert ranked == front + [last];
      FilterKeepsRankOrder(front, groups, t);
      var rest, r := InGroups(front, groups, t), InGroups(ranked, groups, t);
      forall i, j | 0 <= i < j < |r|
        ensures exists a, b :: 0 <= a < b < |ranked| && ranked[a] == r[i] && ranked[b] == r[j]
      {
        if j < |rest| {
          var a, b :| 0 <= a < b < |front| && front[a] == rest[i] && front[b] == rest[j];
          assert ranked[a] == r[i] && ranked[b] == r[j];
        } else {
          assert rest[i] in front;
          var a :| 0 <= a < |front| && front[a] == rest[i];
          assert ranked[a] == r[i] && ranked[|front|] == r[j];
        }
      }
    }
  }
}
