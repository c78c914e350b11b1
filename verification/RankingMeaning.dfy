/** What the ranking of topics means, said over the snapshots themselves: which topics it has, what their numbers
    are, in which order they come, and which groups are kept. */
module RankingMeaning {
  import opened Ordering
  import opened TopicRanking

  // ---------------------------------------------------------------- weights

  /** A snapshot loses weight with its age: the weight times one plus the age in hours is one. */
  lemma WeightIs(generatedAt: int, requestedAt: int)
    ensures generatedAt >= requestedAt ==> Weight(generatedAt, requestedAt) == 1.0
    ensures generatedAt <= requestedAt ==>
              Weight(generatedAt, requestedAt) * (3_600_000 + requestedAt - generatedAt) as real == 3_600_000.0
  {
    if generatedAt < requestedAt {
      var age := (requestedAt - generatedAt) as real;
      var w := Weight(generatedAt, requestedAt);
      assert w == 1.0 / (1.0 + age / 3_600_000.0);
      assert w * (1.0 + age / 3_600_000.0) == 1.0;
      assert (3_600_000 + requestedAt - generatedAt) as real == 3_600_000.0 * (1.0 + age / 3_600_000.0);
      assert w * (3_600_000.0 * (1.0 + age / 3_600_000.0)) == 3_600_000.0 * (w * (1.0 + age / 3_600_000.0));
    }
  }

  /** A snapshot of one hour ago has half the weight of one just made. */
  lemma OneHourHalves(requestedAt: int)
    ensures Weight(requestedAt - 3_600_000, requestedAt) == 0.5
  {
    WeightIs(requestedAt - 3_600_000, requestedAt);
  }

  /** Of two snapshots from before the request, the more recent one weighs more. */
  lemma RecentWeighsMore(older: int, newer: int, requestedAt: int)
    requires older < newer <= requestedAt
    ensures Weight(older, requestedAt) < Weight(newer, requestedAt)
  {
    var v, w := Weight(older, requestedAt), Weight(newer, requestedAt);
    var a, b := (3_600_000 + requestedAt - older) as real, (3_600_000 + requestedAt - newer) as real;
    WeightIs(older, requestedAt);
    WeightIs(newer, requestedAt);
    Inverse(v, a, w, b);
  }

  lemma Inverse(v: real, a: real, w: real, b: real)
    requires v * a == w * b && v > 0.0 && w > 0.0 && 0.0 < b < a
    ensures v < w
  {
    PositiveProduct(w, a - b);
    assert (w - v) * a == w * (a - b);
    PositiveFactor(w - v, a);
  }

  lemma PositiveProduct(x: real, y: real)
    requires x > 0.0 && y > 0.0
    ensures x * y > 0.0
  {
  }

  lemma PositiveFactor(x: real, y: real)
    requires x * y > 0.0 && y > 0.0
    ensures x > 0.0
  {
  }

  // ---------------------------------------------------------------- the numbers of a topic

  /** The metric is one of the topic, as the request matches topics. */
  predicate Of(m: Metric, topic: string, t: Text) {
    topic != "" && t.trim(m.topic) == topic && t.matches(topic)
  }

  function MetricTotal(metrics: seq<Metric>, topic: string, t: Text, value: Metric -> real): real {
    if |metrics| == 0 then 0.0
    else
      var last := metrics[|metrics| - 1];
      MetricTotal(metrics[..|metrics| - 1], topic, t, value) + if Of(last, topic, t) then value(last) else 0.0
  }

  /** A value of the topic summed over the valid snapshots, each with its weight. */
  function Total(ss: seq<Snapshot>, topic: string, requestedAt: int, t: Text, value: Metric -> real): real {
    if |ss| == 0 then 0.0
    else
      Total(ss[..|ss| - 1], topic, requestedAt, t, value) + SnapshotTotal(ss[|ss| - 1], topic, requestedAt, t, value)
  }

  function SnapshotTotal(s: Snapshot, topic: string, requestedAt: int, t: Text, value: Metric -> real): real {
    if s.valid then MetricTotal(s.metrics, topic, t, value) * Weight(s.generatedAt, requestedAt) else 0.0
  }

  predicate Mentions(s: Snapshot, topic: string, t: Text) {
    s.valid && exists m :: m in s.metrics && Of(m, topic, t)
  }

  lemma {:induction false} AccConcat(a: seq<Contribution>, b: seq<Contribution>, key: string)
    ensures var x, y, z := AccOf(a, key), AccOf(b, key), AccOf(a + b, key);
            && z.score == x.score + y.score && z.volume == x.volume + y.volume
            && z.acceleration == x.acceleration + y.acceleration && z.weight == x.weight + y.weight
    decreases |b|
  {
    if |b| == 0 {
      assert a + b == a;
    } else {
      var front, last := b[..|b| - 1], b[|b| - 1];
      assert a + b == a + front + [last] && (a + b)[..|a + b| - 1] == a + front;
      AccConcat(a, front, key);
    }
  }

  /** The sums of an accumulator are those of the values times this weight. */
  predicate Sums(acc: Acc, score: real, volume: real, acceleration: real, count: real, w: real) {
    acc.score == score * w && acc.volume == volume * w && acc.acceleration == acceleration * w && acc.weight == count * w
  }

  function Score(): Metric -> real { (m: Metric) => m.score }

  function Volume(): Metric -> real { (m: Metric) => m.volume }

  function Acceleration(): Metric -> real { (m: Metric) => m.acceleration }

  function One(): Metric -> real { (m: Metric) => 1.0 }

  lemma Scaled(x: real, v: real, w: real)
    ensures (x + v) * w == x * w + v * w
  {
  }

  lemma AddedSums(acc: Acc, m: Metric, c: Contribution, score: real, volume: real, acceleration: real, count: real)
    requires Sums(acc, score, volume, acceleration, count, c.weight)
    requires c.score == m.score && c.volume == m.volume && c.acceleration == m.acceleration
    ensures Sums(Add(acc, c), score + m.score, volume + m.volume, acceleration + m.acceleration, count + 1.0, c.weight)
  {
    Scaled(score, m.score, c.weight);
    Scaled(volume, m.volume, c.weight);
    Scaled(acceleration, m.acceleration, c.weight);
    Scaled(count, 1.0, c.weight);
  }

  lemma OneMetricMore(cs: seq<Contribution>, m: Metric, s: Snapshot, requestedAt: int, t: Text, topic: string)
    ensures AccOf(cs + MetricContribution(m, s, requestedAt, t), topic)
         == if Of(m, topic, t)
            then Add(AccOf(cs, topic),
                     Contribution(topic, Weight(s.generatedAt, requestedAt), m.score, m.volume, m.acceleration, s.generatedAt))
            else AccOf(cs, topic)
  {
    var c := MetricContribution(m, s, requestedAt, t);
    if |c| == 0 {
      assert cs + c == cs;
    } else {
      assert (cs + c)[..|cs|] == cs;
    }
  }

  lemma {:induction false} SnapshotSums(metrics: seq<Metric>, s: Snapshot, requestedAt: int, t: Text, topic: string)
    ensures Sums(AccOf(MetricContributions(metrics, s, requestedAt, t), topic),
                 MetricTotal(metrics, topic, t, Score()), MetricTotal(metrics, topic, t, Volume()),
                 MetricTotal(metrics, topic, t, Acceleration()), MetricTotal(metrics, topic, t, One()),
                 Weight(s.generatedAt, requestedAt))
  {
    if |metrics| > 0 {
      hide Weight, Sums, Add, Of, MetricContribution, AccOf;
      var front, last := metrics[..|metrics| - 1], metrics[|metrics| - 1];
      var w := Weight(s.generatedAt, requestedAt);
      SnapshotSums(front, s, requestedAt, t, topic);
      OneMetricMore(MetricContributions(front, s, requestedAt, t), last, s, requestedAt, t, topic);
      if Of(last, topic, t) {
        AddedSums(AccOf(MetricContributions(front, s, requestedAt, t), topic), last,
                  Contribution(topic, w, last.score, last.volume, last.acceleration, s.generatedAt),
                  MetricTotal(front, topic, t, Score()), MetricTotal(front, topic, t, Volume()),
                  MetricTotal(front, topic, t, Acceleration()), MetricTotal(front, topic, t, One()));
      }
    } else {
      ZeroSums(Weight(s.generatedAt, requestedAt));
    }
  }

  lemma ZeroSums(w: real)
    ensures Sums(ZERO, 0.0, 0.0, 0.0, 0.0, w)
  {
  }

  lemma SnapshotTotals(s: Snapshot, requestedAt: int, t: Text, topic: string)
    ensures var acc := AccOf(SnapshotContributions(s, requestedAt, t), topic);
            && acc.score == SnapshotTotal(s, topic, requestedAt, t, Score())
            && acc.volume == SnapshotTotal(s, topic, requestedAt, t, Volume())
            && acc.acceleration == SnapshotTotal(s, topic, requestedAt, t, Acceleration())
            && acc.weight == SnapshotTotal(s, topic, requestedAt, t, One())
  {
    hide Weight, MetricTotal, MetricContributions;
    if s.valid {
      SnapshotSums(s.metrics, s, requestedAt, t, topic);
    }
  }

  lemma {:induction false} TotalsAre(ss: seq<Snapshot>, requestedAt: int, t: Text, topic: string)
    ensures var acc := AccOf(Contributions(ss, requestedAt, t), topic);
            && acc.score == Total(ss, topic, requestedAt, t, Score()) && acc.volume == Total(ss, topic, requestedAt, t, Volume())
            && acc.acceleration == Total(ss, topic, requestedAt, t, Acceleration())
            && acc.weight == Total(ss, topic, requestedAt, t, One())
  {
    if |ss| > 0 {
      hide SnapshotTotal, SnapshotContributions, AccOf;
      var front, last := ss[..|ss| - 1], ss[|ss| - 1];
      TotalsAre(front, requestedAt, t, topic);
      AccConcat(Contributions(front, requestedAt, t), SnapshotContributions(last, requestedAt, t), topic);
      SnapshotTotals(last, requestedAt, t, topic);
    }
  }

  /** When a topic was contributed to. */
  function Times(cs: seq<Contribution>, key: string): set<int> {
    set c | c in cs && c.key == key :: c.at
  }

  /** When valid snapshots that mention it were made. */
  function MentionTimes(ss: seq<Snapshot>, topic: string, t: Text): set<int> {
    set s | s in ss && Mentions(s, topic, t) :: s.generatedAt
  }

  lemma TimesConcat(a: seq<Contribution>, b: seq<Contribution>, key: string)
    ensures Times(a + b, key) == Times(a, key) + Times(b, key)
  {
  }

  lemma {:induction false} MetricTimes(metrics: seq<Metric>, s: Snapshot, requestedAt: int, t: Text, topic: string)
    ensures Times(MetricContributions(metrics, s, requestedAt, t), topic)
         == if exists m :: m in metrics && Of(m, topic, t) then {s.generatedAt} else {}
  {
    if |metrics| > 0 {
      var front, last := metrics[..|metrics| - 1], metrics[|metrics| - 1];
      MetricTimes(front, s, requestedAt, t, topic);
      var cs, c := MetricContributions(front, s, requestedAt, t), MetricContribution(last, s, requestedAt, t);
      TimesConcat(cs, c, topic);
      assert Times(c, topic) == if Of(last, topic, t) then {s.generatedAt} else {} by {
        assert |c| > 0 ==> c[0] in c;
      }
      assert forall m :: m in metrics <==> m in front || m == last by {
        assert metrics == front + [last];
      }
    }
  }

  /** Who contributes to a topic, and when: exactly the valid snapshots that mention it. */
  lemma {:induction false} TimesAre(ss: seq<Snapshot>, requestedAt: int, t: Text, topic: string)
    ensures Times(Contributions(ss, requestedAt, t), topic) == MentionTimes(ss, topic, t)
  {
    if |ss| > 0 {
      var front, last := ss[..|ss| - 1], ss[|ss| - 1];
      TimesAre(front, requestedAt, t, topic);
      MetricTimes(last.metrics, last, requestedAt, t, topic);
      TimesConcat(Contributions(front, requestedAt, t), SnapshotContributions(last, requestedAt, t), topic);
      MentionedAlso(front, last, topic, t);
      assert ss == front + [last];
    }
  }

  lemma MentionedAlso(front: seq<Snapshot>, last: Snapshot, topic: string, t: Text)
    ensures MentionTimes(front + [last], topic, t)
         == MentionTimes(front, topic, t) + if Mentions(last, topic, t) then {last.generatedAt} else {}
  {
    assert forall s :: s in front + [last] <==> s in front || s == last;
  }

  lemma {:induction false} LatestIs(cs: seq<Contribution>, key: string)
    ensures var latest := AccOf(cs, key).latest;
            && (latest.None? <==> Times(cs, key) == {})
            && (latest.Some? ==> latest.value in Times(cs, key) && forall at :: at in Times(cs, key) ==> at <= latest.value)
  {
    if |cs| > 0 {
      var front, last := cs[..|cs| - 1], cs[|cs| - 1];
      LatestIs(front, key);
      TimesConcat(front, [last], key);
      assert cs == front + [last];
      assert Times([last], key) == if last.key == key then {last.at} else {};
    }
  }

  /** The ranking has a topic if and only if a valid snapshot mentions it, and has it once. Its score, volume and
      acceleration are the averages over its mentions, weighted by recency, and its time is that of the latest
      snapshot that mentions it. */
  lemma RankingIs(ss: seq<Snapshot>, requestedAt: int, t: Text, collate: (string, string) -> bool, topic: string)
    requires StrictTotalOrder(collate)
    ensures var ranking := Ranking(ss, requestedAt, t, collate);
            && ((exists i :: 0 <= i < |ranking| && ranking[i].topic == topic) <==> exists s :: s in ss && Mentions(s, topic, t))
            && (forall i, j :: 0 <= i < j < |ranking| ==> ranking[i].topic != ranking[j].topic)
            && (forall r :: r in ranking && r.topic == topic ==> IsAveraged(ss, requestedAt, t, r))
  {
    hide IsAveraged, Ranking;
    RankedOnce(Contributions(ss, requestedAt, t), collate);
    MentionedIsKey(ss, requestedAt, t, topic);
    RankingOf(ss, requestedAt, t, collate);
    forall r | r in Ranking(ss, requestedAt, t, collate) && r.topic == topic ensures IsAveraged(ss, requestedAt, t, r) {
      Averaged(ss, requestedAt, t, collate, r);
    }
  }

  lemma RankingOf(ss: seq<Snapshot>, requestedAt: int, t: Text, collate: (string, string) -> bool)
    ensures Ranking(ss, requestedAt, t, collate) == RankedTopics(Contributions(ss, requestedAt, t), collate)
  {
  }

  /** The topic's numbers are averages over its mentions weighted by recency, and its time is that of the latest one. */
  ghost predicate IsAveraged(ss: seq<Snapshot>, requestedAt: int, t: Text, r: RankedTopic) {
    var weight := Total(ss, r.topic, requestedAt, t, One());
    && weight > 0.0
    && r.score * weight == Total(ss, r.topic, requestedAt, t, Score())
    && r.volume * weight == Total(ss, r.topic, requestedAt, t, Volume())
    && r.acceleration * weight == Total(ss, r.topic, requestedAt, t, Acceleration())
    && r.latest in MentionTimes(ss, r.topic, t)
    && forall at :: at in MentionTimes(ss, r.topic, t) ==> at <= r.latest
  }

  lemma Averaged(ss: seq<Snapshot>, requestedAt: int, t: Text, collate: (string, string) -> bool, r: RankedTopic)
    requires StrictTotalOrder(collate) && r in Ranking(ss, requestedAt, t, collate)
    ensures IsAveraged(ss, requestedAt, t, r)
  {
    RankedTopicsAre(Contributions(ss, requestedAt, t), collate, r);
    KeyIsAveraged(ss, requestedAt, t, r.topic);
  }

  lemma KeyIsAveraged(ss: seq<Snapshot>, requestedAt: int, t: Text, topic: string)
    requires topic in KeySet(Contributions(ss, requestedAt, t))
    ensures IsAveraged(ss, requestedAt, t, RankedOf(Contributions(ss, requestedAt, t), topic))
  {
    var cs := Contributions(ss, requestedAt, t);
    hide AccOf, Total, MentionTimes, Contributions, RankedOf, PositiveWeights;
    var c :| c in cs && c.key == topic;
    assert c.at in Times(cs, topic);
    hide KeySet, Times;
    TotalsAre(ss, requestedAt, t, topic);
    ContributionWeights(ss, requestedAt, t);
    WeightIsPositive(cs, topic);
    LatestIs(cs, topic);
    TimesAre(ss, requestedAt, t, topic);
    RankedIs(cs, topic);
    assert RankedOf(cs, topic).topic == topic by {
      TopicOfRanked(cs, topic);
    }
  }

  lemma TopicOfRanked(cs: seq<Contribution>, topic: string)
    ensures RankedOf(cs, topic).topic == topic
  {
  }

  lemma RankedIs(cs: seq<Contribution>, topic: string)
    requires AccOf(cs, topic).weight > 0.0 && AccOf(cs, topic).latest.Some?
    ensures var r, acc := RankedOf(cs, topic), AccOf(cs, topic);
            && r.score * acc.weight == acc.score && r.volume * acc.weight == acc.volume
            && r.acceleration * acc.weight == acc.acceleration && r.latest == acc.latest.value
  {
    hide AccOf;
    var acc := AccOf(cs, topic);
    Quotient(acc.score, acc.weight);
    Quotient(acc.volume, acc.weight);
    Quotient(acc.acceleration, acc.weight);
  }

  lemma Quotient(sum: real, weight: real)
    requires weight > 0.0
    ensures sum / weight * weight == sum
  {
  }

  lemma MentionedIsKey(ss: seq<Snapshot>, requestedAt: int, t: Text, topic: string)
    ensures topic in KeySet(Contributions(ss, requestedAt, t)) <==> exists s :: s in ss && Mentions(s, topic, t)
  {
    var cs := Contributions(ss, requestedAt, t);
    TimesAre(ss, requestedAt, t, topic);
    hide Contributions, Mentions;
    if topic in KeySet(cs) {
      var c :| c in cs && c.key == topic;
      assert c.at in Times(cs, topic);
    }
    if s :| s in ss && Mentions(s, topic, t) {
      assert s.generatedAt in MentionTimes(ss, topic, t);
      assert s.generatedAt in Times(cs, topic);
    }
  }

  lemma OnceEach(s: seq<string>)
    requires forall k :: multiset(s)[k] <= 1
    ensures Distinct(s)
  {
    forall i, j | 0 <= i < j < |s| ensures s[i] != s[j] {
      var a, b := s[..j], s[j..];
      assert s == a + b && a[i] == s[i] && b[0] == s[j];
      assert s[i] in a && s[j] in b;
      assert multiset(s)[s[i]] == multiset(a)[s[i]] + multiset(b)[s[i]];
    }
  }

  lemma SortedKeys(cs: seq<Contribution>, collate: (string, string) -> bool)
    requires StrictTotalOrder(collate)
    ensures var sorted := Sort(TopicOrder(cs, collate), Keys(cs));
            && Distinct(sorted) && Sorted(TopicOrder(cs, collate), sorted) && (forall key :: key in sorted <==> key in KeySet(cs))
  {
    TopicOrderIsTotal(cs, collate);
    SortSorts(TopicOrder(cs, collate), Keys(cs));
    KeysAre(cs);
    DistinctMultiset(Keys(cs));
    OnceEach(Sort(TopicOrder(cs, collate), Keys(cs)));
  }

  lemma RankedOnce(cs: seq<Contribution>, collate: (string, string) -> bool)
    requires StrictTotalOrder(collate)
    ensures var ranking := RankedTopics(cs, collate);
            && (forall i, j :: 0 <= i < j < |ranking| ==> ranking[i].topic != ranking[j].topic)
            && (forall key :: key in KeySet(cs) <==> exists i :: 0 <= i < |ranking| && ranking[i].topic == key)
  {
    SortedKeys(cs, collate);
    hide TopicOrder, Sort, KeySet, AccOf;
    var sorted, ranking := Sort(TopicOrder(cs, collate), Keys(cs)), RankedTopics(cs, collate);
    assert |ranking| == |sorted| && forall i :: 0 <= i < |sorted| ==> ranking[i].topic == sorted[i];
    forall key | key in KeySet(cs) ensures exists i :: 0 <= i < |ranking| && ranking[i].topic == key {
      var i :| 0 <= i < |sorted| && sorted[i] == key;
      assert ranking[i].topic == key;
    }
  }

  /** The ranking goes by score, highest first; equal scores by time, latest first; equal times by collation. */
  lemma RankingOrder(ss: seq<Snapshot>, requestedAt: int, t: Text, collate: (string, string) -> bool, i: nat, j: nat)
    requires StrictTotalOrder(collate) && i < j < |Ranking(ss, requestedAt, t, collate)|
    ensures var a, b := Ranking(ss, requestedAt, t, collate)[i], Ranking(ss, requestedAt, t, collate)[j];
            && a.score >= b.score
            && (a.score == b.score ==> a.latest >= b.latest)
            && (a.score == b.score && a.latest == b.latest ==> collate(a.topic, b.topic))
  {
    var cs := Contributions(ss, requestedAt, t);
    SortedKeys(cs, collate);
    var sorted := Sort(TopicOrder(cs, collate), Keys(cs));
    var a, b := sorted[i], sorted[j];
    assert !TopicOrder(cs, collate)(b, a) && a != b;
    assert collate(a, b) || collate(b, a);
  }

  // ---------------------------------------------------------------- groups

  /** The summed score of the ranked topics of a group. */
  function GroupScore(ranked: seq<RankedTopic>, group: string, t: Text): real {
    if |ranked| == 0 then 0.0
    else
      var last := ranked[|ranked| - 1];
      GroupScore(ranked[..|ranked| - 1], group, t) + if t.group(last.topic) == group then last.score else 0.0
  }

  /** The latest time of the ranked topics of a group. */
  predicate IsGroupLatest(ranked: seq<RankedTopic>, group: string, t: Text, latest: int) {
    && (exists r :: r in ranked && t.group(r.topic) == group && r.latest == latest)
    && (forall r :: r in ranked && t.group(r.topic) == group ==> r.latest <= latest)
  }

  function GroupTimes(ranked: seq<RankedTopic>, group: string, t: Text): set<int> {
    set r | r in ranked && t.group(r.topic) == group :: r.latest
  }

  lemma {:induction false} GroupsAre(ranked: seq<RankedTopic>, group: string, t: Text)
    requires group != ""
    ensures AccOf(GroupContributions(ranked, t), group).score == GroupScore(ranked, group, t)
    ensures Times(GroupContributions(ranked, t), group) == GroupTimes(ranked, group, t)
  {
    if |ranked| > 0 {
      var front, last := ranked[..|ranked| - 1], ranked[|ranked| - 1];
      assert ranked == front + [last];
      GroupsAre(front, group, t);
      GroupedAlso(front, last, group, t);
      var gs := GroupContributions(front, t);
      if t.group(last.topic) != "" {
        var c := Contribution(t.group(last.topic), 1.0, last.score, 0.0, 0.0, last.latest);
        TimesConcat(gs, [c], group);
        assert Times([c], group) == if c.key == group then {c.at} else {};
        assert GroupContributions(ranked, t) == gs + [c] && (gs + [c])[..|gs|] == gs;
      }
    }
  }

  lemma GroupedAlso(front: seq<RankedTopic>, last: RankedTopic, group: string, t: Text)
    ensures GroupTimes(front + [last], group, t)
         == GroupTimes(front, group, t) + if t.group(last.topic) == group then {last.latest} else {}
  {
    assert forall r :: r in front + [last] <==> r in front || r == last;
  }

  lemma GroupLatestIs(ranked: seq<RankedTopic>, group: string, t: Text, latest: int)
    requires group != "" && IsGroupLatest(ranked, group, t, latest)
    ensures GroupOf(GroupContributions(ranked, t), group).latest == latest
  {
    var gs := GroupContributions(ranked, t);
    GroupsAre(ranked, group, t);
    LatestIs(gs, group);
    hide GroupContributions, AccOf;
    assert latest in GroupTimes(ranked, group, t);
  }

  /** A maximum that is not finite or not positive keeps nothing. */
  lemma NoGroups(ranked: seq<RankedTopic>, max: Option<real>, t: Text, collate: (string, string) -> bool)
    requires max.None? || max.value <= 0.0
    ensures SelectGroups(ranked, max, t, collate) == [] && InGroups(ranked, [], t) == []
  {
    NoneInGroups(ranked, t);
  }

  lemma {:induction false} NoneInGroups(ranked: seq<RankedTopic>, t: Text)
    ensures InGroups(ranked, [], t) == []
  {
    if |ranked| > 0 {
      NoneInGroups(ranked[..|ranked| - 1], t);
    }
  }

  /** A group that is left out has a lower summed score than every kept one, or the same and an earlier latest time,
      or the same of both and comes later in collation. */
  lemma KeptGroupsAreBest(ranked: seq<RankedTopic>, max: real, t: Text, collate: (string, string) -> bool,
                          out: RankedTopic, group: string, latest: int, latest': int)
    requires StrictTotalOrder(collate) && max > 0.0
    requires out in ranked && t.group(out.topic) != "" && t.group(out.topic) !in SelectGroups(ranked, Some(max), t, collate)
    requires group in SelectGroups(ranked, Some(max), t, collate)
    requires IsGroupLatest(ranked, group, t, latest) && IsGroupLatest(ranked, t.group(out.topic), t, latest')
    ensures var score, score' := GroupScore(ranked, group, t), GroupScore(ranked, t.group(out.topic), t);
            && score >= score' && (score == score' ==> latest >= latest')
            && (score == score' && latest == latest' ==> collate(group, t.group(out.topic)))
  {
    var left := t.group(out.topic);
    GroupCap(ranked, max, t, collate);
    GroupsAre(ranked, group, t);
    GroupsAre(ranked, left, t);
    GroupLatestIs(ranked, group, t, latest);
    GroupLatestIs(ranked, left, t, latest');
    hide GroupScore, GroupContributions, SelectGroups, AccOf;
    assert GroupOrder(GroupContributions(ranked, t), collate)(group, left);
  }
}
