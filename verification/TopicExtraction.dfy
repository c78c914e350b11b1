/** Topics of an event: every allowed topic that matches, best priority first, cut to a maximum. Matching
    text against a topic and the collation of keys are parameters. */
module TopicExtraction {
  import opened Ordering

  datatype Topic = Topic(key: string, priority: int)

  datatype Allowlist = Allowlist(topics: seq<Topic>, muted: set<string>, max: nat)

  /** Topics that are not muted and match, in allowlist order. */
  function Matches(topics: seq<Topic>, muted: set<string>, matches: Topic -> bool): seq<Topic> {
    if |topics| == 0 then []
    else
      var last := topics[|topics| - 1];
      Matches(topics[..|topics| - 1], muted, matches) + (if last.key !in muted && matches(last) then [last] else [])
  }

  /** Higher priority first, then by key. */
  function PriorityOrder(collate: (string, string) -> bool): (Topic, Topic) -> bool {
    (a: Topic, b: Topic) => a.priority > b.priority || (a.priority == b.priority && collate(a.key, b.key))
  }

  function Cut(s: seq<Topic>, n: nat): seq<Topic> {
    if |s| <= n then s else s[..n]
  }

  function Extracted(list: Allowlist, matches: Topic -> bool, collate: (string, string) -> bool): seq<Topic> {
    Cut(Sort(PriorityOrder(collate), Matches(list.topics, list.muted, matches)), list.max)
  }

  method ExtractTopics(list: Allowlist, matches: Topic -> bool, collate: (string, string) -> bool) returns (r: seq<Topic>)
    ensures r == Extracted(list, matches, collate)
  {
    var found := [];
    for i := 0 to |list.topics|
      invariant found == Matches(list.topics[..i], list.muted, matches)
    {
      assert list.topics[..i + 1][..i] == list.topics[..i];
      var topic := list.topics[i];
      if topic.key in list.muted {
        continue;
      }
      if matches(topic) {
        found := found + [topic];
      }
    }
    assert list.topics[..|list.topics|] == list.topics;
    r := Cut(Sort(PriorityOrder(collate), found), list.max);
  }

  lemma PriorityIsTotal(collate: (string, string) -> bool)
    requires StrictTotalOrder(collate)
    ensures StrictTotalOrder(PriorityOrder(collate))
  {
    var less := PriorityOrder(collate);
    forall a: Topic ensures !less(a, a) {
      assert !collate(a.key, a.key);
    }
    forall a: Topic, b: Topic, c: Topic | less(a, b) && less(b, c) ensures less(a, c) {
      assert collate(a.key, b.key) && collate(b.key, c.key) ==> collate(a.key, c.key);
    }
    forall a: Topic, b: Topic ensures less(a, b) || less(b, a) || a == b {
      assert collate(a.key, b.key) || collate(b.key, a.key) || a.key == b.key;
    }
  }

  lemma {:induction false} MatchesAre(topics: seq<Topic>, muted: set<string>, matches: Topic -> bool)
    ensures forall x :: multiset(Matches(topics, muted, matches))[x]
                        == if x.key !in muted && matches(x) then multiset(topics)[x] else 0
  {
    if |topics| > 0 {
      var front, last := topics[..|topics| - 1], topics[|topics| - 1];
      MatchesAre(front, muted, matches);
      assert topics == front + [last];
    }
  }

  /** The same content and the same allowlist in any order give the same topics in the same order. */
  lemma ExtractionIgnoresOrder(a: Allowlist, b: Allowlist, matches: Topic -> bool, collate: (string, string) -> bool)
    requires StrictTotalOrder(collate)
    requires multiset(a.topics) == multiset(b.topics) && a.muted == b.muted && a.max == b.max
    ensures Extracted(a, matches, collate) == Extracted(b, matches, collate)
  {
    var ma, mb := Matches(a.topics, a.muted, matches), Matches(b.topics, b.muted, matches);
    MatchesAre(a.topics, a.muted, matches);
    MatchesAre(b.topics, b.muted, matches);
    assert multiset(ma) == multiset(mb);
    PriorityIsTotal(collate);
    SortIgnoresOrder(PriorityOrder(collate), ma, mb);
  }

  lemma MatchesIn(topics: seq<Topic>, muted: set<string>, matches: Topic -> bool, x: Topic)
    ensures x in Matches(topics, muted, matches) <==> x in topics && x.key !in muted && matches(x)
  {
    MatchesAre(topics, muted, matches);
    assert x in Matches(topics, muted, matches) <==> multiset(Matches(topics, muted, matches))[x] > 0;
    assert x in topics <==> multiset(topics)[x] > 0;
  }

  lemma CutIsBest(found: seq<Topic>, n: nat, less: (Topic, Topic) -> bool)
    requires StrictTotalOrder(less)
    ensures var r := Cut(Sort(less, found), n);
            && |r| <= n && Sorted(less, r)
            && (forall x :: x in r ==> x in found)
            && (forall x, y :: x in found && x !in r && y in r ==> less(y, x))
            && (forall x :: x in found && x !in r ==> |r| == n)
  {
    var sorted := Sort(less, found);
    var r := Cut(sorted, n);
    SortSorts(less, found);
    assert r == sorted[..|r|];
    TakeIsBest(less, sorted, |r|);
  }

  /** Only allowed, unmuted, matching topics are extracted, in order; one that is left out is outranked by
      every extracted one, and is left out only because the maximum is reached. */
  lemma ExtractionIsTop(list: Allowlist, matches: Topic -> bool, collate: (string, string) -> bool)
    requires StrictTotalOrder(collate)
    ensures var r := Extracted(list, matches, collate);
            && |r| <= list.max && Sorted(PriorityOrder(collate), r)
            && (forall x :: x in r ==> x in list.topics && x.key !in list.muted && matches(x))
            && (forall x :: x in list.topics && x.key !in list.muted && matches(x) && x !in r ==>
                  |r| == list.max && forall y :: y in r ==> PriorityOrder(collate)(y, x))
  {
    PriorityIsTotal(collate);
    forall x ensures x in Matches(list.topics, list.muted, matches) <==> x in list.topics && x.key !in list.muted && matches(x) {
      MatchesIn(list.topics, list.muted, matches, x);
    }
    CutIsBest(Matches(list.topics, list.muted, matches), list.max, PriorityOrder(collate));
  }

  /** What is extracted goes by priority, highest first, and equal priorities by collation of the keys. A topic that
      is left out although it is allowed, unmuted and matches has no higher priority than any extracted one. */
  lemma ExtractionOrder(list: Allowlist, matches: Topic -> bool, collate: (string, string) -> bool, i: nat, j: nat)
    requires StrictTotalOrder(collate) && i <= j < |Extracted(list, matches, collate)|
    ensures var a, b := Extracted(list, matches, collate)[i], Extracted(list, matches, collate)[j];
            && a.priority >= b.priority
            && (a.priority == b.priority ==> a.key == b.key || collate(a.key, b.key))
    ensures forall x :: x in list.topics && x.key !in list.muted && matches(x) && x !in Extracted(list, matches, collate) ==>
              var a := Extracted(list, matches, collate)[i];
              a.priority > x.priority || (a.priority == x.priority && collate(a.key, x.key))
  {
    ExtractionIsTop(list, matches, collate);
    var r := Extracted(list, matches, collate);
    assert !PriorityOrder(collate)(r[j], r[i]);
    assert collate(r[i].key, r[j].key) || collate(r[j].key, r[i].key) || r[i].key == r[j].key;
    assert r[i] in r;
  }
}
