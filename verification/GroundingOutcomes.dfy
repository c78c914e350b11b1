/** What grounding makes of offered highlights: which are kept, under which topic, with which citations and texts, and
    when it fails. */
module GroundingOutcomes {
  import opened Strings
  import opened Grounding

  // ---------------------------------------------------------------- one highlight

  /** The citations that are evidence of a topic. */
  function CitedOf(scope: Scope, citations: seq<string>): set<string> {
    set c | c in citations && c in scope.urls
  }

  lemma CitedMore(scope: Scope, front: seq<string>, last: string)
    ensures CitedOf(scope, front + [last]) == CitedOf(scope, front) + if last in scope.urls then {last} else {}
  {
  }

  /** The overlap is how many of some distinct citations are evidence of the topic. */
  lemma {:induction false} OverlapCounts(scope: Scope, citations: seq<string>)
    requires Distinct(citations)
    ensures Overlap(scope, citations) == |CitedOf(scope, citations)|
  {
    if |citations| > 0 {
      var front, last := citations[..|citations| - 1], citations[|citations| - 1];
      assert citations == front + [last];
      assert last !in front;
      assert forall i, j :: 0 <= i < j < |front| ==> front[i] != front[j];
      OverlapCounts(scope, front);
      CitedMore(scope, front, last);
      assert last !in CitedOf(scope, front);
      hide Overlap, CitedOf;
      OverlapMore(scope, front, last);
    }
  }

  lemma OverlapMore(scope: Scope, front: seq<string>, last: string)
    ensures Overlap(scope, front + [last]) == Overlap(scope, front) + if last in scope.urls then 1 else 0
  {
    assert (front + [last])[..|front|] == front;
  }

  /** The scope at `k` is the one of the declared topic, if that has any of the evidence cited; otherwise no scope has
      more of it, on a tie one of the requested group is preferred, and of those left the first is taken. */
  ghost predicate Preferred(scopes: seq<Scope>, key: string, group: string, citations: seq<string>, k: nat)
    requires k < |scopes|
  {
    var n := Overlap(scopes[k], citations);
    && n > 0
    && if exists s :: s in scopes && s.key == key && Overlap(s, citations) > 0 then scopes[k].key == key
       else
         && (forall j :: 0 <= j < |scopes| ==> Overlap(scopes[j], citations) <= n)
         && (group != "" && scopes[k].group != group ==>
               forall j :: 0 <= j < |scopes| && Overlap(scopes[j], citations) == n ==> scopes[j].group != group)
         && (forall j :: 0 <= j < k && Overlap(scopes[j], citations) == n ==>
               group != "" && scopes[k].group == group && scopes[j].group != group)
  }

  lemma {:induction false} BestIs(scopes: seq<Scope>, group: string, citations: seq<string>)
    ensures var r := Best(scopes, group, citations);
            if r.None? then forall j :: 0 <= j < |scopes| ==> Overlap(scopes[j], citations) == 0
            else exists k :: 0 <= k < |scopes| && scopes[k] == r.value && IsBest(scopes, group, citations, k)
  {
    if |scopes| > 0 {
      var n := |scopes| - 1;
      var front, last := scopes[..n], scopes[n];
      BestIs(front, group, citations);
      var best := Best(front, group, citations);
      if best.Some? {
        var k :| 0 <= k < n && front[k] == best.value && IsBest(front, group, citations, k);
        BestStep(scopes, group, citations, k);
      } else if Overlap(last, citations) > 0 {
        assert forall j :: 0 <= j < n ==> Overlap(scopes[j], citations) == 0 by {
          assert forall j :: 0 <= j < n ==> front[j] == scopes[j];
        }
        assert IsBest(scopes, group, citations, n);
      } else {
        assert forall j :: 0 <= j < n ==> front[j] == scopes[j];
      }
    }
  }

  ghost predicate IsBest(scopes: seq<Scope>, group: string, citations: seq<string>, k: nat)
    requires k < |scopes|
  {
    var n := Overlap(scopes[k], citations);
    && n > 0
    && (forall j :: 0 <= j < |scopes| ==> Overlap(scopes[j], citations) <= n)
    && (group != "" && scopes[k].group != group ==>
          forall j :: 0 <= j < |scopes| && Overlap(scopes[j], citations) == n ==> scopes[j].group != group)
    && (forall j :: 0 <= j < k && Overlap(scopes[j], citations) == n ==>
          group != "" && scopes[k].group == group && scopes[j].group != group)
  }

  lemma BestStep(scopes: seq<Scope>, group: string, citations: seq<string>, k: nat)
    requires k < |scopes| - 1 && IsBest(scopes[..|scopes| - 1], group, citations, k)
    ensures var last := scopes[|scopes| - 1];
            if Overlap(last, citations) > 0 && Beats(last, scopes[k], citations, group)
            then IsBest(scopes, group, citations, |scopes| - 1) else IsBest(scopes, group, citations, k)
  {
    var front := scopes[..|scopes| - 1];
    assert forall j :: 0 <= j < |front| ==> front[j] == scopes[j];
  }

  /** A highlight is kept if and only if one of its citations is, in canonical form, evidence of some topic. It then
      comes under the preferred topic with its texts as they were, and cites exactly what is evidence of that topic. */
  lemma GroundedExactly(t: Text, topics: seq<Topic>, h: Highlight)
    ensures Grounded(t, topics, h).Some? <==> exists s, c :: s in Scopes(t, topics) && c in s.urls && c in Dedupe(t, h.citations)
    ensures Grounded(t, topics, h).Some? ==>
              var g, scopes, key := Grounded(t, topics, h).value, Scopes(t, topics), t.topicKey(h.topic);
              exists k :: 0 <= k < |scopes|
                && Preferred(scopes, key, t.topLevelGroup(key), Cited(t, topics, h), k)
                && g.topic == scopes[k].canonicalTopic && g.whatHappened == h.whatHappened
                && g.whyItMatters == h.whyItMatters && g.suggestedAction == h.suggestedAction
                && (forall c :: c in g.citations <==> c in Dedupe(t, h.citations) && c in scopes[k].urls)
  {
    var scopes, key, cited := Scopes(t, topics), t.topicKey(h.topic), Cited(t, topics, h);
    var group := t.topLevelGroup(key);
    var r := Resolved(scopes, key, group, cited);
    CitedIs(t, topics, h);
    ResolvedIs(t, topics, key, group, cited);
    hide Preferred, Overlap, Resolved, Keep, Cited, Dedupe, Scopes;
    GroundedFrom(t, topics, h);
    if r.Some? {
      var k :| 0 <= k < |scopes| && scopes[k] == r.value && Preferred(scopes, key, group, cited, k);
      PreferredOverlaps(scopes, key, group, cited, k);
      OverlapIs(scopes[k], cited);
      KeepIs(cited, scopes[k].urls);
      var c :| c in cited && c in scopes[k].urls;
      assert c in Keep(cited, scopes[k].urls) && scopes[k] in scopes;
    } else {
      forall s | s in scopes ensures forall c :: c in s.urls ==> c !in Dedupe(t, h.citations) {
        OverlapIs(s, cited);
      }
    }
  }

  lemma PreferredOverlaps(scopes: seq<Scope>, key: string, group: string, citations: seq<string>, k: nat)
    requires k < |scopes| && Preferred(scopes, key, group, citations, k)
    ensures Overlap(scopes[k], citations) > 0
  {
  }

  lemma GroundedFrom(t: Text, topics: seq<Topic>, h: Highlight)
    ensures var key, cited := t.topicKey(h.topic), Cited(t, topics, h);
            var r := Resolved(Scopes(t, topics), key, t.topLevelGroup(key), cited);
            Grounded(t, topics, h)
            == if r.None? || |cited| == 0 || |Keep(cited, r.value.urls)| == 0 then None
               else Some(h.(topic := r.value.canonicalTopic, citations := Keep(cited, r.value.urls)))
  {
  }

  /** The canonical citations that are evidence of the request. */
  function Cited(t: Text, topics: seq<Topic>, h: Highlight): seq<string> {
    Keep(Dedupe(t, h.citations), UrlSet(t, AllEvidence(topics)))
  }

  lemma CitedIs(t: Text, topics: seq<Topic>, h: Highlight)
    ensures forall s, c :: s in Scopes(t, topics) && c in s.urls ==> (c in Cited(t, topics, h) <==> c in Dedupe(t, h.citations))
  {
    KeepIs(Dedupe(t, h.citations), UrlSet(t, AllEvidence(topics)));
    forall s | s in Scopes(t, topics) ensures s.urls <= UrlSet(t, AllEvidence(topics)) {
      ScopeIs(t, topics, s);
    }
  }

  lemma ResolvedIs(t: Text, topics: seq<Topic>, key: string, group: string, cited: seq<string>)
    ensures var scopes, r := Scopes(t, topics), Resolved(Scopes(t, topics), key, group, cited);
            if r.None? then forall s :: s in scopes ==> Overlap(s, cited) == 0
            else exists k :: 0 <= k < |scopes| && scopes[k] == r.value && Preferred(scopes, key, group, cited, k)
  {
    var scopes := Scopes(t, topics);
    ScopesAre(t, topics);
    DeclaredIs(scopes, key);
    var declared := Declared(scopes, key);
    if declared.Some? && Overlap(declared.value, cited) > 0 {
      var k :| 0 <= k < |scopes| && scopes[k] == declared.value;
      assert Preferred(scopes, key, group, cited, k);
    } else {
      BestIs(scopes, group, cited);
      assert !exists s :: s in scopes && s.key == key && Overlap(s, cited) > 0 by {
        if s :| s in scopes && s.key == key && Overlap(s, cited) > 0 {
          SameScope(scopes, s, declared.value);
        }
      }
      if Best(scopes, group, cited).Some? {
        var k :| 0 <= k < |scopes| && scopes[k] == Best(scopes, group, cited).value && IsBest(scopes, group, cited, k);
        assert Preferred(scopes, key, group, cited, k);
      }
    }
  }

  /** The evidence of a key is that of the last topic with the key. */
  lemma {:induction false} LastScopeStays(t: Text, topics: seq<Topic>, i: nat)
    requires i < |topics| && forall j :: i < j < |topics| ==> ScopeOf(t, topics[j]).key != ScopeOf(t, topics[i]).key
    ensures ScopeOf(t, topics[i]) in Scopes(t, topics)
  {
    var front, last := topics[..|topics| - 1], topics[|topics| - 1];
    ScopesAre(t, front);
    SetScopeIs(Scopes(t, front), ScopeOf(t, last));
    if i < |front| {
      LastScopeStays(t, front, i);
    }
  }

  // ---------------------------------------------------------------- all of them

  /** Grounding fails for want of evidence if and only if no URL of any topic has a canonical form; otherwise it
      succeeds if and only if some offered highlight is kept. */
  lemma EnforceDecides(t: Text, topics: seq<Topic>, offered: seq<Highlight>)
    ensures var r := Enforce(t, topics, offered);
            && (r == Err(NoEvidence) <==> forall topic, u :: topic in topics && u in topic.evidence ==> Canonical(t, u).None?)
            && (r.Ok? <==> r != Err(NoEvidence) && exists h :: h in offered && Grounded(t, topics, h).Some?)
            && (r.Err? ==> r.error == NoEvidence || r.error == NoGroundedHighlights)
  {
    NoUrls(t, topics);
    SomeGrounded(t, topics, offered);
    SomeMerged(t, GroundedAll(t, topics, offered));
  }

  lemma NoUrls(t: Text, topics: seq<Topic>)
    ensures UrlSet(t, AllEvidence(topics)) == {}
            <==> forall topic, u :: topic in topics && u in topic.evidence ==> Canonical(t, u).None?
  {
    DedupeIs(t, AllEvidence(topics));
    EvidenceOf(topics);
    forall topic, u | topic in topics && u in topic.evidence && Canonical(t, u).Some?
      ensures UrlSet(t, AllEvidence(topics)) != {}
    {
      assert u in AllEvidence(topics) && Canonical(t, u).value in Dedupe(t, AllEvidence(topics));
      assert Canonical(t, u).value in UrlSet(t, AllEvidence(topics));
    }
    if c :| c in UrlSet(t, AllEvidence(topics)) {
      var u :| u in AllEvidence(topics) && Canonical(t, u) == Some(c);
    }
  }

  lemma {:induction false} EvidenceOf(topics: seq<Topic>)
    ensures forall u :: u in AllEvidence(topics) <==> exists topic :: topic in topics && u in topic.evidence
  {
    if |topics| > 0 {
      var front, last := topics[..|topics| - 1], topics[|topics| - 1];
      assert topics == front + [last];
      EvidenceOf(front);
      assert last in topics;
    }
  }

  lemma {:induction false} SomeGrounded(t: Text, topics: seq<Topic>, offered: seq<Highlight>)
    ensures |GroundedAll(t, topics, offered)| > 0 <==> exists h :: h in offered && Grounded(t, topics, h).Some?
  {
    if |offered| > 0 {
      var front, last := offered[..|offered| - 1], offered[|offered| - 1];
      assert offered == front + [last];
      SomeGrounded(t, topics, front);
      assert last in offered;
    }
  }

  lemma {:induction false} SomeMerged(t: Text, highlights: seq<Highlight>)
    ensures |MergeByTopic(t, highlights)| > 0 <==> |highlights| > 0
  {
  }

  // ---------------------------------------------------------------- the merge

  /** The highlights of one topic, in order. */
  function OfTopic(t: Text, highlights: seq<Highlight>, key: string): seq<Highlight> {
    if |highlights| == 0 then []
    else
      var last := highlights[|highlights| - 1];
      OfTopic(t, highlights[..|highlights| - 1], key) + if t.topicKey(last.topic) == key then [last] else []
  }

  /** A field of some highlights, the narratives merged from the first on. */
  function Story(t: Text, highlights: seq<Highlight>, field: Highlight -> string): string
    requires |highlights| > 0
  {
    if |highlights| == 1 then field(highlights[0])
    else t.narrative(Story(t, highlights[..|highlights| - 1], field), field(highlights[|highlights| - 1]))
  }

  /** The topics in order of first occurrence. */
  function TopicKeys(t: Text, highlights: seq<Highlight>): seq<string> {
    if |highlights| == 0 then []
    else
      var front, key := TopicKeys(t, highlights[..|highlights| - 1]), t.topicKey(highlights[|highlights| - 1].topic);
      if key in front then front else front + [key]
  }

  function What(): Highlight -> string { (h: Highlight) => h.whatHappened }

  function Why(): Highlight -> string { (h: Highlight) => h.whyItMatters }

  function Action(): Highlight -> string { (h: Highlight) => h.suggestedAction }

  /** A merged highlight has the topic of the first of its highlights, the merged narratives of all of them field by
      field, and of a single one its citations in canonical form. */
  ghost predicate MergeOf(t: Text, m: Highlight, some: seq<Highlight>) {
    && |some| > 0 && m.topic == some[0].topic
    && m.whatHappened == Story(t, some, What()) && m.whyItMatters == Story(t, some, Why())
    && m.suggestedAction == Story(t, some, Action())
    && (|some| == 1 ==> m.citations == Dedupe(t, some[0].citations))
  }

  /** The merge has one highlight per topic, in the order in which the topics first occur, each made of all the
      highlights of its topic. */
  lemma {:induction false} MergeIs(t: Text, highlights: seq<Highlight>)
    ensures IsMerge(t, highlights, TopicKeys(t, highlights), MergeByTopic(t, highlights))
  {
    if |highlights| > 0 {
      var front, last := highlights[..|highlights| - 1], highlights[|highlights| - 1];
      var before, keys, key := MergeByTopic(t, front), TopicKeys(t, front), t.topicKey(last.topic);
      MergeIs(t, front);
      hide IsMerge;
      assert highlights == front + [last];
      if key in keys {
        var i: nat :| i < |keys| && keys[i] == key;
        KnownTopic(t, front, last, before, keys, i);
      } else {
        NewTopic(t, front, last, before, keys);
      }
    }
  }

  ghost predicate IsMerge(t: Text, highlights: seq<Highlight>, keys: seq<string>, merged: seq<Highlight>) {
    && |merged| == |keys| && (forall i, j :: 0 <= i < j < |keys| ==> keys[i] != keys[j])
    && (forall i :: 0 <= i < |merged| ==>
          t.topicKey(merged[i].topic) == keys[i] && MergeOf(t, merged[i], OfTopic(t, highlights, keys[i])))
  }

  lemma OneMore(t: Text, front: seq<Highlight>, last: Highlight, key: string)
    ensures OfTopic(t, front + [last], key) == OfTopic(t, front, key) + if t.topicKey(last.topic) == key then [last] else []
  {
    assert (front + [last])[..|front|] == front;
  }

  lemma KnownTopic(t: Text, front: seq<Highlight>, last: Highlight, before: seq<Highlight>, keys: seq<string>, i: nat)
    requires IsMerge(t, front, keys, before) && i < |keys| && keys[i] == t.topicKey(last.topic)
    ensures IsMerge(t, front + [last], keys, MergeInto(t, before, last))
  {
    MergeIntoAt(t, before, last, i);
    var merged := MergeInto(t, before, last);
    hide MergeInto, MergeOf, OfTopic;
    forall j | 0 <= j < |merged|
      ensures t.topicKey(merged[j].topic) == keys[j] && MergeOf(t, merged[j], OfTopic(t, front + [last], keys[j]))
    {
      OneMore(t, front, last, keys[j]);
      if j == i {
        MergedOneMore(t, before[i], OfTopic(t, front, keys[i]), last);
      } else {
        assert OfTopic(t, front, keys[j]) + [] == OfTopic(t, front, keys[j]);
      }
    }
  }

  lemma NewTopic(t: Text, front: seq<Highlight>, last: Highlight, before: seq<Highlight>, keys: seq<string>)
    requires IsMerge(t, front, keys, before) && keys == TopicKeys(t, front) && t.topicKey(last.topic) !in keys
    ensures IsMerge(t, front + [last], keys + [t.topicKey(last.topic)], MergeInto(t, before, last))
  {
    var key := t.topicKey(last.topic);
    NoneOf(t, front, key);
    forall x | x in before ensures t.topicKey(x.topic) != key {
      var i :| 0 <= i < |before| && before[i] == x;
      assert keys[i] in keys;
    }
    MergeIntoAbsent(t, before, last);
    MergeOfOne(t, last);
    var merged, keys' := MergeInto(t, before, last), keys + [key];
    hide MergeInto, MergeOf, OfTopic;
    forall j | 0 <= j < |merged|
      ensures t.topicKey(merged[j].topic) == keys'[j] && MergeOf(t, merged[j], OfTopic(t, front + [last], keys'[j]))
    {
      OneMore(t, front, last, keys'[j]);
      if j < |keys| {
        assert keys[j] in keys;
        assert OfTopic(t, front, keys[j]) + [] == OfTopic(t, front, keys[j]);
      } else {
        assert [] + [last] == [last];
      }
    }
  }

  lemma MergeOfOne(t: Text, h: Highlight)
    ensures MergeOf(t, h.(citations := Dedupe(t, h.citations)), [h])
  {
  }

  lemma MergedOneMore(t: Text, m: Highlight, some: seq<Highlight>, h: Highlight)
    requires MergeOf(t, m, some)
    ensures MergeOf(t, Merged(t, m, h), some + [h]) && Merged(t, m, h).topic == m.topic
  {
    assert (some + [h])[..|some|] == some;
  }

  lemma {:induction false} NoneOf(t: Text, highlights: seq<Highlight>, key: string)
    ensures key !in TopicKeys(t, highlights) ==> OfTopic(t, highlights, key) == []
  {
    if |highlights| > 0 {
      NoneOf(t, highlights[..|highlights| - 1], key);
    }
  }
}
