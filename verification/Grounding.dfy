/** Grounding of brief highlights: every citation of a published highlight comes from the evidence of its
    topic. URL canonicalisation and text handling are parameters. */
module Grounding {
  import opened Strings

  datatype Option<+T> = None | Some(value: T)

  datatype Topic = Topic(name: string, evidence: seq<string>)    // an absent URL is the empty string

  datatype Highlight = Highlight(topic: string, whatHappened: string, whyItMatters: string,
                                 suggestedAction: string, citations: seq<string>)

  datatype Error = NoEvidence | NoGroundedHighlights | UngroundedNotes | LlmFailed(artifact: bool)

  datatype Result<+T> = Ok(value: T) | Err(error: Error)

  /** The parts of the surrounding services that grounding relies on: the URL canonicaliser, the topic key
      (trimmed, lower case), the top-level group of a key, and the merge of two narratives. */
  datatype Text = Text(
    canonical: string -> Option<string>,
    topicKey: string -> string,
    topLevelGroup: string -> string,
    narrative: (string, string) -> string)

  // ---------------------------------------------------------------- urls

  function Canonical(t: Text, url: string): Option<string> {
    if url == "" then None
    else
      var c := t.canonical(url);
      if c.Some? && c.value != "" then c else None
  }

  /** The distinct canonical URLs of a list, in order of first occurrence. */
  function Dedupe(t: Text, urls: seq<string>): seq<string> {
    if |urls| == 0 then []
    else
      var front, c := Dedupe(t, urls[..|urls| - 1]), Canonical(t, urls[|urls| - 1]);
      if c.Some? && c.value !in front then front + [c.value] else front
  }

  predicate Distinct(urls: seq<string>) {
    forall i, j :: 0 <= i < j < |urls| ==> urls[i] != urls[j]
  }

  lemma {:induction false} DedupeIs(t: Text, urls: seq<string>)
    ensures Distinct(Dedupe(t, urls))
    ensures forall c :: c in Dedupe(t, urls) <==> exists u :: u in urls && Canonical(t, u) == Some(c)
  {
    if |urls| > 0 {
      var front, last := urls[..|urls| - 1], urls[|urls| - 1];
      DedupeIs(t, front);
      assert urls == front + [last];
    }
  }

  /** URLs that canonicalise to themselves and are already distinct come back as they are. */
  lemma {:induction false} DedupeFixed(t: Text, urls: seq<string>)
    requires Distinct(urls) && forall u :: u in urls ==> Canonical(t, u) == Some(u)
    ensures Dedupe(t, urls) == urls
  {
    if |urls| > 0 {
      var front, last := urls[..|urls| - 1], urls[|urls| - 1];
      assert urls == front + [last];
      DedupeFixed(t, front);
      assert last !in front;
    }
  }

  function Keep(urls: seq<string>, allowed: set<string>): seq<string> {
    if |urls| == 0 then []
    else Keep(urls[..|urls| - 1], allowed) + (if urls[|urls| - 1] in allowed then [urls[|urls| - 1]] else [])
  }

  lemma {:induction false} KeepIs(urls: seq<string>, allowed: set<string>)
    ensures forall u :: u in Keep(urls, allowed) <==> u in urls && u in allowed
    ensures Distinct(urls) ==> Distinct(Keep(urls, allowed))
    ensures |Keep(urls, allowed)| <= |urls|
  {
    if |urls| > 0 {
      var front, last := urls[..|urls| - 1], urls[|urls| - 1];
      assert urls == front + [last];
      KeepIs(front, allowed);
      if Distinct(urls) {
        assert last !in front;
        var k := Keep(front, allowed);
        forall i | 0 <= i < |k| ensures k[i] != last {
          assert k[i] in front;
        }
      }
    }
  }

  // ---------------------------------------------------------------- topic scopes

  datatype Scope = Scope(canonicalTopic: string, key: string, group: string, urls: set<string>)

  function UrlSet(t: Text, urls: seq<string>): set<string> {
    set c | c in Dedupe(t, urls)
  }

  function ScopeOf(t: Text, topic: Topic): Scope {
    var canonicalTopic := Trim(topic.name);
    var key := t.topicKey(canonicalTopic);
    Scope(canonicalTopic, key, t.topLevelGroup(key), UrlSet(t, topic.evidence))
  }

  /** `Map.set`: a key already present keeps its place and takes the new value. */
  function SetScope(scopes: seq<Scope>, scope: Scope): seq<Scope> {
    if |scopes| == 0 then [scope]
    else if scopes[0].key == scope.key then [scope] + scopes[1..]
    else [scopes[0]] + SetScope(scopes[1..], scope)
  }

  function Scopes(t: Text, topics: seq<Topic>): seq<Scope> {
    if |topics| == 0 then []
    else SetScope(Scopes(t, topics[..|topics| - 1]), ScopeOf(t, topics[|topics| - 1]))
  }

  predicate DistinctKeys(scopes: seq<Scope>) {
    forall i, j :: 0 <= i < j < |scopes| ==> scopes[i].key != scopes[j].key
  }

  lemma {:induction false} SetScopeIs(scopes: seq<Scope>, scope: Scope)
    requires DistinctKeys(scopes)
    ensures var r := SetScope(scopes, scope);
            && DistinctKeys(r)
            && (forall s :: s in r <==> s == scope || (s in scopes && s.key != scope.key))
  {
    if |scopes| > 0 {
      var rest := scopes[1..];
      assert scopes == [scopes[0]] + rest;
      forall i | 0 <= i < |rest| ensures rest[i].key != scopes[0].key {
        assert rest[i] == scopes[i + 1];
      }
      SetScopeIs(rest, scope);
      var r := SetScope(scopes, scope);
      if scopes[0].key != scope.key {
        var tail := SetScope(rest, scope);
        forall j | 0 <= j < |tail| ensures tail[j].key != scopes[0].key {
          assert tail[j] in tail;
        }
      } else {
        assert r == [scope] + rest;
      }
    }
  }

  /** Scopes have distinct keys, and each is the scope of a topic of the request. */
  lemma {:induction false} ScopesAre(t: Text, topics: seq<Topic>)
    ensures DistinctKeys(Scopes(t, topics))
    ensures forall s :: s in Scopes(t, topics) ==> exists topic :: topic in topics && s == ScopeOf(t, topic)
    ensures forall topic :: topic in topics ==> exists s :: s in Scopes(t, topics) && s.key == ScopeOf(t, topic).key
  {
    if |topics| > 0 {
      var front, last := topics[..|topics| - 1], topics[|topics| - 1];
      assert topics == front + [last];
      ScopesAre(t, front);
      SetScopeIs(Scopes(t, front), ScopeOf(t, last));
      forall topic | topic in topics
        ensures exists s :: s in Scopes(t, topics) && s.key == ScopeOf(t, topic).key
      {
        if topic in front && ScopeOf(t, topic).key != ScopeOf(t, last).key {
          var s :| s in Scopes(t, front) && s.key == ScopeOf(t, topic).key;
          assert s in Scopes(t, topics);
        } else {
          assert ScopeOf(t, last) in Scopes(t, topics);
        }
      }
    }
  }

  /** The values of a map in the order in which its keys were first set. */
  function Values(order: seq<string>, byKey: map<string, Scope>): (r: seq<Scope>)
    requires forall k :: k in order ==> k in byKey
    ensures |r| == |order| && forall i :: 0 <= i < |r| ==> r[i] == byKey[order[i]]
  {
    seq(|order|, i requires 0 <= i < |order| => byKey[order[i]])
  }

  lemma {:induction false} SetScopeAbsent(scopes: seq<Scope>, scope: Scope)
    requires forall s :: s in scopes ==> s.key != scope.key
    ensures SetScope(scopes, scope) == scopes + [scope]
  {
    if |scopes| > 0 {
      SetScopeAbsent(scopes[1..], scope);
    }
  }

  lemma {:induction false} SetScopeAt(scopes: seq<Scope>, scope: Scope, i: nat)
    requires i < |scopes| && scopes[i].key == scope.key && forall j :: 0 <= j < i ==> scopes[j].key != scope.key
    ensures SetScope(scopes, scope) == scopes[i := scope]
  {
    if i > 0 {
      SetScopeAt(scopes[1..], scope, i - 1);
      assert scopes == [scopes[0]] + scopes[1..];
    }
  }

  /** A map, and its keys in insertion order. */
  ghost predicate Ordered(order: seq<string>, byKey: map<string, Scope>) {
    && (forall k :: k in order <==> k in byKey)
    && Distinct(order) && forall k :: k in byKey ==> byKey[k].key == k
  }

  lemma SetKnownKey(order: seq<string>, byKey: map<string, Scope>, scope: Scope)
    requires Ordered(order, byKey) && scope.key in byKey
    ensures Ordered(order, byKey[scope.key := scope])
    ensures Values(order, byKey[scope.key := scope]) == SetScope(Values(order, byKey), scope)
  {
    hide Values, SetScope;
    KnownKeyOrdered(order, byKey, scope);
    assert scope.key in order;
    var i :| 0 <= i < |order| && order[i] == scope.key;
    KnownKeyAt(order, byKey, scope, i);
  }

  lemma KnownKeyOrdered(order: seq<string>, byKey: map<string, Scope>, scope: Scope)
    requires Ordered(order, byKey) && scope.key in byKey
    ensures Ordered(order, byKey[scope.key := scope])
  {
  }

  lemma KnownKeyAt(order: seq<string>, byKey: map<string, Scope>, scope: Scope, i: nat)
    requires Ordered(order, byKey) && i < |order| && order[i] == scope.key
    ensures Values(order, byKey[scope.key := scope]) == SetScope(Values(order, byKey), scope)
  {
    var before, after := Values(order, byKey), Values(order, byKey[scope.key := scope]);
    forall j | 0 <= j < |order| ensures before[j].key == order[j] && (j != i ==> order[j] != scope.key) {
      assert order[j] in order;
    }
    SetScopeAt(before, scope, i);
    forall j | 0 <= j < |order| ensures after[j] == before[i := scope][j] {
      assert j != i ==> order[j] != scope.key;
    }
  }

  lemma SetNewKey(order: seq<string>, byKey: map<string, Scope>, scope: Scope)
    requires Ordered(order, byKey) && scope.key !in byKey
    ensures Ordered(order + [scope.key], byKey[scope.key := scope])
    ensures Values(order + [scope.key], byKey[scope.key := scope]) == SetScope(Values(order, byKey), scope)
  {
    var before := Values(order, byKey);
    forall s | s in before ensures s.key != scope.key {
      var i :| 0 <= i < |before| && before[i] == s;
      assert order[i] in order;
    }
    SetScopeAbsent(before, scope);
    var after := Values(order + [scope.key], byKey[scope.key := scope]);
    forall j | 0 <= j < |after| ensures after[j] == (before + [scope])[j] {
      if j < |order| {
        assert order[j] in order;
      }
    }
  }

  method BuildTopicEvidenceScopes(t: Text, topics: seq<Topic>) returns (order: seq<string>, byKey: map<string, Scope>)
    ensures Ordered(order, byKey) && Values(order, byKey) == Scopes(t, topics)
  {
    order, byKey := [], map[];
    for i := 0 to |topics|
      invariant Ordered(order, byKey) && Values(order, byKey) == Scopes(t, topics[..i])
    {
      assert topics[..i + 1][..i] == topics[..i];
      var canonicalTopic := Trim(topics[i].name);
      var topicKey := t.topicKey(canonicalTopic);
      var scope := Scope(canonicalTopic, topicKey, t.topLevelGroup(topicKey), UrlSet(t, topics[i].evidence));
      if topicKey !in byKey {
        SetNewKey(order, byKey, scope);
        order := order + [topicKey];
      } else {
        SetKnownKey(order, byKey, scope);
      }
      byKey := byKey[topicKey := scope];
    }
    assert topics[..|topics|] == topics;
  }

  // ---------------------------------------------------------------- which scope a highlight belongs to

  function Overlap(scope: Scope, citations: seq<string>): nat {
    if |citations| == 0 then 0
    else Overlap(scope, citations[..|citations| - 1]) + (if citations[|citations| - 1] in scope.urls then 1 else 0)
  }

  predicate SameGroup(scope: Scope, group: string) {
    |group| > 0 && scope.group == group
  }

  /** `a` is chosen over `b`: more overlap, or as much and, unlike `b`, of the requested group. */
  predicate Beats(a: Scope, b: Scope, citations: seq<string>, group: string) {
    || Overlap(a, citations) > Overlap(b, citations)
    || (Overlap(a, citations) == Overlap(b, citations) && SameGroup(a, group) && !SameGroup(b, group))
  }

  /** The scope of a key, if there is one. */
  function Declared(scopes: seq<Scope>, key: string): Option<Scope> {
    if |scopes| == 0 then None
    else if scopes[0].key == key then Some(scopes[0])
    else Declared(scopes[1..], key)
  }

  /** The choice for a highlight: its declared topic when it cites that topic's evidence; otherwise a scope
      with overlap that no scope beats, and that beats every scope before it. */
  ghost predicate Chosen(scopes: seq<Scope>, key: string, group: string, citations: seq<string>, r: Option<Scope>) {
    var declared := Declared(scopes, key);
    if declared.Some? && Overlap(declared.value, citations) > 0 then r == declared
    else if r.None? then forall s :: s in scopes ==> Overlap(s, citations) == 0
    else
      && Overlap(r.value, citations) > 0
      && (exists k :: 0 <= k < |scopes| && scopes[k] == r.value
                      && (forall j :: 0 <= j < k ==> Overlap(scopes[j], citations) == 0 || Beats(r.value, scopes[j], citations, group))
                      && (forall j :: k < j < |scopes| ==> !Beats(scopes[j], r.value, citations, group)))
  }

  method ResolveGroundedTopicScope(t: Text, scopes: seq<Scope>, key: string, citations: seq<string>) returns (r: Option<Scope>)
    ensures Chosen(scopes, key, t.topLevelGroup(key), citations, r)
    ensures r == Resolved(scopes, key, t.topLevelGroup(key), citations)
  {
    var declared := Declared(scopes, key);
    if declared.Some? && Overlap(declared.value, citations) > 0 {
      return declared;
    }
    var group := t.topLevelGroup(key);
    var best: Option<Scope>, bestOverlap, bestSameGroup := None, 0, false;
    ghost var at := 0;
    for i := 0 to |scopes|
      invariant best == Best(scopes[..i], group, citations)
      invariant bestOverlap == if best.Some? then Overlap(best.value, citations) else 0
      invariant best.Some? ==> bestSameGroup == SameGroup(best.value, group) && bestOverlap > 0
      invariant best.None? ==> !bestSameGroup && forall j :: 0 <= j < i ==> Overlap(scopes[j], citations) == 0
      invariant best.Some? ==>
                  && 0 <= at < i && scopes[at] == best.value
                  && (forall j :: 0 <= j < at ==> Overlap(scopes[j], citations) == 0 || Beats(best.value, scopes[j], citations, group))
                  && (forall j :: at < j < i ==> !Beats(scopes[j], best.value, citations, group))
    {
      assert scopes[..i + 1][..i] == scopes[..i];
      var scope := scopes[i];
      var overlap := Overlap(scope, citations);
      if overlap > 0 {
        var sameGroup := SameGroup(scope, group);
        if overlap > bestOverlap || (overlap == bestOverlap && sameGroup && !bestSameGroup) {
          best, bestOverlap, bestSameGroup, at := Some(scope), overlap, sameGroup, i;
        }
      }
    }
    assert scopes[..|scopes|] == scopes;
    r := best;
  }

  /** The best scope of a list so far. */
  function Best(scopes: seq<Scope>, group: string, citations: seq<string>): Option<Scope> {
    if |scopes| == 0 then None
    else
      var best, scope := Best(scopes[..|scopes| - 1], group, citations), scopes[|scopes| - 1];
      if Overlap(scope, citations) > 0 && (best.None? || Beats(scope, best.value, citations, group))
      then Some(scope) else best
  }

  function Resolved(scopes: seq<Scope>, key: string, group: string, citations: seq<string>): Option<Scope> {
    var declared := Declared(scopes, key);
    if declared.Some? && Overlap(declared.value, citations) > 0 then declared
    else Best(scopes, group, citations)
  }

  lemma {:induction false} DeclaredIs(scopes: seq<Scope>, key: string)
    ensures var r := Declared(scopes, key);
            if r.Some? then r.value in scopes && r.value.key == key else forall s :: s in scopes ==> s.key != key
  {
    if |scopes| > 0 {
      assert scopes == [scopes[0]] + scopes[1..];
      DeclaredIs(scopes[1..], key);
    }
  }

  lemma {:induction false} BestIn(scopes: seq<Scope>, group: string, citations: seq<string>)
    ensures var r := Best(scopes, group, citations);
            r.Some? ==> r.value in scopes && Overlap(r.value, citations) > 0
  {
    if |scopes| > 0 {
      BestIn(scopes[..|scopes| - 1], group, citations);
    }
  }

  lemma {:induction false} OverlapIs(scope: Scope, citations: seq<string>)
    ensures Overlap(scope, citations) > 0 <==> exists c :: c in citations && c in scope.urls
  {
    if |citations| > 0 {
      var front := citations[..|citations| - 1];
      OverlapIs(scope, front);
      assert citations == front + [citations[|citations| - 1]];
    }
  }

  // ---------------------------------------------------------------- grounding one highlight

  function AllEvidence(topics: seq<Topic>): seq<string> {
    if |topics| == 0 then [] else AllEvidence(topics[..|topics| - 1]) + topics[|topics| - 1].evidence
  }

  function Grounded(t: Text, topics: seq<Topic>, h: Highlight): Option<Highlight> {
    var global := Keep(Dedupe(t, h.citations), UrlSet(t, AllEvidence(topics)));
    if |global| == 0 then None
    else
      var key := t.topicKey(h.topic);
      match Resolved(Scopes(t, topics), key, t.topLevelGroup(key), global)
      case None => None
      case Some(scope) =>
        var scoped := Keep(global, scope.urls);
        if |scoped| == 0 then None else Some(h.(topic := scope.canonicalTopic, citations := scoped))
  }

  function GroundedAll(t: Text, topics: seq<Topic>, highlights: seq<Highlight>): seq<Highlight> {
    if |highlights| == 0 then []
    else
      var front, g := GroundedAll(t, topics, highlights[..|highlights| - 1]), Grounded(t, topics, highlights[|highlights| - 1]);
      if g.Some? then front + [g.value] else front
  }

  // ---------------------------------------------------------------- merging by topic

  function Merged(t: Text, a: Highlight, b: Highlight): Highlight {
    Highlight(a.topic,
              t.narrative(a.whatHappened, b.whatHappened),
              t.narrative(a.whyItMatters, b.whyItMatters),
              t.narrative(a.suggestedAction, b.suggestedAction),
              Dedupe(t, a.citations + b.citations))
  }

  function MergeInto(t: Text, merged: seq<Highlight>, h: Highlight): seq<Highlight> {
    if |merged| == 0 then [h.(citations := Dedupe(t, h.citations))]
    else if t.topicKey(merged[0].topic) == t.topicKey(h.topic) then [Merged(t, merged[0], h)] + merged[1..]
    else [merged[0]] + MergeInto(t, merged[1..], h)
  }

  function MergeByTopic(t: Text, highlights: seq<Highlight>): seq<Highlight> {
    if |highlights| == 0 then []
    else MergeInto(t, MergeByTopic(t, highlights[..|highlights| - 1]), highlights[|highlights| - 1])
  }

  lemma {:induction false} MergeIntoAbsent(t: Text, merged: seq<Highlight>, h: Highlight)
    requires forall x :: x in merged ==> t.topicKey(x.topic) != t.topicKey(h.topic)
    ensures MergeInto(t, merged, h) == merged + [h.(citations := Dedupe(t, h.citations))]
  {
    if |merged| > 0 {
      MergeIntoAbsent(t, merged[1..], h);
    }
  }

  lemma {:induction false} MergeIntoAt(t: Text, merged: seq<Highlight>, h: Highlight, i: nat)
    requires i < |merged| && t.topicKey(merged[i].topic) == t.topicKey(h.topic)
    requires forall j :: 0 <= j < i ==> t.topicKey(merged[j].topic) != t.topicKey(h.topic)
    ensures MergeInto(t, merged, h) == merged[i := Merged(t, merged[i], h)]
  {
    if i > 0 {
      MergeIntoAt(t, merged[1..], h, i - 1);
      assert merged == [merged[0]] + merged[1..];
    }
  }

  method MergeHighlightsByTopic(t: Text, highlights: seq<Highlight>) returns (merged: seq<Highlight>)
    ensures merged == MergeByTopic(t, highlights)
  {
    merged := [];
    var indexByTopic: map<string, nat> := map[];
    for n := 0 to |highlights|
      invariant merged == MergeByTopic(t, highlights[..n])
      invariant forall k :: k in indexByTopic ==> indexByTopic[k] < |merged|
      invariant forall i :: 0 <= i < |merged| ==>
                  t.topicKey(merged[i].topic) in indexByTopic && indexByTopic[t.topicKey(merged[i].topic)] == i
      invariant forall k :: k in indexByTopic ==> t.topicKey(merged[indexByTopic[k]].topic) == k
    {
      assert highlights[..n + 1][..n] == highlights[..n];
      var highlight := highlights[n];
      var topicKey := t.topicKey(highlight.topic);
      if topicKey !in indexByTopic {
        MergeIntoAbsent(t, merged, highlight);
        merged := merged + [highlight.(citations := Dedupe(t, highlight.citations))];
        indexByTopic := indexByTopic[topicKey := |merged| - 1];
        continue;
      }
      var existingIndex := indexByTopic[topicKey];
      MergeIntoAt(t, merged, highlight, existingIndex);
      merged := merged[existingIndex := Merged(t, merged[existingIndex], highlight)];
    }
    assert highlights[..|highlights|] == highlights;
  }

  function Enforce(t: Text, topics: seq<Topic>, highlights: seq<Highlight>): Result<seq<Highlight>> {
    if UrlSet(t, AllEvidence(topics)) == {} then Err(NoEvidence)
    else
      var merged := MergeByTopic(t, GroundedAll(t, topics, highlights));
      if |merged| == 0 then Err(NoGroundedHighlights) else Ok(merged)
  }

  // ---------------------------------------------------------------- what grounding guarantees

  /** A highlight cites its own topic's evidence only, at least once, and nothing twice. */
  ghost predicate WellGrounded(t: Text, scopes: seq<Scope>, h: Highlight) {
    && |h.citations| > 0 && Distinct(h.citations)
    && exists s :: s in scopes && s.key == t.topicKey(h.topic) && forall c :: c in h.citations ==> c in s.urls
  }

  predicate DistinctTopics(t: Text, highlights: seq<Highlight>) {
    forall i, j :: 0 <= i < j < |highlights| ==> t.topicKey(highlights[i].topic) != t.topicKey(highlights[j].topic)
  }

  /** Pairwise distinct topics, each well grounded, and no more highlights than were offered. */
  ghost predicate GroundedResult(t: Text, topics: seq<Topic>, offered: seq<Highlight>, r: seq<Highlight>) {
    && 0 < |r| <= |offered| && DistinctTopics(t, r)
    && forall h :: h in r ==> WellGrounded(t, Scopes(t, topics), h)
  }

  /** On the live URLs, the canonicaliser maps the evidence of each topic into itself. */
  ghost predicate ClosedOn(t: Text, scopes: seq<Scope>, live: string -> bool) {
    forall s, c :: s in scopes && c in s.urls && live(c) ==>
      Canonical(t, c).Some? && Canonical(t, c).value in s.urls && live(Canonical(t, c).value)
  }

  function AnyUrl(): string -> bool {
    (c: string) => true
  }

  /** The canonicaliser maps the canonical evidence of each topic into the evidence of that topic. */
  ghost predicate Closed(t: Text, scopes: seq<Scope>) {
    ClosedOn(t, scopes, AnyUrl())
  }

  /** The canonicaliser maps every canonical form of the request's evidence to itself. */
  ghost predicate Stable(t: Text, topics: seq<Topic>) {
    forall c :: c in UrlSet(t, AllEvidence(topics)) ==> Canonical(t, c) == Some(c)
  }

  lemma {:induction false} EvidenceIncludes(t: Text, topics: seq<Topic>, topic: Topic)
    requires topic in topics
    ensures UrlSet(t, topic.evidence) <= UrlSet(t, AllEvidence(topics))
  {
    var front, last := topics[..|topics| - 1], topics[|topics| - 1];
    assert topics == front + [last];
    DedupeIs(t, topic.evidence);
    DedupeIs(t, AllEvidence(topics));
    if topic in front {
      EvidenceIncludes(t, front, topic);
      DedupeIs(t, AllEvidence(front));
    }
    assert forall u :: u in AllEvidence(topics) <==> u in AllEvidence(front) || u in last.evidence;
  }

  /** The URLs of a scope are canonical forms of the request's evidence. */
  lemma ScopeIs(t: Text, topics: seq<Topic>, s: Scope)
    requires s in Scopes(t, topics)
    ensures s.urls <= UrlSet(t, AllEvidence(topics)) && s.key == t.topicKey(s.canonicalTopic)
    ensures forall c :: c in s.urls ==> exists u :: Canonical(t, u) == Some(c)
  {
    ScopesAre(t, topics);
    var topic :| topic in topics && s == ScopeOf(t, topic);
    EvidenceIncludes(t, topics, topic);
    DedupeIs(t, topic.evidence);
  }

  /** A stable canonicaliser is closed on every topic. */
  lemma StableIsClosed(t: Text, topics: seq<Topic>)
    requires Stable(t, topics)
    ensures Closed(t, Scopes(t, topics))
  {
    hide Scopes, UrlSet, AllEvidence;
    forall s, c | s in Scopes(t, topics) && c in s.urls ensures Canonical(t, c) == Some(c) {
      ScopeIs(t, topics, s);
    }
  }

  lemma GroundedIs(t: Text, topics: seq<Topic>, h: Highlight)
    ensures var g := Grounded(t, topics, h);
            g.Some? ==>
              && WellGrounded(t, Scopes(t, topics), g.value)
              && forall c :: c in g.value.citations ==> c in UrlSet(t, AllEvidence(topics)) && c in Dedupe(t, h.citations)
  {
    var global := Keep(Dedupe(t, h.citations), UrlSet(t, AllEvidence(topics)));
    var scopes, key := Scopes(t, topics), t.topicKey(h.topic);
    DedupeIs(t, h.citations);
    KeepIs(Dedupe(t, h.citations), UrlSet(t, AllEvidence(topics)));
    var r := Resolved(scopes, key, t.topLevelGroup(key), global);
    if |global| > 0 && r.Some? {
      DeclaredIs(scopes, key);
      BestIn(scopes, t.topLevelGroup(key), global);
      KeepIs(global, r.value.urls);
      ScopeIs(t, topics, r.value);
    }
  }

  lemma {:induction false} GroundedAllIs(t: Text, topics: seq<Topic>, highlights: seq<Highlight>)
    ensures var r := GroundedAll(t, topics, highlights);
            && |r| <= |highlights|
            && (forall h :: h in r ==> WellGrounded(t, Scopes(t, topics), h))
            && (forall h, c :: h in r && c in h.citations ==> c in UrlSet(t, AllEvidence(topics)))
            && (forall g, c :: g in r && c in g.citations ==> exists h :: h in highlights && c in Dedupe(t, h.citations))
            && (forall h :: h in highlights && Grounded(t, topics, h).Some? ==> Grounded(t, topics, h).value in r)
  {
    if |highlights| > 0 {
      var front, last := highlights[..|highlights| - 1], highlights[|highlights| - 1];
      assert highlights == front + [last];
      GroundedAllIs(t, topics, front);
      GroundedIs(t, topics, last);
    }
  }

  /** There are no more merged highlights than offered ones. */
  lemma {:induction false} MergeByTopicCount(t: Text, highlights: seq<Highlight>)
    ensures |MergeByTopic(t, highlights)| <= |highlights|
  {
    if |highlights| > 0 {
      var front, last := highlights[..|highlights| - 1], highlights[|highlights| - 1];
      MergeByTopicCount(t, front);
      MergeIntoCount(t, MergeByTopic(t, front), last);
    }
  }

  lemma {:induction false} MergeIntoCount(t: Text, merged: seq<Highlight>, h: Highlight)
    ensures |MergeInto(t, merged, h)| <= |merged| + 1
  {
    if |merged| > 0 {
      MergeIntoCount(t, merged[1..], h);
    }
  }

  lemma EnforcedCount(t: Text, topics: seq<Topic>, offered: seq<Highlight>)
    requires Enforce(t, topics, offered).Ok?
    ensures 0 < |Enforce(t, topics, offered).value| <= |offered|
  {
    GroundedAllIs(t, topics, offered);
    MergeByTopicCount(t, GroundedAll(t, topics, offered));
  }

  // ---------------------------------------------------------------- closed canonicalisers keep the result grounded

  lemma SameScope(scopes: seq<Scope>, a: Scope, b: Scope)
    requires DistinctKeys(scopes) && a in scopes && b in scopes && a.key == b.key
    ensures a == b
  {
    var i :| 0 <= i < |scopes| && scopes[i] == a;
    var j :| 0 <= j < |scopes| && scopes[j] == b;
    assert i == j;
  }

  ghost predicate LiveIn(h: Highlight, live: string -> bool) {
    forall c :: c in h.citations ==> live(c)
  }

  /** Canonicalising live citations of one scope again stays in the scope. */
  lemma DedupeStaysInScope(t: Text, scopes: seq<Scope>, live: string -> bool, s: Scope, citations: seq<string>)
    requires ClosedOn(t, scopes, live) && s in scopes && |citations| > 0
    requires forall c :: c in citations ==> c in s.urls && live(c)
    ensures var r := Dedupe(t, citations);
            |r| > 0 && Distinct(r) && forall c :: c in r ==> c in s.urls && live(c)
  {
    DedupeIs(t, citations);
    assert citations[0] in citations;
    assert Canonical(t, citations[0]).value in Dedupe(t, citations);
  }

  lemma FirstWellGrounded(t: Text, scopes: seq<Scope>, live: string -> bool, h: Highlight)
    requires ClosedOn(t, scopes, live) && WellGrounded(t, scopes, h) && LiveIn(h, live)
    ensures var r := h.(citations := Dedupe(t, h.citations)); WellGrounded(t, scopes, r) && LiveIn(r, live)
  {
    var s :| s in scopes && s.key == t.topicKey(h.topic) && forall c :: c in h.citations ==> c in s.urls;
    DedupeStaysInScope(t, scopes, live, s, h.citations);
  }

  lemma MergedWellGrounded(t: Text, scopes: seq<Scope>, live: string -> bool, a: Highlight, b: Highlight)
    requires ClosedOn(t, scopes, live) && DistinctKeys(scopes) && WellGrounded(t, scopes, a) && WellGrounded(t, scopes, b)
    requires LiveIn(a, live) && LiveIn(b, live) && t.topicKey(a.topic) == t.topicKey(b.topic)
    ensures WellGrounded(t, scopes, Merged(t, a, b)) && LiveIn(Merged(t, a, b), live)
  {
    var sa :| sa in scopes && sa.key == t.topicKey(a.topic) && forall c :: c in a.citations ==> c in sa.urls;
    var sb :| sb in scopes && sb.key == t.topicKey(b.topic) && forall c :: c in b.citations ==> c in sb.urls;
    SameScope(scopes, sa, sb);
    DedupeStaysInScope(t, scopes, live, sa, a.citations + b.citations);
  }

  /** The merged list so far: distinct topics, each well grounded in live URLs. */
  ghost predicate MergeOk(t: Text, scopes: seq<Scope>, live: string -> bool, merged: seq<Highlight>) {
    DistinctTopics(t, merged) && forall h :: h in merged ==> WellGrounded(t, scopes, h) && LiveIn(h, live)
  }

  lemma {:induction false} MergeIntoIs(t: Text, scopes: seq<Scope>, live: string -> bool, merged: seq<Highlight>, h: Highlight)
    requires ClosedOn(t, scopes, live) && DistinctKeys(scopes)
    requires MergeOk(t, scopes, live, merged) && WellGrounded(t, scopes, h) && LiveIn(h, live)
    ensures var r := MergeInto(t, merged, h);
            MergeOk(t, scopes, live, r) && |merged| <= |r| <= |merged| + 1 && |r| > 0
  {
    if i: nat :| i < |merged| && t.topicKey(merged[i].topic) == t.topicKey(h.topic) {
      MergeIntoAt(t, merged, h, i);
      MergedWellGrounded(t, scopes, live, merged[i], h);
    } else {
      MergeIntoAbsent(t, merged, h);
      FirstWellGrounded(t, scopes, live, h);
    }
  }

  lemma {:induction false} MergeByTopicIs(t: Text, scopes: seq<Scope>, live: string -> bool, highlights: seq<Highlight>)
    requires ClosedOn(t, scopes, live) && DistinctKeys(scopes)
    requires forall h :: h in highlights ==> WellGrounded(t, scopes, h) && LiveIn(h, live)
    ensures var r := MergeByTopic(t, highlights);
            MergeOk(t, scopes, live, r) && |r| <= |highlights|
  {
    if |highlights| > 0 {
      var front, last := highlights[..|highlights| - 1], highlights[|highlights| - 1];
      assert highlights == front + [last];
      MergeByTopicIs(t, scopes, live, front);
      MergeIntoIs(t, scopes, live, MergeByTopic(t, front), last);
    }
  }

  /** When the canonical forms of all offered citations are live, a successful result is grounded. */
  lemma GroundedWhenClosed(t: Text, topics: seq<Topic>, live: string -> bool, offered: seq<Highlight>)
    requires ClosedOn(t, Scopes(t, topics), live) && Enforce(t, topics, offered).Ok?
    requires forall h, c :: h in offered && c in Dedupe(t, h.citations) ==> live(c)
    ensures GroundedResult(t, topics, offered, Enforce(t, topics, offered).value)
  {
    ScopesAre(t, topics);
    GroundedAllIs(t, topics, offered);
    MergeByTopicIs(t, Scopes(t, topics), live, GroundedAll(t, topics, offered));
  }

  // ---------------------------------------------------------------- and no others do

  lemma DeclaredOf(scopes: seq<Scope>, s: Scope)
    requires DistinctKeys(scopes) && s in scopes
    ensures Declared(scopes, s.key) == Some(s)
  {
    DeclaredIs(scopes, s.key);
    SameScope(scopes, s, Declared(scopes, s.key).value);
  }

  function Citing(s: Scope, url: string): Highlight {
    Highlight(s.canonicalTopic, "-", "-", "-", [url])
  }

  lemma DedupeOne(t: Text, url: string, c: string)
    requires Canonical(t, url) == Some(c)
    ensures Dedupe(t, [url]) == [c]
  {
    assert [url][..0] == [];
  }

  lemma KeepOne(c: string, allowed: set<string>)
    requires c in allowed
    ensures Keep([c], allowed) == [c]
  {
    assert [c][..0] == [];
  }

  lemma CitingIsGrounded(t: Text, topics: seq<Topic>, s: Scope, url: string, c: string)
    requires s in Scopes(t, topics) && c in s.urls && Canonical(t, url) == Some(c)
    ensures Grounded(t, topics, Citing(s, url)) == Some(Citing(s, url).(citations := [c]))
  {
    var h, scopes := Citing(s, url), Scopes(t, topics);
    ScopeIs(t, topics, s);
    ScopesAre(t, topics);
    DeclaredOf(scopes, s);
    DedupeOne(t, url, c);
    KeepOne(c, UrlSet(t, AllEvidence(topics)));
    KeepOne(c, s.urls);
    OverlapIs(s, [c]);
    assert c in [c];
    assert Resolved(scopes, s.key, t.topLevelGroup(s.key), [c]) == Some(s);
  }

  lemma EnforceOne(t: Text, topics: seq<Topic>, h: Highlight, g: Highlight)
    requires Grounded(t, topics, h) == Some(g) && UrlSet(t, AllEvidence(topics)) != {}
    ensures Enforce(t, topics, [h]) == Ok([g.(citations := Dedupe(t, g.citations))])
  {
    assert [h][..0] == [] && [g][..0] == [];
    assert GroundedAll(t, topics, [h]) == [g];
    assert MergeByTopic(t, [g]) == MergeInto(t, [], g);
  }

  /** One highlight that declares a topic and cites one URL of its evidence: the URL is canonicalised once to
      be recognised, and once more on the way out. */
  lemma OneCitation(t: Text, topics: seq<Topic>, s: Scope, url: string, c: string)
    requires s in Scopes(t, topics) && c in s.urls && Canonical(t, url) == Some(c)
    ensures Enforce(t, topics, [Citing(s, url)]) == Ok([Citing(s, url).(citations := Dedupe(t, [c]))])
  {
    CitingIsGrounded(t, topics, s, url, c);
    ScopeIs(t, topics, s);
    EnforceOne(t, topics, Citing(s, url), Citing(s, url).(citations := [c]));
  }

  lemma WellGroundedUnder(t: Text, scopes: seq<Scope>, s: Scope, h: Highlight)
    requires DistinctKeys(scopes) && s in scopes && t.topicKey(h.topic) == s.key && WellGrounded(t, scopes, h)
    ensures |h.citations| > 0 && h.citations[0] in s.urls
  {
    var s' :| s' in scopes && s'.key == t.topicKey(h.topic) && forall u :: u in h.citations ==> u in s'.urls;
    SameScope(scopes, s, s');
    assert h.citations[0] in h.citations;
  }

  lemma ClosedWhenGrounded(t: Text, topics: seq<Topic>, s: Scope, c: string, h: Highlight)
    requires s in Scopes(t, topics) && h.citations == Dedupe(t, [c]) && h.topic == s.canonicalTopic
    requires WellGrounded(t, Scopes(t, topics), h)
    ensures Canonical(t, c).Some? && Canonical(t, c).value in s.urls
  {
    ScopeIs(t, topics, s);
    ScopesAre(t, topics);
    WellGroundedUnder(t, Scopes(t, topics), s, h);
    assert [c][..0] == [];
  }

  /** Where the canonicaliser is not closed, one highlight gets through that is not grounded. */
  lemma UngroundedCitation(t: Text, topics: seq<Topic>) returns (offered: Highlight)
    requires !Closed(t, Scopes(t, topics))
    ensures var r := Enforce(t, topics, [offered]);
            r.Ok? && exists h :: h in r.value && !WellGrounded(t, Scopes(t, topics), h)
  {
    var s, c :| s in Scopes(t, topics) && c in s.urls && !(Canonical(t, c).Some? && Canonical(t, c).value in s.urls);
    ScopeIs(t, topics, s);
    var url :| Canonical(t, url) == Some(c);
    offered := Citing(s, url);
    var h := offered.(citations := Dedupe(t, [c]));
    OneCitation(t, topics, s, url, c);
    assert h in [h];
    if WellGrounded(t, Scopes(t, topics), h) {
      ClosedWhenGrounded(t, topics, s, c, h);
    }
  }

  /** Grounding, exactly: every successful result, whatever was offered, has pairwise distinct topics, each
      citing at least one URL, none twice, and only evidence of its own topic, if and only if the
      canonicaliser maps the canonical evidence of each topic into the evidence of that topic. */
  lemma EnforcedIsGrounded(t: Text, topics: seq<Topic>)
    ensures Closed(t, Scopes(t, topics)) <==>
              forall offered: seq<Highlight> :: Enforce(t, topics, offered).Ok? ==>
                GroundedResult(t, topics, offered, Enforce(t, topics, offered).value)
  {
    if Closed(t, Scopes(t, topics)) {
      forall offered: seq<Highlight> | Enforce(t, topics, offered).Ok?
        ensures GroundedResult(t, topics, offered, Enforce(t, topics, offered).value)
      {
        GroundedWhenClosed(t, topics, AnyUrl(), offered);
      }
    } else {
      var h := UngroundedCitation(t, topics);
      EnforcedCount(t, topics, [h]);
      assert !GroundedResult(t, topics, [h], Enforce(t, topics, [h]).value);
    }
  }

  // ---------------------------------------------------------------- a topic's own evidence is kept

  /** Every citation of `x` is found in `r` under the same topic. */
  ghost predicate Carried(t: Text, x: Highlight, r: seq<Highlight>) {
    forall c :: c in x.citations ==> exists y :: y in r && t.topicKey(y.topic) == t.topicKey(x.topic) && c in y.citations
  }

  predicate StableCitations(t: Text, h: Highlight) {
    forall c :: c in h.citations ==> Canonical(t, c) == Some(c)
  }

  lemma DedupeKeepsStable(t: Text, urls: seq<string>)
    requires forall u :: u in urls ==> Canonical(t, u) == Some(u)
    ensures forall c :: c in Dedupe(t, urls) <==> c in urls
  {
    DedupeIs(t, urls);
  }

  lemma MergeIntoCarries(t: Text, merged: seq<Highlight>, h: Highlight)
    requires forall x :: x in merged || x == h ==> StableCitations(t, x)
    requires DistinctTopics(t, merged)
    ensures var r := MergeInto(t, merged, h);
            && DistinctTopics(t, r) && (forall x :: x in r ==> StableCitations(t, x))
            && (forall x :: x in merged || x == h ==> Carried(t, x, r))
  {
    var r := MergeInto(t, merged, h);
    if i: nat :| i < |merged| && t.topicKey(merged[i].topic) == t.topicKey(h.topic) {
      MergeIntoAt(t, merged, h, i);
      assert merged[i] in merged && StableCitations(t, merged[i]) && StableCitations(t, h);
      DedupeKeepsStable(t, merged[i].citations + h.citations);
      assert r[i] in r;
      forall x | x in merged || x == h ensures Carried(t, x, r) {
        if x != h && x != merged[i] {
          var j :| 0 <= j < |merged| && merged[j] == x;
          assert r[j] == x;
        }
      }
    } else {
      MergeIntoAbsent(t, merged, h);
      DedupeKeepsStable(t, h.citations);
      assert r[|merged|] in r;
    }
  }

  lemma CarriedOn(t: Text, x: Highlight, a: seq<Highlight>, b: seq<Highlight>)
    requires Carried(t, x, a) && forall y :: y in a ==> Carried(t, y, b)
    ensures Carried(t, x, b)
  {
    forall c | c in x.citations
      ensures exists y :: y in b && t.topicKey(y.topic) == t.topicKey(x.topic) && c in y.citations
    {
      var y :| y in a && t.topicKey(y.topic) == t.topicKey(x.topic) && c in y.citations;
      assert Carried(t, y, b);
    }
  }

  lemma {:induction false} MergeByTopicCarries(t: Text, highlights: seq<Highlight>)
    requires forall h :: h in highlights ==> StableCitations(t, h)
    ensures var r := MergeByTopic(t, highlights);
            && DistinctTopics(t, r) && (forall x :: x in r ==> StableCitations(t, x))
            && (forall x :: x in highlights ==> Carried(t, x, r))
  {
    if |highlights| > 0 {
      var front, last := highlights[..|highlights| - 1], highlights[|highlights| - 1];
      assert highlights == front + [last];
      MergeByTopicCarries(t, front);
      MergeIntoCarries(t, MergeByTopic(t, front), last);
      forall x | x in front ensures Carried(t, x, MergeByTopic(t, highlights)) {
        CarriedOn(t, x, MergeByTopic(t, front), MergeByTopic(t, highlights));
      }
    }
  }

  /** A highlight that cites evidence of its declared topic is kept under that topic, with all of it. */
  lemma DeclaredCitationsKept(t: Text, topics: seq<Topic>, h: Highlight, s: Scope, c: string)
    requires s in Scopes(t, topics) && s.key == t.topicKey(h.topic)
    requires c in Dedupe(t, h.citations) && c in s.urls
    ensures var g := Grounded(t, topics, h);
            g.Some? && t.topicKey(g.value.topic) == s.key && c in g.value.citations
  {
    var global := Keep(Dedupe(t, h.citations), UrlSet(t, AllEvidence(topics)));
    KeepIs(Dedupe(t, h.citations), UrlSet(t, AllEvidence(topics)));
    ScopeIs(t, topics, s);
    assert c in global;
    OverlapIs(s, global);
    ScopesAre(t, topics);
    DeclaredOf(Scopes(t, topics), s);
    var scoped := Keep(global, s.urls);
    KeepIs(global, s.urls);
    assert c in scoped;
    assert Grounded(t, topics, h) == Some(h.(topic := s.canonicalTopic, citations := scoped));
  }

  /** A highlight that cites evidence of its own declared topic makes grounding succeed and keeps every
      such citation, under that topic, through the merge. */
  lemma OwnEvidenceIsKept(t: Text, topics: seq<Topic>, highlights: seq<Highlight>, h: Highlight, s: Scope, c: string)
    requires Stable(t, topics) && h in highlights
    requires s in Scopes(t, topics) && s.key == t.topicKey(h.topic)
    requires c in Dedupe(t, h.citations) && c in s.urls
    ensures var r := Enforce(t, topics, highlights);
            r.Ok? && exists y :: y in r.value && t.topicKey(y.topic) == s.key && c in y.citations
  {
    ScopeIs(t, topics, s);
    GroundedAllIs(t, topics, highlights);
    var grounded := GroundedAll(t, topics, highlights);
    forall x | x in grounded ensures StableCitations(t, x) {
    }
    MergeByTopicCarries(t, grounded);
    DeclaredCitationsKept(t, topics, h, s, c);
    var g := Grounded(t, topics, h).value;
    assert Carried(t, g, MergeByTopic(t, grounded));
  }
}
