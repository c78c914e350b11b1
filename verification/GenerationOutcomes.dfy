/** How the generation of a brief ends on each provider path: which topics and highlights are used, when a path
    succeeds and with what, and when it falls back or fails. */
module GenerationOutcomes {
  import opened Strings
  import opened Grounding
  import opened GroundingOutcomes
  import opened BriefGeneration

  // ---------------------------------------------------------------- limits

  /** The request has a topic budget: a positive maximum. */
  predicate Budgeted(request: Request) {
    request.maxTopics.Some? && request.maxTopics.value >= 1
  }

  /** A positive topic budget limits the highlights, except in query mode. */
  lemma HighlightLimitIs(request: Request, available: nat)
    ensures var n := HighlightLimit(request, available);
            && n <= available && (available > 0 ==> n > 0)
            && (!request.isQuery && Budgeted(request) ==> n <= request.maxTopics.value)
            && (n < available ==> !request.isQuery && Budgeted(request) && n == request.maxTopics.value)
  {
  }

  /** The fallback takes the first topics of the request: at least one, at most a positive preferred count, at most
      the topic budget unless it is a query and not concise, and as many as these allow. */
  lemma FallbackTopicsAre(request: Request, preferred: Option<int>, concise: bool)
    ensures var r := FallbackTopics(request, preferred, concise);
            var budgeted := Budgeted(request) && (concise || !request.isQuery);
            var counted := preferred.Some? && preferred.value >= 1;
            && r <= request.topics && (|request.topics| > 0 ==> |r| > 0)
            && (budgeted ==> |r| <= request.maxTopics.value) && (counted ==> |r| <= preferred.value)
            && (|r| < |request.topics| ==>
                  (budgeted && |r| == request.maxTopics.value) || (counted && |r| == preferred.value))
  {
  }

  // ---------------------------------------------------------------- the rule-based path

  /** The topic has evidence with a canonical form, no later topic has its key, and its name is trimmed in its key. */
  ghost predicate Citable(t: Text, request: Request, i: nat)
    requires i < |request.topics|
  {
    var topic := request.topics[i];
    && (exists u :: u in topic.evidence && Canonical(t, u).Some?)
    && t.topicKey(topic.name) == t.topicKey(Trim(topic.name))
    && forall j :: i < j < |request.topics| ==> ScopeOf(t, request.topics[j]).key != ScopeOf(t, topic).key
  }

  /** A rule-based highlight cites its own topic's evidence if there is any to cite. */
  lemma InternalCitesEvidence(t: Text, env: Environment, topic: Topic) returns (u: string)
    requires exists v :: v in topic.evidence && Canonical(t, v).Some?
    requires StableOn(t, topic)
    ensures u in Dedupe(t, InternalHighlight(t, env, topic).citations) && u in UrlSet(t, topic.evidence)
  {
    var cited, h := Dedupe(t, InsightCitations(t, Insights(topic, env))), InternalHighlight(t, env, topic);
    DedupeIs(t, topic.evidence);
    DedupeIs(t, InsightCitations(t, Insights(topic, env)));
    DedupeIs(t, h.citations);
    InsightsAreEvidence(t, topic, env);
    if |cited| > 0 {
      u := cited[0];
      assert u in cited;
    } else {
      var v :| v in topic.evidence && Canonical(t, v).Some?;
      u := Canonical(t, v).value;
      assert u in h.citations;
    }
    assert u in UrlSet(t, topic.evidence) && u in h.citations;
  }

  lemma InsightsAreEvidence(t: Text, topic: Topic, env: Environment)
    requires StableOn(t, topic)
    ensures forall c :: c in Dedupe(t, InsightCitations(t, Insights(topic, env))) ==> c in UrlSet(t, topic.evidence)
  {
    var urls := Insights(topic, env);
    var cited := InsightCitations(t, urls);
    DedupeIs(t, topic.evidence);
    DedupeIs(t, cited);
    KeepIs(env.picked(topic), set u | u in topic.evidence);
    var all := Keep(env.picked(topic), set u | u in topic.evidence);
    forall u | u in urls ensures u in topic.evidence {
      assert u in all;
    }
    InsightsCite(t, urls);
    hide Insights, InsightCitations, Dedupe, Canonical, Keep;
    forall v | v in cited ensures v in UrlSet(t, topic.evidence) {
      var u :| u in urls && Canonical(t, u) == Some(v);
    }
    forall c | c in Dedupe(t, cited) ensures c in UrlSet(t, topic.evidence) {
      var v :| v in cited && Canonical(t, v) == Some(c);
    }
  }

  predicate StableOn(t: Text, topic: Topic) {
    forall c :: c in UrlSet(t, topic.evidence) ==> Canonical(t, c) == Some(c)
  }

  lemma {:induction false} InsightsCite(t: Text, urls: seq<string>)
    ensures forall c :: c in InsightCitations(t, urls) ==> exists u :: u in urls && Canonical(t, u) == Some(c)
  {
    if |urls| > 0 {
      var front, last := urls[..|urls| - 1], urls[|urls| - 1];
      assert urls == front + [last];
      InsightsCite(t, front);
    }
  }

  /** With a stable canonicaliser and grounded notes, the rule-based path succeeds as soon as one of the topics it takes
      can be cited, and that topic is among its highlights with its own evidence. */
  lemma InternalSucceeds(t: Text, request: Request, env: Environment, preferred: Option<int>, concise: bool, i: nat)
    requires Stable(t, request.topics) && env.notesGrounded
    requires i < |FallbackTopics(request, preferred, concise)| && i < |request.topics| && Citable(t, request, i)
    ensures var r, s := BuildInternal(t, request, env, preferred, concise), ScopeOf(t, request.topics[i]);
            r.Ok? && exists y, c :: y in r.value && t.topicKey(y.topic) == s.key && c in y.citations && c in s.urls
  {
    var topics, topic := FallbackTopics(request, preferred, concise), request.topics[i];
    var s, build := ScopeOf(t, topic), (x: Topic) => InternalHighlight(t, env, x);
    FallbackTopicsAre(request, preferred, concise);
    LastScopeStays(t, request.topics, i);
    EvidenceIncludes(t, request.topics, topic);
    var c := InternalCitesEvidence(t, env, topic);
    var offered, h := InternalHighlights(t, env, topics), InternalHighlight(t, env, topic);
    MapAt(build, topics, i);
    assert offered[i] == h && h in offered;
    OwnEvidenceIsKept(t, request.topics, offered, h, s, c);
  }

  /** A rule-based highlight has the wording of its topic, each part in its field. It cites the canonical forms of the
      first two picked URLs that are evidence of the topic, or, when these have none, of all evidence of the topic. */
  lemma InternalHighlightIs(t: Text, env: Environment, topic: Topic)
    requires StableOn(t, topic)
    ensures var h, n, used := InternalHighlight(t, env, topic), env.narrative(topic), Insights(topic, env);
            var all := Keep(env.picked(topic), set u | u in topic.evidence);
            && h.whatHappened == n.whatHappened && h.whyItMatters == n.whyItMatters && h.suggestedAction == n.suggestedAction
            && used <= all && |used| == Min(2, |all|)
            && if exists u :: u in used && Canonical(t, u).Some?
               then forall c :: c in h.citations <==> exists u :: u in used && Canonical(t, u) == Some(c)
               else forall c :: c in h.citations <==> exists u :: u in topic.evidence && Canonical(t, u) == Some(c)
  {
    var used := Insights(topic, env);
    var all := Keep(env.picked(topic), set u | u in topic.evidence);
    KeepIs(env.picked(topic), set u | u in topic.evidence);
    DedupeIs(t, topic.evidence);
    forall u | u in used && Canonical(t, u).Some? ensures u in topic.evidence && Canonical(t, u).value in UrlSet(t, topic.evidence) {
      assert u in all;
    }
    hide Insights, Keep;
    CitedInsights(t, used);
    InsightsCite(t, used);
    var cited := InsightCitations(t, used);
    DedupeKeepsStable(t, cited);
    if u :| u in used && Canonical(t, u).Some? {
      assert Canonical(t, u).value in Dedupe(t, cited);
    } else {
      assert forall c :: c !in cited;
      assert Dedupe(t, cited) == [];
    }
  }

  lemma {:induction false} CitedInsights(t: Text, urls: seq<string>)
    ensures forall u :: u in urls && Canonical(t, u).Some? ==> Canonical(t, u).value in InsightCitations(t, urls)
  {
    if |urls| > 0 {
      var front, last := urls[..|urls| - 1], urls[|urls| - 1];
      assert urls == front + [last];
      CitedInsights(t, front);
    }
  }

  /** The rule-based brief of a request for one topic that can be cited is its one highlight, under its trimmed name. */
  lemma OneTopic(t: Text, request: Request, env: Environment, topic: Topic)
    requires request.topics == [topic] && StableOn(t, topic) && env.notesGrounded
    requires exists u :: u in topic.evidence && Canonical(t, u).Some?
    ensures var r, n := Build(t, Internal, request, env), env.narrative(topic);
            && r.Ok? && |r.value| == 1 && r.value[0].topic == Trim(topic.name)
            && r.value[0].whatHappened == n.whatHappened && r.value[0].whyItMatters == n.whyItMatters
            && r.value[0].suggestedAction == n.suggestedAction
  {
    var h := InternalHighlight(t, env, topic);
    var u := InternalCitesEvidence(t, env, topic);
    LastScopeStays(t, request.topics, 0);
    ScopesAre(t, request.topics);
    GroundedExactly(t, request.topics, h);
    GroundedIs(t, request.topics, h);
    OneInternal(t, request, env, topic);
    InternalHighlightIs(t, env, topic);
    hide Grounded, Scopes, Dedupe, AllEvidence, Preferred, Cited, WellGrounded, Enforce, InternalHighlight, InternalHighlights;
    assert u in ScopeOf(t, topic).urls;
    var g := Grounded(t, request.topics, h).value;
    assert g.topic == Trim(topic.name);
    SomeEvidence(t, request.topics, h);
    EnforceOne(t, request.topics, h, g);
  }

  lemma OneInternal(t: Text, request: Request, env: Environment, topic: Topic)
    requires request.topics == [topic]
    ensures InternalHighlights(t, env, FallbackTopics(request, None, false)) == [InternalHighlight(t, env, topic)]
  {
    FallbackTopicsAre(request, None, false);
    assert FallbackTopics(request, None, false) == [topic];
    assert [topic][..0] == [];
  }

  // ---------------------------------------------------------------- the paths of a model

  /** A model that cannot be read ends in an LLM error, except that the Codex CLI falls back when only its artifact is
      missing. */
  lemma ModelFailures(t: Text, provider: Provider, request: Request, env: Environment)
    requires !provider.Internal?
    ensures env.llm == Fails(false) ==> Build(t, provider, request, env) == Err(LlmFailed(false))
    ensures env.llm == Fails(true) && provider.Http? ==> Build(t, provider, request, env) == Err(LlmFailed(true))
    ensures env.llm.Answer? && !AllParsed(env.llm.highlights) ==> Build(t, provider, request, env) == Err(LlmFailed(false))
  {
  }

  /** Where the Codex CLI leaves no artifact, the rule-based path takes over within the topic budget: with a citable
      topic there, it succeeds. */
  lemma CodexFallsBack(t: Text, request: Request, env: Environment, i: nat)
    requires Stable(t, request.topics) && env.notesGrounded && env.llm == Fails(true)
    requires i < |request.topics| && (i == 0 || !Budgeted(request) || i < request.maxTopics.value) && Citable(t, request, i)
    ensures var r, s := Build(t, CodexCli, request, env), ScopeOf(t, request.topics[i]);
            r.Ok? && exists y, c :: y in r.value && t.topicKey(y.topic) == s.key && c in y.citations && c in s.urls
  {
    FallbackTopicsAre(request, request.maxTopics, true);
    InternalSucceeds(t, request, env, request.maxTopics, true, i);
  }

  /** An answer of which no highlight can be grounded is replaced by rule-based highlights, no more than it offered
      unless it offered none: with a citable topic among the first, the request succeeds all the same. */
  lemma AnswerFallsBack(t: Text, provider: Provider, request: Request, env: Environment, i: nat)
    requires Stable(t, request.topics) && env.notesGrounded && !provider.Internal? && env.llm.Answer?
    requires AllParsed(env.llm.highlights)
    requires forall h, c, s :: h in env.llm.highlights && c in Dedupe(t, Dedupe(t, h.citations)) && s in Scopes(t, request.topics) ==>
               c !in s.urls
    requires i < |request.topics| && Citable(t, request, i)
    requires i == 0 || ((!Budgeted(request) || i < request.maxTopics.value)
                        && (|env.llm.highlights| == 0 || i < HighlightLimit(request, |env.llm.highlights|)))
    ensures var r, s := Build(t, provider, request, env), ScopeOf(t, request.topics[i]);
            r.Ok? && exists y, c :: y in r.value && t.topicKey(y.topic) == s.key && c in y.citations && c in s.urls
  {
    var offered := Answered(t, request, env.llm.highlights);
    FallbackTopicsAre(request, Some(|offered|), true);
    HighlightLimitIs(request, |env.llm.highlights|);
    OfferedAre(t, request, env.llm.highlights);
    forall h | h in offered ensures Grounded(t, request.topics, h).None? {
      GroundedExactly(t, request.topics, h);
    }
    EnforceDecides(t, request.topics, offered);
    var u :| u in request.topics[i].evidence && Canonical(t, u).Some?;
    InternalSucceeds(t, request, env, Some(|offered|), true, i);
  }

  lemma OfferedAre(t: Text, request: Request, highlights: seq<Highlight>)
    ensures forall x :: x in Answered(t, request, highlights) ==> exists h :: h in highlights && x == NormalizedHighlight(t, h)
  {
    var normalize, some := (h: Highlight) => NormalizedHighlight(t, h), highlights[..HighlightLimit(request, |highlights|)];
    MapIn(normalize, some);
    forall x | x in Answered(t, request, highlights) ensures exists h :: h in highlights && x == NormalizedHighlight(t, h) {
      var h :| h in some && normalize(h) == x;
      assert h in highlights;
    }
  }

  /** An answer of one highlight that cites evidence is published under the preferred topic with its texts trimmed,
      each in its field. */
  lemma OneAnswer(t: Text, provider: Provider, request: Request, env: Environment, h: Highlight)
    requires !provider.Internal? && env.llm == Answer([h]) && Parsed(h) && env.notesGrounded
    requires exists s, c :: s in Scopes(t, request.topics) && c in s.urls && c in Dedupe(t, Dedupe(t, h.citations))
    ensures var r := Build(t, provider, request, env);
            && r.Ok? && |r.value| == 1
            && r.value[0].whatHappened == Trim(h.whatHappened) && r.value[0].whyItMatters == Trim(h.whyItMatters)
            && r.value[0].suggestedAction == Trim(h.suggestedAction)
            && exists s :: s in Scopes(t, request.topics) && r.value[0].topic == s.canonicalTopic
  {
    var offered := NormalizedHighlight(t, h);
    OneOffered(t, request, h);
    GroundedExactly(t, request.topics, offered);
    GroundedIs(t, request.topics, offered);
    hide Grounded, Scopes, Dedupe, AllEvidence, Preferred, Cited, WellGrounded, Answered, Enforce;
    var g := Grounded(t, request.topics, offered).value;
    SomeEvidence(t, request.topics, offered);
    EnforceOne(t, request.topics, offered, g);
  }

  lemma OneOffered(t: Text, request: Request, h: Highlight)
    ensures Answered(t, request, [h]) == [NormalizedHighlight(t, h)]
  {
    HighlightLimitIs(request, 1);
    assert [h][..1] == [h] && [h][..0] == [];
  }

  lemma SomeEvidence(t: Text, topics: seq<Topic>, h: Highlight)
    requires Grounded(t, topics, h).Some?
    ensures UrlSet(t, AllEvidence(topics)) != {}
  {
    GroundedIs(t, topics, h);
    var g := Grounded(t, topics, h).value;
    assert g.citations[0] in g.citations;
  }
}
