/** The provider paths that produce the highlights of a brief: rule-based, HTTP, and the Codex CLI with its
    fallbacks. Calls to a model, the choice and wording of rule-based highlights, and the check of the notes
    are inputs. */
module BriefGeneration {
  import opened Strings
  import opened Grounding

  datatype Request = Request(topics: seq<Topic>, isQuery: bool, maxTopics: Option<int>)

  /** What a model call brings back. */
  datatype LlmOutcome = Answer(highlights: seq<Highlight>) | Fails(artifact: bool)

  datatype Provider = Internal | Http | CodexCli

  datatype Narrative = Narrative(whatHappened: string, whyItMatters: string, suggestedAction: string)

  /** What the surroundings of one generation decide: the model's outcome; the evidence URLs that the text
      scoring picks for a topic, and the wording of its rule-based highlight; whether the notes stay grounded. */
  datatype Environment = Environment(
    llm: LlmOutcome,
    picked: Topic -> seq<string>,
    narrative: Topic -> Narrative,
    notesGrounded: bool)

  function Min(a: int, b: int): int {
    if a <= b then a else b
  }

  function HighlightLimit(request: Request, available: nat): nat {
    if request.isQuery || request.maxTopics.None? || request.maxTopics.value <= 0 then available
    else Min(request.maxTopics.value, available)
  }

  function FallbackTopics(request: Request, preferred: Option<int>, concise: bool): seq<Topic> {
    var n := |request.topics|;
    var limit := HighlightLimit(request, n);
    var capped := if concise && request.isQuery && request.maxTopics.Some? && request.maxTopics.value > 0
                  then Min(limit, request.maxTopics.value) else limit;
    var wanted := if preferred.Some? && preferred.value > 0 then Min(capped, preferred.value) else capped;
    var bounded := if Min(wanted, n) < 1 then 1 else Min(wanted, n);
    if n <= bounded then request.topics else request.topics[..bounded]
  }

  function Map<A, B>(f: A -> B, s: seq<A>): (r: seq<B>)
    ensures |r| == |s|
  {
    if |s| == 0 then [] else Map(f, s[..|s| - 1]) + [f(s[|s| - 1])]
  }

  // ---------------------------------------------------------------- offered highlights

  /** The response schema: no field is empty. */
  predicate Parsed(h: Highlight) {
    |h.topic| > 0 && |h.whatHappened| > 0 && |h.whyItMatters| > 0 && |h.suggestedAction| > 0 && |h.citations| > 0
  }

  predicate AllParsed(highlights: seq<Highlight>) {
    forall i :: 0 <= i < |highlights| ==> Parsed(highlights[i])
  }

  /** A highlight of the model, trimmed and with its citations in canonical form. */
  function NormalizedHighlight(t: Text, h: Highlight): Highlight {
    Highlight(Trim(h.topic), Trim(h.whatHappened), Trim(h.whyItMatters), Trim(h.suggestedAction), Dedupe(t, h.citations))
  }

  const MAX_INSIGHTS := 2

  /** The evidence behind a rule-based highlight: at most two URLs of the topic. */
  function Insights(topic: Topic, env: Environment): seq<string> {
    var picked := Keep(env.picked(topic), set u | u in topic.evidence);
    if |picked| <= MAX_INSIGHTS then picked else picked[..MAX_INSIGHTS]
  }

  /** Each insight cites the canonical form of its URL, if it has one. */
  function InsightCitations(t: Text, urls: seq<string>): seq<string> {
    if |urls| == 0 then []
    else
      var front, c := InsightCitations(t, urls[..|urls| - 1]), Canonical(t, urls[|urls| - 1]);
      if c.Some? then front + [c.value] else front
  }

  /** The rule-based highlight of a topic: the citations of its insights, or all of its evidence. */
  function InternalHighlight(t: Text, env: Environment, topic: Topic): Highlight {
    var n, cited := env.narrative(topic), Dedupe(t, InsightCitations(t, Insights(topic, env)));
    Highlight(topic.name, n.whatHappened, n.whyItMatters, n.suggestedAction,
              if |cited| > 0 then cited else Dedupe(t, topic.evidence))
  }

  function InternalHighlights(t: Text, env: Environment, topics: seq<Topic>): seq<Highlight> {
    Map((topic: Topic) => InternalHighlight(t, env, topic), topics)
  }

  // ---------------------------------------------------------------- the provider paths

  function Finish(highlights: Result<seq<Highlight>>, env: Environment): Result<seq<Highlight>> {
    if highlights.Ok? && !env.notesGrounded then Err(UngroundedNotes) else highlights
  }

  function BuildInternal(t: Text, request: Request, env: Environment, preferred: Option<int>, concise: bool): Result<seq<Highlight>> {
    Finish(Enforce(t, request.topics, InternalHighlights(t, env, FallbackTopics(request, preferred, concise))), env)
  }

  /** The model's highlights up to the limit. */
  function Answered(t: Text, request: Request, highlights: seq<Highlight>): seq<Highlight> {
    Map((h: Highlight) => NormalizedHighlight(t, h), highlights[..HighlightLimit(request, |highlights|)])
  }

  /** The model's highlights; when none of them is grounded, rule-based ones instead. */
  function BuildFromAnswer(t: Text, request: Request, env: Environment, highlights: seq<Highlight>): Result<seq<Highlight>> {
    var offered := Answered(t, request, highlights);
    var enforced := Enforce(t, request.topics, offered);
    if enforced == Err(NoGroundedHighlights) then BuildInternal(t, request, env, Some(|offered|), true)
    else Finish(enforced, env)
  }

  function Build(t: Text, provider: Provider, request: Request, env: Environment): Result<seq<Highlight>> {
    if provider.Internal? then BuildInternal(t, request, env, None, false)
    else
      match env.llm
      case Answer(highlights) =>
        if AllParsed(highlights) then BuildFromAnswer(t, request, env, highlights) else Err(LlmFailed(false))
      case Fails(artifact) =>
        if provider.CodexCli? && artifact then BuildInternal(t, request, env, request.maxTopics, true)
        else Err(LlmFailed(artifact))
  }

  /** Pairwise distinct topics, each well grounded. */
  ghost predicate GroundedBrief(t: Text, request: Request, r: seq<Highlight>) {
    |r| > 0 && DistinctTopics(t, r) && forall h :: h in r ==> WellGrounded(t, Scopes(t, request.topics), h)
  }

  // ---------------------------------------------------------------- citations are canonicalised before they are offered

  predicate IsCanonical(t: Text, c: string, u: string) {
    Canonical(t, u) == Some(c)
  }

  /** Every citation is the canonical form of some URL. */
  ghost predicate CanonicalCitations(t: Text, h: Highlight) {
    forall c :: c in h.citations ==> exists u :: IsCanonical(t, c, u)
  }

  lemma DedupeIsCanonical(t: Text, urls: seq<string>)
    ensures forall c :: c in Dedupe(t, urls) ==> exists u :: u in urls && IsCanonical(t, c, u)
  {
    DedupeIs(t, urls);
    forall c | c in Dedupe(t, urls) ensures exists u :: u in urls && IsCanonical(t, c, u) {
      var u :| u in urls && Canonical(t, u) == Some(c);
      assert IsCanonical(t, c, u);
    }
  }

  lemma MapIn<A, B>(f: A -> B, s: seq<A>)
    ensures forall y :: y in Map(f, s) ==> exists x :: x in s && f(x) == y
  {
    if |s| > 0 {
      MapIn(f, s[..|s| - 1]);
    }
  }

  /** On every path, what is offered to grounding cites canonical forms only. */
  lemma OfferedIsCanonical(t: Text, env: Environment, topics: seq<Topic>, answered: seq<Highlight>)
    ensures forall h :: h in InternalHighlights(t, env, topics) ==> CanonicalCitations(t, h)
    ensures forall h :: h in Map((x: Highlight) => NormalizedHighlight(t, x), answered) ==> CanonicalCitations(t, h)
  {
    var internal, normalize := (topic: Topic) => InternalHighlight(t, env, topic), (x: Highlight) => NormalizedHighlight(t, x);
    MapIn(internal, topics);
    MapIn(normalize, answered);
    forall h | h in InternalHighlights(t, env, topics) ensures CanonicalCitations(t, h) {
      var topic :| topic in topics && internal(topic) == h;
      DedupeIsCanonical(t, InsightCitations(t, Insights(topic, env)));
      DedupeIsCanonical(t, topic.evidence);
    }
    forall h | h in Map(normalize, answered) ensures CanonicalCitations(t, h) {
      var x :| x in answered && normalize(x) == h;
      DedupeIsCanonical(t, x.citations);
    }
  }

  /** Whatever path it takes, a successful result is what grounding made of highlights that cite canonical forms,
      and its notes passed their check; outside query mode they are no more than the topic budget. */
  lemma BuildEnforces(t: Text, provider: Provider, request: Request, env: Environment) returns (offered: seq<Highlight>)
    requires Build(t, provider, request, env).Ok?
    ensures Enforce(t, request.topics, offered) == Build(t, provider, request, env) && env.notesGrounded
    ensures forall h :: h in offered ==> CanonicalCitations(t, h)
    ensures !request.isQuery && request.maxTopics.Some? && request.maxTopics.value > 0 ==> |offered| <= request.maxTopics.value
  {
    if env.llm.Answer? && !provider.Internal? {
      offered := Answered(t, request, env.llm.highlights);
      OfferedIsCanonical(t, env, [], env.llm.highlights[..HighlightLimit(request, |env.llm.highlights|)]);
      if Enforce(t, request.topics, offered) == Err(NoGroundedHighlights) {
        var topics := FallbackTopics(request, Some(|offered|), true);
        FallbackIsCapped(request, Some(|offered|), true);
        offered := InternalHighlights(t, env, topics);
        OfferedIsCanonical(t, env, topics, []);
      }
    } else {
      var preferred := if provider.Internal? then None else request.maxTopics;
      var topics := FallbackTopics(request, preferred, !provider.Internal?);
      FallbackIsCapped(request, preferred, !provider.Internal?);
      offered := InternalHighlights(t, env, topics);
      OfferedIsCanonical(t, env, topics, []);
    }
  }

  lemma FallbackIsCapped(request: Request, preferred: Option<int>, concise: bool)
    ensures var r := FallbackTopics(request, preferred, concise);
            && |r| <= |request.topics| && (|request.topics| > 0 ==> |r| > 0)
            && (!request.isQuery && request.maxTopics.Some? && request.maxTopics.value > 0 ==> |r| <= request.maxTopics.value)
  {
  }

  /** A successful result has at least one highlight, its notes passed their check, and outside query mode there
      are no more highlights than the request's positive topic budget allows. */
  lemma SuccessWithinBudget(t: Text, provider: Provider, request: Request, env: Environment)
    requires Build(t, provider, request, env).Ok?
    ensures var r := Build(t, provider, request, env).value;
            && |r| > 0 && env.notesGrounded
            && (!request.isQuery && request.maxTopics.Some? && request.maxTopics.value > 0 ==> |r| <= request.maxTopics.value)
  {
    var offered := BuildEnforces(t, provider, request, env);
    EnforcedCount(t, request.topics, offered);
  }

  // ---------------------------------------------------------------- exactly when results are grounded

  predicate IsTwice(t: Text, c: string, u: string) {
    Canonical(t, u).Some? && Canonical(t, Canonical(t, u).value) == Some(c)
  }

  /** The canonical form of a canonical form: what a citation is when grounding compares it with the evidence. */
  ghost predicate Recanonical(t: Text, c: string) {
    exists u :: IsTwice(t, c, u)
  }

  /** Evidence that is a canonical form of a canonical form is mapped into the evidence of its topic. */
  ghost predicate ClosedOnCitations(t: Text, scopes: seq<Scope>) {
    forall s, c :: s in scopes && c in s.urls && Recanonical(t, c) ==>
      Canonical(t, c).Some? && Canonical(t, c).value in s.urls
  }

  lemma RecanonicalAgain(t: Text, c: string)
    requires Recanonical(t, c) && Canonical(t, c).Some?
    ensures Recanonical(t, Canonical(t, c).value)
  {
    var u :| IsTwice(t, c, u);
    assert IsTwice(t, Canonical(t, c).value, Canonical(t, u).value);
  }

  lemma ComparedIsRecanonical(t: Text, h: Highlight)
    requires CanonicalCitations(t, h)
    ensures forall c :: c in Dedupe(t, h.citations) ==> Recanonical(t, c)
  {
    DedupeIs(t, h.citations);
    forall c | c in Dedupe(t, h.citations) ensures Recanonical(t, c) {
      var v :| v in h.citations && Canonical(t, v) == Some(c);
      var u :| IsCanonical(t, v, u);
      assert IsTwice(t, c, u);
    }
  }

  lemma SuccessWhenClosed(t: Text, provider: Provider, request: Request, env: Environment)
    requires ClosedOnCitations(t, Scopes(t, request.topics)) && Build(t, provider, request, env).Ok?
    ensures GroundedBrief(t, request, Build(t, provider, request, env).value)
  {
    var live := (c: string) => Recanonical(t, c);
    var scopes := Scopes(t, request.topics);
    forall s, c | s in scopes && c in s.urls && live(c)
      ensures Canonical(t, c).Some? && Canonical(t, c).value in s.urls && live(Canonical(t, c).value)
    {
      RecanonicalAgain(t, c);
    }
    var offered := BuildEnforces(t, provider, request, env);
    forall h, c | h in offered && c in Dedupe(t, h.citations) ensures live(c) {
      ComparedIsRecanonical(t, h);
    }
    GroundedWhenClosed(t, request.topics, live, offered);
  }

  /** The model answers with one highlight that cites one URL under a name that trims to the topic. */
  function CitingAnswer(name: string, url: string): Environment {
    Environment(Answer([Highlight(" " + name, "-", "-", "-", [url])]), (topic: Topic) => [],
                (topic: Topic) => Narrative("-", "-", "-"), true)
  }

  lemma TrimDash()
    ensures Trim("-") == "-"
  {
  }

  lemma CitingAnswerIsOffered(t: Text, request: Request, s: Scope, name: string, url: string, c: string)
    requires s.canonicalTopic == Trim(name) && Canonical(t, url) == Some(c)
    ensures Answered(t, request, CitingAnswer(name, url).llm.highlights) == [Citing(s, c)]
    ensures AllParsed(CitingAnswer(name, url).llm.highlights)
  {
    var h := Highlight(" " + name, "-", "-", "-", [url]);
    TrimDropsSpace(name);
    TrimDash();
    DedupeOne(t, url, c);
    assert HighlightLimit(request, 1) == 1;
    assert [h][..1] == [h] && [h][..0] == [];
    assert NormalizedHighlight(t, h) == Citing(s, c);
  }

  /** An answer that cites `url`, whose second canonical form `c` is evidence of the topic, yields the third. */
  lemma CitingAnswerBuilds(t: Text, provider: Provider, request: Request, topic: Topic, url: string, c: string)
    requires !provider.Internal? && topic in request.topics && ScopeOf(t, topic) in Scopes(t, request.topics)
    requires c in ScopeOf(t, topic).urls && IsTwice(t, c, url)
    ensures Build(t, provider, request, CitingAnswer(topic.name, url))
         == Ok([Citing(ScopeOf(t, topic), Canonical(t, url).value).(citations := Dedupe(t, [c]))])
  {
    var s, once := ScopeOf(t, topic), Canonical(t, url).value;
    CitingAnswerIsOffered(t, request, s, topic.name, url, once);
    OneCitation(t, request.topics, s, once, c);
  }

  lemma NotClosedEscapes(t: Text, request: Request)
    requires !ClosedOnCitations(t, Scopes(t, request.topics))
    ensures exists env: Environment :: Build(t, Http, request, env).Ok? && !GroundedBrief(t, request, Build(t, Http, request, env).value)
  {
    var scopes := Scopes(t, request.topics);
    var s, c :| s in scopes && c in s.urls && Recanonical(t, c) && !(Canonical(t, c).Some? && Canonical(t, c).value in s.urls);
    var url :| IsTwice(t, c, url);
    ScopesAre(t, request.topics);
    var topic :| topic in request.topics && s == ScopeOf(t, topic);
    CitingAnswerBuilds(t, Http, request, topic, url, c);
    var h := Citing(s, Canonical(t, url).value).(citations := Dedupe(t, [c]));
    if WellGrounded(t, scopes, h) {
      ClosedWhenGrounded(t, request.topics, s, c, h);
    }
    assert h in [h];
    assert !GroundedBrief(t, request, Build(t, Http, request, CitingAnswer(topic.name, url)).value);
  }

  /** On every provider path and whatever the model answers, a successful result has pairwise distinct topics and
      cites, per topic, at least one URL, none twice, and only that topic's evidence, if and only if the
      canonicaliser maps into the topic's evidence every URL of it that is a canonical form of a canonical
      form. */
  lemma SuccessIsGrounded(t: Text, request: Request)
    ensures ClosedOnCitations(t, Scopes(t, request.topics)) <==>
              forall provider: Provider, env: Environment :: Build(t, provider, request, env).Ok? ==>
                GroundedBrief(t, request, Build(t, provider, request, env).value)
  {
    if ClosedOnCitations(t, Scopes(t, request.topics)) {
      forall provider: Provider, env: Environment | Build(t, provider, request, env).Ok?
        ensures GroundedBrief(t, request, Build(t, provider, request, env).value)
      {
        SuccessWhenClosed(t, provider, request, env);
      }
    } else {
      NotClosedEscapes(t, request);
    }
  }

  /** A canonicaliser that is closed on the evidence of each topic is so on what can be cited, and so is one that
      maps each canonical form to itself. */
  lemma ClosedIsEnough(t: Text, request: Request, provider: Provider, env: Environment)
    requires Closed(t, Scopes(t, request.topics)) || Stable(t, request.topics)
    requires Build(t, provider, request, env).Ok?
    ensures GroundedBrief(t, request, Build(t, provider, request, env).value)
  {
    if Stable(t, request.topics) {
      StableIsClosed(t, request.topics);
    }
    forall s, c | s in Scopes(t, request.topics) && c in s.urls
      ensures Canonical(t, c).Some? && Canonical(t, c).value in s.urls
    {
      assert AnyUrl()(c);
    }
    SuccessWhenClosed(t, provider, request, env);
  }

  /** Evidence of which no URL is a canonical form of a canonical form cannot be cited: no path succeeds. */
  lemma NothingCitable(t: Text, provider: Provider, request: Request, env: Environment)
    requires forall s, c :: s in Scopes(t, request.topics) && c in s.urls ==> !Recanonical(t, c)
    ensures Build(t, provider, request, env).Err?
  {
    if Build(t, provider, request, env).Ok? {
      var offered := BuildEnforces(t, provider, request, env);
      var grounded := GroundedAll(t, request.topics, offered);
      GroundedAllIs(t, request.topics, offered);
      EnforcedCount(t, request.topics, offered);
      assert grounded[0] in grounded && grounded[0].citations[0] in grounded[0].citations;
      var h :| h in offered && grounded[0].citations[0] in Dedupe(t, h.citations);
      ComparedIsRecanonical(t, h);
      assert false;
    }
  }

  // ---------------------------------------------------------------- a topic's own evidence on the provider paths

  /** With a stable canonicaliser and grounded notes, an answer with a highlight, within the limit, that cites
      evidence of its declared topic succeeds and keeps every such citation under that topic. */
  lemma AnswerKeepsOwnEvidence(t: Text, provider: Provider, request: Request, env: Environment, i: nat, s: Scope, c: string)
    requires Stable(t, request.topics) && !provider.Internal? && env.llm.Answer? && AllParsed(env.llm.highlights)
    requires env.notesGrounded && i < HighlightLimit(request, |env.llm.highlights|)
    requires s in Scopes(t, request.topics) && s.key == t.topicKey(Trim(env.llm.highlights[i].topic))
    requires c in Dedupe(t, env.llm.highlights[i].citations) && c in s.urls
    ensures var r := Build(t, provider, request, env);
            r.Ok? && exists y :: y in r.value && t.topicKey(y.topic) == s.key && c in y.citations
  {
    var answered, normalize := env.llm.highlights[..HighlightLimit(request, |env.llm.highlights|)], (x: Highlight) => NormalizedHighlight(t, x);
    var offered, h := Answered(t, request, env.llm.highlights), NormalizedHighlight(t, env.llm.highlights[i]);
    MapAt(normalize, answered, i);
    assert answered[i] == env.llm.highlights[i] && h == offered[i] && h in offered;
    ScopeIs(t, request.topics, s);
    DedupeIs(t, h.citations);
    OwnEvidenceIsKept(t, request.topics, offered, h, s, c);
  }

  lemma {:induction false} MapAt<A, B>(f: A -> B, s: seq<A>, i: nat)
    requires i < |s|
    ensures Map(f, s)[i] == f(s[i])
  {
    if i < |s| - 1 {
      MapAt(f, s[..|s| - 1], i);
    }
  }

  // ---------------------------------------------------------------- a path that ends in two slashes

  const ORIGIN := "https://h.io"

  /** The URL normaliser on plain paths of one origin: it strips one trailing slash per call, but for the root. */
  function Normalized(url: string): Option<string> {
    if !(ORIGIN + "/" <= url) then None
    else if |url| > |ORIGIN| + 1 && url[|url| - 1] == '/' then Some(url[..|url| - 1])
    else Some(url)
  }

  const ONE_SLASH := Text(
    (u: string) => Normalized(u),
    (s: string) => s,
    (s: string) => s,
    (a: string, b: string) => a)

  const PATH := ORIGIN + "/a"
  const TOPIC := Topic("t", [PATH + "//"])
  const REQUEST := Request([TOPIC], false, None)

  lemma StripsOne(path: string)
    requires ORIGIN + "/" <= path && |path| > |ORIGIN|
    ensures Canonical(ONE_SLASH, path + "/") == Some(path)
  {
    assert (path + "/")[..|path|] == path;
  }

  lemma Strips()
    ensures Canonical(ONE_SLASH, PATH + "///") == Some(PATH + "//")
    ensures Canonical(ONE_SLASH, PATH + "//") == Some(PATH + "/")
    ensures Canonical(ONE_SLASH, PATH + "/") == Some(PATH)
  {
    assert PATH + "/" + "/" == PATH + "//" && PATH + "//" + "/" == PATH + "///";
    StripsOne(PATH);
    StripsOne(PATH + "/");
    StripsOne(PATH + "//");
  }

  lemma OneScope()
    ensures Scopes(ONE_SLASH, [TOPIC]) == [ScopeOf(ONE_SLASH, TOPIC)] && ScopeOf(ONE_SLASH, TOPIC).urls == {PATH + "/"}
    ensures UrlSet(ONE_SLASH, AllEvidence([TOPIC])) == {PATH + "/"}
  {
    Strips();
    DedupeOne(ONE_SLASH, PATH + "//", PATH + "/");
    assert [TOPIC][..0] == [];
    assert AllEvidence([TOPIC]) == AllEvidence([]) + TOPIC.evidence == [PATH + "//"];
    assert Scopes(ONE_SLASH, [TOPIC]) == SetScope(Scopes(ONE_SLASH, []), ScopeOf(ONE_SLASH, TOPIC));
  }

  lemma OutsideIsUngrounded(t: Text, request: Request, s: Scope, h: Highlight, c: string)
    requires Scopes(t, request.topics) == [s] && c in h.citations && c !in s.urls
    ensures !GroundedBrief(t, request, [h])
  {
    assert h in [h];
  }

  /** Evidence whose path ends in two slashes, and a model that cites the same path with three: the published
      brief cites the path without a slash, which is not among the evidence. */
  lemma UnstableCitationEscapes()
    ensures var s := ScopeOf(ONE_SLASH, TOPIC);
            var published := [Citing(s, PATH + "//").(citations := [PATH])];
            && Build(ONE_SLASH, Http, REQUEST, CitingAnswer("t", PATH + "///")) == Ok(published)
            && PATH !in UrlSet(ONE_SLASH, AllEvidence([TOPIC])) && !GroundedBrief(ONE_SLASH, REQUEST, published)
  {
    Strips();
    OneScope();
    assert |PATH| != |PATH + "/"|;
    assert IsTwice(ONE_SLASH, PATH + "/", PATH + "///");
    DedupeOne(ONE_SLASH, PATH + "/", PATH);
    hide *;
    CitingAnswerBuilds(ONE_SLASH, Http, REQUEST, TOPIC, PATH + "///", PATH + "/");
    var s := ScopeOf(ONE_SLASH, TOPIC);
    OutsideIsUngrounded(ONE_SLASH, REQUEST, s, Citing(s, PATH + "//").(citations := [PATH]), PATH);
  }
}
