/** The circuit breaker in front of Postgres, refined by a reading of its whole history. */
module CircuitBreaker {

  /** What callers do with a breaker, with the clock they saw. */
  datatype Event = Probe(at: nat) | Success | Failure(at: nat)

  /** The thresholds a breaker is built with. */
  datatype Settings = Settings(threshold: nat, openMs: nat)

  // ---------------------------------------------------------------- the history says

  /** How much of the history lies before the current count of failures: up to and including the last
      success or the last failure that opened the breaker. */
  function LastReset(s: Settings, h: seq<Event>): (r: nat)
    ensures r <= |h|
    decreases |h|, 3
  {
    if |h| == 0 then 0
    else if h[|h| - 1].Success? || Opens(s, h) then |h|
    else LastReset(s, h[..|h| - 1])
  }

  /** The last event of the history is a failure that opens the breaker: one that meets it half-open,
      or the one that reaches the threshold. */
  predicate Opens(s: Settings, h: seq<Event>)
    requires |h| > 0
    decreases |h|, 2
  {
    var before := h[..|h| - 1];
    h[|h| - 1].Failure? && (HalfOpen(s, before) || FailuresSince(before, LastReset(s, before)) + 1 >= s.threshold)
  }

  function FailuresSince(h: seq<Event>, from: nat): nat
    requires from <= |h|
  {
    if from == |h| then 0
    else FailuresSince(h[..|h| - 1], from) + (if h[|h| - 1].Failure? then 1 else 0)
  }

  /** Until when the breaker is open; 0 unless the last reset was an opening. */
  function OpenUntil(s: Settings, h: seq<Event>): nat
    decreases |h|, 4
  {
    var r := LastReset(s, h);
    if r > 0 && h[r - 1].Failure? then h[r - 1].at + s.openMs else 0
  }

  /** A probe has found the opening expired, and nothing has reset the breaker since. */
  predicate HalfOpen(s: Settings, h: seq<Event>)
    decreases |h|, 5
  {
    var until := OpenUntil(s, h);
    until > 0 && exists j :: LastReset(s, h) <= j < |h| && h[j].Probe? && h[j].at >= until
  }

  // ---------------------------------------------------------------- the breaker

  class Breaker {
    const settings: Settings
    var consecutiveFailures: nat
    var openUntil: nat
    var halfOpen: bool
    ghost var history: seq<Event>

    ghost predicate Valid()
      reads this
    {
      && consecutiveFailures == FailuresSince(history, LastReset(settings, history))
      && openUntil == OpenUntil(settings, history)
      && halfOpen == HalfOpen(settings, history)
    }

    constructor (settings: Settings)
      ensures Valid() && history == [] && this.settings == settings
    {
      this.settings := settings;
      consecutiveFailures, openUntil, halfOpen := 0, 0, false;
      history := [];
    }

    method IsOpen(now: nat) returns (open: bool)
      requires Valid()
      modifies this
      ensures Valid() && history == old(history) + [Probe(now)]
      ensures open <==> now < OpenUntil(settings, old(history))
    {
      ProbeKeeps(settings, history, now);
      history := history + [Probe(now)];
      if now >= openUntil && openUntil > 0 {
        halfOpen := true;
        return false;
      }
      return now < openUntil;
    }

    method TimeUntilClose(now: nat) returns (ms: nat)
      requires Valid()
      ensures ms > 0 <==> now < OpenUntil(settings, history)
      ensures ms > 0 ==> now + ms == OpenUntil(settings, history)
    {
      ms := if openUntil > now then openUntil - now else 0;
    }

    method RecordSuccess()
      requires Valid()
      modifies this
      ensures Valid() && history == old(history) + [Success]
    {
      SuccessResets(settings, history);
      history := history + [Success];
      consecutiveFailures, openUntil, halfOpen := 0, 0, false;
    }

    method RecordFailure(now: nat) returns (tripped: bool)
      requires Valid()
      modifies this
      ensures Valid() && history == old(history) + [Failure(now)]
      ensures tripped <==> Opens(settings, history)
    {
      FailureCounts(settings, history, now);
      history := history + [Failure(now)];
      if halfOpen {
        halfOpen := false;
        openUntil := now + settings.openMs;
        consecutiveFailures := 0;
        return true;
      }
      consecutiveFailures := consecutiveFailures + 1;
      if consecutiveFailures >= settings.threshold {
        openUntil := now + settings.openMs;
        consecutiveFailures := 0;
        return true;
      }
      return false;
    }
  }

  lemma ProbeKeeps(s: Settings, h: seq<Event>, now: nat)
    ensures var h' := h + [Probe(now)];
            && LastReset(s, h') == LastReset(s, h)
            && FailuresSince(h', LastReset(s, h')) == FailuresSince(h, LastReset(s, h))
            && OpenUntil(s, h') == OpenUntil(s, h)
            && (HalfOpen(s, h') <==> HalfOpen(s, h) || (OpenUntil(s, h) > 0 && now >= OpenUntil(s, h)))
  {
    var h' := h + [Probe(now)];
    assert h'[..|h|] == h;
    assert h'[|h|] == Probe(now);
    if HalfOpen(s, h) {
      var j :| LastReset(s, h) <= j < |h| && h[j].Probe? && h[j].at >= OpenUntil(s, h);
      assert h'[j] == h[j];
    }
  }

  lemma SuccessResets(s: Settings, h: seq<Event>)
    ensures var h' := h + [Success];
            LastReset(s, h') == |h'| && FailuresSince(h', |h'|) == 0 && OpenUntil(s, h') == 0 && !HalfOpen(s, h')
  {
  }

  lemma FailureCounts(s: Settings, h: seq<Event>, now: nat)
    ensures var h' := h + [Failure(now)];
            if Opens(s, h')
            then LastReset(s, h') == |h'| && FailuresSince(h', |h'|) == 0
                 && OpenUntil(s, h') == now + s.openMs && !HalfOpen(s, h')
            else LastReset(s, h') == LastReset(s, h)
                 && FailuresSince(h', LastReset(s, h)) == FailuresSince(h, LastReset(s, h)) + 1
                 && OpenUntil(s, h') == OpenUntil(s, h)
                 && (HalfOpen(s, h') <==> HalfOpen(s, h))
    ensures Opens(s, h + [Failure(now)]) <==>
              HalfOpen(s, h) || FailuresSince(h, LastReset(s, h)) + 1 >= s.threshold
  {
    var h' := h + [Failure(now)];
    assert h'[..|h|] == h;
    if !Opens(s, h') {
      assert forall j :: 0 <= j < |h| ==> h'[j] == h[j];
      assert HalfOpen(s, h') ==> HalfOpen(s, h);
    }
  }

  // ---------------------------------------------------------------- what follows for every history

  /** The count of failures never reaches the threshold between calls. */
  lemma {:induction false} FailuresStayBelowThreshold(s: Settings, h: seq<Event>)
    requires s.threshold > 0
    ensures FailuresSince(h, LastReset(s, h)) < s.threshold
    decreases |h|
  {
    if |h| > 0 {
      var front, last := h[..|h| - 1], h[|h| - 1];
      assert h == front + [last];
      FailuresStayBelowThreshold(s, front);
      match last
      case Probe(at) => ProbeKeeps(s, front, at);
      case Success => SuccessResets(s, front);
      case Failure(at) => FailureCounts(s, front, at);
    }
  }

  /** While a fresh opening runs, no probe in time lets a call through, so nothing can close it but a
      success: the breaker stays open and never turns half-open. */
  lemma {:induction false} StaysOpenWhileItRuns(s: Settings, h: seq<Event>, at: nat, later: seq<Event>, now: nat)
    requires Opens(s, h + [Failure(at)]) && now < at + s.openMs
    requires forall k :: 0 <= k < |later| ==> later[k].Probe? && later[k].at <= now
    ensures var h' := h + [Failure(at)] + later;
            LastReset(s, h') == |h| + 1 && OpenUntil(s, h') == at + s.openMs && !HalfOpen(s, h')
    decreases |later|
  {
    if |later| == 0 {
      FailureCounts(s, h, at);
      assert h + [Failure(at)] + later == h + [Failure(at)];
    } else {
      var front, last := later[..|later| - 1], later[|later| - 1];
      StaysOpenWhileItRuns(s, h, at, front, now);
      ProbeKeeps(s, h + [Failure(at)] + front, last.at);
      assert h + [Failure(at)] + later == h + [Failure(at)] + front + [last];
    }
  }

  // ---------------------------------------------------------------- when it trips

  function Failures(times: seq<nat>): seq<Event> {
    seq(|times|, k requires 0 <= k < |times| => Failure(times[k]))
  }

  /** Fewer failures in a row than the threshold leave a closed breaker closed. */
  lemma {:induction false} FewFailuresKeepClosed(s: Settings, h: seq<Event>, times: seq<nat>)
    requires (h == [] || h[|h| - 1].Success?) && |times| < s.threshold
    ensures var h' := h + Failures(times);
            FailuresSince(h', LastReset(s, h')) == |times| && OpenUntil(s, h') == 0 && !HalfOpen(s, h')
    decreases |times|
  {
    if |times| == 0 {
      assert h + Failures(times) == h;
    } else {
      var front, last := times[..|times| - 1], times[|times| - 1];
      FewFailuresKeepClosed(s, h, front);
      FailureCounts(s, h + Failures(front), last);
      assert h + Failures(times) == h + Failures(front) + [Failure(last)];
    }
  }

  /** The failure that reaches the threshold opens it for the whole period. */
  lemma TripsAtThreshold(s: Settings, h: seq<Event>, times: seq<nat>)
    requires (h == [] || h[|h| - 1].Success?) && |times| == s.threshold > 0
    ensures OpenUntil(s, h + Failures(times)) == times[s.threshold - 1] + s.openMs
  {
    var front, last := times[..|times| - 1], times[|times| - 1];
    assert h + Failures(times) == h + Failures(front) + [Failure(last)];
    FewFailuresKeepClosed(s, h, front);
    hide LastReset, Opens, FailuresSince, OpenUntil, HalfOpen, Failures;
    FailureCounts(s, h + Failures(front), last);
  }

  /** After an opening has expired and a probe has seen that, one failure opens the breaker again, and a success
      closes it. */
  lemma TrialDecides(s: Settings, h: seq<Event>, at: nat, probe: nat, now: nat)
    requires Opens(s, h + [Failure(at)]) && 0 < at + s.openMs <= probe
    ensures OpenUntil(s, h + [Failure(at)] + [Probe(probe)] + [Failure(now)]) == now + s.openMs
    ensures OpenUntil(s, h + [Failure(at)] + [Probe(probe)] + [Success]) == 0
  {
    FailureCounts(s, h, at);
    ProbeKeeps(s, h + [Failure(at)], probe);
    FailureCounts(s, h + [Failure(at)] + [Probe(probe)], now);
    SuccessResets(s, h + [Failure(at)] + [Probe(probe)]);
  }
}
