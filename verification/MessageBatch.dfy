/** The batch loop shared by the message consumers: handle messages in order, acknowledge each one
    only after its handling returned, keep the session alive, commit at the end. */
module MessageBatch {

  /** What meets one message of a batch. `active` is the answer of `isActive()` before it; `handled` is
      whether the callback for it (`onEmptyValue`, `onDeserializeFailure` or `onMessage`) returns; `beats`
      is whether a keep-alive issued right after it succeeds. */
  datatype Message =
    | Empty(position: int, active: bool, handled: bool, beats: bool)
    | Undecodable(position: int, active: bool, handled: bool, beats: bool)
    | Decoded(position: int, active: bool, handled: bool, beats: bool)

  function Positions(messages: seq<Message>): (r: seq<int>)
    ensures |r| == |messages|
    ensures forall k :: 0 <= k < |r| ==> r[k] == messages[k].position
  {
    seq(|messages|, k requires 0 <= k < |messages| => messages[k].position)
  }

  /** The keep-alive issued after message `k`, if one is due, succeeds. */
  predicate Beats(messages: seq<Message>, k: nat, interval: nat)
    requires k < |messages| && interval > 0
  {
    (k + 1) % interval == 0 ==> messages[k].beats
  }

  /** The loop passes message `k`: the batch is still active, handling returns and the keep-alive holds. */
  predicate Passes(messages: seq<Message>, k: nat, interval: nat)
    requires k < |messages| && interval > 0
  {
    messages[k].active && messages[k].handled && Beats(messages, k, interval)
  }

  /** How far the loop gets. */
  function Reach(messages: seq<Message>, interval: nat, from: nat): (r: nat)
    requires from <= |messages| && interval > 0
    ensures from <= r <= |messages|
    ensures forall k: nat :: from <= k < r ==> Passes(messages, k, interval)
    ensures r < |messages| ==> !Passes(messages, r, interval)
    decreases |messages| - from
  {
    if from < |messages| && Passes(messages, from, interval) then Reach(messages, interval, from + 1) else from
  }

  /** One keep-alive is due after every `interval` handled messages. */
  function KeepAlivesDue(handled: nat, interval: nat): nat
    requires interval > 0
  {
    if handled == 0 then 0
    else KeepAlivesDue(handled - 1, interval) + (if handled % interval == 0 then 1 else 0)
  }

  datatype End =
    | Threw               // an error left the loop; nothing is committed
    | Stopped             // the batch became inactive; what was acknowledged is committed
    | Completed           // every message was handled

  class Consumer {
    var acknowledged: seq<int>
    var keepAlives: nat
    var commits: nat

    constructor ()
      ensures acknowledged == [] && keepAlives == 0 && commits == 0
    {
      acknowledged, keepAlives, commits := [], 0, 0;
    }

    /** `commitWorks`, `activeAfter`, `lastBeats` and `completes` answer the calls made after the loop. */
    method ProcessBatch(messages: seq<Message>, interval: nat, acknowledge: bool, activeBefore: bool,
                        commitWorks: bool, activeAfter: bool, lastBeats: bool, completes: bool) returns (end: End)
      requires interval > 0
      modifies this
      ensures !activeBefore ==> end == Stopped && acknowledged == old(acknowledged) && commits == old(commits)
      ensures activeBefore ==>
                var n := Reach(messages, interval, 0);
                var stop := n < |messages| && !messages[n].active;
                // a message is acknowledged when its handling returned, even if the keep-alive after it throws
                var k := if n < |messages| && !stop && messages[n].handled then n + 1 else n;
                && acknowledged == old(acknowledged) + (if acknowledge then Positions(messages[..k]) else [])
                && keepAlives == old(keepAlives) + KeepAlivesDue(k, interval)
                   + (if n == |messages| && commitWorks && activeAfter then 1 else 0)
                && commits == old(commits) + (if n == |messages| || stop then 1 else 0)
                && (end == Completed <==> n == |messages| && commitWorks && activeAfter && lastBeats && completes)
                && (end == Threw <==> (n < |messages| && !stop) || !commitWorks
                                      || (n == |messages| && activeAfter && !(lastBeats && completes)))
    {
      if !activeBefore {
        return Stopped;
      }
      var completed, count, i := true, 0, 0;
      while i < |messages|
        invariant 0 <= i <= |messages| && count == i && completed
        invariant Reach(messages, interval, 0) == Reach(messages, interval, i)
        invariant acknowledged == old(acknowledged) + (if acknowledge then Positions(messages[..i]) else [])
        invariant keepAlives == old(keepAlives) + KeepAlivesDue(i, interval)
        invariant commits == old(commits)
      {
        var m := messages[i];
        if !m.active {
          completed := false;
          break;
        }
        if !m.handled {
          return Threw;
        }
        if acknowledge {
          acknowledged := acknowledged + [m.position];
        }
        assert Positions(messages[..i + 1]) == Positions(messages[..i]) + [m.position];
        count := count + 1;
        if count % interval == 0 {
          keepAlives := keepAlives + 1;
          if !m.beats {
            return Threw;
          }
        }
        i := i + 1;
      }
      assert messages[..|messages|] == messages;
      commits := commits + 1;
      if !commitWorks {
        return Threw;
      }
      if !completed || !activeAfter {
        return Stopped;
      }
      keepAlives := keepAlives + 1;
      return if lastBeats && completes then Completed else Threw;
    }
  }

  /** Acknowledged positions are a prefix of the batch, each message of it was handled, and no message
      behind the first one that failed is acknowledged. */
  lemma AcknowledgedPrefixIsHandled(messages: seq<Message>, interval: nat, failed: nat)
    requires interval > 0
    requires failed < |messages| && !messages[failed].handled
    ensures var n := Reach(messages, interval, 0);
            && n <= failed
            && (forall k :: 0 <= k < n ==> messages[k].handled)
            && (messages[n].handled ==> n < failed)
  {
    var n := Reach(messages, interval, 0);
    assert !Passes(messages, failed, interval);
    forall k | 0 <= k < n ensures messages[k].handled {
      assert Passes(messages, k, interval);
    }
  }

  /** The loop gets through the whole batch if and only if the batch stays active, every message is handled, and every
      keep-alive that is due succeeds; otherwise it ends at the first message where that is not so. */
  lemma ReachIs(messages: seq<Message>, interval: nat)
    requires interval > 0
    ensures var n := Reach(messages, interval, 0);
            && (n == |messages| <==> forall k :: 0 <= k < |messages| ==>
                  messages[k].active && messages[k].handled && ((k + 1) % interval == 0 ==> messages[k].beats))
            && (forall k :: 0 <= k < n ==>
                  messages[k].active && messages[k].handled && ((k + 1) % interval == 0 ==> messages[k].beats))
            && (n < |messages| ==>
                  !messages[n].active || !messages[n].handled || ((n + 1) % interval == 0 && !messages[n].beats))
  {
    var n := Reach(messages, interval, 0);
    forall k | 0 <= k < n
      ensures messages[k].active && messages[k].handled && ((k + 1) % interval == 0 ==> messages[k].beats)
    {
      assert Passes(messages, k, interval);
    }
    assert n < |messages| ==> !Passes(messages, n, interval);
  }
}
