/** Polling Hacker News in "new" mode: select unseen stories above the checkpoint, fetch and ingest them
    one by one, and store the checkpoint of the last record received when the poll ends without an error. */
module HackerNews {

  datatype Option<+T> = None | Some(value: T)

  /** What meets the ingestion of a record that was not seen before. */
  datatype Ingest =
    | Accepted           // published and marked seen
    | Rejected           // invalid: sent to the dead-letter topic
    | FailsBefore        // throws before the event is published
    | FailsAfter         // the event is published, but the process throws or dies before marking it seen

  /** What meets one story of a poll. */
  datatype Fetch =
    | Throws             // the item or its article could not be fetched
    | NoRecord           // no such item, not a story, or no content
    | Record(stop: bool, ingest: Ingest)   // `stop`: shutdown was requested when the record arrived

  /** The stored state of the collector and the history of its runs. */
  datatype World = World(
    checkpoint: int,
    seen: set<int>,
    published: seq<int>,
    unmarked: set<int>,      // published without being marked seen
    forgotten: set<int>,     // seen marks that were cleaned up
    handled: set<int>,       // stories without a record, ingested, rejected, or recognised as duplicates
    listed: set<int>)        // every id any listing ever showed

  /** `dies`: the process dies after that many candidates of the poll, before a checkpoint is stored. */
  datatype Action =
    | Poll(listing: seq<int>, fetches: int -> Fetch, dies: Option<nat>)
    | Cleanup(ids: set<int>)

  // ---------------------------------------------------------------- selection

  predicate Ascending(s: seq<int>) {
    forall i, j :: 0 <= i < j < |s| ==> s[i] < s[j]
  }

  /** Insertion into an ascending sequence without repeating an id. */
  function InsertId(s: seq<int>, id: int): seq<int> {
    if |s| == 0 || id < s[0] then [id] + s
    else if id == s[0] then s
    else [s[0]] + InsertId(s[1..], id)
  }

  /** The distinct listed ids above the checkpoint, oldest first. */
  function Newer(listing: seq<int>, lastMaxId: int): seq<int> {
    if |listing| == 0 then []
    else
      var rest, id := Newer(listing[..|listing| - 1], lastMaxId), listing[|listing| - 1];
      if id > lastMaxId then InsertId(rest, id) else rest
  }

  function Select(listing: seq<int>, maxItems: nat, lastMaxId: int): seq<int> {
    var all := Newer(listing, lastMaxId);
    if |all| <= maxItems then all else all[..maxItems]
  }

  lemma {:induction false} InsertIdKeeps(s: seq<int>, id: int)
    requires Ascending(s)
    ensures Ascending(InsertId(s, id))
    ensures forall x :: x in InsertId(s, id) <==> x == id || x in s
  {
    if |s| > 0 && id > s[0] {
      InsertIdKeeps(s[1..], id);
      assert s == [s[0]] + s[1..];
      var r := InsertId(s[1..], id);
      forall j | 0 <= j < |r| ensures s[0] < r[j] {
        assert r[j] in r;
        if r[j] != id {
          assert r[j] in s[1..];
        }
      }
    }
  }

  lemma {:induction false} NewerIs(listing: seq<int>, lastMaxId: int)
    ensures Ascending(Newer(listing, lastMaxId))
    ensures forall x :: x in Newer(listing, lastMaxId) <==> x in listing && x > lastMaxId
  {
    if |listing| > 0 {
      var front, id := listing[..|listing| - 1], listing[|listing| - 1];
      NewerIs(front, lastMaxId);
      assert listing == front + [id];
      if id > lastMaxId {
        InsertIdKeeps(Newer(front, lastMaxId), id);
      }
    }
  }

  /** The selection is ascending and holds only listed ids above the checkpoint. It leaves such an id out only when it
      is full, and then the id is larger than all it holds. */
  lemma SelectIs(listing: seq<int>, maxItems: nat, lastMaxId: int)
    ensures var r := Select(listing, maxItems, lastMaxId);
            && Ascending(r) && |r| <= maxItems
            && (forall x :: x in r ==> x in listing && x > lastMaxId)
            && (forall x, y :: x in listing && x > lastMaxId && x !in r && y in r ==> y < x)
            && (forall x :: x in listing && x > lastMaxId && x !in r ==> |r| == maxItems)
  {
    NewerIs(listing, lastMaxId);
    var all, r := Newer(listing, lastMaxId), Select(listing, maxItems, lastMaxId);
    forall x, y | x in listing && x > lastMaxId && x !in r && y in r ensures y < x {
      assert x in all;
      var i :| 0 <= i < |all| && all[i] == x;
      var j :| 0 <= j < |r| && r[j] == y;
      assert all[j] == y && r[j] == all[j];
      assert i >= |r|;
    }
  }

  // ---------------------------------------------------------------- one poll

  datatype End = Running | Stopped | Threw

  datatype Progress = Progress(w: World, cursor: int, blocked: bool, last: Option<int>, end: End)

  /** `onStoryProcessed`: a failed fetch earlier in the poll keeps the cursor where it was. */
  function Processed(p: Progress, id: int): Progress {
    if p.blocked then p else p.(cursor := id)
  }

  function Handled(w: World, id: int): World {
    w.(handled := w.handled + {id})
  }

  function Ingested(p: Progress, id: int, ingest: Ingest): Progress {
    var w := p.w;
    if id in w.seen then p.(w := Handled(w, id))
    else
      match ingest
      case Accepted => p.(w := Handled(w, id).(published := w.published + [id], seen := w.seen + {id}))
      case Rejected => p.(w := Handled(w, id))
      case FailsBefore => p.(end := Threw)
      case FailsAfter => p.(w := w.(published := w.published + [id], unmarked := w.unmarked + {id}), end := Threw)
  }

  function Story(p: Progress, id: int, fetch: Fetch): Progress {
    match fetch
    case Throws => p.(blocked := true)
    case NoRecord => Processed(p, id).(w := Handled(p.w, id))
    case Record(stop, ingest) =>
      var q := Processed(p, id);
      if stop then q.(end := Stopped) else Ingested(q.(last := Some(q.cursor)), id, ingest)
  }

  /** The first `n` candidates of a poll. */
  function Stories(start: Progress, candidates: seq<int>, fetches: int -> Fetch): Progress {
    if |candidates| == 0 then start
    else
      var p := Stories(start, candidates[..|candidates| - 1], fetches);
      var id := candidates[|candidates| - 1];
      if p.end.Running? then Story(p, id, fetches(id)) else p
  }

  function Started(w: World, listing: seq<int>): Progress {
    Progress(w.(listed := w.listed + set id | id in listing), w.checkpoint, false, None, Running)
  }

  /** A poll that ends without an error stores the checkpoint of the last record it received. */
  function Finished(p: Progress): World {
    if !p.end.Threw? && p.last.Some? then p.w.(checkpoint := p.last.value) else p.w
  }

  function Polled(w: World, listing: seq<int>, fetches: int -> Fetch, dies: Option<nat>, maxItems: nat): World {
    var candidates := Select(listing, maxItems, w.checkpoint);
    if dies.Some? && dies.value <= |candidates| then Stories(Started(w, listing), candidates[..dies.value], fetches).w
    else Finished(Stories(Started(w, listing), candidates, fetches))
  }

  function Next(w: World, maxItems: nat, action: Action): World {
    match action
    case Poll(listing, fetches, dies) => Polled(w, listing, fetches, dies, maxItems)
    case Cleanup(ids) => w.(seen := w.seen - ids, forgotten := w.forgotten + (w.seen * ids))
  }

  function Initial(checkpoint: int): World {
    World(checkpoint, {}, [], {}, {}, {}, {})
  }

  function Run(checkpoint: int, maxItems: nat, actions: seq<Action>): World
    decreases |actions|
  {
    if |actions| == 0 then Initial(checkpoint)
    else Next(Run(checkpoint, maxItems, actions[..|actions| - 1]), maxItems, actions[|actions| - 1])
  }

  /** The collector loop over one poll of the adapter. */
  class Collector {
    var checkpoint: int
    var seen: set<int>
    var published: seq<int>
    ghost var history: World

    ghost predicate Valid()
      reads this
    {
      history.checkpoint == checkpoint && history.seen == seen && history.published == published
    }

    constructor (checkpoint: int)
      ensures Valid() && history == Initial(checkpoint)
    {
      this.checkpoint, seen, published := checkpoint, {}, [];
      history := Initial(checkpoint);
    }

    method RunPoll(listing: seq<int>, fetches: int -> Fetch, dies: Option<nat>, maxItems: nat) returns (ok: bool)
      requires Valid()
      modifies this
      ensures Valid() && history == Polled(old(history), listing, fetches, dies, maxItems)
    {
      var candidates := Select(listing, maxItems, checkpoint);
      var dead := dies.Some? && dies.value <= |candidates|;
      if dead {
        candidates := candidates[..dies.value];
      }
      var cursor, blocked, last := checkpoint, false, None;
      ghost var p := Started(history, listing);
      history := p.w;
      var i := 0;
      ok := true;
      while i < |candidates| && ok
        invariant 0 <= i <= |candidates|
        invariant p == Stories(Started(old(history), listing), candidates[..i], fetches)
        invariant p.cursor == cursor && p.blocked == blocked && p.last == last && p.w == history
        invariant Valid() && checkpoint == old(checkpoint)
        invariant ok ==> p.end.Running?
        invariant !ok ==> p.end.Threw?
      {
        var id := candidates[i];
        assert candidates[..i + 1][..i] == candidates[..i];
        var fetch := fetches(id);
        p := Story(p, id, fetch);
        history := p.w;
        i := i + 1;
        if fetch.Throws? {
          blocked := true;
          continue;
        }
        if !blocked {
          cursor := id;
        }
        if fetch.Record? {
          if fetch.stop {
            break;
          }
          last := Some(cursor);
          if id !in seen {
            if fetch.ingest.Accepted? || fetch.ingest.FailsAfter? {
              published := published + [id];
            }
            if fetch.ingest.Accepted? {
              seen := seen + {id};
            }
            ok := fetch.ingest.Accepted? || fetch.ingest.Rejected?;
          }
        }
      }
      EndedStays(Started(old(history), listing), candidates, i, fetches);
      if dead {
        return false;
      }
      if ok && last.Some? {
        checkpoint := last.value;
        history := history.(checkpoint := last.value);
      }
    }
  }

  lemma {:induction false} EndedStays(start: Progress, candidates: seq<int>, i: nat, fetches: int -> Fetch)
    requires i <= |candidates|
    requires i == |candidates| || !Stories(start, candidates[..i], fetches).end.Running?
    ensures Stories(start, candidates, fetches) == Stories(start, candidates[..i], fetches)
  {
    if i == |candidates| {
      assert candidates[..i] == candidates;
    } else {
      var front := candidates[..|candidates| - 1];
      assert front[..i] == candidates[..i];
      EndedStays(start, front, i, fetches);
    }
  }

  // ---------------------------------------------------------------- what one poll guarantees

  /** After some candidates of a poll: the checkpoint to be stored covers only handled candidates. */
  ghost predicate Sane(start: Progress, done: seq<int>, p: Progress) {
    && start.cursor <= p.cursor
    && (p.last.Some? ==> start.cursor <= p.last.value <= p.cursor)
    && (p.end.Running? ==> forall id :: id in done && id <= p.cursor ==> id in p.w.handled)
    && (p.end.Running? && !p.blocked ==> forall id :: id in done ==> id <= p.cursor)
    && (!p.end.Threw? && p.last.Some? ==> forall id :: id in done && id <= p.last.value ==> id in p.w.handled)
    && (p.last.Some? ==> forall id :: id in done && id <= p.last.value ==> id <= p.cursor)
    && (p.cursor == start.cursor || p.cursor in done)
    && p.w.checkpoint == start.w.checkpoint && p.w.listed == start.w.listed
    && start.w.handled <= p.w.handled
    && (forall id :: id in p.w.handled ==> id in start.w.handled || id in done)
  }

  lemma SaneStep(start: Progress, done: seq<int>, p: Progress, id: int, fetch: Fetch)
    requires Sane(start, done, p) && p.end.Running?
    requires start.cursor < id && forall x :: x in done ==> x < id
    ensures Sane(start, done + [id], Story(p, id, fetch))
  {
    assert forall x :: x in done + [id] <==> x in done || x == id;
  }

  lemma {:induction false} StoriesSane(start: Progress, candidates: seq<int>, fetches: int -> Fetch)
    requires start.end.Running? && start.last.None? && Ascending(candidates)
    requires forall id :: id in candidates ==> start.cursor < id
    ensures Sane(start, candidates, Stories(start, candidates, fetches))
  {
    if |candidates| > 0 {
      var front, id := candidates[..|candidates| - 1], candidates[|candidates| - 1];
      assert candidates == front + [id] && id in candidates;
      forall x | x in front ensures start.cursor < x < id {
        var i :| 0 <= i < |front| && front[i] == x;
        assert candidates[i] == x && x in candidates;
      }
      StoriesSane(start, front, fetches);
      var p := Stories(start, front, fetches);
      if p.end.Running? {
        SaneStep(start, front, p, id, fetches(id));
      } else {
        EndedSane(start, front, p, id);
      }
    }
  }

  lemma EndedSane(start: Progress, done: seq<int>, p: Progress, id: int)
    requires Sane(start, done, p) && !p.end.Running?
    requires start.cursor < id && forall x :: x in done ==> x < id
    ensures Sane(start, done + [id], p)
  {
    assert forall x :: x in done + [id] <==> x in done || x == id;
  }

  // ---------------------------------------------------------------- what a poll without trouble achieves

  /** The stories of a poll that meet no trouble: each is fetched or not, and no record stops the poll or fails to be
      ingested. */
  predicate Quiet(stories: seq<int>, seen: set<int>, fetches: int -> Fetch) {
    forall k :: 0 <= k < |stories| ==>
      var f := fetches(stories[k]);
      f.Record? ==> !f.stop && (stories[k] in seen || f.ingest.Accepted? || f.ingest.Rejected?)
  }

  /** The accepted ones among them that were not seen before, in order. */
  function Fresh(stories: seq<int>, seen: set<int>, fetches: int -> Fetch): seq<int> {
    if |stories| == 0 then []
    else
      var front, id := stories[..|stories| - 1], stories[|stories| - 1];
      Fresh(front, seen, fetches) + if id !in seen && fetches(id).Record? && fetches(id).ingest.Accepted? then [id] else []
  }

  lemma {:induction false} FreshAre(stories: seq<int>, seen: set<int>, fetches: int -> Fetch)
    ensures forall id :: id in Fresh(stories, seen, fetches) <==>
              id in stories && id !in seen && fetches(id).Record? && fetches(id).ingest.Accepted?
  {
    if |stories| > 0 {
      var front, id := stories[..|stories| - 1], stories[|stories| - 1];
      assert stories == front + [id];
      FreshAre(front, seen, fetches);
    }
  }

  lemma {:induction false} FreshAscend(stories: seq<int>, seen: set<int>, fetches: int -> Fetch)
    requires Ascending(stories)
    ensures Ascending(Fresh(stories, seen, fetches))
  {
    if |stories| > 0 {
      var front, id := stories[..|stories| - 1], stories[|stories| - 1];
      FreshAscend(front, seen, fetches);
      FreshAre(front, seen, fetches);
      var unseen := Fresh(front, seen, fetches);
      forall k | 0 <= k < |unseen| ensures unseen[k] < id {
        assert unseen[k] in unseen;
        var i :| 0 <= i < |front| && front[i] == unseen[k];
        assert stories[i] == unseen[k];
      }
    }
  }

  /** The ones whose fetch did not fail. */
  function Fetched(stories: seq<int>, fetches: int -> Fetch): set<int> {
    set id | id in stories && !fetches(id).Throws?
  }

  /** The cursor after the first `n` stories, when the first failed fetch is at `b`. */
  function CursorAfter(before: int, stories: seq<int>, b: nat, n: nat): int
    requires n <= |stories|
  {
    var k := if n < b then n else b;
    if k == 0 then before else stories[k - 1]
  }

  /** The cursor at the last record, if there is one. */
  function LastCursor(before: int, stories: seq<int>, fetches: int -> Fetch, b: nat): Option<int> {
    if |stories| == 0 then None
    else if fetches(stories[|stories| - 1]).Record? then Some(CursorAfter(before, stories, b, |stories|))
    else LastCursor(before, stories[..|stories| - 1], fetches, b)
  }

  /** `k` is the last story with a record, if there is one. */
  predicate IsLastRecord(stories: seq<int>, fetches: int -> Fetch, k: Option<nat>) {
    match k
    case None => forall l :: 0 <= l < |stories| ==> !fetches(stories[l]).Record?
    case Some(n) => n < |stories| && fetches(stories[n]).Record? && forall l :: n < l < |stories| ==> !fetches(stories[l]).Record?
  }

  lemma {:induction false} LastCursorIs(before: int, stories: seq<int>, fetches: int -> Fetch, b: nat, k: Option<nat>)
    requires IsLastRecord(stories, fetches, k)
    ensures LastCursor(before, stories, fetches, b)
         == if k.None? then None
            else if k.value < b then Some(stories[k.value])
            else if b == 0 then Some(before) else Some(stories[b - 1])
  {
    if |stories| > 0 && k != Some(|stories| - 1) {
      LastCursorIs(before, stories[..|stories| - 1], fetches, b, k);
    }
  }

  /** Where such a poll stands after its stories, the first failed fetch being at `b`, or none of them failing. */
  function QuietProgress(start: Progress, stories: seq<int>, fetches: int -> Fetch, b: nat): Progress {
    var unseen := Fresh(stories, start.w.seen, fetches);
    Progress(After(start.w, unseen, Fetched(stories, fetches)),
             CursorAfter(start.cursor, stories, b, |stories|), b < |stories|,
             LastCursor(start.cursor, stories, fetches, b), Running)
  }

  predicate FirstFailure(stories: seq<int>, fetches: int -> Fetch, b: nat) {
    && (forall k :: 0 <= k < |stories| && k < b ==> !fetches(stories[k]).Throws?)
    && (b < |stories| ==> fetches(stories[b]).Throws?)
  }

  lemma {:induction false} QuietStories(start: Progress, stories: seq<int>, fetches: int -> Fetch, b: nat)
    requires start.end.Running? && !start.blocked && start.last.None? && Ascending(stories)
    requires Quiet(stories, start.w.seen, fetches) && FirstFailure(stories, fetches, b)
    ensures Stories(start, stories, fetches) == QuietProgress(start, stories, fetches, b)
  {
    if |stories| > 0 {
      var n := |stories| - 1;
      var front, id := stories[..n], stories[n];
      assert stories == front + [id];
      assert forall k :: 0 <= k < n ==> front[k] == stories[k];
      assert Quiet(front, start.w.seen, fetches) && FirstFailure(front, fetches, b) && Ascending(front);
      QuietStories(start, front, fetches, b);
      QuietStory(start, front, id, fetches, b);
    } else {
      assert start.w.published + [] == start.w.published && Fetched([], fetches) == {};
      assert start.w == start.w.(published := start.w.published + [],
                                 seen := start.w.seen + (set id: int | id in []), handled := start.w.handled + {});
    }
  }

  lemma FetchedMore(front: seq<int>, id: int, fetches: int -> Fetch)
    ensures Fetched(front + [id], fetches) == Fetched(front, fetches) + if fetches(id).Throws? then {} else {id}
  {
  }

  lemma FreshMore(front: seq<int>, id: int, seen: set<int>, fetches: int -> Fetch)
    ensures Fresh(front + [id], seen, fetches)
         == Fresh(front, seen, fetches) + if id !in seen && fetches(id).Record? && fetches(id).ingest.Accepted? then [id] else []
  {
    assert (front + [id])[..|front|] == front;
  }

  lemma CursorMoves(before: int, front: seq<int>, id: int, b: nat)
    ensures CursorAfter(before, front + [id], b, |front| + 1)
         == if b <= |front| then CursorAfter(before, front, b, |front|) else id
  {
  }

  lemma QuietStory(start: Progress, front: seq<int>, id: int, fetches: int -> Fetch, b: nat)
    requires Ascending(front + [id]) && Quiet(front + [id], start.w.seen, fetches) && FirstFailure(front + [id], fetches, b)
    ensures Story(QuietProgress(start, front, fetches, b), id, fetches(id)) == QuietProgress(start, front + [id], fetches, b)
  {
    var stories, n, f := front + [id], |front|, fetches(id);
    assert stories[..n] == front && stories[n] == id;
    FreshAre(front, start.w.seen, fetches);
    FreshMore(front, id, start.w.seen, fetches);
    FetchedMore(front, id, fetches);
    CursorMoves(start.cursor, front, id, b);
    assert id !in front by {
      assert forall k :: 0 <= k < n ==> stories[k] == front[k] && stories[k] < stories[n];
    }
    assert f.Record? ==> !f.stop && (id in start.w.seen || f.ingest.Accepted? || f.ingest.Rejected?);
    assert b <= n <==> b < |stories|;
    assert f.Throws? ==> b <= n;
    assert b == n ==> f.Throws?;
    var unseen, handled := Fresh(front, start.w.seen, fetches), Fetched(front, fetches);
    assert id !in unseen;
    hide Fresh, Fetched, CursorAfter, Ascending, Quiet, FirstFailure;
    QuietWorld(start.w, unseen, handled, id, f);
  }

  /** What a story does to the world after these were published and handled. */
  function After(w: World, unseen: seq<int>, handled: set<int>): World {
    w.(published := w.published + unseen, seen := w.seen + (set id | id in unseen), handled := w.handled + handled)
  }

  lemma QuietWorld(w: World, unseen: seq<int>, handled: set<int>, id: int, f: Fetch)
    requires f.Record? ==> id in w.seen || f.ingest.Accepted? || f.ingest.Rejected?
    requires id !in unseen
    ensures var v := After(w, unseen, handled);
            var v' := After(w, unseen + if id !in w.seen && f.Record? && f.ingest.Accepted? then [id] else [],
                            handled + if f.Throws? then {} else {id});
            v' == if f.Throws? then v
                  else if f.Record? && id !in w.seen && f.ingest.Accepted? then
                    Handled(v, id).(published := v.published + [id], seen := v.seen + {id})
                  else Handled(v, id)
  {
    var v, accepted := After(w, unseen, handled), id !in w.seen && f.Record? && f.ingest.Accepted?;
    assert unseen + [] == unseen && handled + {} == handled;
    assert w.published + (unseen + [id]) == w.published + unseen + [id];
    assert (set x | x in unseen + [id]) == (set x | x in unseen) + {id};
    assert w.seen + ((set x | x in unseen) + {id}) == v.seen + {id};
    assert w.handled + (handled + {id}) == v.handled + {id};
  }

  /** A record at which shutdown is requested ends the poll without a trace of its own but the cursor. */
  lemma StopsAt(start: Progress, candidates: seq<int>, m: nat, fetches: int -> Fetch)
    requires m < |candidates| && Stories(start, candidates[..m], fetches).end.Running?
    requires fetches(candidates[m]).Record? && fetches(candidates[m]).stop
    ensures var p, q := Stories(start, candidates[..m], fetches), Stories(start, candidates, fetches);
            q.end.Stopped? && q.w == p.w && q.last == p.last
  {
    assert candidates[..m + 1][..m] == candidates[..m];
    EndedStays(start, candidates, m + 1, fetches);
  }

  /** A live poll without trouble up to story `m`, at which shutdown is requested or the selection ends: the unseen
      accepted stories are published in order and marked seen, all but those whose fetch failed are handled, and the
      stored checkpoint is that of the last record `k`: the record itself before the first failed fetch `b`, and the
      story before that fetch otherwise. Without a record, or when the first fetch already fails, the checkpoint
      stays. */
  lemma QuietPoll(w: World, listing: seq<int>, fetches: int -> Fetch, maxItems: nat, m: nat, b: nat, k: Option<nat>)
    requires var all := Select(listing, maxItems, w.checkpoint);
             && m <= |all| && Quiet(all[..m], w.seen, fetches) && FirstFailure(all[..m], fetches, b)
             && (m < |all| ==> fetches(all[m]).Record? && fetches(all[m]).stop)
             && IsLastRecord(all[..m], fetches, k)
    ensures var done := Select(listing, maxItems, w.checkpoint)[..m];
            var unseen := Fresh(done, w.seen, fetches);
            Polled(w, listing, fetches, None, maxItems)
            == w.(published := w.published + unseen,
                  seen := w.seen + (set id | id in unseen),
                  handled := w.handled + Fetched(done, fetches),
                  listed := w.listed + (set id | id in listing),
                  checkpoint := if k.None? then w.checkpoint
                                else if k.value < b then done[k.value]
                                else if b == 0 then w.checkpoint else done[b - 1])
  {
    var all, start := Select(listing, maxItems, w.checkpoint), Started(w, listing);
    SelectIs(listing, maxItems, w.checkpoint);
    var done := all[..m];
    LastCursorIs(w.checkpoint, done, fetches, b, k);
    QuietStories(start, done, fetches, b);
    hide Fresh, Fetched, CursorAfter, LastCursor, Select, Stories, Ascending, Quiet, FirstFailure, IsLastRecord;
    if m < |all| {
      StopsAt(start, all, m, fetches);
    } else {
      assert done == all;
    }
  }

  /** A live poll whose first story is received and ingested, with no failed fetch and no trouble, stores a higher
      checkpoint, and with it the last record. */
  lemma PollAdvances(w: World, listing: seq<int>, fetches: int -> Fetch, maxItems: nat)
    requires maxItems > 0 && exists id :: id in listing && id > w.checkpoint
    requires var all := Select(listing, maxItems, w.checkpoint);
             Quiet(all, w.seen, fetches) && forall k :: 0 <= k < |all| ==> !fetches(all[k]).Throws?
    requires forall id :: id in listing && id > w.checkpoint && (forall x :: x in listing && x > w.checkpoint ==> id <= x)
               ==> fetches(id).Record?
    ensures Polled(w, listing, fetches, None, maxItems).checkpoint > w.checkpoint
  {
    var all := Select(listing, maxItems, w.checkpoint);
    SelectIs(listing, maxItems, w.checkpoint);
    assert all[..|all|] == all;
    assert |all| > 0;
    forall x | x in listing && x > w.checkpoint ensures all[0] <= x {
      assert all[0] in all;
      if x in all {
        var j :| 0 <= j < |all| && all[j] == x;
      }
    }
    assert all[0] in all && fetches(all[0]).Record?;
    var k := LastRecord(all, fetches, 0);
    QuietPoll(w, listing, fetches, maxItems, |all|, |all|, Some(k));
    assert all[k] in all;
  }

  /** The last story with a record, of some with one at `first`. */
  function LastRecord(stories: seq<int>, fetches: int -> Fetch, first: nat): (k: nat)
    requires first < |stories| && fetches(stories[first]).Record?
    ensures k < |stories| && fetches(stories[k]).Record? && forall l :: k < l < |stories| ==> !fetches(stories[l]).Record?
    decreases |stories|
  {
    var n := |stories| - 1;
    if fetches(stories[n]).Record? then n
    else
      var k := LastRecord(stories[..n], fetches, first);
      assert forall l :: 0 <= l < n ==> stories[..n][l] == stories[l];
      k
  }

  /** An ingestion that throws ends the poll with an error, and an error leaves the checkpoint where it was; what was
      published before it stays published. */
  lemma TroubleEndsPoll(p: Progress, id: int, ingest: Ingest)
    requires p.end.Running? && id !in p.w.seen && (ingest.FailsBefore? || ingest.FailsAfter?)
    ensures var q := Story(p, id, Record(false, ingest));
            && q.end.Threw? && Finished(q) == q.w && q.w.checkpoint == p.w.checkpoint
            && q.w.published == p.w.published + (if ingest.FailsAfter? then [id] else [])
            && q.w.unmarked == p.w.unmarked + (if ingest.FailsAfter? then {id} else {})
            && q.w.handled == p.w.handled && q.w.seen == p.w.seen
  {
    assert p.w.published + [] == p.w.published;
  }

  /** A poll whose process dies keeps what its stories did, but stores no checkpoint. */
  lemma DeadPoll(w: World, listing: seq<int>, fetches: int -> Fetch, maxItems: nat, n: nat, b: nat)
    requires var all := Select(listing, maxItems, w.checkpoint);
             n <= |all| && Quiet(all[..n], w.seen, fetches) && FirstFailure(all[..n], fetches, b)
    ensures var done := Select(listing, maxItems, w.checkpoint)[..n];
            Polled(w, listing, fetches, Some(n), maxItems)
            == After(w, Fresh(done, w.seen, fetches), Fetched(done, fetches)).(listed := w.listed + (set id | id in listing))
  {
    SelectIs(listing, maxItems, w.checkpoint);
    QuietStories(Started(w, listing), Select(listing, maxItems, w.checkpoint)[..n], fetches, b);
  }

  /** Cleaned-up ids are no longer seen. */
  lemma CleanupForgets(w: World, maxItems: nat, ids: set<int>)
    ensures var v := Next(w, maxItems, Cleanup(ids));
            v == w.(seen := v.seen, forgotten := v.forgotten)
            && forall id :: (id in v.seen <==> id in w.seen && id !in ids)
                            && (id in v.forgotten <==> id in w.forgotten || (id in w.seen && id in ids))
  {
  }

  // ---------------------------------------------------------------- no skipped story

  /** Every id ever listed between the first checkpoint and the stored one was handled. */
  ghost predicate Covered(first: int, w: World) {
    forall id :: id in w.listed && first < id <= w.checkpoint ==> id in w.handled
  }

  ghost predicate Orderly(w: World) {
    w.handled <= w.listed
  }

  /** A listing still shows every id listed before that lies above the stored checkpoint. */
  ghost predicate Retains(w: World, listing: seq<int>) {
    forall id :: id in w.listed && id > w.checkpoint ==> id in listing
  }

  /** A listing shows for the first time an id the stored checkpoint has already passed. */
  ghost predicate ListsLate(first: int, w: World, listing: seq<int>) {
    exists id :: id in listing && id !in w.listed && first < id <= w.checkpoint
  }

  lemma PollCovers(first: int, w: World, listing: seq<int>, fetches: int -> Fetch, dies: Option<nat>, maxItems: nat)
    requires Orderly(w) && first <= w.checkpoint && Retains(w, listing)
    ensures var w' := Polled(w, listing, fetches, dies, maxItems);
            && w.checkpoint <= w'.checkpoint && Orderly(w') && w.listed <= w'.listed && w.handled <= w'.handled
            && (Covered(first, w') <==> Covered(first, w) && !ListsLate(first, w, listing))
  {
    var all, start := Select(listing, maxItems, w.checkpoint), Started(w, listing);
    var dead := dies.Some? && dies.value <= |all|;
    var candidates := if dead then all[..dies.value] else all;
    SelectIs(listing, maxItems, w.checkpoint);
    assert forall id :: id in candidates ==> id in all;
    StoriesSane(start, candidates, fetches);
    var p, w' := Stories(start, candidates, fetches), Polled(w, listing, fetches, dies, maxItems);
    assert p.cursor == w.checkpoint || p.cursor in candidates;
    forall id | id in w'.listed && w.checkpoint < id <= w'.checkpoint ensures id in w'.handled {
      assert id in listing;
      assert !dead && p.last.Some? && !p.end.Threw? && w'.checkpoint == p.last.value;
      assert id in candidates;
    }
    forall id | id in w'.handled ensures id in w.handled || (id in listing && id > w.checkpoint) {
      assert id in start.w.handled || id in candidates;
    }
  }

  /** Every poll of the history still lists what earlier polls listed above the checkpoint stored then. */
  ghost predicate AllRetain(checkpoint: int, maxItems: nat, actions: seq<Action>)
    decreases |actions|
  {
    |actions| == 0 ||
    var front, last := actions[..|actions| - 1], actions[|actions| - 1];
    && AllRetain(checkpoint, maxItems, front)
    && (last.Poll? ==> Retains(Run(checkpoint, maxItems, front), last.listing))
  }

  ghost predicate NoneLate(checkpoint: int, maxItems: nat, actions: seq<Action>)
    decreases |actions|
  {
    |actions| == 0 ||
    var front, last := actions[..|actions| - 1], actions[|actions| - 1];
    && NoneLate(checkpoint, maxItems, front)
    && (last.Poll? ==> !ListsLate(checkpoint, Run(checkpoint, maxItems, front), last.listing))
  }

  lemma {:induction false} RunCovers(checkpoint: int, maxItems: nat, actions: seq<Action>)
    requires AllRetain(checkpoint, maxItems, actions)
    ensures var w := Run(checkpoint, maxItems, actions);
            && Orderly(w) && checkpoint <= w.checkpoint
            && (Covered(checkpoint, w) <==> NoneLate(checkpoint, maxItems, actions))
    decreases |actions|
  {
    if |actions| > 0 {
      var front, last := actions[..|actions| - 1], actions[|actions| - 1];
      RunCovers(checkpoint, maxItems, front);
      var w := Run(checkpoint, maxItems, front);
      match last
      case Poll(listing, fetches, dies) => PollCovers(checkpoint, w, listing, fetches, dies, maxItems);
      case Cleanup(ids) =>
    }
  }

  /** No skipped story, exactly: over any polls with failing fetches, failing ingestion, shutdowns and
      cleanups, where listings keep what lies above the checkpoint, every listed id up to the stored
      checkpoint was handled if and only if no listing first showed an id the checkpoint had passed. */
  lemma NoSkippedStory(checkpoint: int, maxItems: nat, actions: seq<Action>)
    requires AllRetain(checkpoint, maxItems, actions)
    ensures var w := Run(checkpoint, maxItems, actions);
            (forall id :: id in w.listed && checkpoint < id <= w.checkpoint ==> id in w.handled)
            <==> NoneLate(checkpoint, maxItems, actions)
  {
    RunCovers(checkpoint, maxItems, actions);
  }

  /** A poll never lowers the checkpoint, and handles nothing at or below it. */
  lemma PollOnlyAbove(w: World, listing: seq<int>, fetches: int -> Fetch, dies: Option<nat>, maxItems: nat)
    ensures var w' := Polled(w, listing, fetches, dies, maxItems);
            w.checkpoint <= w'.checkpoint && forall id :: id in w'.handled ==> id in w.handled || id > w.checkpoint
  {
    var all, start := Select(listing, maxItems, w.checkpoint), Started(w, listing);
    var candidates := if dies.Some? && dies.value <= |all| then all[..dies.value] else all;
    SelectIs(listing, maxItems, w.checkpoint);
    assert forall id :: id in candidates ==> id in all;
    StoriesSane(start, candidates, fetches);
  }

  /** A story that the checkpoint has passed unhandled is not handled by any continuation. */
  lemma {:induction false} SkippedForGood(checkpoint: int, maxItems: nat, actions: seq<Action>, more: seq<Action>, id: int)
    requires var w := Run(checkpoint, maxItems, actions); id <= w.checkpoint && id !in w.handled
    ensures var w := Run(checkpoint, maxItems, actions + more); id <= w.checkpoint && id !in w.handled
    decreases |more|
  {
    if |more| == 0 {
      assert actions + more == actions;
    } else {
      var front := more[..|more| - 1];
      var all := actions + more;
      assert all[..|all| - 1] == actions + front;
      SkippedForGood(checkpoint, maxItems, actions, front, id);
      var w := Run(checkpoint, maxItems, actions + front);
      match all[|all| - 1]
      case Poll(listing, fetches, dies) => PollOnlyAbove(w, listing, fetches, dies, maxItems);
      case Cleanup(_) =>
    }
  }

  function AcceptAll(): int -> Fetch {
    id => Record(false, Accepted)
  }

  /** A story listed late is skipped: 5 is handled and stored, then 4 shows up for the first time, and no
      continuation handles it. */
  lemma LateStoryIsSkipped(more: seq<Action>)
    ensures var polls := [Poll([5], AcceptAll(), None), Poll([5, 4], AcceptAll(), None)];
            && AllRetain(0, 10, polls) && 4 in Run(0, 10, polls).listed
            && 4 !in Run(0, 10, polls + more).handled
  {
    LateStory();
    SkippedForGood(0, 10, [Poll([5], AcceptAll(), None), Poll([5, 4], AcceptAll(), None)], more, 4);
  }

  lemma {:induction false} LateStory()
    ensures var w := Run(0, 10, [Poll([5], AcceptAll(), None), Poll([5, 4], AcceptAll(), None)]);
            w.checkpoint == 5 && 4 in w.listed && 4 !in w.handled
    ensures AllRetain(0, 10, [Poll([5], AcceptAll(), None), Poll([5, 4], AcceptAll(), None)])
  {
    var a, b := Poll([5], AcceptAll(), None), Poll([5, 4], AcceptAll(), None);
    assert [a, b][..1] == [a] && [a][..0] == [];
    var w1 := Run(0, 10, [a]);
    assert Newer([5], 0) == [5] by {
      assert [5][..0] == [];
    }
    assert Select([5], 10, 0) == [5] && [5][..0] == [];
    assert Run(0, 10, [a][..0]) == Initial(0);
    assert w1 == Polled(Initial(0), [5], AcceptAll(), None, 10);
    assert w1.checkpoint == 5 && w1.handled == {5} && w1.listed == {5};
    assert Newer([5, 4], 5) == [] by {
      assert [5, 4][..1] == [5] && [5][..0] == [];
    }
    assert Select([5, 4], 10, 5) == [];
  }

  // ---------------------------------------------------------------- published once

  ghost predicate PublishedOnce(w: World) {
    && (forall id :: id in w.published ==> id in w.seen || id in w.unmarked || id in w.forgotten)
    && (forall id :: multiset(w.published)[id] > 1 ==> id in w.unmarked || id in w.forgotten)
  }

  lemma StoryPublishesOnce(p: Progress, id: int, fetch: Fetch)
    requires PublishedOnce(p.w)
    ensures PublishedOnce(Story(p, id, fetch).w)
  {
    var w, w' := p.w, Story(p, id, fetch).w;
    forall x ensures multiset(w'.published)[x] > 1 ==> x in w'.unmarked || x in w'.forgotten {
      assert x in w.published <==> multiset(w.published)[x] > 0;
    }
  }

  lemma {:induction false} StoriesPublishOnce(start: Progress, candidates: seq<int>, fetches: int -> Fetch)
    requires PublishedOnce(start.w)
    ensures PublishedOnce(Stories(start, candidates, fetches).w)
  {
    if |candidates| > 0 {
      var front, id := candidates[..|candidates| - 1], candidates[|candidates| - 1];
      StoriesPublishOnce(start, front, fetches);
      StoryPublishesOnce(Stories(start, front, fetches), id, fetches(id));
    }
  }

  /** No event is published twice unless its publication was once not followed by the seen mark, or its
      mark was cleaned up. */
  lemma {:induction false} NotPublishedTwice(checkpoint: int, maxItems: nat, actions: seq<Action>)
    ensures PublishedOnce(Run(checkpoint, maxItems, actions))
    decreases |actions|
  {
    if |actions| > 0 {
      var front, last := actions[..|actions| - 1], actions[|actions| - 1];
      NotPublishedTwice(checkpoint, maxItems, front);
      var w := Run(checkpoint, maxItems, front);
      match last
      case Poll(listing, fetches, dies) =>
        var candidates := Select(listing, maxItems, w.checkpoint);
        StoriesPublishOnce(Started(w, listing), candidates, fetches);
        if dies.Some? && dies.value <= |candidates| {
          StoriesPublishOnce(Started(w, listing), candidates[..dies.value], fetches);
        }
      case Cleanup(ids) =>
    }
  }
}
