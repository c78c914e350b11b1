/** Retagging the archive page by page: rows that match are read in id order, a page at a time after the
    last id seen, and rewritten while the scan goes on. */
module Retag {

  datatype Option<+T> = None | Some(value: T)

  datatype Row = Row(id: int, source: string, content: int, topics: seq<string>, tags: seq<string>)

  datatype Options = Options(all: bool, source: Option<string>, limit: Option<nat>, dryRun: bool)

  /** The archive in id order. */
  predicate Table(rows: seq<Row>) {
    forall i, j :: 0 <= i < j < |rows| ==> rows[i].id < rows[j].id
  }

  predicate Matches(row: Row, o: Options) {
    && (o.all || row.topics == [] || row.tags == [])
    && (o.source.Some? ==> row.source == o.source.value)
  }

  /** All rows a run is about, in id order. */
  function Matching(rows: seq<Row>, o: Options): seq<Row> {
    if |rows| == 0 then []
    else Matching(rows[..|rows| - 1], o) + (if Matches(rows[|rows| - 1], o) then [rows[|rows| - 1]] else [])
  }

  /** The WHERE clause of a page: matching rows with an id above the cursor. */
  function After(rows: seq<Row>, o: Options, cursor: Option<int>): seq<Row> {
    if |rows| == 0 then []
    else
      var last := rows[|rows| - 1];
      After(rows[..|rows| - 1], o, cursor)
      + (if Matches(last, o) && (cursor.None? || last.id > cursor.value) then [last] else [])
  }

  function Take<T>(s: seq<T>, n: nat): seq<T> {
    if |s| <= n then s else s[..n]
  }

  /** The rows a run visits: the first `limit` matching rows, or all of them. */
  function Visited(rows: seq<Row>, o: Options): seq<Row> {
    if o.limit.Some? then Take(Matching(rows, o), o.limit.value) else Matching(rows, o)
  }

  function Rewritten(row: Row, extract: int -> seq<string>): Row {
    row.(topics := extract(row.content), tags := extract(row.content))
  }

  /** The table after the rows with these ids were rewritten. */
  function Updated(rows: seq<Row>, ids: set<int>, extract: int -> seq<string>): seq<Row> {
    if |rows| == 0 then []
    else
      var last := rows[|rows| - 1];
      Updated(rows[..|rows| - 1], ids, extract) + [if last.id in ids then Rewritten(last, extract) else last]
  }

  lemma {:induction false} UpdatedAt(rows: seq<Row>, ids: set<int>, extract: int -> seq<string>)
    ensures var r := Updated(rows, ids, extract);
            |r| == |rows| && forall k :: 0 <= k < |r| ==> r[k] == if rows[k].id in ids then Rewritten(rows[k], extract) else rows[k]
  {
    if |rows| > 0 {
      UpdatedAt(rows[..|rows| - 1], ids, extract);
    }
  }

  function Ids(rows: seq<Row>): set<int> {
    set row | row in rows :: row.id
  }

  // ---------------------------------------------------------------- statistics

  datatype Category = Unchanged | SyncedTagsOnly | FromEmpty | ToEmpty | ChangedNonEmpty

  function Categorize(row: Row, next: seq<string>): Category {
    if row.topics == next && row.tags == next then Unchanged
    else if row.topics == next then SyncedTagsOnly
    else if |row.topics| == 0 && |next| > 0 then FromEmpty
    else if |row.topics| > 0 && |next| == 0 then ToEmpty
    else ChangedNonEmpty
  }

  datatype Stats = Stats(scanned: nat, changed: nat, untouched: nat, fromEmpty: nat, toEmpty: nat,
                         changedNonEmpty: nat, syncedTagsOnly: nat)

  function CategoryCount(rows: seq<Row>, extract: int -> seq<string>, category: Category): nat {
    if |rows| == 0 then 0
    else
      var last := rows[|rows| - 1];
      CategoryCount(rows[..|rows| - 1], extract, category)
      + (if Categorize(last, extract(last.content)) == category then 1 else 0)
  }

  /** One more row on the counters. */
  function Count(stats: Stats, category: Category): Stats {
    match category
    case Unchanged => stats.(scanned := stats.scanned + 1, untouched := stats.untouched + 1)
    case SyncedTagsOnly => stats.(scanned := stats.scanned + 1, changed := stats.changed + 1, syncedTagsOnly := stats.syncedTagsOnly + 1)
    case FromEmpty => stats.(scanned := stats.scanned + 1, changed := stats.changed + 1, fromEmpty := stats.fromEmpty + 1)
    case ToEmpty => stats.(scanned := stats.scanned + 1, changed := stats.changed + 1, toEmpty := stats.toEmpty + 1)
    case ChangedNonEmpty => stats.(scanned := stats.scanned + 1, changed := stats.changed + 1, changedNonEmpty := stats.changedNonEmpty + 1)
  }

  const NONE := Stats(0, 0, 0, 0, 0, 0, 0)

  function StatsOf(rows: seq<Row>, extract: int -> seq<string>): Stats {
    if |rows| == 0 then NONE
    else Count(StatsOf(rows[..|rows| - 1], extract), Categorize(rows[|rows| - 1], extract(rows[|rows| - 1].content)))
  }

  /** Each counter is the number of visited rows of its category; scanned is changed plus unchanged, and
      changed is the sum of the four categories. */
  lemma {:induction false} StatsAddUp(rows: seq<Row>, extract: int -> seq<string>)
    ensures var s := StatsOf(rows, extract);
            && s.scanned == |rows| == s.changed + s.untouched
            && s.changed == s.fromEmpty + s.toEmpty + s.changedNonEmpty + s.syncedTagsOnly
            && s.untouched == CategoryCount(rows, extract, Unchanged)
            && s.fromEmpty == CategoryCount(rows, extract, FromEmpty)
            && s.toEmpty == CategoryCount(rows, extract, ToEmpty)
            && s.changedNonEmpty == CategoryCount(rows, extract, ChangedNonEmpty)
            && s.syncedTagsOnly == CategoryCount(rows, extract, SyncedTagsOnly)
  {
    if |rows| > 0 {
      StatsAddUp(rows[..|rows| - 1], extract);
    }
  }

  // ---------------------------------------------------------------- pages

  lemma {:induction false} MatchingIs(rows: seq<Row>, o: Options)
    requires Table(rows)
    ensures Table(Matching(rows, o))
    ensures forall row :: row in Matching(rows, o) <==> row in rows && Matches(row, o)
  {
    if |rows| > 0 {
      var front, last := rows[..|rows| - 1], rows[|rows| - 1];
      assert rows == front + [last];
      MatchingIs(front, o);
      var m := Matching(front, o);
      forall k | 0 <= k < |m| ensures m[k].id < last.id {
        assert m[k] in front;
        var j :| 0 <= j < |front| && front[j] == m[k];
        assert rows[j] == front[j];
      }
    }
  }

  /** Above an id, the page is what is left of the matching rows. */
  lemma {:induction false} AfterIsRest(rows: seq<Row>, o: Options, cursor: Option<int>, k: nat)
    requires Table(rows) && k <= |Matching(rows, o)|
    requires if k == 0 then cursor.None? else cursor == Some(Matching(rows, o)[k - 1].id)
    ensures After(rows, o, cursor) == Matching(rows, o)[k..]
  {
    if |rows| > 0 {
      var front, last := rows[..|rows| - 1], rows[|rows| - 1];
      MatchingIs(rows, o);
      MatchingIs(front, o);
      var m, all := Matching(front, o), Matching(rows, o);
      if k <= |m| {
        assert k > 0 ==> m[k - 1] == all[k - 1];
        AfterIsRest(front, o, cursor, k);
        if Matches(last, o) {
          assert all == m + [last] && all[k..] == m[k..] + [last];
          assert k > 0 ==> all[k - 1].id < all[|m|].id;
        }
      } else {
        AfterNothing(front, o, cursor);
      }
    }
  }

  lemma {:induction false} AfterNothing(rows: seq<Row>, o: Options, cursor: Option<int>)
    requires cursor.Some? && forall k :: 0 <= k < |rows| ==> rows[k].id <= cursor.value
    ensures After(rows, o, cursor) == []
  {
    if |rows| > 0 {
      AfterNothing(rows[..|rows| - 1], o, cursor);
    }
  }

  /** Rewriting rows up to the cursor does not change the page after it. */
  lemma {:induction false} AfterIgnoresUpdates(rows: seq<Row>, o: Options, cursor: Option<int>, ids: set<int>, extract: int -> seq<string>)
    requires forall id :: id in ids ==> cursor.Some? && id <= cursor.value
    ensures After(Updated(rows, ids, extract), o, cursor) == After(rows, o, cursor)
  {
    if |rows| > 0 {
      var front := rows[..|rows| - 1];
      AfterIgnoresUpdates(front, o, cursor, ids, extract);
      UpdatedAt(front, ids, extract);
      assert Updated(rows, ids, extract)[..|rows| - 1] == Updated(front, ids, extract);
    }
  }

  lemma UpdatedTwice(rows: seq<Row>, a: set<int>, b: set<int>, extract: int -> seq<string>)
    ensures Updated(Updated(rows, a, extract), b, extract) == Updated(rows, a + b, extract)
  {
    UpdatedAt(rows, a, extract);
    UpdatedAt(rows, a + b, extract);
    UpdatedAt(Updated(rows, a, extract), b, extract);
  }

  // ---------------------------------------------------------------- the run

  /** The cursor after a page: the id of its last row. */
  function CursorAfter(cursor: Option<int>, page: seq<Row>): Option<int> {
    if |page| == 0 then cursor else Some(page[|page| - 1].id)
  }

  function RowsAfter(rows: seq<Row>, o: Options, page: seq<Row>, extract: int -> seq<string>): seq<Row> {
    if o.dryRun || |page| == 0 then rows else Updated(rows, Ids(page), extract)
  }

  function Left(remaining: Option<nat>, n: nat): Option<nat> {
    if remaining.Some? && n <= remaining.value then Some(remaining.value - n) else remaining
  }

  class Archive {
    var rows: seq<Row>

    constructor (rows: seq<Row>)
      ensures this.rows == rows
    {
      this.rows := rows;
    }

    method Run(o: Options, batchSize: nat, extract: int -> seq<string>) returns (stats: Stats)
      requires Table(rows) && batchSize > 0
      modifies this
      ensures var visited := Visited(old(rows), o);
              && stats == StatsOf(visited, extract)
              && rows == if o.dryRun then old(rows) else Updated(old(rows), Ids(visited), extract)
    {
      ghost var before, seen: seq<Row> := rows, [];
      var cursor: Option<int> := None;
      var remaining: Option<nat> := o.limit;
      stats := NONE;
      var more := true;
      while more
        invariant Scanned(before, o, extract, seen, rows, cursor, remaining)
        invariant stats == StatsOf(seen, extract)
        invariant !more ==> Covered(before, o, seen, remaining)
        decreases |Matching(before, o)| - |seen|, more
      {
        if remaining == Some(0) {
          more := false;
          continue;
        }
        var take := if remaining.None? || batchSize <= remaining.value then batchSize else remaining.value;
        ghost var page := NextPage(before, o, extract, seen, rows, cursor, remaining, take);
        var n;
        n, cursor, stats := RunPage(o, take, cursor, stats, extract, seen);
        remaining := Left(remaining, n);
        more := n > 0;
        seen := seen + page;
      }
      Finished(before, o, extract, seen, rows, cursor, remaining);
    }

    /** One page: read it, tally it, and rewrite its rows in one transaction. */
    method RunPage(o: Options, take: nat, cursor: Option<int>, stats: Stats, extract: int -> seq<string>,
                   ghost seen: seq<Row>) returns (n: nat, cursor': Option<int>, stats': Stats)
      requires stats == StatsOf(seen, extract)
      modifies this
      ensures var page := Take(After(old(rows), o, cursor), take);
              && n == |page| && stats' == StatsOf(seen + page, extract)
              && cursor' == CursorAfter(cursor, page) && rows == RowsAfter(old(rows), o, page, extract)
    {
      var events := Take(After(rows, o, cursor), take);
      n := |events|;
      if n == 0 {
        assert seen + events == seen;
        return 0, cursor, stats;
      }
      stats' := Tally(stats, events, seen, extract);
      cursor' := Some(events[n - 1].id);
      if !o.dryRun {
        rows := Updated(rows, Ids(events), extract);
      }
    }
  }

  /** The scan has seen these rows: the first matching ones, within the limit. */
  ghost predicate Scanned(before: seq<Row>, o: Options, extract: int -> seq<string>, seen: seq<Row>, rows: seq<Row>,
                          cursor: Option<int>, remaining: Option<nat>) {
    && Table(before)
    && seen <= Matching(before, o)
    && cursor == CursorAfter(None, seen)
    && rows == RowsAfter(before, o, seen, extract)
    && (o.limit.Some? ==> |seen| <= o.limit.value)
    && remaining == Left(o.limit, |seen|)
  }

  /** The matching rows or the limit are used up. */
  ghost predicate Covered(before: seq<Row>, o: Options, seen: seq<Row>, remaining: Option<nat>) {
    seen == Matching(before, o) || remaining == Some(0)
  }

  lemma IdsOf(a: seq<Row>, b: seq<Row>)
    ensures Ids(a + b) == Ids(a) + Ids(b)
  {
  }

  lemma IdsUpTo(rows: seq<Row>)
    requires Table(rows) && |rows| > 0
    ensures forall id :: id in Ids(rows) ==> id <= rows[|rows| - 1].id
  {
    forall id | id in Ids(rows) ensures id <= rows[|rows| - 1].id {
      var row :| row in rows && row.id == id;
      var k :| 0 <= k < |rows| && rows[k] == row;
      assert k == |rows| - 1 || rows[k].id < rows[|rows| - 1].id;
    }
  }

  /** Rewriting one page after another is rewriting them together. */
  lemma RowsAfterBoth(rows: seq<Row>, o: Options, a: seq<Row>, b: seq<Row>, extract: int -> seq<string>)
    ensures RowsAfter(RowsAfter(rows, o, a, extract), o, b, extract) == RowsAfter(rows, o, a + b, extract)
  {
    if |a| == 0 {
      assert a + b == b;
    } else if |b| == 0 {
      assert a + b == a;
    } else {
      IdsOf(a, b);
      UpdatedTwice(rows, Ids(a), Ids(b), extract);
    }
  }

  /** However the rows up to the cursor were rewritten, what is after it is the rest of the matching rows. */
  lemma RestOfScan(before: seq<Row>, o: Options, extract: int -> seq<string>, seen: seq<Row>)
    requires Table(before) && seen <= Matching(before, o)
    ensures After(RowsAfter(before, o, seen, extract), o, CursorAfter(None, seen)) == Matching(before, o)[|seen|..]
  {
    var cursor := CursorAfter(None, seen);
    AfterIsRest(before, o, cursor, |seen|);
    if !o.dryRun && |seen| > 0 {
      MatchingIs(before, o);
      IdsUpTo(seen);
      AfterIgnoresUpdates(before, o, cursor, Ids(seen), extract);
    }
  }

  lemma PageContinues(all: seq<Row>, seen: seq<Row>, page: seq<Row>, take: nat)
    requires seen <= all && take > 0 && page == Take(all[|seen|..], take)
    ensures seen + page <= all && |page| <= take
    ensures |page| == 0 ==> seen + page == all
    ensures CursorAfter(CursorAfter(None, seen), page) == CursorAfter(None, seen + page)
  {
    assert seen + page == all[..|seen + page|];
  }

  /** Reading and rewriting a page moves the scan on by that page. */
  lemma NextPage(before: seq<Row>, o: Options, extract: int -> seq<string>, seen: seq<Row>, rows: seq<Row>, cursor: Option<int>,
                 remaining: Option<nat>, take: nat) returns (page: seq<Row>)
    requires Scanned(before, o, extract, seen, rows, cursor, remaining)
    requires take > 0 && (remaining.Some? ==> take <= remaining.value)
    ensures page == Take(After(rows, o, cursor), take)
    ensures Scanned(before, o, extract, seen + page, RowsAfter(rows, o, page, extract), CursorAfter(cursor, page), Left(remaining, |page|))
    ensures |page| == 0 ==> seen + page == Matching(before, o)
    ensures |seen + page| <= |Matching(before, o)|
  {
    RestOfScan(before, o, extract, seen);
    hide Matching, After, RowsAfter, Table;
    page := Take(Matching(before, o)[|seen|..], take);
    PageContinues(Matching(before, o), seen, page, take);
    RowsAfterBoth(before, o, seen, page, extract);
  }

  /** When the matching rows or the limit are used up, the scan has seen what the run visits. */
  lemma Finished(before: seq<Row>, o: Options, extract: int -> seq<string>, seen: seq<Row>, rows: seq<Row>, cursor: Option<int>,
                 remaining: Option<nat>)
    requires Scanned(before, o, extract, seen, rows, cursor, remaining) && Covered(before, o, seen, remaining)
    ensures seen == Visited(before, o)
    ensures rows == if o.dryRun then before else Updated(before, Ids(seen), extract)
  {
    if |seen| == 0 {
      UpdatedAt(before, Ids(seen), extract);
    }
  }

  /** The loop over the events of a page: count each row under its category. */
  method Tally(stats: Stats, events: seq<Row>, ghost seen: seq<Row>, extract: int -> seq<string>) returns (r: Stats)
    requires stats == StatsOf(seen, extract)
    ensures r == StatsOf(seen + events, extract)
  {
    r := stats.(scanned := stats.scanned + |events|);
    assert seen + events[..0] == seen;
    for i := 0 to |events|
      invariant r == StatsOf(seen + events[..i], extract).(scanned := stats.scanned + |events|)
      invariant StatsOf(seen + events[..i], extract).scanned == stats.scanned + i
    {
      var row := events[i];
      assert (seen + events[..i + 1])[..|seen| + i] == seen + events[..i];
      var next := extract(row.content);
      var topicsChanged, tagsChanged := row.topics != next, row.tags != next;
      if !(topicsChanged || tagsChanged) {
        r := r.(untouched := r.untouched + 1);
        continue;
      }
      r := r.(changed := r.changed + 1);
      if !topicsChanged && tagsChanged {
        r := r.(syncedTagsOnly := r.syncedTagsOnly + 1);
      } else if |row.topics| == 0 && |next| > 0 {
        r := r.(fromEmpty := r.fromEmpty + 1);
      } else if |row.topics| > 0 && |next| == 0 {
        r := r.(toEmpty := r.toEmpty + 1);
      } else {
        r := r.(changedNonEmpty := r.changedNonEmpty + 1);
      }
    }
    assert events[..|events|] == events;
  }

  // ---------------------------------------------------------------- what a run achieves

  /** The visited rows are matching rows, each once, in id order, and the first ones: a matching row left
      out has a larger id than every visited row, and then the limit is used up. */
  lemma VisitedIs(rows: seq<Row>, o: Options)
    requires Table(rows)
    ensures var v := Visited(rows, o);
            && Table(v)
            && (forall row :: row in v ==> row in rows && Matches(row, o))
            && (forall row :: row in rows && Matches(row, o) && row !in v ==>
                  o.limit.Some? && |v| == o.limit.value && forall seen :: seen in v ==> seen.id < row.id)
  {
    MatchingIs(rows, o);
    var all, v := Matching(rows, o), Visited(rows, o);
    hide Matching, Matches;
    forall row, seen | row in rows && Matches(row, o) && row !in v && seen in v ensures seen.id < row.id {
      assert row in all;
      var i :| 0 <= i < |all| && all[i] == row;
      var j :| 0 <= j < |v| && v[j] == seen;
      assert v[j] == all[j];
      assert i >= |v|;
    }
    forall row | row in rows && Matches(row, o) && row !in v ensures o.limit.Some? && |v| == o.limit.value {
      assert row in all;
    }
  }

  /** Rewriting every matching row leaves a table in id order whose matching rows are up to date. */
  lemma MatchingIsUpToDate(rows: seq<Row>, o: Options, extract: int -> seq<string>, once: seq<Row>)
    requires Table(rows) && once == Updated(rows, Ids(Matching(rows, o)), extract)
    ensures Table(once) && |once| == |rows|
    ensures forall k :: 0 <= k < |once| && Matches(once[k], o) ==> once[k] == Rewritten(once[k], extract)
  {
    var ids := Ids(Matching(rows, o));
    UpdatedAt(rows, ids, extract);
    MatchingIs(rows, o);
    forall k | 0 <= k < |once| && Matches(once[k], o) ensures once[k] == Rewritten(once[k], extract) {
      if Matches(rows[k], o) {
        assert rows[k] in Matching(rows, o) && rows[k].id in ids;
      }
    }
  }

  lemma VisitedUpToDate(once: seq<Row>, o: Options, extract: int -> seq<string>)
    requires Table(once)
    requires forall k :: 0 <= k < |once| && Matches(once[k], o) ==> once[k] == Rewritten(once[k], extract)
    ensures forall row :: row in Matching(once, o) ==> row in once && row == Rewritten(row, extract)
  {
    MatchingIs(once, o);
  }

  /** After an unlimited run, another one with the same options finds nothing to change, and leaves the
      table as it is. */
  lemma SecondRunChangesNothing(rows: seq<Row>, o: Options, extract: int -> seq<string>)
    requires Table(rows) && o.limit.None? && !o.dryRun
    ensures var once := Updated(rows, Ids(Visited(rows, o)), extract);
            && (forall row :: row in Visited(once, o) ==> Categorize(row, extract(row.content)) == Unchanged)
            && Updated(once, Ids(Visited(once, o)), extract) == once
  {
    var once := Updated(rows, Ids(Visited(rows, o)), extract);
    MatchingIsUpToDate(rows, o, extract, once);
    VisitedUpToDate(once, o, extract);
    UpdatingUpToDate(once, Visited(once, o), extract);
  }

  lemma UpdatingUpToDate(rows: seq<Row>, some: seq<Row>, extract: int -> seq<string>)
    requires Table(rows) && forall row :: row in some ==> row in rows && row == Rewritten(row, extract)
    ensures Updated(rows, Ids(some), extract) == rows
  {
    UpdatedAt(rows, Ids(some), extract);
    forall k | 0 <= k < |rows| ensures Updated(rows, Ids(some), extract)[k] == rows[k] {
      if rows[k].id in Ids(some) {
        var row :| row in some && row.id == rows[k].id;
        var j :| 0 <= j < |rows| && rows[j] == row;
        assert j == k;
      }
    }
  }

  /** A run is about every row, or only rows without topics or without tags; and only about one source, if one is
      given. */
  predicate Selected(row: Row, o: Options) {
    && (o.all || |row.topics| == 0 || |row.tags| == 0)
    && (o.source.None? || o.source.value == row.source)
  }

  /** How many of the first `k` rows a run is about. */
  function SelectedBefore(rows: seq<Row>, o: Options, k: nat): nat
    requires k <= |rows|
  {
    if k == 0 then 0 else SelectedBefore(rows, o, k - 1) + if Selected(rows[k - 1], o) then 1 else 0
  }

  lemma {:induction false} MatchingAre(rows: seq<Row>, o: Options, k: nat)
    requires k <= |rows|
    ensures var m, n := Matching(rows, o), SelectedBefore(rows, o, k);
            n <= |m| && Matching(rows[..k], o) == m[..n] && (k < |rows| && Selected(rows[k], o) ==> n < |m| && m[n] == rows[k])
  {
    if |rows| == k {
      SelectedIsLength(rows, o);
      assert rows[..k] == rows;
    } else {
      var front, last := rows[..|rows| - 1], rows[|rows| - 1];
      MatchingAre(front, o, k);
      SelectedInFront(rows, o, k);
      assert front[..k] == rows[..k];
      if k == |rows| - 1 {
        SelectedIsLength(front, o);
        assert front[..k] == front;
      }
    }
  }

  lemma {:induction false} SelectedInFront(rows: seq<Row>, o: Options, k: nat)
    requires k < |rows|
    ensures SelectedBefore(rows[..|rows| - 1], o, k) == SelectedBefore(rows, o, k)
  {
    if k > 0 {
      SelectedInFront(rows, o, k - 1);
    }
  }

  lemma {:induction false} SelectedIsLength(rows: seq<Row>, o: Options)
    ensures SelectedBefore(rows, o, |rows|) == |Matching(rows, o)|
  {
    if |rows| > 0 {
      SelectedIsLength(rows[..|rows| - 1], o);
      SelectedInFront(rows, o, |rows| - 1);
    }
  }

  lemma DistinctIds(rows: seq<Row>, a: Row, b: Row)
    requires Table(rows) && a in rows && b in rows && a.id == b.id
    ensures a == b
  {
    var i :| 0 <= i < |rows| && rows[i] == a;
    var j :| 0 <= j < |rows| && rows[j] == b;
  }

  /** What a run makes of each row: unless it is a dry run, the first rows it is about, up to its limit, get the topics
      of their content as topics and as tags; all others stay as they are. */
  lemma RunRewrites(rows: seq<Row>, o: Options, extract: int -> seq<string>, k: nat)
    requires Table(rows) && k < |rows|
    ensures var r := if o.dryRun then rows else Updated(rows, Ids(Visited(rows, o)), extract);
            && |r| == |rows|
            && r[k] == if !o.dryRun && Selected(rows[k], o) && (o.limit.None? || SelectedBefore(rows, o, k) < o.limit.value)
                       then Row(rows[k].id, rows[k].source, rows[k].content, extract(rows[k].content), extract(rows[k].content))
                       else rows[k]
  {
    var m, v, n, row := Matching(rows, o), Visited(rows, o), SelectedBefore(rows, o, k), rows[k];
    UpdatedAt(rows, Ids(v), extract);
    MatchingAre(rows, o, k);
    MatchingIs(rows, o);
    assert Selected(row, o) && n < |v| ==> v[n] == row && row in v;
    if row.id in Ids(v) {
      var other :| other in v && other.id == row.id;
      var i :| 0 <= i < |v| && v[i] == other;
      assert other == m[i] && other in m && other in rows;
      DistinctIds(rows, other, row);
      assert m[i] == m[n];
      assert i == n;
    }
  }

  /** A row counts as unchanged when both its lists are the topics of its content, as synchronised when only its tags
      differ; otherwise it had none, has none any more, or had and has others. */
  lemma CategorizeIs(row: Row, next: seq<string>)
    ensures Categorize(row, next) == Unchanged <==> row.topics == next == row.tags
    ensures Categorize(row, next) == SyncedTagsOnly <==> row.topics == next != row.tags
    ensures Categorize(row, next) == FromEmpty <==> row.topics == [] && next != []
    ensures Categorize(row, next) == ToEmpty <==> row.topics != [] && next == []
    ensures Categorize(row, next) == ChangedNonEmpty <==> row.topics != [] && next != [] && row.topics != next
  {
  }
}
