/** Writing a batch of events to the archive: one insert per source, skipping ids already stored. */
module PersistBatch {

  type Source = string
  type EventId = string

  datatype Event = Event(source: Source, id: EventId, body: int)

  /** The archive; the event id is unique across sources. */
  type Table = map<EventId, Event>

  function Insert(rows: Table, event: Event): Table {
    if event.id in rows then rows else rows[event.id := event]
  }

  /** `createMany` with `skipDuplicates`. */
  function InsertAll(rows: Table, events: seq<Event>): Table
    decreases |events|
  {
    if |events| == 0 then rows
    else InsertAll(Insert(rows, events[0]), events[1..])
  }

  function Ids(events: seq<Event>): set<EventId> {
    set e | e in events :: e.id
  }

  /** Afterwards every id attempted has a row, stored rows are untouched, and a new row is one of the events. */
  lemma {:induction false} InsertAllContents(rows: Table, events: seq<Event>)
    ensures var r := InsertAll(rows, events);
            && r.Keys == rows.Keys + Ids(events)
            && (forall id :: id in rows ==> r[id] == rows[id])
            && (forall id :: id in r && id !in rows ==> r[id] in events && r[id].id == id)
    decreases |events|
  {
    if |events| > 0 {
      InsertAllContents(Insert(rows, events[0]), events[1..]);
      assert events == [events[0]] + events[1..];
      assert Ids(events) == {events[0].id} + Ids(events[1..]);
    }
  }

  // ---------------------------------------------------------------- grouping

  function OfSource(events: seq<Event>, source: Source): seq<Event> {
    if |events| == 0 then []
    else
      var front, last := events[..|events| - 1], events[|events| - 1];
      OfSource(front, source) + (if last.source == source then [last] else [])
  }

  predicate Grouping(groups: seq<seq<Event>>) {
    forall i :: 0 <= i < |groups| ==> |groups[i]| > 0
  }

  /** The event joins the group of its source, or opens one at the end. */
  function AddToGroup(groups: seq<seq<Event>>, event: Event): (r: seq<seq<Event>>)
    requires Grouping(groups)
    ensures Grouping(r)
  {
    if |groups| == 0 then [[event]]
    else if groups[0][0].source == event.source then [groups[0] + [event]] + groups[1..]
    else [groups[0]] + AddToGroup(groups[1..], event)
  }

  function GroupBySource(events: seq<Event>): (r: seq<seq<Event>>)
    ensures Grouping(r)
  {
    if |events| == 0 then []
    else AddToGroup(GroupBySource(events[..|events| - 1]), events[|events| - 1])
  }

  /** Groups hold exactly the events of their source, in order, and no two groups share a source. */
  ghost predicate Partition(events: seq<Event>, groups: seq<seq<Event>>)
    requires Grouping(groups)
  {
    && (forall i :: 0 <= i < |groups| ==> groups[i] == OfSource(events, groups[i][0].source))
    && (forall i, j :: 0 <= i < j < |groups| ==> groups[i][0].source != groups[j][0].source)
    && (forall e :: e in events ==> exists i :: 0 <= i < |groups| && e in groups[i])
  }

  lemma {:induction false} AddToGroupAt(groups: seq<seq<Event>>, event: Event)
    requires Grouping(groups)
    requires forall i, j :: 0 <= i < j < |groups| ==> groups[i][0].source != groups[j][0].source
    ensures var r := AddToGroup(groups, event);
            || (&& |r| == |groups| + 1 && r == groups + [[event]]
                && forall i :: 0 <= i < |groups| ==> groups[i][0].source != event.source)
            || (exists i :: 0 <= i < |groups| && groups[i][0].source == event.source
                            && r == groups[i := groups[i] + [event]])
  {
    if |groups| == 0 {
    } else if groups[0][0].source == event.source {
      assert AddToGroup(groups, event) == groups[0 := groups[0] + [event]];
    } else {
      AddToGroupAt(groups[1..], event);
      var r := AddToGroup(groups[1..], event);
      if r != groups[1..] + [[event]] {
        var i :| 0 <= i < |groups| - 1 && groups[1..][i][0].source == event.source
                 && r == groups[1..][i := groups[1..][i] + [event]];
        assert groups[i + 1][0].source == event.source;
        assert AddToGroup(groups, event) == groups[i + 1 := groups[i + 1] + [event]];
      } else {
        assert forall i :: 1 <= i < |groups| ==> groups[i] == groups[1..][i - 1];
      }
    }
  }

  lemma {:induction false} NoneOfSource(events: seq<Event>, source: Source)
    requires forall e :: e in events ==> e.source != source
    ensures OfSource(events, source) == []
  {
    if |events| > 0 {
      NoneOfSource(events[..|events| - 1], source);
    }
  }

  lemma {:induction false} InOfSource(events: seq<Event>, source: Source)
    ensures forall e :: e in OfSource(events, source) <==> e in events && e.source == source
  {
    if |events| > 0 {
      InOfSource(events[..|events| - 1], source);
      assert events == events[..|events| - 1] + [events[|events| - 1]];
    }
  }

  lemma NewGroupPartition(events: seq<Event>, groups: seq<seq<Event>>, last: Event)
    requires Grouping(groups) && Partition(events, groups)
    requires forall i :: 0 <= i < |groups| ==> groups[i][0].source != last.source
    ensures Partition(events + [last], groups + [[last]])
  {
    var all := events + [last];
    var after: seq<seq<Event>> := groups + [[last]];
    assert all[..|events|] == events;
    forall e | e in events ensures e.source != last.source {
      var i :| 0 <= i < |groups| && e in groups[i];
      InOfSource(events, groups[i][0].source);
    }
    NoneOfSource(events, last.source);
    forall e | e in all ensures exists i :: 0 <= i < |after| && e in after[i] {
      if e in events {
        var i :| 0 <= i < |groups| && e in groups[i];
        assert e in after[i];
      } else {
        assert e in after[|groups|];
      }
    }
  }

  lemma OldGroupPartition(events: seq<Event>, groups: seq<seq<Event>>, last: Event, g: nat)
    requires Grouping(groups) && Partition(events, groups)
    requires g < |groups| && groups[g][0].source == last.source
    ensures Partition(events + [last], groups[g := groups[g] + [last]])
  {
    var all := events + [last];
    var after: seq<seq<Event>> := groups[g := groups[g] + [last]];
    assert all[..|events|] == events;
    forall i | 0 <= i < |after| ensures after[i] == OfSource(all, after[i][0].source) {
      assert after[i][0] == groups[i][0];
      assert groups[i] == OfSource(events, groups[i][0].source);
    }
    forall e | e in all ensures exists i :: 0 <= i < |after| && e in after[i] {
      if e in events {
        var i :| 0 <= i < |groups| && e in groups[i];
        assert e in after[i];
      } else {
        assert e in after[g];
      }
    }
  }

  lemma {:induction false} GroupsPartition(events: seq<Event>)
    ensures Partition(events, GroupBySource(events))
  {
    if |events| > 0 {
      var front, last := events[..|events| - 1], events[|events| - 1];
      GroupsPartition(front);
      assert events == front + [last];
      var before, after := GroupBySource(front), GroupBySource(events);
      AddToGroupAt(before, last);
      if after == before + [[last]] && forall i :: 0 <= i < |before| ==> before[i][0].source != last.source {
        NewGroupPartition(front, before, last);
      } else {
        var g :| 0 <= g < |before| && before[g][0].source == last.source && after == before[g := before[g] + [last]];
        OldGroupPartition(front, before, last, g);
      }
    }
  }

  // ---------------------------------------------------------------- the write

  datatype Result = Result(attempted: nat, inserted: nat, duplicates: nat)

  function Flatten(groups: seq<seq<Event>>): seq<Event> {
    if |groups| == 0 then [] else Flatten(groups[..|groups| - 1]) + groups[|groups| - 1]
  }

  lemma {:induction false} FlattenAdd(groups: seq<seq<Event>>, event: Event)
    requires Grouping(groups)
    ensures multiset(Flatten(AddToGroup(groups, event))) == multiset(Flatten(groups)) + multiset{event}
  {
    if |groups| == 0 {
      assert Flatten([[event]]) == [event];
    } else if groups[0][0].source == event.source {
      FlattenFirst(groups);
      FlattenFirst([groups[0] + [event]] + groups[1..]);
      assert ([groups[0] + [event]] + groups[1..])[1..] == groups[1..];
    } else {
      FlattenFirst(groups);
      FlattenAdd(groups[1..], event);
      FlattenFirst([groups[0]] + AddToGroup(groups[1..], event));
      assert ([groups[0]] + AddToGroup(groups[1..], event))[1..] == AddToGroup(groups[1..], event);
    }
  }

  lemma {:induction false} FlattenFirst(groups: seq<seq<Event>>)
    requires |groups| > 0
    ensures Flatten(groups) == groups[0] + Flatten(groups[1..])
  {
    var last := |groups| - 1;
    if last > 0 {
      FlattenFirst(groups[..last]);
      assert groups[..last][1..] == groups[1..][..last - 1];
    } else {
      assert groups[..last] == [] && groups[1..] == [];
    }
  }

  /** Grouping loses and invents no event. */
  lemma {:induction false} GroupsKeepEvents(events: seq<Event>)
    ensures multiset(Flatten(GroupBySource(events))) == multiset(events)
    ensures |Flatten(GroupBySource(events))| == |events|
  {
    if |events| > 0 {
      var front, last := events[..|events| - 1], events[|events| - 1];
      GroupsKeepEvents(front);
      assert events == front + [last];
      FlattenAdd(GroupBySource(front), last);
    }
    assert |multiset(events)| == |events|;
    assert |multiset(Flatten(GroupBySource(events)))| == |Flatten(GroupBySource(events))|;
  }

  lemma {:induction false} InsertAllConcat(rows: Table, a: seq<Event>, b: seq<Event>)
    ensures InsertAll(rows, a + b) == InsertAll(InsertAll(rows, a), b)
    decreases |a|
  {
    if |a| == 0 {
      assert a + b == b;
    } else {
      assert (a + b)[1..] == a[1..] + b;
      InsertAllConcat(Insert(rows, a[0]), a[1..], b);
    }
  }

  lemma {:induction false} InsertAllGrows(rows: Table, events: seq<Event>)
    ensures |rows| <= |InsertAll(rows, events)| <= |rows| + |events|
    decreases |events|
  {
    if |events| > 0 {
      InsertAllGrows(Insert(rows, events[0]), events[1..]);
    }
  }

  class Archive {
    var rows: Table

    constructor ()
      ensures rows == map[]
    {
      rows := map[];
    }

    method CreateMany(events: seq<Event>) returns (count: nat)
      modifies this
      ensures rows == InsertAll(old(rows), events)
      ensures |rows| == |old(rows)| + count
    {
      count := 0;
      for i := 0 to |events|
        invariant InsertAll(rows, events[i..]) == InsertAll(old(rows), events)
        invariant |rows| == |old(rows)| + count
      {
        if events[i].id !in rows {
          count := count + 1;
        }
        assert events[i..][0] == events[i] && events[i..][1..] == events[i + 1..];
        rows := Insert(rows, events[i]);
      }
    }

    /** The count of inserted rows is the growth of the archive, and every event attempted is counted
        once, as inserted or as a duplicate; afterwards each attempted id has its row. */
    method Persist(events: seq<Event>) returns (result: Result)
      modifies this
      ensures rows == InsertAll(old(rows), Flatten(GroupBySource(events)))
      ensures rows.Keys == old(rows).Keys + Ids(events)
      ensures result.attempted == |events| == result.inserted + result.duplicates
      ensures |rows| == |old(rows)| + result.inserted
    {
      ghost var before := rows;
      var groups := GroupBySource(events);
      PersistedIds(before, events);
      if |events| == 0 {
        return Result(0, 0, 0);
      }
      var inserted: nat, duplicates: nat := 0, 0;
      for i := 0 to |groups|
        invariant rows == InsertAll(before, Flatten(groups[..i]))
        invariant |rows| == |before| + inserted
        invariant inserted + duplicates == |Flatten(groups[..i])|
      {
        InsertAllGrows(rows, groups[i]);
        InsertAllConcat(before, Flatten(groups[..i]), groups[i]);
        assert groups[..i + 1][..i] == groups[..i];
        var count := CreateMany(groups[i]);
        inserted := inserted + count;
        duplicates := duplicates + (|groups[i]| - count);
      }
      assert groups[..|groups|] == groups;
      result := Result(|events|, inserted, duplicates);
    }
  }

  lemma PersistedIds(rows: Table, events: seq<Event>)
    ensures var r := InsertAll(rows, Flatten(GroupBySource(events)));
            r.Keys == rows.Keys + Ids(events)
    ensures |Flatten(GroupBySource(events))| == |events|
  {
    var flat := Flatten(GroupBySource(events));
    GroupsKeepEvents(events);
    InsertAllContents(rows, flat);
    assert forall e :: e in events <==> e in multiset(events);
    assert forall e :: e in flat <==> e in multiset(flat);
    assert Ids(flat) == Ids(events);
  }
}
