/** The evidence of a topic: a Redis sorted set that ZADD extends and ZREMRANGEBYRANK trims to its K
    highest members. Ranks go by score, then by member. */
module Evidence {
  import opened Ordering

  datatype Entry = Entry(score: int, id: string)

  predicate EntryLess(a: Entry, b: Entry) {
    a.score < b.score || (a.score == b.score && StringLess(a.id, b.id))
  }

  lemma EntryOrder()
    ensures StrictTotalOrder(EntryLess)
  {
    StringOrder();
  }

  /** A sorted set lists its members in rank order. */
  type ZSet = seq<Entry>

  function WithoutMember(z: ZSet, id: string): ZSet {
    if |z| == 0 then []
    else if z[0].id == id then WithoutMember(z[1..], id)
    else [z[0]] + WithoutMember(z[1..], id)
  }

  /** ZADD: a member has one score, the last one given. */
  function ZAdd(z: ZSet, entry: Entry): ZSet {
    Insert(EntryLess, WithoutMember(z, entry.id), entry)
  }

  /** ZREMRANGEBYRANK 0 -(k+1): drop the lowest ranks beyond the k highest. */
  function Trim(z: ZSet, k: nat): ZSet {
    if |z| <= k then z else z[|z| - k..]
  }

  function AddTrim(z: ZSet, entry: Entry, k: nat): ZSet {
    Trim(ZAdd(z, entry), k)
  }

  // ---------------------------------------------------------------- streaming equals offline

  ghost predicate UniqueIds(entries: set<Entry>) {
    forall x, y :: x in entries && y in entries && x.id == y.id ==> x == y
  }

  /** `z` lists the `k` greatest of `entries`, or all of them when there are no more than `k`. */
  ghost predicate IsTopK(z: ZSet, entries: set<Entry>, k: nat) {
    && Sorted(EntryLess, z)
    && (forall i, j :: 0 <= i < j < |z| ==> z[i] != z[j])
    && (forall x :: x in z ==> x in entries)
    && |z| <= k
    && (forall x :: x in entries && x !in z ==> |z| == k && forall y :: y in z ==> EntryLess(x, y))
  }

  lemma {:induction false} WithoutMemberIs(z: ZSet, id: string)
    ensures forall x :: x in WithoutMember(z, id) <==> x in z && x.id != id
    ensures |WithoutMember(z, id)| <= |z|
    ensures (forall x :: x in z ==> x.id != id) ==> WithoutMember(z, id) == z
  {
    if |z| > 0 {
      WithoutMemberIs(z[1..], id);
      assert z == [z[0]] + z[1..];
    }
  }

  lemma {:induction false} WithoutMemberSorted(z: ZSet, id: string)
    requires Sorted(EntryLess, z) && forall i, j :: 0 <= i < j < |z| ==> z[i] != z[j]
    ensures var r := WithoutMember(z, id);
            Sorted(EntryLess, r) && forall i, j :: 0 <= i < j < |r| ==> r[i] != r[j]
  {
    if |z| > 0 {
      assert z == [z[0]] + z[1..];
      WithoutMemberSorted(z[1..], id);
      WithoutMemberIs(z[1..], id);
      var rest := WithoutMember(z[1..], id);
      if z[0].id != id {
        var r := [z[0]] + rest;
        forall i, j | 0 <= i < j < |r| ensures !EntryLess(r[j], r[i]) && r[i] != r[j] {
          if i == 0 {
            assert r[j] in rest;
            var m :| 0 <= m < |z[1..]| && z[1..][m] == r[j];
            assert z[m + 1] == r[j];
          }
        }
      }
    }
  }

  /** When ids are unique, a member already present is the entry itself and its set comes back unchanged. */
  lemma {:induction false} ReinsertSame(z: ZSet, entry: Entry)
    requires Sorted(EntryLess, z) && (forall i, j :: 0 <= i < j < |z| ==> z[i] != z[j])
    requires entry in z && forall x :: x in z && x.id == entry.id ==> x == entry
    ensures ZAdd(z, entry) == z
  {
    EntryOrder();
    var rest := WithoutMember(z, entry.id);
    WithoutMemberSorted(z, entry.id);
    WithoutMemberIs(z, entry.id);
    InsertSorted(EntryLess, rest, entry);
    WithoutMemberCount(z, entry);
    InsertKeeps(EntryLess, rest, entry);
    SortedUnique(EntryLess, ZAdd(z, entry), z);
  }

  lemma {:induction false} WithoutMemberCount(z: ZSet, entry: Entry)
    requires (forall i, j :: 0 <= i < j < |z| ==> z[i] != z[j])
    requires entry in z && forall x :: x in z && x.id == entry.id ==> x == entry
    ensures multiset(WithoutMember(z, entry.id)) + multiset{entry} == multiset(z)
  {
    assert z == [z[0]] + z[1..];
    if z[0] == entry {
      WithoutMemberIs(z[1..], entry.id);
    } else {
      WithoutMemberCount(z[1..], entry);
    }
  }

  /** One more entry keeps the sorted set at the top of everything it was given. */
  lemma AddTrimKeepsTopK(z: ZSet, entries: set<Entry>, entry: Entry, k: nat)
    requires k > 0 && IsTopK(z, entries, k) && UniqueIds(entries + {entry})
    ensures IsTopK(AddTrim(z, entry, k), entries + {entry}, k)
  {
    EntryOrder();
    if entry in z {
      ReinsertSame(z, entry);
      assert entries + {entry} == entries;
    } else {
      WithoutMemberIs(z, entry.id);
      assert WithoutMember(z, entry.id) == z;
      var full := ZAdd(z, entry);
      InsertKeeps(EntryLess, z, entry);
      InsertSorted(EntryLess, z, entry);
      InsertDistinct(z, entry);
      if |full| > k {
        TrimKeepsTopK(z, entries, entry, full, k);
      }
    }
  }

  lemma InsertDistinct(z: ZSet, entry: Entry)
    requires entry !in z && forall i, j :: 0 <= i < j < |z| ==> z[i] != z[j]
    ensures var r := Insert(EntryLess, z, entry); forall i, j :: 0 <= i < j < |r| ==> r[i] != r[j]
    decreases |z|
  {
    if |z| > 0 {
      assert z == [z[0]] + z[1..];
      if !EntryLess(entry, z[0]) {
        InsertDistinct(z[1..], entry);
        InsertKeeps(EntryLess, z[1..], entry);
        var rest := Insert(EntryLess, z[1..], entry);
        forall j | 0 <= j < |rest| ensures rest[j] != z[0] {
          assert rest[j] in rest;
        }
      }
    }
  }

  lemma TrimKeepsTopK(z: ZSet, entries: set<Entry>, entry: Entry, full: ZSet, k: nat)
    requires k > 0 && IsTopK(z, entries, k) && entry !in z && |z| == k
    requires full == Insert(EntryLess, z, entry) && |full| == k + 1
    requires Sorted(EntryLess, full) && forall i, j :: 0 <= i < j < |full| ==> full[i] != full[j]
    requires forall y :: y in full <==> y == entry || y in z
    ensures IsTopK(full[1..], entries + {entry}, k)
  {
    EntryOrder();
    var r := full[1..];
    forall i | 1 <= i < |full| ensures EntryLess(full[0], full[i]) {
      assert !EntryLess(full[i], full[0]) && full[i] != full[0];
    }
    forall x | x in entries + {entry} && x !in r
      ensures forall y :: y in r ==> EntryLess(x, y)
    {
      assert full == [full[0]] + r;
      forall y | y in r ensures EntryLess(x, y) {
        var i :| 0 <= i < |r| && r[i] == y;
        assert y == full[i + 1];
        if x != full[0] {
          assert x !in full && x in entries && x !in z;
          if y == entry {
            assert full[0] in z;
          }
        }
      }
    }
    forall x | x in r ensures x in entries + {entry} {
      assert x in full;
    }
  }

  // ---------------------------------------------------------------- members that are scored again

  predicate UniqueMembers(z: ZSet) {
    forall i, j :: 0 <= i < j < |z| ==> z[i].id != z[j].id
  }

  predicate HasMember(z: ZSet, id: string) {
    exists y :: y in z && y.id == id
  }

  /** A sorted set holds each id once, in rank order. */
  ghost predicate Listed(z: ZSet) {
    Sorted(EntryLess, z) && UniqueMembers(z)
  }

  /** The last score of every id, after one more. */
  function Rescored(entries: set<Entry>, entry: Entry): set<Entry> {
    (set x | x in entries && x.id != entry.id) + {entry}
  }

  /** A listed member is scored below an entry that trimming has dropped. */
  ghost predicate Buries(z: ZSet, entries: set<Entry>, entry: Entry) {
    && HasMember(z, entry.id)
    && (exists x :: x in entries && x !in z && x.id != entry.id && EntryLess(entry, x))
  }

  lemma {:induction false} WithoutMemberIds(z: ZSet, id: string)
    requires UniqueMembers(z)
    ensures var r := WithoutMember(z, id);
            UniqueMembers(r) && |r| == if HasMember(z, id) then |z| - 1 else |z|
  {
    if |z| > 0 {
      var rest := z[1..];
      assert z == [z[0]] + rest;
      forall i, j | 0 <= i < j < |rest| ensures rest[i].id != rest[j].id {
        assert rest[i] == z[i + 1] && rest[j] == z[j + 1];
      }
      forall y | y in rest ensures y.id != z[0].id {
        var i :| 0 <= i < |rest| && rest[i] == y;
        assert y == z[i + 1];
      }
      WithoutMemberIds(rest, id);
      WithoutMemberIs(rest, id);
      var w := WithoutMember(rest, id);
      if z[0].id == id {
        assert w == rest && z[0] in z;
      } else {
        assert HasMember(z, id) <==> HasMember(rest, id);
        forall j | 0 <= j < |w| ensures w[j].id != z[0].id {
          assert w[j] in w;
        }
      }
    }
  }

  lemma {:induction false} InsertListed(z: ZSet, entry: Entry)
    requires Listed(z) && forall y :: y in z ==> y.id != entry.id
    ensures Listed(Insert(EntryLess, z, entry))
  {
    EntryOrder();
    InsertSorted(EntryLess, z, entry);
    InsertDistinctIds(z, entry);
  }

  lemma {:induction false} InsertDistinctIds(z: ZSet, entry: Entry)
    requires UniqueMembers(z) && forall y :: y in z ==> y.id != entry.id
    ensures UniqueMembers(Insert(EntryLess, z, entry))
    decreases |z|
  {
    if |z| > 0 {
      assert z == [z[0]] + z[1..];
      if !EntryLess(entry, z[0]) {
        InsertDistinctIds(z[1..], entry);
        InsertKeeps(EntryLess, z[1..], entry);
        var rest := Insert(EntryLess, z[1..], entry);
        forall j | 0 <= j < |rest| ensures rest[j].id != z[0].id {
          assert rest[j] in rest;
        }
      }
    }
  }

  /** ZADD yields a sorted set with the entry in place of any former score of its member. */
  lemma ZAddIs(z: ZSet, entry: Entry)
    requires Listed(z)
    ensures var r := ZAdd(z, entry);
            && Listed(r) && (forall x :: x in r <==> x == entry || (x in z && x.id != entry.id))
            && |r| == if HasMember(z, entry.id) then |z| else |z| + 1
  {
    WithoutMemberIs(z, entry.id);
    WithoutMemberIds(z, entry.id);
    WithoutMemberSorted(z, entry.id);
    assert forall i, j :: 0 <= i < j < |z| ==> z[i].id != z[j].id;
    InsertListed(WithoutMember(z, entry.id), entry);
    InsertKeeps(EntryLess, WithoutMember(z, entry.id), entry);
  }

  lemma TrimListed(z: ZSet, k: nat)
    requires Listed(z)
    ensures Listed(Trim(z, k))
  {
    var r := Trim(z, k);
    var n := |z| - |r|;
    forall i, j | 0 <= i < j < |r| ensures !EntryLess(r[j], r[i]) && r[i].id != r[j].id {
      assert r[i] == z[n + i] && r[j] == z[n + j];
    }
  }

  lemma AddTrimListed(z: ZSet, entry: Entry, k: nat)
    requires Listed(z)
    ensures Listed(AddTrim(z, entry, k))
  {
    ZAddIs(z, entry);
    TrimListed(ZAdd(z, entry), k);
  }

  /** What is trimmed away lies below all that stays. */
  lemma TrimmedAway(full: ZSet, entry: Entry, k: nat)
    requires Listed(full) && entry in full && entry !in Trim(full, k)
    ensures |Trim(full, k)| == k
    ensures forall y :: y in Trim(full, k) ==> y.id != entry.id && EntryLess(entry, y)
  {
    EntryOrder();
    var r := Trim(full, k);
    var n := |full| - |r|;
    forall j | n <= j < |full| ensures full[j] in r {
      assert full[j] == r[j - n];
    }
    var i :| 0 <= i < |full| && full[i] == entry;
    assert i < n;
    forall y | y in r ensures y.id != entry.id && EntryLess(entry, y) {
      var j :| 0 <= j < |r| && r[j] == y;
      assert y == full[n + j] && !EntryLess(full[n + j], full[i]);
      assert full[n + j].id != full[i].id;
    }
  }

  /** The entry takes the place of any former score of its id; one is left out only below as many others, by score
      and then id, as there is room for. */
  ghost predicate IsAdded(z: ZSet, z': ZSet, mine: Entry, k: nat) {
    && Listed(z') && |z'| <= k
    && (forall x :: x in z' ==> x == mine || (x in z && x.id != mine.id))
    && (forall x, y :: (x == mine || (x in z && x.id != mine.id)) && x !in z' && y in z' ==>
          x.score < y.score || (x.score == y.score && StringLess(x.id, y.id)))
    && (forall x :: (x == mine || (x in z && x.id != mine.id)) && x !in z' ==> |z'| == k)
  }

  lemma AddTrimIs(z: ZSet, entry: Entry, k: nat)
    requires Listed(z)
    ensures IsAdded(z, AddTrim(z, entry, k), entry, k)
  {
    AddTrimListed(z, entry, k);
    ZAddIs(z, entry);
    var full := ZAdd(z, entry);
    hide Listed, ZAdd;
    forall x | x in full && x !in Trim(full, k)
      ensures |Trim(full, k)| == k && forall y :: y in Trim(full, k) ==> EntryLess(x, y)
    {
      TrimmedAway(full, x, k);
    }
  }

  lemma AddsAtFront(z: ZSet, entry: Entry, k: nat)
    requires |z| == k && forall y :: y in z ==> y.id != entry.id && EntryLess(entry, y)
    ensures AddTrim(z, entry, k) == z
  {
    WithoutMemberIs(z, entry.id);
    assert |z| > 0 ==> z[0] in z;
    assert ZAdd(z, entry) == [entry] + z;
  }

  /** Adding the same entry again changes nothing, whether it was kept or trimmed away at once. */
  lemma AddTrimTwice(z: ZSet, entry: Entry, k: nat)
    requires Listed(z)
    ensures AddTrim(AddTrim(z, entry, k), entry, k) == AddTrim(z, entry, k)
  {
    var r := AddTrim(z, entry, k);
    ZAddIs(z, entry);
    if entry in r {
      AddTrimListed(z, entry, k);
      MemberIs(r, entry);
      ReinsertSame(r, entry);
    } else {
      TrimmedAway(ZAdd(z, entry), entry, k);
      AddsAtFront(r, entry, k);
    }
  }

  lemma MemberIs(z: ZSet, entry: Entry)
    requires Listed(z) && entry in z
    ensures forall x :: x in z && x.id == entry.id ==> x == entry
    ensures forall i, j :: 0 <= i < j < |z| ==> z[i] != z[j]
  {
    forall i, j | 0 <= i < j < |z| ensures z[i] != z[j] {
      assert z[i].id != z[j].id;
    }
  }

  /** One more score keeps the sorted set at the top of the last scores if and only if it does not move a
      listed member below an entry that was trimmed away. */
  lemma AddTrimExactly(z: ZSet, entries: set<Entry>, entry: Entry, k: nat)
    requires Listed(z) && UniqueIds(entries) && IsTopK(z, entries, k)
    ensures IsTopK(AddTrim(z, entry, k), Rescored(entries, entry), k) <==> !Buries(z, entries, entry)
  {
    if HasMember(z, entry.id) {
      RescoredTop(z, entries, entry, k);
    } else if k > 0 {
      var others := set x | x in entries && x.id != entry.id;
      assert IsTopK(z, others, k);
      AddTrimKeepsTopK(z, others, entry, k);
    }
  }

  lemma RescoredTop(z: ZSet, entries: set<Entry>, entry: Entry, k: nat)
    requires Listed(z) && UniqueIds(entries) && IsTopK(z, entries, k)
    requires HasMember(z, entry.id)
    ensures IsTopK(AddTrim(z, entry, k), Rescored(entries, entry), k) <==> !Buries(z, entries, entry)
  {
    var r, after := AddTrim(z, entry, k), Rescored(entries, entry);
    ZAddIs(z, entry);
    EntryOrder();
    assert r == ZAdd(z, entry) && |r| == |z|;
    forall x ensures x in after && x !in r <==> x in entries && x !in z && x.id != entry.id {
    }
    if Buries(z, entries, entry) {
      var x :| x in entries && x !in z && x.id != entry.id && EntryLess(entry, x);
      assert x in after && x !in r && entry in r;
      assert !EntryLess(x, entry);
    } else {
      forall x, y | x in after && x !in r && y in r ensures |r| == k && EntryLess(x, y) {
        assert x in entries && x !in z && x.id != entry.id;
      }
      forall x | x in after && x !in r ensures |r| == k {
        assert x in entries && x !in z;
      }
      forall i, j | 0 <= i < j < |r| ensures r[i] != r[j] {
        assert r[i].id != r[j].id;
      }
      forall x | x in r ensures x in after {
      }
    }
  }

  /** Scoring a member as it is scored already buries nothing. */
  lemma SameScoreBuries(z: ZSet, entries: set<Entry>, entry: Entry, k: nat)
    requires IsTopK(z, entries, k) && UniqueIds(entries + {entry})
    ensures !Buries(z, entries, entry)
  {
    EntryOrder();
    if HasMember(z, entry.id) {
      var y :| y in z && y.id == entry.id;
      forall x | x in entries && x !in z ensures !EntryLess(entry, x) {
        assert EntryLess(x, y);
      }
    }
  }

  lemma AddFirst(a: Entry)
    ensures AddTrim([], a, 1) == [a]
  {
  }

  lemma AddBelow(a: Entry, b: Entry)
    requires b.id != a.id && EntryLess(b, a)
    ensures AddTrim([a], b, 1) == [a]
  {
    WithoutMemberIs([a], b.id);
    assert ZAdd([a], b) == [b, a];
  }

  lemma AddAgain(a: Entry, c: Entry)
    requires c.id == a.id
    ensures AddTrim([a], c, 1) == [c]
  {
    assert [a][1..] == [];
    assert WithoutMember([a], c.id) == [];
  }

  /** With room for one, a member scored down stays although an entry trimmed away before is higher. */
  lemma Rescoring(a: Entry, b: Entry, c: Entry)
    requires a.id == c.id != b.id && EntryLess(c, b) && EntryLess(b, a)
    ensures AddTrim(AddTrim(AddTrim([], a, 1), b, 1), c, 1) == [c]
    ensures Rescored(Rescored(Rescored({}, a), b), c) == {b, c}
    ensures !IsTopK([c], {b, c}, 1)
  {
    AddFirst(a);
    AddBelow(a, b);
    AddAgain(a, c);
    EntryOrder();
    assert b !in [c] && c in [c];
  }
}
