/** The LRU cache of topic matchers: a map in insertion order whose entries move to the end when used. */
module MatcherCache {

  type Key = string

  function Without(keys: seq<Key>, key: Key): seq<Key> {
    if |keys| == 0 then []
    else Without(keys[..|keys| - 1], key) + (if keys[|keys| - 1] == key then [] else [keys[|keys| - 1]])
  }

  /** The distinct keys of a history of calls, least recently used first. */
  function ByLastUse(history: seq<Key>): seq<Key> {
    if |history| == 0 then []
    else Without(ByLastUse(history[..|history| - 1]), history[|history| - 1]) + [history[|history| - 1]]
  }

  function LastN(keys: seq<Key>, n: nat): seq<Key> {
    if |keys| <= n then keys else keys[|keys| - n..]
  }

  /** The last `n` of some keys, or all of them: as many as there may be, off the end. */
  lemma LastNIs(keys: seq<Key>, n: nat)
    ensures var r := LastN(keys, n);
            && |r| == (if |keys| < n then |keys| else n)
            && r == keys[|keys| - |r|..]
  {
  }

  // ---------------------------------------------------------------- what the order means

  function LastUse(history: seq<Key>, key: Key): (i: int)
    ensures -1 <= i < |history|
    ensures i >= 0 ==> history[i] == key
    ensures forall j :: i < j < |history| ==> history[j] != key
  {
    if |history| == 0 then -1
    else if history[|history| - 1] == key then |history| - 1
    else LastUse(history[..|history| - 1], key)
  }

  predicate Distinct(keys: seq<Key>) {
    forall i, j :: 0 <= i < j < |keys| ==> keys[i] != keys[j]
  }

  /** Keys in the order of their last use. */
  predicate Ordered(history: seq<Key>, keys: seq<Key>) {
    forall i, j :: 0 <= i < j < |keys| ==> LastUse(history, keys[i]) < LastUse(history, keys[j])
  }

  lemma {:induction false} WithoutKeeps(keys: seq<Key>, key: Key)
    requires Distinct(keys)
    ensures var r := Without(keys, key);
            && Distinct(r) && (forall k :: k in r <==> k in keys && k != key)
            && |r| == (if key in keys then |keys| - 1 else |keys|)
            && (key !in keys ==> r == keys)
  {
    if |keys| > 0 {
      var front, last := keys[..|keys| - 1], keys[|keys| - 1];
      WithoutKeeps(front, key);
      assert keys == front + [last];
      assert last !in front;
      var r, rest := Without(keys, key), Without(front, key);
      forall i, j | 0 <= i < j < |r| ensures r[i] != r[j] {
        assert r[i] == rest[i] && rest[i] in rest;
      }
    }
  }

  lemma {:induction false} WithoutKeepsOrder(history: seq<Key>, keys: seq<Key>, key: Key)
    requires Ordered(history, keys)
    ensures Ordered(history, Without(keys, key))
    ensures forall k :: k in Without(keys, key) ==> k in keys
  {
    if |keys| > 0 {
      var front, last := keys[..|keys| - 1], keys[|keys| - 1];
      assert keys == front + [last];
      WithoutKeepsOrder(history, front, key);
      if last != key {
        AppendLatest(history, Without(front, key), front, last);
      }
    }
  }

  lemma AppendLatest(history: seq<Key>, some: seq<Key>, front: seq<Key>, last: Key)
    requires Ordered(history, some) && Ordered(history, front + [last])
    requires forall k :: k in some ==> k in front
    ensures Ordered(history, some + [last])
  {
    var r, all := some + [last], front + [last];
    forall i, j | 0 <= i < j < |r| ensures LastUse(history, r[i]) < LastUse(history, r[j]) {
      if j == |some| {
        assert some[i] in front;
        var m :| 0 <= m < |front| && front[m] == some[i];
        assert all[m] == some[i] && all[|front|] == last;
      }
    }
  }

  /** One more use appended to the history makes its key the latest. */
  lemma AppendKeepsOrder(front: seq<Key>, last: Key, rest: seq<Key>)
    requires Ordered(front, rest)
    requires last !in rest
    ensures Ordered(front + [last], rest + [last])
  {
    var history, r := front + [last], rest + [last];
    assert history[..|front|] == front;
    forall i | 0 <= i < |rest| ensures LastUse(history, rest[i]) == LastUse(front, rest[i]) {
    }
  }

  /** `ByLastUse` holds exactly the keys of the history, each once, ordered by their last use. */
  lemma {:induction false} ByLastUseIs(history: seq<Key>)
    ensures Distinct(ByLastUse(history)) && Ordered(history, ByLastUse(history))
    ensures forall k :: k in ByLastUse(history) <==> k in history
  {
    if |history| > 0 {
      var front, last := history[..|history| - 1], history[|history| - 1];
      ByLastUseIs(front);
      assert history == front + [last];
      var before := ByLastUse(front);
      WithoutKeeps(before, last);
      WithoutKeepsOrder(front, before, last);
      var rest := Without(before, last);
      AppendKeepsOrder(front, last, rest);
    }
  }

  // ---------------------------------------------------------------- the cache

  class LruCache<V(0)> {
    const maxEntries: nat
    var keys: seq<Key>             // insertion order, oldest first
    var values: map<Key, V>
    ghost var history: seq<Key>

    /** The map lists each of its keys once. */
    ghost predicate WellFormed()
      reads this
    {
      maxEntries > 0 && Distinct(keys) && |keys| <= maxEntries && forall k :: k in values <==> k in keys
    }

    /** For a deterministic `build`: the cache holds the last `maxEntries` distinct keys with their values. */
    ghost predicate Valid(build: Key -> V)
      reads this
    {
      && WellFormed()
      && keys == LastN(ByLastUse(history), maxEntries)
      && (forall k :: k in values ==> values[k] == build(k))
    }

    constructor (maxEntries: nat)
      requires maxEntries > 0
      ensures forall build :: Valid(build)
      ensures history == [] && this.maxEntries == maxEntries
    {
      this.maxEntries := maxEntries;
      keys, values, history := [], map[], [];
    }

    method Resolve(key: Key, build: Key -> V) returns (matcher: V)
      requires Valid(build)
      modifies this
      ensures Valid(build) && history == old(history) + [key]
      ensures matcher == build(key)
    {
      if key in values {
        matcher := values[key];
        Refresh(key);
      } else {
        matcher := build(key);
        Add(key, matcher);
      }
      assert keys == LastN(ByLastUse(history + [key]), maxEntries) by {
        UseMovesToEnd(history, key, maxEntries);
      }
      history := history + [key];
    }

    /** Deleting and setting an entry again moves it to the end of the insertion order. */
    method Refresh(key: Key)
      requires WellFormed() && key in keys
      modifies this`keys
      ensures WellFormed() && keys == AfterUse(old(keys), key, maxEntries)
    {
      WithoutKeeps(keys, key);
      keys := Without(keys, key) + [key];
    }

    method Add(key: Key, value: V)
      requires WellFormed() && key !in keys
      modifies this`keys, this`values
      ensures WellFormed() && keys == AfterUse(old(keys), key, maxEntries)
      ensures forall k :: k in values ==> if k == key then values[k] == value else k in old(values) && values[k] == old(values)[k]
    {
      keys := keys + [key];
      values := values[key := value];
      if |keys| > maxEntries {
        var oldest := keys[0];
        RestOfDistinct(keys);
        keys := keys[1..];
        values := map k | k in values && k != oldest :: values[k];
      }
    }
  }

  lemma RestOfDistinct(keys: seq<Key>)
    requires Distinct(keys) && |keys| > 0
    ensures forall k :: k in keys[1..] <==> k in keys && k != keys[0]
  {
    assert keys == [keys[0]] + keys[1..];
    forall k | k in keys[1..] ensures k != keys[0] {
      var i :| 0 <= i < |keys[1..]| && keys[1..][i] == k;
      assert keys[i + 1] == k;
    }
  }

  lemma LastNDistinct(keys: seq<Key>, n: nat)
    requires Distinct(keys)
    ensures Distinct(LastN(keys, n))
  {
  }

  lemma {:induction false} WithoutConcat(a: seq<Key>, b: seq<Key>, key: Key)
    ensures Without(a + b, key) == Without(a, key) + Without(b, key)
  {
    if |b| == 0 {
      assert a + b == a;
    } else {
      var front := b[..|b| - 1];
      assert (a + b)[..|a + b| - 1] == a + front;
      WithoutConcat(a, front, key);
    }
  }

  /** The last `n` distinct keys after one more use: a key among them moves to the end; any other joins at
      the end and pushes out the oldest when there are too many. */
  function AfterUse(kept: seq<Key>, key: Key, n: nat): seq<Key> {
    if key in kept then Without(kept, key) + [key]
    else if |kept| + 1 <= n then kept + [key]
    else (kept + [key])[1..]
  }

  lemma LastNOfConcat(a: seq<Key>, b: seq<Key>, n: nat)
    requires |b| == n || (|b| < n && |a| == 0)
    ensures LastN(a + b, n) == b
  {
    assert (a + b)[|a|..] == b;
  }

  lemma SuffixMoved(dropped: seq<Key>, others: seq<Key>, key: Key, n: nat)
    requires |others| + 1 == n || (|others| + 1 < n && |dropped| == 0)
    ensures LastN(dropped + others + [key], n) == others + [key]
  {
    LastNOfConcat(dropped, others + [key], n);
    assert dropped + others + [key] == dropped + (others + [key]);
  }

  lemma SuffixPushed(dropped: seq<Key>, kept: seq<Key>, key: Key, n: nat)
    requires |kept| == n > 0
    ensures LastN(dropped + kept + [key], n) == (kept + [key])[1..]
  {
    var all := dropped + kept + [key];
    assert all == dropped + (kept + [key]);
    assert all[|dropped| + 1..] == (kept + [key])[1..];
  }

  lemma SuffixAfterUse(dropped: seq<Key>, kept: seq<Key>, key: Key, n: nat)
    requires Distinct(kept) && |kept| <= n && n > 0
    requires |kept| < n ==> |dropped| == 0
    ensures LastN(dropped + Without(kept, key) + [key], n) == AfterUse(kept, key, n)
  {
    WithoutKeeps(kept, key);
    if key in kept || |kept| < n {
      SuffixMoved(dropped, Without(kept, key), key, n);
    } else {
      SuffixPushed(dropped, kept, key, n);
    }
  }

  lemma UseMovesToEnd(history: seq<Key>, key: Key, n: nat)
    requires n > 0
    ensures var kept := LastN(ByLastUse(history), n);
            && Distinct(kept)
            && LastN(ByLastUse(history + [key]), n) == AfterUse(kept, key, n)
  {
    var all := ByLastUse(history);
    var kept := LastN(all, n);
    var dropped := all[..|all| - |kept|];
    assert all == dropped + kept;
    assert ByLastUse(history + [key]) == Without(all, key) + [key] by {
      assert (history + [key])[..|history|] == history;
    }
    WithoutConcat(dropped, kept, key);
    ByLastUseIs(history);
    LastNDistinct(all, n);
    SuffixAfterUse(Without(dropped, key), kept, key, n);
  }

  /** The keys whose last use came after that of a key. */
  function UsedAfter(history: seq<Key>, key: Key): set<Key> {
    set k | k in history && LastUse(history, k) > LastUse(history, key)
  }

  /** The cache holds a key if and only if it was used, and fewer other keys than fit were used after its last use. */
  lemma HeldIffRecent(history: seq<Key>, key: Key, n: nat)
    requires n > 0
    ensures key in LastN(ByLastUse(history), n) <==> key in history && |UsedAfter(history, key)| < n
  {
    var all := ByLastUse(history);
    ByLastUseIs(history);
    LastNDistinct(all, n);
    if key in history {
      var i :| 0 <= i < |all| && all[i] == key;
      LaterOnes(history, all, i);
      var kept := LastN(all, n);
      assert kept == all[|all| - |kept|..];
      if i >= |all| - |kept| {
        assert kept[i - (|all| - |kept|)] == key;
      }
      assert forall j :: 0 <= j < |kept| ==> kept[j] == all[j + |all| - |kept|];
    }
  }

  lemma LaterOnes(history: seq<Key>, all: seq<Key>, i: nat)
    requires Distinct(all) && Ordered(history, all) && (forall k :: k in all <==> k in history) && i < |all|
    ensures |UsedAfter(history, all[i])| == |all| - 1 - i
  {
    var later := all[i + 1..];
    forall k ensures k in UsedAfter(history, all[i]) <==> k in later {
      if k in later {
        var j :| 0 <= j < |later| && later[j] == k;
        assert all[i + 1 + j] == k;
      }
      if k in UsedAfter(history, all[i]) {
        var j :| 0 <= j < |all| && all[j] == k;
        assert j > i;
        assert later[j - i - 1] == k;
      }
    }
    assert UsedAfter(history, all[i]) == set k | k in later;
    SizeOfDistinct(later);
  }

  lemma {:induction false} SizeOfDistinct(keys: seq<Key>)
    requires Distinct(keys)
    ensures |set k | k in keys| == |keys|
  {
    if |keys| > 0 {
      var front, last := keys[..|keys| - 1], keys[|keys| - 1];
      SizeOfDistinct(front);
      assert keys == front + [last];
      assert (set k | k in keys) == (set k | k in front) + {last};
      assert last !in front;
    }
  }
}
