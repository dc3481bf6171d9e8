/** The LRU cache of exchange connectors: what leaves it is released, and only that. */
module ConnectorCache {
  import opened Collections
  import opened Wrappers

  type Conn = int

  datatype CacheEntry = CacheEntry(conn: Conn, createdAt: int, lastUsed: int)

  /** The cache with its history: the connectors released so far, and all that were ever put in. */
  datatype State = State(entries: map<string, CacheEntry>, released: multiset<Conn>, ever: set<Conn>)

  datatype Config = Config(maxSize: nat, ttl: int)

  datatype Op = Get(key: string, now: int) | Put(key: string, conn: Conn, now: int) | Cleanup(now: int)

  const EMPTY := State(map[], multiset{}, {})

  predicate Expired(c: Config, e: CacheEntry, now: int) {
    now - e.createdAt > c.ttl
  }

  /** Takes a key out and releases its connector. */
  function Drop(s: State, key: string): State
    requires key in s.entries
  {
    s.(entries := s.entries - {key}, released := s.released + multiset{s.entries[key].conn})
  }

  // ---------------------------------------------------------------- the operations, each as one step

  function GetStep(c: Config, s: State, key: string, now: int): (State, Option<Conn>) {
    if key !in s.entries then (s, None)
    else if Expired(c, s.entries[key], now) then (Drop(s, key), None)
    else (s.(entries := s.entries[key := s.entries[key].(lastUsed := now)]), Some(s.entries[key].conn))
  }

  ghost predicate Oldest(entries: map<string, CacheEntry>, key: string, among: set<string>)
    requires among <= entries.Keys
  {
    key in entries && forall k :: k in among ==> entries[key].lastUsed <= entries[k].lastUsed
  }

  /** The key evicted to make room: a least recently used one at capacity, none below it. */
  ghost predicate Victim(c: Config, s: State, victim: Option<string>) {
    if |s.entries| < c.maxSize || s.entries == map[] then victim.None?
    else victim.Some? && Oldest(s.entries, victim.value, s.entries.Keys)
  }

  function Evicted(s: State, victim: Option<string>): State
    requires victim.Some? ==> victim.value in s.entries
  {
    if victim.Some? then Drop(s, victim.value) else s
  }

  /** Stores a connector, releasing another one it replaces. */
  function Stored(s: State, key: string, conn: Conn, now: int): State {
    var released := if key in s.entries && s.entries[key].conn != conn then s.released + multiset{s.entries[key].conn} else s.released;
    State(s.entries[key := CacheEntry(conn, now, now)], released, s.ever + {conn})
  }

  /** A Put that evicts the given key, if any. */
  ghost predicate PutBy(c: Config, s: State, key: string, conn: Conn, now: int, s': State, victim: Option<string>) {
    Victim(c, s, victim) && s' == Stored(Evicted(s, victim), key, conn, now)
  }

  ghost predicate PutStep(c: Config, s: State, key: string, conn: Conn, now: int, s': State) {
    exists victim :: PutBy(c, s, key, conn, now, s', victim)
  }

  function DropAll(s: State, keys: seq<string>): State {
    if keys == [] then s
    else
      var before, key := DropAll(s, keys[..|keys| - 1]), keys[|keys| - 1];
      if key in before.entries then Drop(before, key) else before
  }

  /** A listing of the expired keys, each once. */
  ghost predicate ExpiredKeys(c: Config, s: State, now: int, keys: seq<string>) {
    && (forall i, j :: 0 <= i < j < |keys| ==> keys[i] != keys[j])
    && (forall k :: k in keys <==> k in s.entries && Expired(c, s.entries[k], now))
  }

  /** Drops every expired entry, in some order. */
  ghost predicate CleanupStep(c: Config, s: State, now: int, s': State) {
    exists keys :: ExpiredKeys(c, s, now, keys) && s' == DropAll(s, keys)
  }

  ghost predicate Next(c: Config, s: State, op: Op, s': State) {
    match op
    case Get(key, now) => s' == GetStep(c, s, key, now).0
    case Put(key, conn, now) => PutStep(c, s, key, conn, now, s')
    case Cleanup(now) => CleanupStep(c, s, now, s')
  }

  // ---------------------------------------------------------------- the cache itself

  class Cache {
    const config: Config
    var entries: map<string, CacheEntry>
    var hits: nat
    var misses: nat
    var evictions: nat
    ghost var released: multiset<Conn>
    ghost var ever: set<Conn>

    ghost function View(): State
      reads this
    {
      State(entries, released, ever)
    }

    constructor (config: Config)
      ensures View() == EMPTY && this.config == config
    {
      this.config := config;
      entries, hits, misses, evictions := map[], 0, 0, 0;
      released, ever := multiset{}, {};
    }

    method GetConn(key: string, now: int) returns (r: Option<Conn>)
      modifies this
      ensures (View(), r) == GetStep(config, old(View()), key, now)
      ensures hits == old(hits) + (if r.Some? then 1 else 0) && misses == old(misses) + (if r.None? then 1 else 0)
      ensures evictions == old(evictions) + |old(entries)| - |entries|
    {
      if key !in entries {
        misses := misses + 1;
        return None;
      }
      var e := entries[key];
      if Expired(config, e, now) {
        entries := entries - {key};
        misses, evictions := misses + 1, evictions + 1;
        released := released + multiset{e.conn};
        assert old(entries.Keys) == entries.Keys + {key};
        return None;
      }
      assert entries.Keys == entries.Keys + {key};
      entries := entries[key := e.(lastUsed := now)];
      hits := hits + 1;
      return Some(e.conn);
    }

    /** The key to evict, looking at the entries in any order. */
    method FindOldest() returns (victim: Option<string>)
      ensures Victim(config, View(), victim)
    {
      if |entries| < config.maxSize {
        return None;
      }
      var left := entries.Keys;
      victim := None;
      while left != {}
        invariant left <= entries.Keys
        invariant victim.None? ==> left == entries.Keys
        invariant victim.Some? ==> Oldest(entries, victim.value, entries.Keys - left)
        decreases left
      {
        var k :| k in left;
        if victim.None? || entries[k].lastUsed < entries[victim.value].lastUsed {
          victim := Some(k);
        }
        left := left - {k};
      }
      if victim.None? {
        assert entries.Keys == {};
        assert entries == map[];
      }
    }

    method PutConn(key: string, conn: Conn, now: int)
      modifies this
      ensures PutStep(config, old(View()), key, conn, now, View())
      ensures hits == old(hits) && misses == old(misses)
      ensures evictions == old(evictions) + if |old(entries)| >= config.maxSize && old(entries) != map[] then 1 else 0
    {
      var victim := FindOldest();
      if victim.Some? {
        released := released + multiset{entries[victim.value].conn};
        entries := entries - {victim.value};
        evictions := evictions + 1;
      }
      assert View() == Evicted(old(View()), victim);
      if key in entries && entries[key].conn != conn {
        released := released + multiset{entries[key].conn};
      }
      entries := entries[key := CacheEntry(conn, now, now)];
      ever := ever + {conn};
      assert PutBy(config, old(View()), key, conn, now, View(), victim);
    }

    method DropEntry(key: string)
      requires key in entries
      modifies this
      ensures View() == Drop(old(View()), key)
      ensures hits == old(hits) && misses == old(misses) && evictions == old(evictions) + 1
    {
      released := released + multiset{entries[key].conn};
      entries := entries - {key};
      evictions := evictions + 1;
    }

    method CleanUp(now: int)
      modifies this
      ensures CleanupStep(config, old(View()), now, View())
      ensures hits == old(hits) && misses == old(misses) && evictions == old(evictions) + |old(entries)| - |entries|
    {
      var left := entries.Keys;
      ghost var keys: seq<string> := [];
      ghost var was := View();
      while left != {}
        invariant Sweeping(config, was, now, View(), left, keys)
        invariant hits == old(hits) && misses == old(misses) && evictions == old(evictions) + |keys|
        decreases left
      {
        var k :| k in left;
        if Expired(config, entries[k], now) {
          SweepDrops(config, was, now, View(), left, keys, k);
          keys := keys + [k];
          DropEntry(k);
        } else {
          SweepKeeps(config, was, now, View(), left, keys, k);
        }
        left := left - {k};
      }
      SweepCounts(config, was, now, View(), keys);
    }
  }

  /** Part of a cleanup: the keys left to look at are still there, and of the others exactly the expired are gone. */
  ghost predicate Sweeping(c: Config, was: State, now: int, s: State, left: set<string>, keys: seq<string>) {
    && s == DropAll(was, keys) && left <= s.entries.Keys
    && (forall k :: k in s.entries ==> k in was.entries && s.entries[k] == was.entries[k])
    && (forall k :: k in keys <==> k in was.entries && k !in left && Expired(c, was.entries[k], now))
    && (forall i, j :: 0 <= i < j < |keys| ==> keys[i] != keys[j])
  }

  lemma SweepDrops(c: Config, was: State, now: int, s: State, left: set<string>, keys: seq<string>, k: string)
    requires Sweeping(c, was, now, s, left, keys) && k in left && Expired(c, s.entries[k], now)
    ensures Sweeping(c, was, now, Drop(s, k), left - {k}, keys + [k])
  {
    assert (keys + [k])[..|keys|] == keys;
    assert forall x :: x in keys + [k] <==> x in keys || x == k;
  }

  lemma SweepKeeps(c: Config, was: State, now: int, s: State, left: set<string>, keys: seq<string>, k: string)
    requires Sweeping(c, was, now, s, left, keys) && k in left && !Expired(c, s.entries[k], now)
    ensures Sweeping(c, was, now, s, left - {k}, keys)
  {
  }

  lemma SweepEnds(c: Config, was: State, now: int, s: State, keys: seq<string>)
    requires Sweeping(c, was, now, s, {}, keys)
    ensures CleanupStep(c, was, now, s)
  {
    assert ExpiredKeys(c, was, now, keys);
  }

  lemma SweepTakes(c: Config, was: State, now: int, s: State, keys: seq<string>, k: string)
    requires Sweeping(c, was, now, s, {}, keys)
    ensures k in keys <==> k in was.entries && k !in s.entries
  {
    SweepEnds(c, was, now, s, keys);
    CleanupLeavesTheLiving(c, was, now, s, k);
  }

  lemma CountGone(was: set<string>, left: set<string>, keys: seq<string>)
    requires Distinct(keys) && left <= was && forall k :: k in keys <==> k in was && k !in left
    ensures |keys| == |was| - |left|
  {
    DistinctSubsetBound(keys, was - left);
    assert (set k | k in keys) == was - left;
    assert was == left + (was - left);
  }

  lemma SweepCounts(c: Config, was: State, now: int, s: State, keys: seq<string>)
    requires Sweeping(c, was, now, s, {}, keys)
    ensures CleanupStep(c, was, now, s) && |keys| == |was.entries| - |s.entries|
  {
    SweepEnds(c, was, now, s, keys);
    forall k
      ensures k in keys <==> k in was.entries.Keys && k !in s.entries.Keys
    {
      SweepTakes(c, was, now, s, keys, k);
    }
    CountGone(was.entries.Keys, s.entries.Keys, keys);
  }

  // ---------------------------------------------------------------- every run

  /** Never over capacity, no connector under two keys, and every connector ever put in is either cached and
      never released, or gone and released exactly once. */
  ghost predicate Inv(c: Config, s: State) {
    |s.entries| <= c.maxSize && OneKeyEach(s) && Books(s)
  }

  ghost predicate OneKeyEach(s: State) {
    forall k, l :: k in s.entries && l in s.entries && k != l ==> s.entries[k].conn != s.entries[l].conn
  }

  ghost predicate Books(s: State) {
    && (forall k :: k in s.entries ==> s.entries[k].conn in s.ever)
    && (forall x :: s.released[x] == if x in s.ever && !Cached(s, x) then 1 else 0)
  }

  ghost predicate Cached(s: State, x: Conn) {
    exists k :: k in s.entries && s.entries[k].conn == x
  }

  lemma DropKeepsInv(c: Config, s: State, key: string)
    requires Inv(c, s) && key in s.entries
    ensures Inv(c, Drop(s, key))
  {
    var s', gone := Drop(s, key), s.entries[key].conn;
    assert s'.entries.Keys == s.entries.Keys - {key};
    assert !Cached(s', gone) && Cached(s, gone);
    forall x | x != gone
      ensures Cached(s', x) <==> Cached(s, x)
    {
      if Cached(s, x) {
        var k :| k in s.entries && s.entries[k].conn == x;
        assert k in s'.entries;
      }
    }
  }

  lemma {:induction false} DropAllKeepsInv(c: Config, s: State, keys: seq<string>)
    requires Inv(c, s)
    ensures Inv(c, DropAll(s, keys)) && DropAll(s, keys).ever == s.ever
  {
    if keys != [] {
      var before, key := DropAll(s, keys[..|keys| - 1]), keys[|keys| - 1];
      DropAllKeepsInv(c, s, keys[..|keys| - 1]);
      if key in before.entries {
        DropKeepsInv(c, before, key);
      }
    }
  }

  lemma TouchKeepsInv(c: Config, s: State, key: string, now: int)
    requires Inv(c, s) && key in s.entries
    ensures Inv(c, s.(entries := s.entries[key := s.entries[key].(lastUsed := now)]))
  {
    var s' := s.(entries := s.entries[key := s.entries[key].(lastUsed := now)]);
    assert s'.entries.Keys == s.entries.Keys;
    forall x
      ensures Cached(s', x) <==> Cached(s, x)
    {
      if Cached(s, x) {
        var k :| k in s.entries && s.entries[k].conn == x;
        assert s'.entries[k].conn == x;
      }
    }
  }

  /** What replacing a key's connector comes to: dropping the old one, then storing. */
  lemma ReplaceIsDropThenStore(s: State, key: string, conn: Conn, now: int)
    requires key in s.entries && s.entries[key].conn != conn
    ensures Stored(Drop(s, key), key, conn, now) == Stored(s, key, conn, now)
  {
    assert (s.entries - {key})[key := CacheEntry(conn, now, now)] == s.entries[key := CacheEntry(conn, now, now)];
  }

  lemma StoreKeepsInv(c: Config, s: State, key: string, conn: Conn, now: int)
    requires Inv(c, s) && conn !in s.ever && (|s.entries| < c.maxSize || key in s.entries)
    ensures Inv(c, Stored(s, key, conn, now))
  {
    if key in s.entries {
      DropKeepsInv(c, s, key);
      DropShrinks(s, key);
      StoreNewKeepsInv(c, Drop(s, key), key, conn, now);
      ReplaceIsDropThenStore(s, key, conn, now);
    } else {
      StoreNewKeepsInv(c, s, key, conn, now);
    }
  }

  lemma DropShrinks(s: State, key: string)
    requires key in s.entries
    ensures |Drop(s, key).entries| == |s.entries| - 1
  {
    assert (s.entries - {key}).Keys == s.entries.Keys - {key};
  }

  lemma StoreNewKeepsInv(c: Config, s: State, key: string, conn: Conn, now: int)
    requires Inv(c, s) && conn !in s.ever && |s.entries| < c.maxSize && key !in s.entries
    ensures Inv(c, Stored(s, key, conn, now))
  {
    var s' := Stored(s, key, conn, now);
    assert s'.entries.Keys == s.entries.Keys + {key};
    StoreNewKeepsBooks(s, key, conn, now);
  }

  lemma StoreNewKeepsBooks(s: State, key: string, conn: Conn, now: int)
    requires Books(s) && conn !in s.ever && key !in s.entries
    ensures Books(Stored(s, key, conn, now))
  {
    var s' := Stored(s, key, conn, now);
    assert s'.entries[key].conn == conn;
    assert Cached(s', conn) && s.released[conn] == 0;
    forall x | x != conn
      ensures Cached(s', x) <==> Cached(s, x)
    {
      if Cached(s, x) {
        var k :| k in s.entries && s.entries[k].conn == x;
        assert s'.entries[k].conn == x;
      }
    }
  }

  /** A connector that may be put in: one never put in before, or the one its own key holds, when that key is
      not the one evicted to make room. */
  predicate Clean(s: State, key: string, conn: Conn, victim: Option<string>) {
    conn !in s.ever || (key in s.entries && s.entries[key].conn == conn && victim != Some(key))
  }

  lemma EvictedKeepsInv(c: Config, s: State, victim: Option<string>)
    requires c.maxSize > 0 && Inv(c, s) && Victim(c, s, victim)
    ensures Inv(c, Evicted(s, victim)) && Evicted(s, victim).ever == s.ever && |Evicted(s, victim).entries| < c.maxSize
  {
    if victim.Some? {
      DropKeepsInv(c, s, victim.value);
      DropShrinks(s, victim.value);
    }
  }

  /** Putting a key's own connector again only renews its entry. */
  lemma RenewalKeepsInv(c: Config, s: State, key: string, now: int)
    requires Inv(c, s) && key in s.entries
    ensures Inv(c, Stored(s, key, s.entries[key].conn, now))
  {
    var s' := Stored(s, key, s.entries[key].conn, now);
    assert s'.entries.Keys == s.entries.Keys;
    forall x
      ensures Cached(s', x) <==> Cached(s, x)
    {
      if Cached(s, x) {
        var k :| k in s.entries && s.entries[k].conn == x;
        assert s'.entries[k].conn == x;
      }
    }
  }

  /** Otherwise the connector ends up cached and released, or under two keys. */
  lemma SecondHomeBreaks(s: State, key: string, conn: Conn, now: int)
    requires OneKeyEach(s) && Books(s) && conn in s.ever && !(key in s.entries && s.entries[key].conn == conn)
    ensures !(OneKeyEach(Stored(s, key, conn, now)) && Books(Stored(s, key, conn, now)))
  {
    var s' := Stored(s, key, conn, now);
    assert s'.entries[key].conn == conn;
    assert Cached(s', conn);
    if Cached(s, conn) {
      var k :| k in s.entries && s.entries[k].conn == conn;
      assert k != key && s'.entries[k].conn == conn;
    } else {
      assert s.released[conn] == 1;
      assert s'.released[conn] >= 1;
    }
  }

  /** A Put keeps the books exactly when its connector is clean. */
  lemma PutKeepsInvIff(c: Config, s: State, key: string, conn: Conn, now: int, s': State, victim: Option<string>)
    requires c.maxSize > 0 && Inv(c, s) && PutBy(c, s, key, conn, now, s', victim)
    ensures Inv(c, s') <==> Clean(s, key, conn, victim)
  {
    var mid := Evicted(s, victim);
    EvictedKeepsInv(c, s, victim);
    if conn !in s.ever {
      StoreKeepsInv(c, mid, key, conn, now);
    } else if Clean(s, key, conn, victim) {
      RenewalKeepsInv(c, mid, key, now);
    } else {
      SecondHomeBreaks(mid, key, conn, now);
    }
  }

  /** What the books need of an operation: a Put brings a clean connector. */
  ghost predicate Sound(c: Config, s: State, op: Op, s': State) {
    op.Put? ==> exists victim :: PutBy(c, s, op.key, op.conn, op.now, s', victim) && Clean(s, op.key, op.conn, victim)
  }

  lemma NextKeepsInv(c: Config, s: State, op: Op, s': State)
    requires c.maxSize > 0 && Inv(c, s) && Sound(c, s, op, s') && Next(c, s, op, s')
    ensures Inv(c, s')
  {
    match op
    case Get(key, now) =>
      if key in s.entries {
        if Expired(c, s.entries[key], now) {
          DropKeepsInv(c, s, key);
        } else {
          TouchKeepsInv(c, s, key, now);
        }
      }
    case Put(key, conn, now) =>
      var victim :| PutBy(c, s, key, conn, now, s', victim) && Clean(s, key, conn, victim);
      PutKeepsInvIff(c, s, key, conn, now, s', victim);
    case Cleanup(now) =>
      var keys :| ExpiredKeys(c, s, now, keys) && s' == DropAll(s, keys);
      DropAllKeepsInv(c, s, keys);
  }

  /** A run of atomic operations from the empty cache. */
  ghost predicate Steps(c: Config, states: seq<State>, ops: seq<Op>) {
    && |states| == |ops| + 1 && states[0] == EMPTY
    && forall i :: 0 <= i < |ops| ==> Next(c, states[i], ops[i], states[i + 1])
  }

  /** A run in which every Put brings a clean connector. */
  ghost predicate Run(c: Config, states: seq<State>, ops: seq<Op>) {
    Steps(c, states, ops) && forall i :: 0 <= i < |ops| ==> Sound(c, states[i], ops[i], states[i + 1])
  }

  /** In every run the cache stays within its size and every connector that leaves is released exactly once,
      none while cached. */
  lemma {:induction false} RunKeepsInv(c: Config, states: seq<State>, ops: seq<Op>, i: nat)
    requires c.maxSize > 0 && Run(c, states, ops) && i < |states|
    ensures Inv(c, states[i])
  {
    if i > 0 {
      RunKeepsInv(c, states, ops, i - 1);
      NextKeepsInv(c, states[i - 1], ops[i - 1], states[i]);
    }
  }

  /** The books hold all along a run exactly when every Put brings a clean connector. */
  lemma BooksHoldIffClean(c: Config, states: seq<State>, ops: seq<Op>)
    requires c.maxSize > 0 && Steps(c, states, ops)
    ensures (forall i :: 0 <= i < |states| ==> Inv(c, states[i])) <==> Run(c, states, ops)
  {
    if Run(c, states, ops) {
      forall i | 0 <= i < |states|
        ensures Inv(c, states[i])
      {
        RunKeepsInv(c, states, ops, i);
      }
    } else if forall i :: 0 <= i < |states| ==> Inv(c, states[i]) {
      forall i | 0 <= i < |ops|
        ensures Sound(c, states[i], ops[i], states[i + 1])
      {
        if ops[i].Put? {
          var op := ops[i];
          var victim :| PutBy(c, states[i], op.key, op.conn, op.now, states[i + 1], victim);
          PutKeepsInvIff(c, states[i], op.key, op.conn, op.now, states[i + 1], victim);
        }
      }
    }
  }

  /** The last Put of a key before step i. */
  function LatestPut(ops: seq<Op>, i: nat, key: string): Option<Op>
    requires i <= |ops|
  {
    if i == 0 then None
    else if ops[i - 1].Put? && ops[i - 1].key == key then Some(ops[i - 1])
    else LatestPut(ops, i - 1, key)
  }

  lemma {:induction false} DropAllKeepsEntries(s: State, keys: seq<string>, key: string)
    ensures key in DropAll(s, keys).entries ==> key in s.entries && DropAll(s, keys).entries[key] == s.entries[key]
  {
    if keys != [] {
      DropAllKeepsEntries(s, keys[..|keys| - 1], key);
    }
  }

  /** What one step can do to the entry of a key: leave connector and birth alone, or put them in anew. */
  lemma EntryComesFromPut(c: Config, s: State, op: Op, s': State, key: string)
    requires Next(c, s, op, s') && key in s'.entries
    ensures if op.Put? && op.key == key then s'.entries[key].conn == op.conn && s'.entries[key].createdAt == op.now
      else key in s.entries && s'.entries[key].conn == s.entries[key].conn && s'.entries[key].createdAt == s.entries[key].createdAt
  {
    match op
    case Get(_, _) =>
    case Put(_, _, _) =>
    case Cleanup(now) =>
      var keys :| ExpiredKeys(c, s, now, keys) && s' == DropAll(s, keys);
      DropAllKeepsEntries(s, keys, key);
  }

  lemma {:induction false} EntriesAreLatestPuts(c: Config, states: seq<State>, ops: seq<Op>, i: nat, key: string)
    requires Steps(c, states, ops) && i < |states| && key in states[i].entries
    ensures LatestPut(ops, i, key).Some?
    ensures var e, p := states[i].entries[key], LatestPut(ops, i, key).value;
      p.Put? && p.key == key && e.conn == p.conn && e.createdAt == p.now
  {
    if i > 0 {
      EntryComesFromPut(c, states[i - 1], ops[i - 1], states[i], key);
      if !(ops[i - 1].Put? && ops[i - 1].key == key) {
        EntriesAreLatestPuts(c, states, ops, i - 1, key);
      }
    }
  }

  /** Get answers with the connector of the latest Put of that key as long as the key is cached and that Put is no
      older than the time to live, and with nothing otherwise. */
  lemma GetReturnsTheLatestPut(c: Config, states: seq<State>, ops: seq<Op>, i: nat)
    requires Steps(c, states, ops) && i < |ops| && ops[i].Get?
    ensures var p, got := LatestPut(ops, i, ops[i].key), GetStep(c, states[i], ops[i].key, ops[i].now).1;
      && (ops[i].key in states[i].entries ==> p.Some? && p.value.Put?)
      && got == if ops[i].key in states[i].entries && ops[i].now - p.value.now <= c.ttl then Some(p.value.conn) else None
  {
    if ops[i].key in states[i].entries {
      EntriesAreLatestPuts(c, states, ops, i, ops[i].key);
    }
  }

  // ---------------------------------------------------------------- recency

  /** When a key was last named by a Get or a Put, before step i. */
  function LatestUse(ops: seq<Op>, i: nat, key: string): Option<int>
    requires i <= |ops|
  {
    if i == 0 then None
    else if !ops[i - 1].Cleanup? && ops[i - 1].key == key then Some(ops[i - 1].now)
    else LatestUse(ops, i - 1, key)
  }

  /** What one step does to the recency of a key: a Get or a Put of it sets it, nothing else touches it. */
  lemma UseIsNoted(c: Config, s: State, op: Op, s': State, key: string)
    requires Next(c, s, op, s') && key in s'.entries
    ensures if !op.Cleanup? && op.key == key then s'.entries[key].lastUsed == op.now
      else key in s.entries && s'.entries[key].lastUsed == s.entries[key].lastUsed
  {
    match op
    case Get(_, _) =>
    case Put(_, _, _) =>
    case Cleanup(now) =>
      var keys :| ExpiredKeys(c, s, now, keys) && s' == DropAll(s, keys);
      DropAllKeepsEntries(s, keys, key);
  }

  /** In every run, what a cached entry holds as its last use is the time of the latest Put or Get of its key. */
  lemma {:induction false} LastUsedIsTheLatestUse(c: Config, states: seq<State>, ops: seq<Op>, i: nat, key: string)
    requires Steps(c, states, ops) && i < |states| && key in states[i].entries
    ensures LatestUse(ops, i, key) == Some(states[i].entries[key].lastUsed)
  {
    if i > 0 {
      UseIsNoted(c, states[i - 1], ops[i - 1], states[i], key);
      if ops[i - 1].Cleanup? || ops[i - 1].key != key {
        LastUsedIsTheLatestUse(c, states, ops, i - 1, key);
      }
    }
  }

  /** A key that leaves was evicted by a Put into a full cache, or had outlived its time when it was looked up or
      swept. */
  lemma LeavesForCause(c: Config, s: State, op: Op, s': State, key: string)
    requires Next(c, s, op, s') && key in s.entries && key !in s'.entries
    ensures match op
      case Put(other, _, _) => other != key && |s.entries| >= c.maxSize && Victim(c, s, Some(key))
      case Get(other, now) => other == key && now - s.entries[key].createdAt > c.ttl
      case Cleanup(now) => now - s.entries[key].createdAt > c.ttl
  {
    match op
    case Get(_, _) =>
    case Put(other, conn, now) =>
      var victim :| PutBy(c, s, other, conn, now, s', victim);
      assert victim == Some(key);
    case Cleanup(now) =>
      var keys :| ExpiredKeys(c, s, now, keys) && s' == DropAll(s, keys);
      NotDropped(s, keys, key);
  }

  lemma {:induction false} NotDropped(s: State, keys: seq<string>, key: string)
    requires key in s.entries
    ensures key in DropAll(s, keys).entries <==> key !in keys
  {
    if keys != [] {
      var n := |keys| - 1;
      assert keys == keys[..n] + [keys[n]];
      NotDropped(s, keys[..n], key);
    }
  }

  /** After a sweep nothing cached has outlived its time. */
  lemma CleanupLeavesTheLiving(c: Config, s: State, now: int, s': State, key: string)
    requires CleanupStep(c, s, now, s')
    ensures key in s'.entries <==> key in s.entries && now - s.entries[key].createdAt <= c.ttl
  {
    var keys :| ExpiredKeys(c, s, now, keys) && s' == DropAll(s, keys);
    DropAllKeepsEntries(s, keys, key);
    if key in s.entries {
      NotDropped(s, keys, key);
    }
  }

  /** In every run, a Put into a full cache that takes another key out takes one whose latest use is no later than
      that of any key cached. */
  lemma LeastRecentlyUsedIsEvicted(c: Config, states: seq<State>, ops: seq<Op>, i: nat, evicted: string, other: string)
    requires Steps(c, states, ops) && i < |ops| && ops[i].Put?
    requires evicted in states[i].entries && evicted !in states[i + 1].entries && other in states[i].entries
    ensures |states[i].entries| >= c.maxSize
    ensures LatestUse(ops, i, evicted).Some? && LatestUse(ops, i, other).Some?
    ensures LatestUse(ops, i, evicted).value <= LatestUse(ops, i, other).value
  {
    LeavesForCause(c, states[i], ops[i], states[i + 1], evicted);
    LastUsedIsTheLatestUse(c, states, ops, i, evicted);
    LastUsedIsTheLatestUse(c, states, ops, i, other);
  }

  // ---------------------------------------------------------------- the split critical section

  /** The second half of an expired Get, run on whatever the cache has become since it read entry e: the key
      goes, and e's connector is released. */
  function ExpireLate(s: State, key: string, e: CacheEntry): State {
    s.(entries := s.entries - {key}, released := s.released + multiset{e.conn})
  }

  /** Two requests that both read the expired entry release it twice. */
  lemma SplitGetReleasesTwice()
    ensures var c := Config(2, 10);
      var s := Stored(EMPTY, "k", 1, 0);
      var e := s.entries["k"];
      && Inv(c, s) && Expired(c, e, 11)
      && ExpireLate(ExpireLate(s, "k", e), "k", e).released[1] == 2
  {
    StoreNewKeepsInv(Config(2, 10), EMPTY, "k", 1, 0);
  }

  /** An expired Get keeps the books exactly when, at its second half, the key still holds what the first half
      read; otherwise a connector is released twice, released while cached, or lost. */
  lemma SplitGetIsSafeIff(c: Config, s: State, key: string, e: CacheEntry)
    requires Inv(c, s) && e.conn in s.ever
    ensures Inv(c, ExpireLate(s, key, e)) <==> key in s.entries && s.entries[key].conn == e.conn
  {
    if key in s.entries && s.entries[key].conn == e.conn {
      DropKeepsInv(c, s, key);
      assert ExpireLate(s, key, e) == Drop(s, key);
    } else if key in s.entries {
      LateDropLosesTheNewOne(s, key, e);
    } else {
      LateDropReleasesAgain(s, key, e);
    }
  }

  lemma LateDropLosesTheNewOne(s: State, key: string, e: CacheEntry)
    requires OneKeyEach(s) && Books(s) && key in s.entries && s.entries[key].conn != e.conn
    ensures !Books(ExpireLate(s, key, e))
  {
    var s', lost := ExpireLate(s, key, e), s.entries[key].conn;
    assert Cached(s, lost);
    assert s'.released[lost] == 0 && !Cached(s', lost);
  }

  lemma LateDropReleasesAgain(s: State, key: string, e: CacheEntry)
    requires Books(s) && key !in s.entries && e.conn in s.ever
    ensures !Books(ExpireLate(s, key, e))
  {
    var s' := ExpireLate(s, key, e);
    assert s'.entries == s.entries;
    assert Cached(s', e.conn) <==> Cached(s, e.conn);
    assert s'.released[e.conn] == s.released[e.conn] + 1;
  }

  // ---------------------------------------------------------------- the split hit

  lemma {:induction false} DropAllKeepsEver(s: State, keys: seq<string>)
    ensures DropAll(s, keys).ever == s.ever
  {
    if keys != [] {
      DropAllKeepsEver(s, keys[..|keys| - 1]);
    }
  }

  lemma EverGrows(c: Config, s: State, op: Op, s': State)
    requires Next(c, s, op, s')
    ensures s.ever <= s'.ever
  {
    match op
    case Get(_, _) =>
    case Put(_, _, _) =>
    case Cleanup(now) =>
      var keys :| ExpiredKeys(c, s, now, keys) && s' == DropAll(s, keys);
      DropAllKeepsEver(s, keys);
  }

  /** A connector never changes its key. */
  lemma {:induction false} ConnectorKeepsItsKey(c: Config, states: seq<State>, ops: seq<Op>, i: nat, j: nat, key: string, other: string)
    requires c.maxSize > 0 && Run(c, states, ops) && i <= j < |states| && key in states[i].entries
    ensures states[i].entries[key].conn in states[j].ever
    ensures other in states[j].entries && states[j].entries[other].conn == states[i].entries[key].conn ==> other == key
    decreases j
  {
    var conn := states[i].entries[key].conn;
    RunKeepsInv(c, states, ops, i);
    if i < j {
      var s, op, s' := states[j - 1], ops[j - 1], states[j];
      ConnectorKeepsItsKey(c, states, ops, i, j - 1, key, other);
      EverGrows(c, s, op, s');
      if other in s'.entries && s'.entries[other].conn == conn {
        EntryComesFromPut(c, s, op, s', other);
        assert Sound(c, s, op, s');
      }
    }
  }

  /** A hit hands out the connector its first half read, whatever has happened since: in every run it is still
      unreleased exactly when the key still holds it. */
  lemma LateHitIsUnreleasedIff(c: Config, states: seq<State>, ops: seq<Op>, i: nat, j: nat, key: string)
    requires c.maxSize > 0 && Run(c, states, ops) && i <= j < |states| && key in states[i].entries
    ensures var conn := states[i].entries[key].conn;
      states[j].released[conn] == 0 <==> key in states[j].entries && states[j].entries[key].conn == conn
  {
    var conn := states[i].entries[key].conn;
    RunKeepsInv(c, states, ops, j);
    ConnectorKeepsItsKey(c, states, ops, i, j, key, key);
    if Cached(states[j], conn) {
      var k :| k in states[j].entries && states[j].entries[k].conn == conn;
      ConnectorKeepsItsKey(c, states, ops, i, j, key, k);
    }
  }

  // ---------------------------------------------------------------- runs that go wrong

  /** Two Puts from the empty cache of one place. */
  lemma TwoPuts(first: string, second: string, a: Conn, b: Conn) returns (states: seq<State>, ops: seq<Op>)
    ensures Steps(Config(1, 10), states, ops) && |states| == 3
    ensures states[1] == Stored(EMPTY, first, a, 0)
    ensures states[2] == Stored(Drop(states[1], first), second, b, 1)
  {
    var c, s1 := Config(1, 10), Stored(EMPTY, first, a, 0);
    var s2 := Stored(Drop(s1, first), second, b, 1);
    states, ops := [EMPTY, s1, s2], [Put(first, a, 0), Put(second, b, 1)];
    assert PutBy(c, EMPTY, first, a, 0, s1, None);
    assert s1.entries.Keys == {first};
    assert PutBy(c, s1, second, b, 1, s2, Some(first));
  }

  /** A connector put again under its own key, when that key is the one evicted to make room, is released and
      then cached. */
  lemma StaleConnectorIsReleasedWhileCached() returns (states: seq<State>, ops: seq<Op>)
    ensures Steps(Config(1, 10), states, ops) && |states| == 3
    ensures states[2].released[1] == 1 && Cached(states[2], 1)
  {
    states, ops := TwoPuts("k", "k", 1, 1);
    assert states[1].entries["k"].conn == 1 && states[2].entries["k"].conn == 1;
  }

  /** A hit that reads its entry just before another key's Put evicts it hands out a released connector. */
  lemma LateHitIsReleased() returns (states: seq<State>, ops: seq<Op>)
    ensures Steps(Config(1, 10), states, ops) && |states| == 3
    ensures GetStep(Config(1, 10), states[1], "a", 1).1 == Some(1) && states[2].released[1] == 1
  {
    states, ops := TwoPuts("a", "b", 1, 2);
    assert states[1].entries["a"] == CacheEntry(1, 0, 0);
  }
}
