/** The active registry (`connections`) together with the holding cache and
    the event log, and the transitions the packet path drives:
    `getConnection`, `addConnection`, `handle`, plus cache eviction. */
module Connections {
  import opened Wrappers
  import opened Connection
  import opened HoldingCache

  /** Values the owning server supplies: the staleness timeout and the
      number of stale sweeps tolerated before demotion. */
  datatype Config = Config(timeout: int, maxDisconnectAttempts: int)

  /** Registry in insertion order, holding cache, and every event emitted. */
  datatype State = State(active: seq<Conn>, cache: Cache, events: seq<Event>)

  function Initial(): (r: State) {
    State([], map[], [])
  }

  /** First registry position holding `k`: the stream's `findFirst`. */
  function Find(active: seq<Conn>, k: Key): (r: Option<nat>)
    ensures r.Some? ==> r.value < |active| && active[r.value].key == k
    ensures r.Some? ==> forall j :: 0 <= j < r.value ==> active[j].key != k
    ensures r.None? ==> forall j :: 0 <= j < |active| ==> active[j].key != k
    decreases |active|
  {
    if |active| == 0 then None
    else if active[0].key == k then Some(0)
    else
      match Find(active[1..], k)
      case Some(i) => Some(i + 1)
      case None => None
  }

  predicate KeysDistinct(active: seq<Conn>) {
    forall i, j :: 0 <= i < j < |active| ==> active[i].key != active[j].key
  }

  /** No registry key is also held live in the cache. */
  predicate Disjoint(s: State, now: int) {
    forall i :: 0 <= i < |s.active| ==> !Live(s.cache, s.active[i].key, now)
  }

  /** Every cached record was demoted past the threshold. */
  predicate CachedOverThreshold(cache: Cache, cfg: Config) {
    forall k :: k in cache ==> cache[k].conn.fails > cfg.maxDisconnectAttempts
  }

  /** The invariant the transitions keep. */
  predicate Inv(s: State, now: int, cfg: Config) {
    && KeysDistinct(s.active)
    && Disjoint(s, now)
    && CachedOverThreshold(s.cache, cfg)
  }

  /** A state after a lookup, with the record found, if any. */
  datatype Lookup = Lookup(state: State, conn: Option<Conn>)

  /** `getConnection`: the registry first; then a live cache entry, which is
      reacquired: reported, appended to the registry and invalidated. */
  function GetConnection(s: State, k: Key, now: int): (r: Lookup)
    ensures Find(s.active, k).Some? ==>
      r.state == s && r.conn == Some(s.active[Find(s.active, k).value])
    ensures Find(s.active, k).None? && !Live(s.cache, k, now) ==>
      r.state == s && r.conn == None
    ensures Find(s.active, k).None? && Live(s.cache, k, now) ==>
      var c := s.cache[k].conn;
      && r.conn == Some(c)
      && r.state.active == s.active + [c]
      && r.state.cache == s.cache - {k}
      && r.state.events == s.events + [Event(Reacquired, c)]
  {
    match Find(s.active, k)
    case Some(i) => Lookup(s, Some(s.active[i]))
    case None =>
      match GetIfPresent(s.cache, k, now)
      case None => Lookup(s, None)
      case Some(c) =>
        var reported := s.events + [Event(Reacquired, c)];
        var invalidated := Remove(s.cache, k, Explicit);
        Lookup(State(s.active + [c], invalidated.cache, reported + invalidated.events), Some(c))
  }

  /** A state after `addConnection`, with the record it returned. */
  datatype Acquisition = Acquisition(state: State, conn: Conn)

  /** `addConnection`: the record `getConnection` finds, or a new one that
      is reported as acquired and then appended. */
  function AddConnection(s: State, k: Key, identification: string, now: int): (r: Acquisition)
    ensures r.conn.key == k
    ensures Find(r.state.active, k).Some?
    ensures r.state.active[Find(r.state.active, k).value] == r.conn
    ensures |s.active| <= |r.state.active| <= |s.active| + 1 && r.state.active[..|s.active|] == s.active
    ensures Find(s.active, k).Some? ==> r.state == s && r.conn == s.active[Find(s.active, k).value]
    ensures Find(s.active, k).None? && Live(s.cache, k, now) ==>
      r == Acquisition(GetConnection(s, k, now).state, s.cache[k].conn)
    ensures Find(s.active, k).None? && !Live(s.cache, k, now) ==>
      var c := Conn(k, identification, now, 0);
      r == Acquisition(State(s.active + [c], s.cache, s.events + [Event(Acquired, c)]), c)
  {
    var found := GetConnection(s, k, now);
    FindAppend(s.active, if Live(s.cache, k, now) then s.cache[k].conn else Fresh(k, identification, now), k);
    match found.conn
    case Some(c) => Acquisition(found.state, c)
    case None =>
      var c := Fresh(k, identification, now);
      var st := found.state;
      Acquisition(State(st.active + [c], st.cache, st.events + [Event(Acquired, c)]), c)
  }

  /** `handle`: with an identification, `addConnection` and then `update()`
      on the record it returned; without one, nothing.  No response. */
  function Handle(s: State, k: Key, identification: Option<string>, now: int): (r: State)
    ensures identification.None? ==> r == s
    ensures identification.Some? ==>
      var a := AddConnection(s, k, identification.value, now);
      && r.cache == a.state.cache
      && r.events == a.state.events
      && |r.active| == |a.state.active|
      && Find(r.active, k) == Find(a.state.active, k)
      && r.active[Find(r.active, k).value] == Refresh(a.conn, now)
      && (forall j :: 0 <= j < |r.active| && j != Find(r.active, k).value ==> r.active[j] == a.state.active[j])
      && forall j :: 0 <= j < |s.active| ==> r.active[j] == s.active[j] || r.active[j] == Refresh(s.active[j], now)
  {
    match identification
    case None => s
    case Some(id) =>
      var a := AddConnection(s, k, id, now);
      var i := Find(a.state.active, k).value;
      var st := a.state;
      var refreshed := st.active[i := Refresh(st.active[i], now)];
      FindUpdate(st.active, i, Refresh(st.active[i], now), k);
      State(refreshed, st.cache, st.events)
  }

  /** Appending a record leaves earlier matches first. */
  lemma FindAppend(active: seq<Conn>, c: Conn, k: Key)
    ensures Find(active + [c], k) ==
      if Find(active, k).Some? then Find(active, k)
      else if c.key == k then Some(|active|)
      else None
  {
    var longer := active + [c];
    assert forall j :: 0 <= j < |active| ==> longer[j] == active[j];
    assert longer[|active|] == c;
  }

  /** Replacing a record by one with the same key leaves `Find` unchanged. */
  lemma FindUpdate(active: seq<Conn>, i: nat, c: Conn, k: Key)
    requires i < |active| && c.key == active[i].key
    ensures Find(active[i := c], k) == Find(active, k)
  {
    var updated := active[i := c];
    assert forall j :: 0 <= j < |active| ==> (updated[j].key == k <==> active[j].key == k);
  }

  /** A removal notified by the cache: `Explicit` for invalidation,
      `Expired` or `Size` for the cache's own maintenance. */
  function Evict(s: State, k: Key, cause: Cause): (r: State)
    ensures r.active == s.active
    ensures r.cache.Keys == s.cache.Keys - {k}
    ensures forall other :: other in r.cache ==> r.cache[other] == s.cache[other]
    ensures cause == Explicit || k !in s.cache ==> r.events == s.events
    ensures cause != Explicit && k in s.cache ==> r.events == s.events + [Event(Forget, s.cache[k].conn)]
  {
    var removal := Remove(s.cache, k, cause);
    State(s.active, removal.cache, s.events + removal.events)
  }

  /** Age-based cleanup of the listed keys, in the order the cache visits them. */
  function Expire(s: State, order: seq<Key>): (r: State)
    ensures r.active == s.active
    decreases |order|
  {
    if |order| == 0 then s else Expire(Evict(s, order[0], Expired), order[1..])
  }

  /** Cache entries only age: the invariant at `now` still holds later. */
  lemma InvLater(s: State, now: int, later: int, cfg: Config)
    requires Inv(s, now, cfg) && now <= later
    ensures Inv(s, later, cfg)
  {
  }

  lemma InitialInv(now: int, cfg: Config)
    ensures Inv(Initial(), now, cfg)
  {
  }

  /** A lookup keeps the invariant; a reacquired key leaves the cache as it
      joins the registry, so it is never held by both. */
  lemma GetConnectionPreservesInv(s: State, k: Key, now: int, cfg: Config)
    requires Inv(s, now, cfg)
    ensures Inv(GetConnection(s, k, now).state, now, cfg)
  {
    var r := GetConnection(s, k, now).state;
    if Find(s.active, k).None? && Live(s.cache, k, now) {
      assert r.active[|s.active|].key == k;
      assert forall j :: 0 <= j < |s.active| ==> r.active[j] == s.active[j];
    }
  }

  lemma AddConnectionPreservesInv(s: State, k: Key, identification: string, now: int, cfg: Config)
    requires Inv(s, now, cfg)
    ensures Inv(AddConnection(s, k, identification, now).state, now, cfg)
  {
    GetConnectionPreservesInv(s, k, now, cfg);
    var r := AddConnection(s, k, identification, now).state;
    assert forall j :: 0 <= j < |s.active| ==> r.active[j] == s.active[j];
  }

  lemma HandlePreservesInv(s: State, k: Key, identification: Option<string>, now: int, cfg: Config)
    requires Inv(s, now, cfg)
    ensures Inv(Handle(s, k, identification, now), now, cfg)
  {
    if identification.Some? {
      AddConnectionPreservesInv(s, k, identification.value, now, cfg);
      var a := AddConnection(s, k, identification.value, now).state;
      var r := Handle(s, k, identification, now);
      assert forall j :: 0 <= j < |r.active| ==> r.active[j].key == a.active[j].key;
    }
  }

  lemma EvictPreservesInv(s: State, k: Key, cause: Cause, now: int, cfg: Config)
    requires Inv(s, now, cfg)
    ensures Inv(Evict(s, k, cause), now, cfg)
  {
  }

  /** Evicting distinct keys in turn removes exactly those keys. */
  lemma {:induction false} ExpireCache(s: State, order: seq<Key>)
    ensures Expire(s, order).cache == (map k | k in s.cache && k !in order :: s.cache[k])
    decreases |order|
  {
    if |order| > 0 {
      var s1 := Evict(s, order[0], Expired);
      ExpireCache(s1, order[1..]);
      assert forall k :: k in order <==> k == order[0] || k in order[1..];
    }
  }

  /** Evicting distinct cached keys in turn reports each removed record
      once, in the order visited. */
  lemma {:induction false} ExpireEvents(s: State, order: seq<Key>)
    requires forall i, j :: 0 <= i < j < |order| ==> order[i] != order[j]
    requires forall i :: 0 <= i < |order| ==> order[i] in s.cache
    ensures var r := Expire(s, order);
      && |r.events| == |s.events| + |order|
      && r.events[..|s.events|] == s.events
      && forall i :: 0 <= i < |order| ==> r.events[|s.events| + i] == Event(Forget, s.cache[order[i]].conn)
    decreases |order|
  {
    if |order| > 0 {
      var s1 := Evict(s, order[0], Expired);
      var rest := order[1..];
      assert forall i :: 0 <= i < |rest| ==> rest[i] == order[i + 1] && rest[i] != order[0];
      assert s1.events == s.events + [Event(Forget, s.cache[order[0]].conn)];
      ExpireEvents(s1, rest);
      var r := Expire(s, order);
      assert r == Expire(s1, rest);
      assert r.events[..|s1.events|] == s1.events;
      forall i | 0 <= i < |order|
        ensures r.events[|s.events| + i] == Event(Forget, s.cache[order[i]].conn)
      {
        if i > 0 {
          assert s1.cache[rest[i - 1]] == s.cache[order[i]];
          assert r.events[|s1.events| + (i - 1)] == Event(Forget, s1.cache[rest[i - 1]].conn);
        } else {
          assert r.events[|s.events|] == s1.events[|s.events|];
        }
      }
    }
  }

  /** Age-based cleanup over an enumeration of exactly the expired entries:
      one forget per expired record, every live entry and the registry left
      as they were, and no expired entry remaining. */
  lemma ExpireForgetsExpired(s: State, now: int, order: seq<Key>)
    requires forall i, j :: 0 <= i < j < |order| ==> order[i] != order[j]
    requires forall k :: k in order <==> k in s.cache && IsExpired(s.cache[k], now)
    ensures var r := Expire(s, order);
      && r.active == s.active
      && (forall k :: k in r.cache <==> Live(s.cache, k, now))
      && (forall k :: k in r.cache ==> r.cache[k] == s.cache[k])
      && |r.events| == |s.events| + |order|
      && forall i :: 0 <= i < |order| ==> r.events[|s.events| + i] == Event(Forget, s.cache[order[i]].conn)
  {
    assert forall i :: 0 <= i < |order| ==> order[i] in order;
    ExpireCache(s, order);
    ExpireEvents(s, order);
  }
}
