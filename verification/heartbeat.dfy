/** One run of the heartbeat task: every registry record is checked for
    staleness, stale ones are reported and counted, those past the threshold
    are reported as disconnected and put into the holding cache, and finally
    every record whose count exceeds the threshold leaves the registry. */
module Heartbeat {
  import opened Connection
  import opened HoldingCache
  import opened Connections

  /** The record has not been heard from within the timeout. */
  predicate Stale(c: Conn, now: int, cfg: Config) {
    !(now - c.updated < cfg.timeout)
  }

  /** The sweep marks the record unresponsive and its new count exceeds the threshold. */
  predicate Demoted(c: Conn, now: int, cfg: Config) {
    Stale(c, now, cfg) && c.fails + 1 > cfg.maxDisconnectAttempts
  }

  /** The record as the sweep leaves it in place. */
  function Marked(c: Conn, now: int, cfg: Config): (r: Conn) {
    if Stale(c, now, cfg) then MarkUnresponsive(c) else c
  }

  /** The effect of the loop body on one record. */
  datatype Outcome = Outcome(conn: Conn, cache: Cache, events: seq<Event>)

  /** The loop body for one record. */
  function Observe(cache: Cache, c: Conn, now: int, cfg: Config): (r: Outcome)
    ensures !Stale(c, now, cfg) ==> r == Outcome(c, cache, [])
    ensures Stale(c, now, cfg) ==>
      && r.conn.fails == c.fails + 1
      && r.conn == c.(fails := r.conn.fails)
      && |r.events| >= 1
      && r.events[0] == Event(Unresponsive, c)
      && forall i :: 1 <= i < |r.events| ==> r.events[i].kind != Unresponsive
    ensures Stale(c, now, cfg) && !Demoted(c, now, cfg) ==>
      r.cache == cache && r.events == [Event(Unresponsive, c)]
    ensures Demoted(c, now, cfg) ==>
      && r.cache == cache[c.key := Entry(r.conn, now)]
      && |r.events| >= 2
      && r.events[1] == Event(Disconnect, r.conn)
      && r.events[2..] == (if c.key in cache then [Event(Forget, cache[c.key].conn)] else [])
  {
    if now - c.updated < cfg.timeout then Outcome(c, cache, [])
    else
      var marked := MarkUnresponsive(c);
      if marked.fails > cfg.maxDisconnectAttempts then
        var put := Put(cache, marked, now);
        Outcome(marked, put.cache, [Event(Unresponsive, c), Event(Disconnect, marked)] + put.events)
      else
        Outcome(marked, cache, [Event(Unresponsive, c)])
  }

  /** What the loop has built after a prefix of the registry: the records
      as mutated in place, the cache, and the events emitted. */
  datatype Pass = Pass(marked: seq<Conn>, cache: Cache, events: seq<Event>)

  /** The loop over the registry, record by record in order. */
  function Scan(rs: seq<Conn>, cache: Cache, now: int, cfg: Config): (p: Pass)
    ensures |p.marked| == |rs|
    ensures forall i :: 0 <= i < |rs| ==> p.marked[i] == Marked(rs[i], now, cfg)
    decreases |rs|
  {
    if |rs| == 0 then Pass([], cache, [])
    else
      var p := Scan(rs[..|rs| - 1], cache, now, cfg);
      var o := Observe(p.cache, rs[|rs| - 1], now, cfg);
      Pass(p.marked + [o.conn], o.cache, p.events + o.events)
  }

  /** `removeIf(count > max)`. */
  function Retain(rs: seq<Conn>, max: int): (r: seq<Conn>)
    ensures forall c :: c in r <==> c in rs && c.fails <= max
    decreases |rs|
  {
    if |rs| == 0 then []
    else
      var last := rs[|rs| - 1];
      assert rs == rs[..|rs| - 1] + [last];
      Retain(rs[..|rs| - 1], max) + (if last.fails <= max then [last] else [])
  }

  /** Removal keeps every survivor as often as it occurred (once, in a
      registry with distinct keys) and drops every other record entirely. */
  lemma {:induction false} RetainCounts(rs: seq<Conn>, max: int)
    ensures forall c :: multiset(Retain(rs, max))[c] == if c.fails <= max then multiset(rs)[c] else 0
    decreases |rs|
  {
    if |rs| > 0 {
      var init, last := rs[..|rs| - 1], rs[|rs| - 1];
      assert rs == init + [last];
      RetainCounts(init, max);
      assert multiset(rs) == multiset(init) + multiset{last};
    }
  }

  /** Removal keeps the survivors in registry order: filtering a registry
      split in two is filtering each part and joining the results. */
  lemma {:induction false} RetainAppend(a: seq<Conn>, b: seq<Conn>, max: int)
    ensures Retain(a + b, max) == Retain(a, max) + Retain(b, max)
    decreases |b|
  {
    if |b| == 0 {
      assert a + b == a;
    } else {
      var init := b[..|b| - 1];
      assert (a + b)[..|a + b| - 1] == a + init;
      RetainAppend(a, init, max);
    }
  }

  /** One heartbeat run at time `now`. */
  function Sweep(s: State, now: int, cfg: Config): (r: State)
    ensures forall c :: c in r.active ==> c.fails <= cfg.maxDisconnectAttempts
    ensures |r.events| >= |s.events| && r.events[..|s.events|] == s.events
  {
    var p := Scan(s.active, s.cache, now, cfg);
    State(Retain(p.marked, cfg.maxDisconnectAttempts), p.cache, s.events + p.events)
  }

  /** Keys of the records the sweep demotes. */
  function DemotedKeys(rs: seq<Conn>, now: int, cfg: Config): (r: set<Key>) {
    set i | 0 <= i < |rs| && Demoted(rs[i], now, cfg) :: rs[i].key
  }

  /** The stale records, in registry order, as the unresponsive callback sees them. */
  function StaleRecords(rs: seq<Conn>, now: int, cfg: Config): (r: seq<Conn>)
    decreases |rs|
  {
    if |rs| == 0 then []
    else
      var last := rs[|rs| - 1];
      StaleRecords(rs[..|rs| - 1], now, cfg) + (if Stale(last, now, cfg) then [last] else [])
  }

  /** The demoted records, in registry order, as the disconnect callback sees them. */
  function DemotedRecords(rs: seq<Conn>, now: int, cfg: Config): (r: seq<Conn>)
    decreases |rs|
  {
    if |rs| == 0 then []
    else
      var last := rs[|rs| - 1];
      DemotedRecords(rs[..|rs| - 1], now, cfg) + (if Demoted(last, now, cfg) then [MarkUnresponsive(last)] else [])
  }

  lemma DemotedKeysAppend(rs: seq<Conn>, c: Conn, now: int, cfg: Config)
    ensures DemotedKeys(rs + [c], now, cfg) ==
      DemotedKeys(rs, now, cfg) + (if Demoted(c, now, cfg) then {c.key} else {})
  {
    var longer := rs + [c];
    assert forall i :: 0 <= i < |rs| ==> longer[i] == rs[i];
    assert longer[|rs|] == c;
  }

  /** The loop body touches the cache only to file a demoted record, under
      its key, with its raised count at `now`. */
  lemma ObserveCache(cache: Cache, c: Conn, now: int, cfg: Config)
    ensures Observe(cache, c, now, cfg).cache ==
      if Demoted(c, now, cfg) then cache[c.key := Entry(MarkUnresponsive(c), now)] else cache
  {
  }

  /** The loop adds exactly the demoted keys to the cache. */
  lemma {:induction false} ScanCacheKeys(rs: seq<Conn>, cache: Cache, now: int, cfg: Config)
    ensures Scan(rs, cache, now, cfg).cache.Keys == cache.Keys + DemotedKeys(rs, now, cfg)
    decreases |rs|
  {
    if |rs| > 0 {
      var init, last := rs[..|rs| - 1], rs[|rs| - 1];
      assert rs == init + [last];
      ScanCacheKeys(init, cache, now, cfg);
      DemotedKeysAppend(init, last, now, cfg);
      ObserveCache(Scan(init, cache, now, cfg).cache, last, now, cfg);
    }
  }

  /** Every demoted record is filed under its key with its incremented count at `now`. */
  lemma {:induction false} ScanCacheDemoted(rs: seq<Conn>, cache: Cache, now: int, cfg: Config)
    requires KeysDistinct(rs)
    ensures forall i :: 0 <= i < |rs| && Demoted(rs[i], now, cfg) ==>
      && rs[i].key in Scan(rs, cache, now, cfg).cache
      && Scan(rs, cache, now, cfg).cache[rs[i].key] == Entry(MarkUnresponsive(rs[i]), now)
    decreases |rs|
  {
    if |rs| > 0 {
      var init, last := rs[..|rs| - 1], rs[|rs| - 1];
      ScanCacheDemoted(init, cache, now, cfg);
      ObserveCache(Scan(init, cache, now, cfg).cache, last, now, cfg);
      assert forall i :: 0 <= i < |init| ==> init[i] == rs[i] && init[i].key != last.key;
    }
  }

  /** Entries under keys the sweep does not demote are left as they were. */
  lemma {:induction false} ScanCacheKept(rs: seq<Conn>, cache: Cache, now: int, cfg: Config)
    ensures forall k :: k in cache && k !in DemotedKeys(rs, now, cfg) ==>
      k in Scan(rs, cache, now, cfg).cache && Scan(rs, cache, now, cfg).cache[k] == cache[k]
    decreases |rs|
  {
    if |rs| > 0 {
      var init, last := rs[..|rs| - 1], rs[|rs| - 1];
      assert rs == init + [last];
      ScanCacheKept(init, cache, now, cfg);
      DemotedKeysAppend(init, last, now, cfg);
      ObserveCache(Scan(init, cache, now, cfg).cache, last, now, cfg);
    }
  }

  lemma SubjectsSingle(e: Event, kind: Kind)
    ensures Subjects([e], kind) == if e.kind == kind then [e.conn] else []
  {
    assert [e][..0] == [];
  }

  /** Which records one loop body reports, callback by callback: the stale
      record as unresponsive, the demoted record as disconnected, and the
      record a demotion displaces from the cache as forgotten. */
  lemma ObserveSubjects(cache: Cache, c: Conn, now: int, cfg: Config, kind: Kind)
    ensures Subjects(Observe(cache, c, now, cfg).events, kind) ==
      if kind == Unresponsive && Stale(c, now, cfg) then [c]
      else if kind == Disconnect && Demoted(c, now, cfg) then [MarkUnresponsive(c)]
      else if kind == Forget && Demoted(c, now, cfg) && c.key in cache then [cache[c.key].conn]
      else []
  {
    var o := Observe(cache, c, now, cfg);
    if Demoted(c, now, cfg) {
      var displaced := o.events[2..];
      assert o.events == [o.events[0]] + ([o.events[1]] + displaced);
      SubjectsAppend([o.events[0]], [o.events[1]] + displaced, kind);
      SubjectsAppend([o.events[1]], displaced, kind);
      SubjectsSingle(o.events[0], kind);
      SubjectsSingle(o.events[1], kind);
      if c.key in cache {
        SubjectsSingle(displaced[0], kind);
      }
    } else if Stale(c, now, cfg) {
      SubjectsSingle(o.events[0], kind);
    }
  }

  /** The records the demotions of a sweep displace from the cache, in
      registry order: for each demoted record whose key is already cached,
      the cached record. */
  function DisplacedRecords(rs: seq<Conn>, cache: Cache, now: int, cfg: Config): (r: seq<Conn>)
    decreases |rs|
  {
    if |rs| == 0 then []
    else
      var last := rs[|rs| - 1];
      DisplacedRecords(rs[..|rs| - 1], cache, now, cfg)
        + (if Demoted(last, now, cfg) && last.key in cache then [cache[last.key].conn] else [])
  }

  /** The cache as the loop reaches a record holds, under that record's key,
      what it held before the sweep (distinct registry keys). */
  lemma ScanCacheAtNext(rs: seq<Conn>, c: Conn, cache: Cache, now: int, cfg: Config)
    requires KeysDistinct(rs + [c])
    ensures var seen := Scan(rs, cache, now, cfg).cache;
      && (c.key in seen <==> c.key in cache)
      && (c.key in cache ==> seen[c.key] == cache[c.key])
  {
    var all := rs + [c];
    assert forall i :: 0 <= i < |rs| ==> all[i] == rs[i] && all[|rs|] == c;
    ScanCacheKeys(rs, cache, now, cfg);
    ScanCacheKept(rs, cache, now, cfg);
    assert c.key !in DemotedKeys(rs, now, cfg);
  }

  /** Each forget of the loop reports one displaced record, and each
      displaced record is reported once: the forget reports are exactly the
      displaced records, in registry order. */
  lemma {:induction false} ScanForgetSubjects(rs: seq<Conn>, cache: Cache, now: int, cfg: Config)
    requires KeysDistinct(rs)
    ensures Subjects(Scan(rs, cache, now, cfg).events, Forget) == DisplacedRecords(rs, cache, now, cfg)
    decreases |rs|
  {
    if |rs| > 0 {
      var init, last := rs[..|rs| - 1], rs[|rs| - 1];
      assert rs == init + [last];
      assert forall i, j :: 0 <= i < j < |init| ==> init[i] == rs[i] && init[j] == rs[j];
      ScanForgetSubjects(init, cache, now, cfg);
      ScanCacheAtNext(init, last, cache, now, cfg);
      var p0 := Scan(init, cache, now, cfg);
      assert Scan(rs, cache, now, cfg).events == p0.events + Observe(p0.cache, last, now, cfg).events;
      SubjectsAppend(p0.events, Observe(p0.cache, last, now, cfg).events, Forget);
      ObserveSubjects(p0.cache, last, now, cfg, Forget);
    }
  }

  /** The loop reports every stale record once as unresponsive and every
      demoted record once as disconnected, in registry order, and never
      reports an acquisition or a reacquisition. */
  lemma {:induction false} ScanEvents(rs: seq<Conn>, cache: Cache, now: int, cfg: Config)
    ensures Subjects(Scan(rs, cache, now, cfg).events, Unresponsive) == StaleRecords(rs, now, cfg)
    ensures Subjects(Scan(rs, cache, now, cfg).events, Disconnect) == DemotedRecords(rs, now, cfg)
    ensures Subjects(Scan(rs, cache, now, cfg).events, Acquired) == []
    ensures Subjects(Scan(rs, cache, now, cfg).events, Reacquired) == []
    decreases |rs|
  {
    if |rs| > 0 {
      var init, last := rs[..|rs| - 1], rs[|rs| - 1];
      ScanEvents(init, cache, now, cfg);
      var p0 := Scan(init, cache, now, cfg);
      var o := Observe(p0.cache, last, now, cfg);
      assert Scan(rs, cache, now, cfg).events == p0.events + o.events;
      SubjectsAppend(p0.events, o.events, Unresponsive);
      SubjectsAppend(p0.events, o.events, Disconnect);
      SubjectsAppend(p0.events, o.events, Acquired);
      SubjectsAppend(p0.events, o.events, Reacquired);
      ObserveSubjects(p0.cache, last, now, cfg, Unresponsive);
      ObserveSubjects(p0.cache, last, now, cfg, Disconnect);
      ObserveSubjects(p0.cache, last, now, cfg, Acquired);
      ObserveSubjects(p0.cache, last, now, cfg, Reacquired);
    }
  }

  /** A forget during the loop only reports an entry that was in the cache
      before the sweep, under the key of a record the sweep demotes. */
  lemma {:induction false} ScanForgets(rs: seq<Conn>, cache: Cache, now: int, cfg: Config)
    requires KeysDistinct(rs)
    ensures forall e :: e in Scan(rs, cache, now, cfg).events && e.kind == Forget ==>
      && e.conn.key in cache
      && cache[e.conn.key].conn == e.conn
      && e.conn.key in DemotedKeys(rs, now, cfg)
    decreases |rs|
  {
    if |rs| > 0 {
      var init, last := rs[..|rs| - 1], rs[|rs| - 1];
      assert rs == init + [last];
      assert forall i :: 0 <= i < |init| ==> init[i] == rs[i] && init[i].key != last.key;
      ScanForgets(init, cache, now, cfg);
      DemotedKeysAppend(init, last, now, cfg);
      var p0 := Scan(init, cache, now, cfg);
      ScanCacheAtNext(init, last, cache, now, cfg);
      ObserveForgets(cache, p0.cache, last, now, cfg);
    }
  }

  /** The forget the loop body may emit for a record reports the entry the
      cache held under its key before the sweep, when the loop has not
      touched that slot. */
  lemma ObserveForgets(cache: Cache, seen: Cache, last: Conn, now: int, cfg: Config)
    requires last.key in seen <==> last.key in cache
    requires last.key in cache ==> seen[last.key] == cache[last.key]
    ensures forall e :: e in Observe(seen, last, now, cfg).events && e.kind == Forget ==>
      && e.conn.key == last.key && Demoted(last, now, cfg)
      && e.conn.key in cache && cache[e.conn.key].conn == e.conn
  {
    var o := Observe(seen, last, now, cfg);
    forall e | e in o.events && e.kind == Forget
      ensures e.conn.key == last.key && Demoted(last, now, cfg)
      ensures e.conn.key in cache && cache[e.conn.key].conn == e.conn
    {
      assert Demoted(last, now, cfg) && last.key in seen;
      assert e == Event(Forget, seen[last.key].conn);
    }
  }

  lemma {:induction false} RetainDistinct(rs: seq<Conn>, max: int)
    requires KeysDistinct(rs)
    ensures KeysDistinct(Retain(rs, max))
    decreases |rs|
  {
    if |rs| > 0 {
      var init, last := rs[..|rs| - 1], rs[|rs| - 1];
      assert forall i :: 0 <= i < |init| ==> init[i] == rs[i] && init[i].key != last.key;
      RetainDistinct(init, max);
      var kept := Retain(init, max);
      forall i | 0 <= i < |kept|
        ensures kept[i].key != last.key
      {
        assert kept[i] in init;
      }
    }
  }

  lemma MarkedDistinct(rs: seq<Conn>, cache: Cache, now: int, cfg: Config)
    requires KeysDistinct(rs)
    ensures KeysDistinct(Scan(rs, cache, now, cfg).marked)
  {
    var marked := Scan(rs, cache, now, cfg).marked;
    assert forall i :: 0 <= i < |rs| ==> marked[i].key == rs[i].key;
  }

  /** Every record the sweep keeps is a registry record, untouched or with
      its count raised by exactly one, and within the threshold: counts
      never go down while a record stays registered. */
  lemma SweepFailsMonotone(s: State, now: int, cfg: Config)
    ensures forall d :: d in Sweep(s, now, cfg).active ==>
      && d.fails <= cfg.maxDisconnectAttempts
      && exists j :: 0 <= j < |s.active| && (d == s.active[j] || d == MarkUnresponsive(s.active[j]))
  {
    var marked := Scan(s.active, s.cache, now, cfg).marked;
    forall d | d in Sweep(s, now, cfg).active
      ensures exists j :: 0 <= j < |s.active| && (d == s.active[j] || d == MarkUnresponsive(s.active[j]))
    {
      assert d in marked;
      var j :| 0 <= j < |marked| && marked[j] == d;
      assert d == Marked(s.active[j], now, cfg);
    }
  }

  /** A record, as the loop leaves it, stays registered exactly when its
      count is within the threshold. */
  lemma SweepKeepsMarked(s: State, now: int, cfg: Config, i: nat)
    requires i < |s.active|
    ensures var m := Marked(s.active[i], now, cfg);
      m in Sweep(s, now, cfg).active <==> m.fails <= cfg.maxDisconnectAttempts
  {
    var p := Scan(s.active, s.cache, now, cfg);
    assert p.marked[i] == Marked(s.active[i], now, cfg);
    assert p.marked[i] in p.marked;
  }

  /** A record whose count, as the loop leaves it, exceeds the threshold
      takes its key out of the registry (distinct registry keys). */
  lemma SweepDropsKey(s: State, now: int, cfg: Config, i: nat)
    requires KeysDistinct(s.active) && i < |s.active|
    ensures Marked(s.active[i], now, cfg).fails > cfg.maxDisconnectAttempts ==>
      forall d :: d in Sweep(s, now, cfg).active ==> d.key != s.active[i].key
  {
    var c := s.active[i];
    if Marked(c, now, cfg).fails > cfg.maxDisconnectAttempts {
      var p := Scan(s.active, s.cache, now, cfg);
      forall d | d in Sweep(s, now, cfg).active
        ensures d.key != c.key
      {
        assert d in p.marked;
        var j :| 0 <= j < |p.marked| && p.marked[j] == d;
        assert d == Marked(s.active[j], now, cfg) && d.key == s.active[j].key;
        assert j != i;
      }
    }
  }

  /** The cache slot of one registry record after the sweep: a demoted
      record fills it with its raised count; otherwise it is untouched. */
  lemma SweepCacheAt(s: State, now: int, cfg: Config, i: nat)
    requires KeysDistinct(s.active) && i < |s.active|
    ensures var c, r := s.active[i], Sweep(s, now, cfg);
      && (Demoted(c, now, cfg) ==> c.key in r.cache && r.cache[c.key] == Entry(MarkUnresponsive(c), now))
      && (!Demoted(c, now, cfg) ==>
            && (c.key in r.cache <==> c.key in s.cache)
            && (c.key in s.cache ==> r.cache[c.key] == s.cache[c.key]))
  {
    var c := s.active[i];
    ScanCacheDemoted(s.active, s.cache, now, cfg);
    if !Demoted(c, now, cfg) {
      ScanCacheKeys(s.active, s.cache, now, cfg);
      ScanCacheKept(s.active, s.cache, now, cfg);
      assert c.key !in DemotedKeys(s.active, now, cfg);
    }
  }

  /** The fate of one registry record.  A record that is not stale stays as
      it is if its count is within the threshold; a stale one is counted
      once more; a demoted one leaves the registry for the cache.  A record
      that is not stale but whose count already exceeds the threshold (one
      reacquired from the cache) leaves the registry without being cached. */
  lemma SweepRecord(s: State, now: int, cfg: Config, i: nat)
    requires KeysDistinct(s.active) && i < |s.active|
    ensures var c, r := s.active[i], Sweep(s, now, cfg);
      && (!Stale(c, now, cfg) && c.fails <= cfg.maxDisconnectAttempts ==> c in r.active)
      && (Stale(c, now, cfg) && !Demoted(c, now, cfg) ==> MarkUnresponsive(c) in r.active)
      && (Demoted(c, now, cfg) ==>
            && (forall d :: d in r.active ==> d.key != c.key)
            && c.key in r.cache && r.cache[c.key] == Entry(MarkUnresponsive(c), now))
      && (!Stale(c, now, cfg) && c.fails > cfg.maxDisconnectAttempts ==>
            && (forall d :: d in r.active ==> d.key != c.key)
            && (c.key in r.cache <==> c.key in s.cache)
            && (c.key in s.cache ==> r.cache[c.key] == s.cache[c.key]))
  {
    SweepKeepsMarked(s, now, cfg, i);
    SweepDropsKey(s, now, cfg, i);
    SweepCacheAt(s, now, cfg, i);
  }

  /** The sweep keeps the registry/cache invariant: distinct registry keys,
      no registry key live in the cache, every cached count past the threshold. */
  lemma SweepPreservesInv(s: State, now: int, cfg: Config)
    requires Inv(s, now, cfg)
    ensures Inv(Sweep(s, now, cfg), now, cfg)
  {
    var p := Scan(s.active, s.cache, now, cfg);
    MarkedDistinct(s.active, s.cache, now, cfg);
    RetainDistinct(p.marked, cfg.maxDisconnectAttempts);
    ScanCacheOver(s.active, s.cache, now, cfg);
    SweepDisjoint(s, now, cfg);
  }

  /** Everything the loop files in the cache is over the threshold. */
  lemma {:induction false} ScanCacheOver(rs: seq<Conn>, cache: Cache, now: int, cfg: Config)
    requires CachedOverThreshold(cache, cfg)
    ensures CachedOverThreshold(Scan(rs, cache, now, cfg).cache, cfg)
    decreases |rs|
  {
    if |rs| > 0 {
      var init, last := rs[..|rs| - 1], rs[|rs| - 1];
      ScanCacheOver(init, cache, now, cfg);
      ObserveCache(Scan(init, cache, now, cfg).cache, last, now, cfg);
    }
  }

  /** No record the sweep keeps has a live cache entry afterwards. */
  lemma SweepDisjoint(s: State, now: int, cfg: Config)
    requires Inv(s, now, cfg)
    ensures Disjoint(Sweep(s, now, cfg), now)
  {
    var p := Scan(s.active, s.cache, now, cfg);
    var r := Sweep(s, now, cfg);
    forall i | 0 <= i < |r.active|
      ensures !Live(r.cache, r.active[i].key, now)
    {
      var d := r.active[i];
      assert d in r.active && d in p.marked;
      var j :| 0 <= j < |p.marked| && p.marked[j] == d;
      assert d == Marked(s.active[j], now, cfg) && d.key == s.active[j].key;
      SweepCacheAt(s, now, cfg, j);
      assert !Live(s.cache, s.active[j].key, now);
    }
  }

  /** The events of one sweep: each stale record is reported unresponsive
      once, each demoted record disconnected once, and each record a
      demotion displaces from the cache forgotten once, all in registry
      order; nothing is reported acquired or reacquired; and a forget
      reports only an already-expired entry displaced by a demotion. */
  lemma SweepEvents(s: State, now: int, cfg: Config)
    requires Inv(s, now, cfg)
    ensures var emitted := Sweep(s, now, cfg).events[|s.events|..];
      && Subjects(emitted, Unresponsive) == StaleRecords(s.active, now, cfg)
      && Subjects(emitted, Disconnect) == DemotedRecords(s.active, now, cfg)
      && Subjects(emitted, Forget) == DisplacedRecords(s.active, s.cache, now, cfg)
      && Subjects(emitted, Acquired) == []
      && Subjects(emitted, Reacquired) == []
      && forall e :: e in emitted && e.kind == Forget ==>
           && e.conn.key in s.cache
           && s.cache[e.conn.key].conn == e.conn
           && IsExpired(s.cache[e.conn.key], now)
  {
    var p := Scan(s.active, s.cache, now, cfg);
    assert Sweep(s, now, cfg).events[|s.events|..] == p.events;
    ScanEvents(s.active, s.cache, now, cfg);
    ScanForgets(s.active, s.cache, now, cfg);
    ScanForgetSubjects(s.active, s.cache, now, cfg);
    forall e | e in p.events && e.kind == Forget
      ensures IsExpired(s.cache[e.conn.key], now)
    {
      var j :| 0 <= j < |s.active| && Demoted(s.active[j], now, cfg) && s.active[j].key == e.conn.key;
      assert !Live(s.cache, s.active[j].key, now);
    }
  }

  /** Every event of the loop is about a record that was stale: the forget
      of a displaced entry carries that entry's record, filed under the same key. */
  lemma {:induction false} ScanEventKeys(rs: seq<Conn>, cache: Cache, now: int, cfg: Config)
    ensures forall e :: e in Scan(rs, cache, now, cfg).events ==>
      exists i :: 0 <= i < |rs| && Stale(rs[i], now, cfg) && rs[i].key == e.conn.key
    decreases |rs|
  {
    if |rs| > 0 {
      var init, last := rs[..|rs| - 1], rs[|rs| - 1];
      ScanEventKeys(init, cache, now, cfg);
      var p0 := Scan(init, cache, now, cfg);
      var o := Observe(p0.cache, last, now, cfg);
      assert Scan(rs, cache, now, cfg).events == p0.events + o.events;
      forall e | e in p0.events + o.events
        ensures exists i :: 0 <= i < |rs| && Stale(rs[i], now, cfg) && rs[i].key == e.conn.key
      {
        if e in p0.events {
          var i :| 0 <= i < |init| && Stale(init[i], now, cfg) && init[i].key == e.conn.key;
          assert rs[i] == init[i];
        } else {
          assert e.conn.key == last.key;
          assert rs[|rs| - 1] == last;
        }
      }
    }
  }

  /** Every event of one loop body concerns the observed peer's key. */
  lemma ObserveKeys(cache: Cache, c: Conn, now: int, cfg: Config)
    ensures forall i :: 0 <= i < |Observe(cache, c, now, cfg).events| ==>
      Observe(cache, c, now, cfg).events[i].conn.key == c.key
  {
    var o := Observe(cache, c, now, cfg);
    if Demoted(c, now, cfg) {
      assert o.events == [o.events[0], o.events[1]] + o.events[2..];
    }
  }

  /** The loop reports nothing about a key no registry record carries. */
  lemma ScanAboutAbsent(rs: seq<Conn>, cache: Cache, now: int, cfg: Config, k: Key)
    requires forall i :: 0 <= i < |rs| ==> rs[i].key != k
    ensures About(Scan(rs, cache, now, cfg).events, k) == []
  {
    var events := Scan(rs, cache, now, cfg).events;
    ScanEventKeys(rs, cache, now, cfg);
    forall j | 0 <= j < |events|
      ensures events[j].conn.key != k
    {
      assert events[j] in events;
    }
    AboutNone(events, k);
  }

  /** A loop body depends on the cache only through the observed key. */
  lemma ObserveLocal(before: Cache, seen: Cache, c: Conn, now: int, cfg: Config)
    requires c.key in seen <==> c.key in before
    requires c.key in before ==> seen[c.key] == before[c.key]
    ensures Observe(seen, c, now, cfg).events == Observe(before, c, now, cfg).events
  {
  }

  /** What the loop reports about the last record it visits is what that
      record's own loop body reports against the cache before the sweep. */
  lemma ScanAboutLast(init: seq<Conn>, last: Conn, cache: Cache, now: int, cfg: Config)
    requires KeysDistinct(init + [last])
    ensures About(Scan(init + [last], cache, now, cfg).events, last.key) == Observe(cache, last, now, cfg).events
  {
    var rs := init + [last];
    assert rs[..|rs| - 1] == init && rs[|rs| - 1] == last;
    var p0 := Scan(init, cache, now, cfg);
    var o := Observe(p0.cache, last, now, cfg);
    assert Scan(rs, cache, now, cfg).events == p0.events + o.events;
    AboutAppend(p0.events, o.events, last.key);
    assert forall m :: 0 <= m < |init| ==> init[m] == rs[m];
    ScanAboutAbsent(init, cache, now, cfg, last.key);
    ObserveKeys(p0.cache, last, now, cfg);
    AboutAll(o.events, last.key);
    ScanCacheAtNext(init, last, cache, now, cfg);
    ObserveLocal(cache, p0.cache, last, now, cfg);
  }

  /** What the loop reports about one peer is what its own loop body
      reports against the cache as it was before the sweep: events about
      other peers never carry its key (distinct registry keys). */
  lemma {:induction false} ScanAbout(rs: seq<Conn>, cache: Cache, now: int, cfg: Config, i: nat)
    requires KeysDistinct(rs) && i < |rs|
    ensures About(Scan(rs, cache, now, cfg).events, rs[i].key) == Observe(cache, rs[i], now, cfg).events
    decreases |rs|
  {
    var init, last := rs[..|rs| - 1], rs[|rs| - 1];
    assert rs == init + [last];
    if i == |rs| - 1 {
      ScanAboutLast(init, last, cache, now, cfg);
    } else {
      var k := rs[i].key;
      assert forall a, b :: 0 <= a < b < |init| ==> init[a] == rs[a] && init[b] == rs[b];
      ScanAbout(init, cache, now, cfg, i);
      assert init[i] == rs[i];
      var p0 := Scan(init, cache, now, cfg);
      var o := Observe(p0.cache, last, now, cfg);
      assert Scan(rs, cache, now, cfg).events == p0.events + o.events;
      AboutAppend(p0.events, o.events, k);
      ObserveKeys(p0.cache, last, now, cfg);
      AboutNone(o.events, k);
    }
  }

  /** One sweep, seen from one stale peer in a registry with distinct keys:
      what is reported about the peer is exactly its own loop body's
      report; below the threshold it stays registered, counted once more,
      and its cache slot is untouched; past it, it leaves the registry and
      is cached with the raised count. */
  lemma SweepPeer(s: State, now: int, cfg: Config, i: nat)
    requires KeysDistinct(s.active) && i < |s.active| && Stale(s.active[i], now, cfg)
    ensures var c, r := s.active[i], Sweep(s, now, cfg);
      && About(r.events[|s.events|..], c.key) == Observe(s.cache, c, now, cfg).events
      && KeysDistinct(r.active)
      && (!Demoted(c, now, cfg) ==>
            && MarkUnresponsive(c) in r.active
            && (c.key in r.cache <==> c.key in s.cache)
            && (c.key in s.cache ==> r.cache[c.key] == s.cache[c.key]))
      && (Demoted(c, now, cfg) ==>
            && (forall d :: d in r.active ==> d.key != c.key)
            && c.key in r.cache && r.cache[c.key] == Entry(MarkUnresponsive(c), now))
  {
    var r := Sweep(s, now, cfg);
    var p := Scan(s.active, s.cache, now, cfg);
    assert r.events[|s.events|..] == p.events;
    ScanAbout(s.active, s.cache, now, cfg, i);
    MarkedDistinct(s.active, s.cache, now, cfg);
    RetainDistinct(p.marked, cfg.maxDisconnectAttempts);
    SweepKeepsMarked(s, now, cfg, i);
    SweepDropsKey(s, now, cfg, i);
    SweepCacheAt(s, now, cfg, i);
  }
}
