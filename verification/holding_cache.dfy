/** The `disconnected` holding cache: demoted records keyed by host and port,
    bounded by an age since insertion and an entry count, with a removal
    listener that tells explicit invalidation apart from automatic removal. */
module HoldingCache {
  import opened Wrappers
  import opened Connection

  /** expireAfterWrite(10, MINUTES), in milliseconds. */
  const MaxAge: int := 10 * 60 * 1000

  /** maximumSize(1000). */
  const MaxSize: nat := 1000

  datatype Entry = Entry(conn: Conn, insertedAt: int)

  /** Every entry is filed under the key of the record it holds: the source
      derives the cache key from the record's own host and port. */
  type Cache = m: map<Key, Entry> | forall k :: k in m ==> m[k].conn.key == k
    witness map[]

  /** Removal causes this cache can report; COLLECTED cannot arise because
      neither keys nor values are weakly held. */
  datatype Cause = Explicit | Replaced | Expired | Size

  /** An entry has reached the maximum age since it was written. */
  predicate IsExpired(e: Entry, now: int) {
    now - e.insertedAt >= MaxAge
  }

  /** `k` maps to an entry that a lookup at `now` would still return. */
  predicate Live(cache: Cache, k: Key, now: int) {
    k in cache && !IsExpired(cache[k], now)
  }

  /** `getIfPresent`: an expired entry is never returned, even while the
      cache has not yet cleaned it up. */
  function GetIfPresent(cache: Cache, k: Key, now: int): (r: Option<Conn>)
    ensures r.Some? <==> Live(cache, k, now)
    ensures r.Some? ==> r.value == cache[k].conn
  {
    if Live(cache, k, now) then Some(cache[k].conn) else None
  }

  /** The removal listener: silent when the entry was invalidated on
      purpose (reacquisition), one forget event for every other cause. */
  function OnRemoval(cause: Cause, c: Conn): (events: seq<Event>)
    ensures cause == Explicit <==> events == []
    ensures cause != Explicit ==> events == [Event(Forget, c)]
  {
    if cause == Explicit then [] else [Event(Forget, c)]
  }

  /** A cache after a removal or a write, with the listener's events. */
  datatype Removal = Removal(cache: Cache, events: seq<Event>)

  /** Remove `k` for `cause`; the listener runs only if an entry was there. */
  function Remove(cache: Cache, k: Key, cause: Cause): (r: Removal)
    ensures r.cache.Keys == cache.Keys - {k}
    ensures forall other :: other in r.cache ==> r.cache[other] == cache[other]
    ensures k !in cache || cause == Explicit ==> r.events == []
    ensures k in cache && cause != Explicit ==> r.events == [Event(Forget, cache[k].conn)]
  {
    if k in cache then Removal(cache - {k}, OnRemoval(cause, cache[k].conn))
    else Removal(cache, [])
  }

  /** `put` at demotion time.  A displaced entry is reported with cause
      EXPIRED or REPLACED; neither is EXPLICIT, so each yields a forget. */
  function Put(cache: Cache, c: Conn, now: int): (r: Removal)
    ensures r.cache == cache[c.key := Entry(c, now)]
    ensures c.key !in cache ==> r.events == []
    ensures c.key in cache ==> r.events == [Event(Forget, cache[c.key].conn)]
  {
    var displaced :=
      if c.key !in cache then []
      else OnRemoval(if IsExpired(cache[c.key], now) then Expired else Replaced, cache[c.key].conn);
    Removal(cache[c.key := Entry(c, now)], displaced)
  }

  /** A lookup after a write: the written record is returned exactly while
      less than ten minutes have passed since the write, and lookups of
      every other key are unaffected. */
  lemma PutThenGet(cache: Cache, c: Conn, written: int, now: int, k: Key)
    ensures GetIfPresent(Put(cache, c, written).cache, c.key, now) ==
      if now - written < MaxAge then Some(c) else None
    ensures k != c.key ==> GetIfPresent(Put(cache, c, written).cache, k, now) == GetIfPresent(cache, k, now)
  {
  }

  /** A lookup after a removal, for any cause, finds nothing under that key
      and is unaffected under every other key. */
  lemma RemoveThenGet(cache: Cache, k: Key, cause: Cause, now: int, other: Key)
    ensures GetIfPresent(Remove(cache, k, cause).cache, k, now) == None
    ensures other != k ==> GetIfPresent(Remove(cache, k, cause).cache, other, now) == GetIfPresent(cache, other, now)
  {
  }

  /** The size bound: when the cache holds more than `MaxSize` entries the
      entry the cache picks as `victim` is evicted with cause SIZE. */
  function Trim(cache: Cache, victim: Key): (r: Removal)
    ensures |cache| <= MaxSize || victim !in cache ==> r == Removal(cache, [])
    ensures |cache| > MaxSize && victim in cache ==>
      && r.cache.Keys == cache.Keys - {victim}
      && r.events == [Event(Forget, cache[victim].conn)]
  {
    if |cache| > MaxSize && victim in cache then Remove(cache, victim, Size) else Removal(cache, [])
  }

  /** Writing a key adds one entry exactly when the key was absent. */
  lemma PutSize(cache: Cache, c: Conn, now: int)
    ensures |Put(cache, c, now).cache| == if c.key in cache then |cache| else |cache| + 1
  {
    var m := Put(cache, c, now).cache;
    if c.key in cache {
      assert m.Keys == cache.Keys;
    } else {
      assert m.Keys == cache.Keys + {c.key};
    }
  }

  /** A write into a cache within its bound, followed by the size check,
      leaves the cache within its bound again, provided the cache picks a
      victim other than the entry just written: the written record stays,
      and the victim is reported as forgotten. */
  lemma PutTrimBounded(cache: Cache, c: Conn, now: int, victim: Key)
    requires |cache| <= MaxSize
    ensures var p := Put(cache, c, now);
      && (|p.cache| <= MaxSize ==> Trim(p.cache, victim) == Removal(p.cache, []))
      && (|p.cache| > MaxSize ==> |p.cache| == MaxSize + 1 && c.key !in cache)
      && (|p.cache| > MaxSize && victim in cache ==>
            var t := Trim(p.cache, victim);
            && |t.cache| == MaxSize
            && c.key in t.cache && t.cache[c.key] == Entry(c, now)
            && t.events == [Event(Forget, cache[victim].conn)])
  {
    var p := Put(cache, c, now);
    PutSize(cache, c, now);
    if |p.cache| > MaxSize && victim in cache {
      assert victim != c.key;
      assert victim in p.cache && p.cache[victim] == cache[victim];
      var t := Trim(p.cache, victim);
      assert t.cache.Keys == p.cache.Keys - {victim};
      assert |t.cache.Keys| == |p.cache.Keys| - 1;
    }
  }
}
