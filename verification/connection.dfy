/** The record the server keeps for one remote peer (`JapsonConnection`),
    and the lifecycle events reported to listeners about such records. */
module Connection {

  /** Identity of a peer: host and port.  The registry and the holding cache
      both look peers up by this key. */
  datatype Key = Key(host: string, port: int)

  /** One peer.  `updated` is the time of the last contact in milliseconds;
      `fails` counts the heartbeat sweeps that found the peer stale. */
  datatype Conn = Conn(key: Key, identification: string, updated: int, fails: nat)

  /** A record as its constructor builds it: last seen now, no failures. */
  function Fresh(key: Key, identification: string, now: int): (r: Conn)
    ensures r.key == key && r.identification == identification
    ensures r.updated == now && r.fails == 0
  {
    Conn(key, identification, now, 0)
  }

  /** `unresponsive()`: one more stale sweep; nothing else about the peer changes. */
  function MarkUnresponsive(c: Conn): (r: Conn)
    ensures r.fails == c.fails + 1
    ensures r.key == c.key && r.identification == c.identification && r.updated == c.updated
  {
    c.(fails := c.fails + 1)
  }

  /** `update()`: contact was made at `now`; the count is left alone. */
  function Refresh(c: Conn, now: int): (r: Conn)
    ensures r.updated == now
    ensures r.key == c.key && r.identification == c.identification && r.fails == c.fails
  {
    c.(updated := now)
  }

  /** Contact and failure counting touch separate fields: the order in which
      they happen does not matter, and only `update()` resets the clock. */
  lemma RecordUpdatesCommute(c: Conn, now: int, n: nat)
    ensures MarkUnresponsive(Refresh(c, now)) == Refresh(MarkUnresponsive(c), now)
    ensures Refresh(c.(fails := c.fails + n), now).fails == c.fails + n
    ensures Refresh(Fresh(c.key, c.identification, c.updated), now) == Fresh(c.key, c.identification, now)
  {
  }

  /** The five listener callbacks. */
  datatype Kind = Acquired | Reacquired | Unresponsive | Disconnect | Forget

  /** One callback, with the record as the listener saw it. */
  datatype Event = Event(kind: Kind, conn: Conn)

  /** The records reported by the events of one kind, in emission order. */
  function Subjects(events: seq<Event>, kind: Kind): (r: seq<Conn>)
    ensures |r| <= |events|
    decreases |events|
  {
    if |events| == 0 then []
    else
      var last := events[|events| - 1];
      Subjects(events[..|events| - 1], kind) + (if last.kind == kind then [last.conn] else [])
  }

  lemma {:induction false} SubjectsAppend(a: seq<Event>, b: seq<Event>, kind: Kind)
    ensures Subjects(a + b, kind) == Subjects(a, kind) + Subjects(b, kind)
    decreases |b|
  {
    if |b| == 0 {
      assert a + b == a;
    } else {
      var init := b[..|b| - 1];
      assert (a + b)[..|a + b| - 1] == a + init;
      SubjectsAppend(a, init, kind);
    }
  }

  /** The events concerning the peer filed under `k`, in emission order. */
  function About(events: seq<Event>, k: Key): (r: seq<Event>)
    ensures |r| <= |events|
    decreases |events|
  {
    if |events| == 0 then []
    else
      var last := events[|events| - 1];
      About(events[..|events| - 1], k) + (if last.conn.key == k then [last] else [])
  }

  lemma {:induction false} AboutAppend(a: seq<Event>, b: seq<Event>, k: Key)
    ensures About(a + b, k) == About(a, k) + About(b, k)
    decreases |b|
  {
    if |b| == 0 {
      assert a + b == a;
    } else {
      var init := b[..|b| - 1];
      assert (a + b)[..|a + b| - 1] == a + init;
      AboutAppend(a, init, k);
    }
  }

  /** Events about other peers are filtered out entirely. */
  lemma {:induction false} AboutNone(events: seq<Event>, k: Key)
    requires forall i :: 0 <= i < |events| ==> events[i].conn.key != k
    ensures About(events, k) == []
    decreases |events|
  {
    if |events| > 0 {
      AboutNone(events[..|events| - 1], k);
    }
  }

  /** Events all about `k` are kept entirely. */
  lemma {:induction false} AboutAll(events: seq<Event>, k: Key)
    requires forall i :: 0 <= i < |events| ==> events[i].conn.key == k
    ensures About(events, k) == events
    decreases |events|
  {
    if |events| > 0 {
      AboutAll(events[..|events| - 1], k);
      assert events == events[..|events| - 1] + [events[|events| - 1]];
    }
  }
}
