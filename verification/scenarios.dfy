/** Whole runs of the liveness machine: repeated sweeps of a silent peer,
    reacquisition inside and outside the holding window, and what becomes
    of a reacquired peer at the next sweep. */
module Scenarios {
  import opened Wrappers
  import opened Connection
  import opened HoldingCache
  import opened Connections
  import opened Heartbeat

  /** The `i`-th step of a run is a sweep at `times[i]`. */
  predicate Swept(run: seq<State>, times: seq<int>, cfg: Config, i: nat)
    requires i < |times| && |run| == |times| + 1
  {
    run[i + 1] == Sweep(run[i], times[i], cfg)
  }

  /** `run[i + 1]` is the state after a sweep of `run[i]` at `times[i]`. */
  predicate SweepRun(run: seq<State>, times: seq<int>, cfg: Config) {
    && |run| == |times| + 1
    && forall i: nat :: i < |times| ==> Swept(run, times, cfg, i)
  }

  /** The steps of a run after its first sweep form a run. */
  lemma RunTail(run: seq<State>, times: seq<int>, cfg: Config)
    requires SweepRun(run, times, cfg) && |times| > 0
    ensures SweepRun(run[1..], times[1..], cfg)
  {
    var r, t := run[1..], times[1..];
    forall i: nat | i < |t|
      ensures Swept(r, t, cfg, i)
    {
      assert Swept(run, times, cfg, i + 1);
    }
  }

  /** The steps of a run before its last sweep form a run. */
  lemma RunInit(run: seq<State>, times: seq<int>, cfg: Config)
    requires SweepRun(run, times, cfg) && |times| > 0
    ensures SweepRun(run[..|times|], times[..|times| - 1], cfg)
  {
    var r, t := run[..|times|], times[..|times| - 1];
    forall i: nat | i < |t|
      ensures Swept(r, t, cfg, i)
    {
      assert Swept(run, times, cfg, i);
    }
  }

  /** The unresponsive reports a silent peer receives from `n` sweeps. */
  function Reports(c: Conn, n: nat): (r: seq<Event>)
    decreases n
  {
    if n == 0 then [] else [Event(Unresponsive, c)] + Reports(MarkUnresponsive(c), n - 1)
  }

  /** The i-th report carries the record with i more failures. */
  lemma {:induction false} ReportsAt(c: Conn, n: nat)
    ensures |Reports(c, n)| == n
    ensures forall i :: 0 <= i < n ==> Reports(c, n)[i] == Event(Unresponsive, c.(fails := c.fails + i))
    decreases n
  {
    if n > 0 {
      ReportsAt(MarkUnresponsive(c), n - 1);
      var r := Reports(c, n);
      assert r == [Event(Unresponsive, c)] + Reports(MarkUnresponsive(c), n - 1);
      forall i | 0 <= i < n
        ensures r[i] == Event(Unresponsive, c.(fails := c.fails + i))
      {
        if i > 0 {
          assert r[i] == Reports(MarkUnresponsive(c), n - 1)[i - 1];
        }
      }
    }
  }

  /** One sweep of a registry holding a single stale record. */
  lemma SweepSingle(s: State, c: Conn, now: int, cfg: Config)
    requires s.active == [c] && c.key !in s.cache && Stale(c, now, cfg)
    ensures !Demoted(c, now, cfg) ==>
      Sweep(s, now, cfg) == State([MarkUnresponsive(c)], s.cache, s.events + [Event(Unresponsive, c)])
    ensures Demoted(c, now, cfg) ==>
      Sweep(s, now, cfg) == State([], s.cache[c.key := Entry(MarkUnresponsive(c), now)],
                                  s.events + [Event(Unresponsive, c), Event(Disconnect, MarkUnresponsive(c))])
  {
    assert [c][..0] == [];
    var o := Observe(s.cache, c, now, cfg);
    assert Scan([c], s.cache, now, cfg) == Pass([] + [o.conn], o.cache, [] + o.events);
    assert [o.conn][..0] == [];
    assert Retain([o.conn], cfg.maxDisconnectAttempts) ==
      if o.conn.fails <= cfg.maxDisconnectAttempts then [o.conn] else [];
  }

  /** Step `i` of a run over a registry holding a single stale record. */
  lemma LoneStep(run: seq<State>, times: seq<int>, cfg: Config, i: nat, c: Conn)
    requires SweepRun(run, times, cfg) && i < |times|
    requires run[i].active == [c] && c.key !in run[i].cache && Stale(c, times[i], cfg)
    ensures !Demoted(c, times[i], cfg) ==>
      run[i + 1] == State([MarkUnresponsive(c)], run[i].cache, run[i].events + [Event(Unresponsive, c)])
    ensures Demoted(c, times[i], cfg) ==>
      run[i + 1] == State([], run[i].cache[c.key := Entry(MarkUnresponsive(c), times[i])],
                          run[i].events + [Event(Unresponsive, c), Event(Disconnect, MarkUnresponsive(c))])
  {
    assert Swept(run, times, cfg, i);
    SweepSingle(run[i], c, times[i], cfg);
  }

  /** Step `i` of a run, for a stale peer whose count stays within the threshold. */
  lemma CountedStep(run: seq<State>, times: seq<int>, cfg: Config, i: nat, c: Conn)
    requires SweepRun(run, times, cfg) && i < |times|
    requires KeysDistinct(run[i].active) && c in run[i].active
    requires Stale(c, times[i], cfg) && !Demoted(c, times[i], cfg)
    ensures var s0, s1 := run[i], run[i + 1];
      && KeysDistinct(s1.active) && MarkUnresponsive(c) in s1.active
      && (c.key in s1.cache <==> c.key in s0.cache)
      && (c.key in s0.cache ==> s1.cache[c.key] == s0.cache[c.key])
      && |s0.events| <= |s1.events| && s1.events[..|s0.events|] == s0.events
      && About(s1.events[|s0.events|..], c.key) == [Event(Unresponsive, c)]
  {
    assert Swept(run, times, cfg, i);
    var j :| 0 <= j < |run[i].active| && run[i].active[j] == c;
    SweepPeer(run[i], times[i], cfg, j);
  }

  /** Step `i` of a run, for the sweep that takes a stale peer's count past the threshold. */
  lemma DemotingStep(run: seq<State>, times: seq<int>, cfg: Config, i: nat, c: Conn)
    requires SweepRun(run, times, cfg) && i < |times|
    requires KeysDistinct(run[i].active) && c in run[i].active && Demoted(c, times[i], cfg)
    ensures var s0, s1 := run[i], run[i + 1];
      && (forall d :: d in s1.active ==> d.key != c.key)
      && c.key in s1.cache && s1.cache[c.key] == Entry(MarkUnresponsive(c), times[i])
      && |s0.events| <= |s1.events| && s1.events[..|s0.events|] == s0.events
      && About(s1.events[|s0.events|..], c.key) ==
           [Event(Unresponsive, c), Event(Disconnect, MarkUnresponsive(c))]
             + (if c.key in s0.cache then [Event(Forget, s0.cache[c.key].conn)] else [])
  {
    assert Swept(run, times, cfg, i);
    var j :| 0 <= j < |run[i].active| && run[i].active[j] == c;
    SweepPeer(run[i], times[i], cfg, j);
    var o := Observe(run[i].cache, c, times[i], cfg);
    assert o.events == [o.events[0], o.events[1]] + o.events[2..];
  }

  /** Events appended in two stages: what concerns a key in the whole is
      what concerns it in each stage. */
  lemma AboutStages(e0: seq<Event>, e1: seq<Event>, e2: seq<Event>, k: Key)
    requires |e0| <= |e1| && e1[..|e0|] == e0
    requires |e1| <= |e2| && e2[..|e1|] == e1
    ensures |e0| <= |e2| && e2[..|e0|] == e0
    ensures About(e2[|e0|..], k) == About(e1[|e0|..], k) + About(e2[|e1|..], k)
  {
    assert e2[|e0|..] == e1[|e0|..] + e2[|e1|..];
    AboutAppend(e1[|e0|..], e2[|e1|..], k);
  }

  /** Sweeps that find a silent peer stale but leave its count within the
      threshold, whatever else the registry holds: each reports the peer
      unresponsive once and raises its count by one, the peer stays
      registered, its cache slot is untouched, and nothing else reported
      concerns its key. */
  lemma {:induction false} SilentPeerCounted(run: seq<State>, c: Conn, times: seq<int>, cfg: Config)
    requires SweepRun(run, times, cfg)
    requires KeysDistinct(run[0].active) && c in run[0].active
    requires c.fails + |times| <= cfg.maxDisconnectAttempts
    requires forall i :: 0 <= i < |times| ==> Stale(c, times[i], cfg)
    ensures var first, last := run[0], run[|times|];
      && KeysDistinct(last.active)
      && c.(fails := c.fails + |times|) in last.active
      && (c.key in last.cache <==> c.key in first.cache)
      && (c.key in first.cache ==> last.cache[c.key] == first.cache[c.key])
      && |first.events| <= |last.events| && last.events[..|first.events|] == first.events
      && About(last.events[|first.events|..], c.key) == Reports(c, |times|)
    decreases |times|
  {
    if |times| == 0 {
      assert run[0].events[|run[0].events|..] == [];
    } else {
      var c1 := MarkUnresponsive(c);
      RunTail(run, times, cfg);
      CountedStep(run, times, cfg, 0, c);
      var rest, tail := times[1..], run[1..];
      assert forall j :: 0 <= j < |rest| ==> Stale(c1, rest[j], cfg) by {
        assert forall j :: 0 <= j < |rest| ==> rest[j] == times[j + 1];
      }
      SilentPeerCounted(tail, c1, rest, cfg);
      assert tail[|rest|] == run[|times|] && tail[0] == run[1];
      assert c1.(fails := c1.fails + |rest|) == c.(fails := c.fails + |times|);
      var e0, e1, e2 := run[0].events, run[1].events, run[|times|].events;
      assert About(e1[|e0|..], c.key) == [Event(Unresponsive, c)];
      assert About(e2[|e1|..], c.key) == Reports(c1, |rest|);
      AboutStages(e0, e1, e2, c.key);
      ReportsCons(c, |rest|);
      assert About(e2[|e0|..], c.key) == Reports(c, |times|);
    }
  }

  /** A peer that is never heard from again, in any registry with distinct
      keys, is reported unresponsive by every sweep with its count one
      higher each time; the sweep that takes the count past the threshold
      reports it disconnected, files it in the cache and forgets whatever
      the cache held under its key; it has then left the registry. */
  lemma SilentPeerDemoted(run: seq<State>, c: Conn, times: seq<int>, cfg: Config)
    requires SweepRun(run, times, cfg)
    requires KeysDistinct(run[0].active) && c in run[0].active
    requires c.fails <= cfg.maxDisconnectAttempts
    requires |times| == cfg.maxDisconnectAttempts + 1 - c.fails
    requires forall i :: 0 <= i < |times| ==> Stale(c, times[i], cfg)
    ensures var first, final := run[0], run[|times|];
      var demoted := c.(fails := cfg.maxDisconnectAttempts + 1);
      && (forall d :: d in final.active ==> d.key != c.key)
      && c.key in final.cache && final.cache[c.key] == Entry(demoted, times[|times| - 1])
      && |first.events| <= |final.events| && final.events[..|first.events|] == first.events
      && About(final.events[|first.events|..], c.key) ==
           Reports(c, |times|) + [Event(Disconnect, demoted)]
             + (if c.key in first.cache then [Event(Forget, first.cache[c.key].conn)] else [])
  {
    var n: nat := |times| - 1;
    CountedBeforeLast(run, c, times, cfg);
    var cn := c.(fails := c.fails + n);
    DemotingStep(run, times, cfg, n, cn);
    var forgot := if c.key in run[0].cache then [Event(Forget, run[0].cache[c.key].conn)] else [];
    assert run[n + 1] == run[|times|] && cn.key == c.key;
    assert MarkUnresponsive(cn) == c.(fails := cfg.maxDisconnectAttempts + 1);
    assert forgot == if cn.key in run[n].cache then [Event(Forget, run[n].cache[cn.key].conn)] else [];
    DemotedTrace(run[0].events, run[n].events, run[|times|].events, c, n, |times|,
                 cfg.maxDisconnectAttempts + 1, forgot);
  }

  /** The sweeps of a run before its last one, for a silent peer. */
  lemma CountedBeforeLast(run: seq<State>, c: Conn, times: seq<int>, cfg: Config)
    requires SweepRun(run, times, cfg) && |times| > 0
    requires KeysDistinct(run[0].active) && c in run[0].active
    requires c.fails + |times| - 1 <= cfg.maxDisconnectAttempts
    requires forall i :: 0 <= i < |times| ==> Stale(c, times[i], cfg)
    ensures var first, sn := run[0], run[|times| - 1];
      && KeysDistinct(sn.active)
      && c.(fails := c.fails + (|times| - 1)) in sn.active
      && (c.key in sn.cache <==> c.key in first.cache)
      && (c.key in first.cache ==> sn.cache[c.key] == first.cache[c.key])
      && |first.events| <= |sn.events| && sn.events[..|first.events|] == first.events
      && About(sn.events[|first.events|..], c.key) == Reports(c, |times| - 1)
  {
    var n := |times| - 1;
    var init, prefix := times[..n], run[..n + 1];
    RunInit(run, times, cfg);
    assert forall i :: 0 <= i < n ==> init[i] == times[i];
    SilentPeerCounted(prefix, c, init, cfg);
    assert prefix[0] == run[0] && prefix[n] == run[n] && |init| == n;
  }

  /** The reports of `n + 1` sweeps begin with the first sweep's report. */
  lemma ReportsCons(c: Conn, n: nat)
    ensures Reports(c, n + 1) == [Event(Unresponsive, c)] + Reports(MarkUnresponsive(c), n)
  {
  }

  /** The events about a peer over the counting sweeps, followed by those
      of the demoting sweep, are the reports of all the sweeps, the
      disconnect and any forget. */
  lemma DemotedTrace(e0: seq<Event>, e1: seq<Event>, e2: seq<Event>, c: Conn, n: nat, sweeps: nat,
                     count: nat, forgot: seq<Event>)
    requires sweeps == n + 1 && count == c.fails + sweeps
    requires |e0| <= |e1| && e1[..|e0|] == e0 && |e1| <= |e2| && e2[..|e1|] == e1
    requires About(e1[|e0|..], c.key) == Reports(c, n)
    requires About(e2[|e1|..], c.key) ==
      [Event(Unresponsive, c.(fails := c.fails + n)), Event(Disconnect, c.(fails := count))] + forgot
    ensures |e0| <= |e2| && e2[..|e0|] == e0
    ensures About(e2[|e0|..], c.key) == Reports(c, sweeps) + [Event(Disconnect, c.(fails := count))] + forgot
  {
    AboutStages(e0, e1, e2, c.key);
    ReportsSnoc(c, n);
  }

  /** One report more is one report appended. */
  lemma {:induction false} ReportsSnoc(c: Conn, n: nat)
    ensures Reports(c, n + 1) == Reports(c, n) + [Event(Unresponsive, c.(fails := c.fails + n))]
    decreases n
  {
    if n > 0 {
      ReportsSnoc(MarkUnresponsive(c), n - 1);
    }
  }

  /** The scenario of a one-second heartbeat, a five-second timeout and a
      threshold of two: a peer last heard from at time 0 is reported at the
      sweeps of 5, 6 and 7 seconds and demoted by the third. */
  lemma ThresholdScenario(run: seq<State>, id: string, events: seq<Event>)
    requires var c := Conn(Key("peer", 1337), id, 0, 0);
      && SweepRun(run, [5000, 6000, 7000], Config(5000, 2))
      && run[0] == State([c], map[], events)
    ensures var c := Conn(Key("peer", 1337), id, 0, 0);
      && run[3].active == []
      && run[3].cache == map[c.key := Entry(c.(fails := 3), 7000)]
      && run[3].events == events + [Event(Unresponsive, c), Event(Unresponsive, c.(fails := 1)),
                                    Event(Unresponsive, c.(fails := 2)), Event(Disconnect, c.(fails := 3))]
  {
    var c, cfg := Conn(Key("peer", 1337), id, 0, 0), Config(5000, 2);
    var c1, c2, c3 := c.(fails := 1), c.(fails := 2), c.(fails := 3);
    var times := [5000, 6000, 7000];
    LoneStep(run, times, cfg, 0, c);
    LoneStep(run, times, cfg, 1, c1);
    LoneStep(run, times, cfg, 2, c2);
  }

  /** A demoted peer that makes contact five minutes later is reacquired
      (not acquired) with its count as it was; one that makes contact after
      eleven minutes is unknown again and starts afresh, and if the cache
      cleaned the entry up at ten minutes that cleanup reported a forget. */
  lemma HoldingWindow(s: State, k: Key, id: string, demotedAt: int)
    requires Find(s.active, k).None? && k in s.cache && s.cache[k].insertedAt == demotedAt
    ensures var held := s.cache[k].conn;
      var a := AddConnection(s, k, id, demotedAt + 5 * 60 * 1000);
      && a.conn == held
      && a.state.events == s.events + [Event(Reacquired, held)]
      && k !in a.state.cache
    ensures var later := demotedAt + 11 * 60 * 1000;
      var a := AddConnection(s, k, id, later);
      && GetConnection(s, k, later) == Lookup(s, None)
      && a.conn == Conn(k, id, later, 0)
      && a.state.events == s.events + [Event(Acquired, a.conn)]
    ensures var cleaned := Evict(s, k, Expired);
      var a := AddConnection(cleaned, k, id, demotedAt + 11 * 60 * 1000);
      && cleaned.events == s.events + [Event(Forget, s.cache[k].conn)]
      && a.conn.fails == 0
      && a.state.events == cleaned.events + [Event(Acquired, a.conn)]
  {
  }

  /** The registry removal removes by count alone.  A peer reacquired through
      `handle` carries its frozen count, which is past the threshold; if the
      next sweep comes within the timeout the record is not stale, so it is
      neither reported nor cached, yet it is removed from the registry: the
      peer silently vanishes from both stores. */
  lemma ReacquiredPeerVanishes(s: State, k: Key, id: string, now: int, later: int, cfg: Config)
    requires Inv(s, now, cfg)
    requires Find(s.active, k).None? && Live(s.cache, k, now)
    requires now <= later && later - now < cfg.timeout
    ensures var s1 := Handle(s, k, Some(id), now);
      var s2 := Sweep(s1, later, cfg);
      && Find(s1.active, k).Some?
      && k !in s1.cache
      && s1.events == s.events + [Event(Reacquired, s.cache[k].conn)]
      && (forall d :: d in s2.active ==> d.key != k)
      && k !in s2.cache
      && forall e :: e in s2.events[|s1.events|..] ==> e.conn.key != k
  {
    var held := s.cache[k].conn;
    var s1 := Handle(s, k, Some(id), now);
    HandlePreservesInv(s, k, Some(id), now, cfg);
    var i := Find(s1.active, k).value;
    assert s1.active[i] == Refresh(held, now);
    SweepRecord(s1, later, cfg, i);
    var p := Scan(s1.active, s1.cache, later, cfg);
    assert Sweep(s1, later, cfg).events[|s1.events|..] == p.events;
    ScanEventKeys(s1.active, s1.cache, later, cfg);
    forall e | e in p.events
      ensures e.conn.key != k
    {
      var j :| 0 <= j < |s1.active| && Stale(s1.active[j], later, cfg) && s1.active[j].key == e.conn.key;
      assert j != i;
    }
  }
}
