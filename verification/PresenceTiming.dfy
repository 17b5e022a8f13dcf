/**
 How stale the in-memory map can get, and the two schedules that show where late commits hurt: a
 request that read the clock early and took the write guard late.
 */
module PresenceTiming {
  import opened Wrappers
  import opened PresenceTypes
  import opened PresenceCache
  import opened PresenceMachine

  /** The cleanup interval, in seconds. */
  const SWEEP_GAP := 60

  /** Sweeps keep up with the clock, and no request takes the guard later than `delay` after its clock reading. */
  predicate Timely(s: State, e: Event, delay: int) {
    && (e.Tick? ==> e.to <= s.lastSweep + SWEEP_GAP)
    && (e.CommitInMemory? && e.id in s.handlers && s.handlers[e.id].phase.RowStored? ==>
          s.clock - s.handlers[e.id].phase.now <= delay)
  }

  predicate TimelyRun(t0: int, es: seq<Event>, delay: int) {
    es == [] ||
    (var front := es[..|es| - 1];
     && TimelyRun(t0, front, delay)
     && Run(t0, front).Some?
     && Enabled(Run(t0, front).value, es[|es| - 1])
     && Timely(Run(t0, front).value, es[|es| - 1], delay))
  }

  ghost predicate FreshInv(s: State) {
    && s.lastSweep <= s.clock <= s.lastSweep + SWEEP_GAP
    && (s.sweepStamp.Some? ==> s.lastSweep <= s.sweepStamp.value <= s.clock)
    && (forall u, e :: u in s.active && e in s.active[u] ==>
          e.expiresAt == e.lastActive + TTL && s.lastSweep < e.expiresAt)
  }

  lemma FreshUpsert(states: seq<PresenceState>, r: UpdateRequest, now: int, from: int)
    requires forall e :: e in states ==> e.expiresAt == e.lastActive + TTL && from < e.expiresAt
    requires from < now + TTL
    ensures forall e :: e in Upsert(states, r, now) ==> e.expiresAt == e.lastActive + TTL && from < e.expiresAt
  {
  }

  lemma FreshCommit(s: State, id: RequestId, delay: int)
    requires FreshInv(s) && delay < TTL
    requires Enabled(s, CommitInMemory(id)) && Timely(s, CommitInMemory(id), delay)
    ensures FreshInv(Apply(s, CommitInMemory(id)))
  {
    var h := s.handlers[id];
    FreshUpsert(Entries(s.active, h.req.userId), h.req, h.phase.now, s.lastSweep);
  }

  lemma FreshSweep(s: State)
    requires FreshInv(s) && Enabled(s, RunSweep)
    ensures FreshInv(Apply(s, RunSweep))
  {
  }

  lemma FreshStep(s: State, e: Event, delay: int)
    requires FreshInv(s) && delay < TTL && Enabled(s, e) && Timely(s, e, delay)
    ensures FreshInv(Apply(s, e))
  {
    match e {
      case CommitInMemory(id) => FreshCommit(s, id, delay);
      case RunSweep => FreshSweep(s);
      case _ =>
    }
  }

  lemma {:induction false} TimelyRunIsFresh(t0: int, es: seq<Event>, delay: int)
    requires TimelyRun(t0, es, delay) && delay < TTL
    ensures Run(t0, es).Some? && FreshInv(Run(t0, es).value)
  {
    if es != [] {
      TimelyRunIsFresh(t0, es[..|es| - 1], delay);
      FreshStep(Run(t0, es[..|es| - 1]).value, es[|es| - 1], delay);
    }
  }

  ghost predicate AllYoungerThan(s: State, age: int) {
    forall u, e :: u in s.active && e in s.active[u] ==> s.clock - e.lastActive < age
  }

  /** One event at the end of a run. */
  lemma Extend(t0: int, es: seq<Event>, s: State, e: Event) returns (es': seq<Event>, s': State)
    requires Run(t0, es) == Some(s) && Enabled(s, e)
    ensures es' == es + [e] && s' == Apply(s, e) && Run(t0, es') == Some(s')
    ensures forall d :: TimelyRun(t0, es, d) && Timely(s, e, d) ==> TimelyRun(t0, es', d)
  {
    es' := es + [e];
    s' := Apply(s, e);
    assert es'[..|es'| - 1] == es;
  }

  lemma Connected(t0: int, es: seq<Event>, s: State, id: RequestId, r: UpdateRequest)
    returns (es': seq<Event>, s': State)
    requires Run(t0, es) == Some(s) && id !in s.handlers
    ensures Run(t0, es') == Some(s')
    ensures s' == s.(handlers := s.handlers[id := Handler(r, Stamped(s.clock))])
    ensures forall d :: TimelyRun(t0, es, d) ==> TimelyRun(t0, es', d)
  {
    var s1;
    es', s1 := Extend(t0, es, s, Arrive(id, r));
    es', s' := Extend(t0, es', s1, Connect(id, true));
  }

  lemma Indexing(t0: int, es: seq<Event>, s: State, id: RequestId, r: UpdateRequest)
    returns (es': seq<Event>, s': State)
    requires Run(t0, es) == Some(s) && id in s.handlers && s.handlers[id] == Handler(r, Stamped(s.clock))
    ensures Run(t0, es') == Some(s')
    ensures s' == s.(handlers := s.handlers[id := Handler(r, IndexWritten(s.clock))], redis := s'.redis)
    ensures forall d :: TimelyRun(t0, es, d) ==> TimelyRun(t0, es', d)
  {
    var s1;
    es', s1 := Extend(t0, es, s, WriteKey(id, true));
    es', s' := Extend(t0, es', s1, WriteIndex(id, true));
  }

  lemma Storing(t0: int, es: seq<Event>, s: State, id: RequestId, r: UpdateRequest) returns (es': seq<Event>, s': State)
    requires Run(t0, es) == Some(s) && id in s.handlers && s.handlers[id] == Handler(r, IndexWritten(s.clock))
    ensures Run(t0, es') == Some(s')
    ensures s' == s.(handlers := s.handlers[id := Handler(r, RowStored(s.clock))],
                     redis := s'.redis, history := s.history + [RowOf(r, s.clock)])
    ensures forall d :: TimelyRun(t0, es, d) ==> TimelyRun(t0, es', d)
  {
    var s1;
    es', s1 := Extend(t0, es, s, RenewIndex(id, true));
    es', s' := Extend(t0, es', s1, StoreRow(id, true));
  }

  /** A request that meets no failure and waits for the guard; it read the clock at once. */
  lemma Prepare(t0: int, es: seq<Event>, s: State, id: RequestId, r: UpdateRequest) returns (es': seq<Event>, s': State)
    requires Run(t0, es) == Some(s) && id !in s.handlers
    ensures Run(t0, es') == Some(s')
    ensures s' == s.(handlers := s.handlers[id := Handler(r, RowStored(s.clock))],
                     redis := s'.redis, history := s.history + [RowOf(r, s.clock)])
    ensures forall d :: TimelyRun(t0, es, d) ==> TimelyRun(t0, es', d)
  {
    var s1, s2;
    es', s1 := Connected(t0, es, s, id, r);
    es', s2 := Indexing(t0, es', s1, id, r);
    es', s' := Storing(t0, es', s2, id, r);
  }

  /** The clock moves one gap and a sweep runs at once, `n` times over an empty map. */
  lemma {:induction false} IdleSweeps(t0: int, es: seq<Event>, s: State, n: nat) returns (es': seq<Event>, s': State)
    requires Run(t0, es) == Some(s) && s.active == map[]
    requires s.guard.None? && s.sweepStamp.None? && s.lastSweep == s.clock
    ensures Run(t0, es') == Some(s')
    ensures s' == s.(clock := s.clock + n * SWEEP_GAP, lastSweep := s.clock + n * SWEEP_GAP, log := s'.log)
    ensures forall d :: TimelyRun(t0, es, d) ==> TimelyRun(t0, es', d)
  {
    if n == 0 {
      es', s' := es, s;
    } else {
      es', s' := IdleSweeps(t0, es, s, n - 1);
      es', s' := Extend(t0, es', s', Tick(s'.clock + SWEEP_GAP));
      es', s' := Extend(t0, es', s', ReadSweepClock);
      es', s' := Extend(t0, es', s', RunSweep);
    }
  }

  const REQUEST := UpdateRequest(7, ONLINE, "phone", None, None, None)

  /** A commit 300 seconds after its clock reading leaves a 360-second-old entry a minute later. */
  lemma {:induction false} LateCommitIsStale(delay: int) returns (es: seq<Event>)
    requires delay >= TTL
    ensures TimelyRun(0, es, delay) && Run(0, es).Some?
    ensures !AllYoungerThan(Run(0, es).value, TTL + SWEEP_GAP)
  {
    var s := Init(0);
    es := [];
    es, s := Prepare(0, es, s, 1, REQUEST);
    es, s := IdleSweeps(0, es, s, 5);
    es, s := Extend(0, es, s, CommitInMemory(1));
    assert StateOf(REQUEST, 0) in s.active[7];
    es, s := Extend(0, es, s, Tick(360));
  }

  /**
   With sweeps at most 60 seconds apart, every cached entry is under 360 seconds old in all runs
   exactly when commits come less than 300 seconds after their clock reading.
   */
  lemma StalenessBoundIff(delay: int)
    ensures (forall t0, es :: TimelyRun(t0, es, delay) && Run(t0, es).Some? ==>
               AllYoungerThan(Run(t0, es).value, TTL + SWEEP_GAP))
       <==> delay < TTL
  {
    if delay < TTL {
      forall t0, es | TimelyRun(t0, es, delay) && Run(t0, es).Some?
        ensures AllYoungerThan(Run(t0, es).value, TTL + SWEEP_GAP)
      {
        TimelyRunIsFresh(t0, es, delay);
      }
    } else {
      var es := LateCommitIsStale(delay);
    }
  }

  /**
   The last commit is not always the newest: a request that read the clock at 0 and takes the guard
   after one that read it at 100 overwrites it, and at 310 the device has no live entry although the
   commit stamped 100 outlives that moment.
   */
  lemma LateCommitHidesNewer() returns (es: seq<Event>)
    ensures Run(0, es).Some? && Run(0, es).value.clock == 100
    ensures var s := Run(0, es).value;
      && View(Lookup(s.active, 7, "phone"), 310) == None
      && LastLiveCommit(s.log, 7, "phone", 310) == Some(Update(2, REQUEST, 100))
  {
    var s := Init(0);
    es := [];
    es, s := Prepare(0, es, s, 1, REQUEST);
    es, s := Extend(0, es, s, Tick(100));
    es, s := Prepare(0, es, s, 2, REQUEST);
    es, s := Extend(0, es, s, CommitInMemory(2));
    es, s := Extend(0, es, s, Announce(2));
    es, s := Extend(0, es, s, Publish(2, true));
    var before := s.log;
    assert before == [Update(2, REQUEST, 100)];
    es, s := Extend(0, es, s, CommitInMemory(1));
    assert s.log == before + [Update(1, REQUEST, 0)];
    assert s.log[..1] == before;
    assert LastCommit(s.log, 7, "phone") == Some(Update(1, REQUEST, 0));
    assert LastLiveCommit(before, 7, "phone", 310) == Some(before[0]);
    LiveView(0, es, 7, "phone", 310);
  }
}
