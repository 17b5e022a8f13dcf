/**
 Redis and the in-memory map in every run of the machine. Updates of one device do not overlap between
 their key write and their commit, and the commands on its key succeed; everything else, other devices of
 the same user included, interleaves, fails and lapses at will.
 */
module PresenceStores {
  import opened Wrappers
  import opened PresenceTypes
  import opened RedisStore
  import opened PresenceMachine
  import opened PresenceIndex
  import A = PresenceAgreement
  import C = PresenceCache

  /** The request has written the key and has not taken the guard. */
  predicate InFlight(s: State, id: RequestId, k: DeviceKey) {
    && id in s.handlers && KeyOf(s.handlers[id].req) == k
    && var p := s.handlers[id].phase;
       p.KeyWritten? || p.IndexWritten? || p.IndexRenewed? || p.RowStored?
  }

  ghost predicate Flying(s: State, k: DeviceKey) {
    exists id :: InFlight(s, id, k)
  }

  predicate Concerns(s: State, e: Event, k: DeviceKey) {
    && (e.WriteKey? || e.RenewIndex? || e.StoreRow?)
    && e.id in s.handlers && KeyOf(s.handlers[e.id].req) == k
  }

  /** A key write comes when no other update of the device is in flight; key write, `expire` and row insert succeed. */
  ghost predicate Alone(s: State, e: Event, k: DeviceKey) {
    Concerns(s, e, k) ==> e.ok && (e.WriteKey? ==> !Flying(s, k))
  }

  ghost predicate AloneRun(t0: int, es: seq<Event>, k: DeviceKey) {
    es == [] ||
    (var front := es[..|es| - 1];
     AloneRun(t0, front, k) && Run(t0, front).Some? && Alone(Run(t0, front).value, es[|es| - 1], k))
  }

  // ---------- What Redis holds under the key ----------

  predicate Holds(redis: Redis, k: DeviceKey, r: UpdateRequest, now: int) {
    k in redis.devices && redis.devices[k].value == StateOf(r, now)
  }

  predicate HoldsCommit(redis: Redis, k: DeviceKey, c: Option<C.Item>)
    requires c.Some? ==> c.value.Update?
  {
    if c.Some? then Holds(redis, k, c.value.req, c.value.now) else k !in redis.devices
  }

  /** The value of the one update in flight, or of the last commit. */
  ghost predicate KeyInv(s: State, k: DeviceKey) {
    && (forall id :: InFlight(s, id, k) ==> Holds(s.redis, k, s.handlers[id].req, s.handlers[id].phase.now))
    && (forall a, b :: InFlight(s, a, k) && InFlight(s, b, k) ==> a == b)
    && (!Flying(s, k) ==> HoldsCommit(s.redis, k, C.LastCommit(s.log, k.userId, k.deviceId)))
  }

  /** Which requests an event puts into the air or takes out of it. */
  lemma FlightStep(s: State, e: Event, id: RequestId, k: DeviceKey)
    requires Enabled(s, e)
    ensures InFlight(Apply(s, e), id, k) <==>
      if e.WriteKey? && e.id == id then KeyOf(s.handlers[id].req) == k
      else InFlight(s, id, k) && !(e.CommitInMemory? && e.id == id) && !(e.StoreRow? && !e.ok && e.id == id)
    ensures InFlight(Apply(s, e), id, k) && InFlight(s, id, k) ==>
      && Apply(s, e).handlers[id].req == s.handlers[id].req
      && Apply(s, e).handlers[id].phase.now == s.handlers[id].phase.now
  {
    if Acts(e, id) {
      if !e.Arrive? {
        HandlerMoves(s, e, id);
      }
    } else {
      HandlerRests(s, e, id);
    }
  }

  lemma ValueStep(s: State, e: Event, k: DeviceKey)
    requires Enabled(s, e)
    ensures var s' := Apply(s, e);
      if e.WriteKey? && e.ok && KeyOf(s.handlers[e.id].req) == k then
        Holds(s'.redis, k, s.handlers[e.id].req, s.handlers[e.id].phase.now)
      else
        && (k in s'.redis.devices <==> k in s.redis.devices)
        && (k in s.redis.devices ==> s'.redis.devices[k].value == s.redis.devices[k].value)
  {
  }

  lemma CommitStep(s: State, e: Event, k: DeviceKey)
    requires Enabled(s, e)
    ensures var c := C.LastCommit(Apply(s, e).log, k.userId, k.deviceId);
      c == if e.CommitInMemory? && KeyOf(s.handlers[e.id].req) == k
           then Some(C.Update(e.id, s.handlers[e.id].req, s.handlers[e.id].phase.now))
           else C.LastCommit(s.log, k.userId, k.deviceId)
  {
    if e.CommitInMemory? || e.RunSweep? {
      var log' := Apply(s, e).log;
      assert log'[..|log'| - 1] == s.log;
    } else {
      LogRests(s, e);
    }
  }

  /** Whatever is in flight afterwards was before, or has just written the key; its value is in place. */
  lemma FlightHolds(s: State, e: Event, id: RequestId, k: DeviceKey)
    requires Enabled(s, e) && KeyInv(s, k) && Alone(s, e, k) && InFlight(Apply(s, e), id, k)
    ensures InFlight(s, id, k) || (e.WriteKey? && e.id == id)
    ensures Holds(Apply(s, e).redis, k, Apply(s, e).handlers[id].req, Apply(s, e).handlers[id].phase.now)
  {
    FlightStep(s, e, id, k);
    ValueStep(s, e, k);
    if e.WriteKey? && e.id == id {
      HandlerMoves(s, e, id);
    } else if e.WriteKey? && KeyOf(s.handlers[e.id].req) == k {
      assert Flying(s, k);
    }
  }

  lemma LandedHolds(s: State, e: Event, k: DeviceKey)
    requires Enabled(s, e) && KeyInv(s, k) && Alone(s, e, k)
    ensures !Flying(Apply(s, e), k) ==>
      HoldsCommit(Apply(s, e).redis, k, C.LastCommit(Apply(s, e).log, k.userId, k.deviceId))
  {
    ValueStep(s, e, k);
    CommitStep(s, e, k);
    if e.WriteKey? && KeyOf(s.handlers[e.id].req) == k {
      FlightStep(s, e, e.id, k);
      assert InFlight(Apply(s, e), e.id, k);
    } else if e.CommitInMemory? && KeyOf(s.handlers[e.id].req) == k {
      assert InFlight(s, e.id, k);
    } else {
      forall id | InFlight(s, id, k) ensures InFlight(Apply(s, e), id, k) {
        FlightStep(s, e, id, k);
      }
      assert !Flying(Apply(s, e), k) ==> !Flying(s, k);
    }
  }

  lemma KeyStep(s: State, e: Event, k: DeviceKey)
    requires Enabled(s, e) && KeyInv(s, k) && Alone(s, e, k)
    ensures KeyInv(Apply(s, e), k)
  {
    var s' := Apply(s, e);
    LandedHolds(s, e, k);
    forall id | InFlight(s', id, k)
      ensures Holds(s'.redis, k, s'.handlers[id].req, s'.handlers[id].phase.now)
      ensures InFlight(s, id, k) || (e.WriteKey? && e.id == id)
    {
      FlightHolds(s, e, id, k);
    }
    forall a, b | InFlight(s', a, k) && InFlight(s', b, k) ensures a == b {
      if e.WriteKey? && (e.id == a || e.id == b) {
        FlightStep(s, e, e.id, k);
      }
    }
  }

  lemma {:induction false} AloneRunHolds(t0: int, es: seq<Event>, k: DeviceKey)
    requires Run(t0, es).Some? && AloneRun(t0, es, k)
    ensures KeyInv(Run(t0, es).value, k)
  {
    if es != [] {
      AloneRunHolds(t0, es[..|es| - 1], k);
      KeyStep(Run(t0, es[..|es| - 1]).value, es[|es| - 1], k);
    }
  }

  // ---------- What the index holds when the last command came too late ----------

  /** Alive and in no index; only a new update of the device can bring it back. */
  predicate Lost(s: State, k: DeviceKey) {
    DeviceLive(s.redis, k, s.clock) ==> !Listed(s.redis, k, s.clock)
  }

  lemma CommandsKeepLost(redis: Redis, k: DeviceKey, r: UpdateRequest, now: int, t: int)
    requires DeviceLive(redis, k, t) ==> !Listed(redis, k, t)
    ensures KeyOf(r) != k ==> DeviceLive(SetEx(redis, r, now, t), k, t) ==> !Listed(SetEx(redis, r, now, t), k, t)
    ensures KeyOf(r) != k ==> DeviceLive(SAdd(redis, r, t), k, t) ==> !Listed(SAdd(redis, r, t), k, t)
    ensures DeviceLive(Expire(redis, r.userId, t), k, t) ==> !Listed(Expire(redis, r.userId, t), k, t)
  {
  }

  lemma OthersKeepLost(s: State, e: Event, k: DeviceKey)
    requires Enabled(s, e) && Lost(s, k)
    requires !((e.WriteKey? || e.WriteIndex?) && KeyOf(s.handlers[e.id].req) == k)
    ensures Lost(Apply(s, e), k)
  {
    if e.WriteKey? || e.WriteIndex? || e.RenewIndex? {
      var h := s.handlers[e.id];
      CommandsKeepLost(s.redis, k, h.req, h.phase.now, s.clock);
    } else {
      RedisRests(s, e);
    }
  }

  ghost predicate LostInv(s: State, k: DeviceKey, inTime: bool) {
    inTime || Unsettled(s, k) || Lost(s, k)
  }

  lemma LostStep(s: State, e: Event, k: DeviceKey, inTime: bool)
    requires Enabled(s, e) && Alone(s, e, k) && LostInv(s, k, inTime)
    ensures LostInv(Apply(s, e), k, if Renews(s, e, k) then RenewsInTime(s, e.id, e.ok) else inTime)
  {
    if Renews(s, e, k) {
      if !RenewsInTime(s, e.id, e.ok) {
        OthersKeepLost(s, e, k);
      }
    } else if e.WriteKey? && KeyOf(s.handlers[e.id].req) == k {
      KeyWriteUnsettles(s, e.id, e.ok);
    } else if Unsettled(s, k) {
      StaysUnsettled(s, e, k);
    } else if !inTime {
      if e.WriteIndex? && KeyOf(s.handlers[e.id].req) == k {
        assert IsBetween(s, e.id, k);
        assert false;
      }
      OthersKeepLost(s, e, k);
    }
  }

  lemma {:induction false} LateKeyIsLost(t0: int, es: seq<Event>, k: DeviceKey)
    requires Run(t0, es).Some? && AloneRun(t0, es, k)
    ensures LostInv(Run(t0, es).value, k, LastInTime(t0, es, k))
  {
    if es != [] {
      LateKeyIsLost(t0, es[..|es| - 1], k);
      LostStep(Run(t0, es[..|es| - 1]).value, es[|es| - 1], k, LastInTime(t0, es[..|es| - 1], k));
    }
  }

  // ---------- Agreement ----------

  /** The device's value in Redis is live at `t`. */
  predicate ValueLive(redis: Redis, k: DeviceKey, t: int) {
    k in redis.devices && redis.devices[k].value.expiresAt > t
  }

  /** With the last commit under the key, a reader of Redis is only ever missing what the index is missing. */
  lemma ViewsDifferByIndex(s: State, k: DeviceKey, t: int)
    requires s.clock <= t && Embedded(s.redis, s.clock)
    requires HoldsCommit(s.redis, k, C.LastCommit(s.log, k.userId, k.deviceId))
    requires C.View(C.Lookup(s.active, k.userId, k.deviceId), t)
          == C.CommitView(C.LastCommit(s.log, k.userId, k.deviceId), t)
    ensures A.RedisView(s.redis, k.userId, k.deviceId, t) == C.View(C.Lookup(s.active, k.userId, k.deviceId), t)
       <==> (ValueLive(s.redis, k, t) ==> Listed(s.redis, k, t))
  {
    assert DeviceKey(k.userId, k.deviceId) == k;
  }

  /**
   In every such run, whenever no update of the device is in flight, from now on: the reader of Redis and
   the in-memory map show the same of the device exactly when the last command of its last update came in
   time, or its entry is no longer live.
   */
  lemma {:induction false} StoresAgreeIff(t0: int, es: seq<Event>, k: DeviceKey, t: int)
    requires Run(t0, es).Some? && AloneRun(t0, es, k)
    requires !Flying(Run(t0, es).value, k) && Run(t0, es).value.clock <= t
    ensures var s := Run(t0, es).value;
      A.RedisView(s.redis, k.userId, k.deviceId, t) == C.View(C.Lookup(s.active, k.userId, k.deviceId), t)
      <==> LastInTime(t0, es, k) || !ValueLive(s.redis, k, t)
  {
    var s := Run(t0, es).value;
    AloneRunHolds(t0, es, k);
    LiveView(t0, es, k.userId, k.deviceId, t);
    EmbeddedNeverOutlivesKey(t0, es);
    ViewsDifferByIndex(s, k, t);
    SettledUnlessFlying(s, k);
    if LastInTime(t0, es, k) {
      SettledKeyIsIndexed(t0, es, k);
      CoveredIff(s.redis, k, s.clock);
      assert ValueLive(s.redis, k, t) ==> DeviceLive(s.redis, k, t);
    } else {
      LateKeyIsLost(t0, es, k);
      LostForGood(s, k, t);
    }
  }

  lemma SettledUnlessFlying(s: State, k: DeviceKey)
    requires !Flying(s, k)
    ensures !Unsettled(s, k)
  {
    if Unsettled(s, k) {
      var id :| IsBetween(s, id, k);
      assert InFlight(s, id, k);
    }
  }

  lemma LostForGood(s: State, k: DeviceKey, t: int)
    requires Lost(s, k) && s.clock <= t && Embedded(s.redis, s.clock)
    ensures ValueLive(s.redis, k, t) ==> !Listed(s.redis, k, t)
  {
  }

  /** So the stores agree at every time when each update of the device runs its commands at one instant. */
  lemma {:induction false} PromptStoresAgree(t0: int, es: seq<Event>, k: DeviceKey, t: int)
    requires Run(t0, es).Some? && AloneRun(t0, es, k) && PromptRun(t0, es, k)
    requires !Flying(Run(t0, es).value, k) && Run(t0, es).value.clock <= t
    ensures var s := Run(t0, es).value;
      A.RedisView(s.redis, k.userId, k.deviceId, t) == C.View(C.Lookup(s.active, k.userId, k.deviceId), t)
  {
    PromptRunIsInTime(t0, es, k);
    StoresAgreeIff(t0, es, k, t);
  }
}
