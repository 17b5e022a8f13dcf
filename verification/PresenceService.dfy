/**
 The service object: its stores are fields that the handlers update, one statement after another.
 What the network and the other stores answer during a call comes in as an `Attempt`.
 */
module PresenceService {
  import opened Wrappers
  import opened Counters
  import opened PresenceTypes
  import opened PresenceCache
  import R = RedisStore
  import M = PresenceMachine
  import T = PresenceTiming

  /** One call: its request (`None` for a user id that does not parse) and how each fallible step goes.
      A Redis command that succeeds carries the time at which it ran. */
  datatype Attempt = Attempt(
    req: Option<UpdateRequest>,
    connects: bool,
    now: int,
    keyAt: Option<int>,
    indexAt: Option<int>,
    renewedAt: Option<int>,
    storesRow: bool,
    publishes: bool)
  {
    predicate ReachesRedis() { req.Some? && connects }
    predicate ReachesMemory() { ReachesRedis() && storesRow }
    predicate Succeeds() { ReachesMemory() && publishes }
    /** All three commands succeed, in order, and the index does not lapse between the last two. */
    predicate Indexes(redis: R.Redis) {
      && req.Some?
      && keyAt.Some? && indexAt.Some? && renewedAt.Some? && keyAt.value <= indexAt.value <= renewedAt.value
      && !R.IndexLapses(redis, req.value, keyAt.value, indexAt.value, renewedAt.value)
    }
  }

  datatype ServiceError = InvalidUserId | RedisDown | NotStored | NotPublished

  /** The stores a call can change. */
  datatype Stores = Stores(
    redis: R.Redis,
    history: seq<HistoryRow>,
    active: Cache,
    channels: map<UserId, seq<PresenceUpdate>>,
    kafka: seq<PresenceEvent>)

  function RedisAfter(redis: R.Redis, a: Attempt): R.Redis
    requires a.req.Some?
  {
    var r := a.req.value;
    var keyed := if a.keyAt.Some? then R.SetEx(redis, r, a.now, a.keyAt.value) else redis;
    var indexed := if a.indexAt.Some? then R.SAdd(keyed, r, a.indexAt.value) else keyed;
    if a.renewedAt.Some? then R.Expire(indexed, r.userId, a.renewedAt.value) else indexed
  }

  /**
   The three commands change nothing of another device or user. If all of them succeed in order and the
   index does not lapse between the last two, a reader finds the update under its key until the key
   expires, and in the index that key and what was there when it was added, nothing else.
   */
  lemma WritesReadBack(redis: R.Redis, a: Attempt)
    requires a.req.Some?
    ensures var after, k := RedisAfter(redis, a), R.KeyOf(a.req.value);
      && after.devices - {k} == redis.devices - {k}
      && after.indexes - {k.userId} == redis.indexes - {k.userId}
      && (a.Indexes(redis) ==> forall t :: a.renewedAt.value <= t < a.keyAt.value + TTL ==>
            && R.DeviceLive(after, k, t) && after.devices[k].value == StateOf(a.req.value, a.now)
            && R.Members(after, k.userId, t) == R.Members(redis, k.userId, a.indexAt.value)
                 + {R.DeviceKey(a.req.value.userId, a.req.value.deviceId)})
  {
  }

  /** The sends of one update: into its user's channel, if there is one. */
  function Sent(channels: map<UserId, seq<PresenceUpdate>>, r: UpdateRequest, now: int): map<UserId,
                seq<PresenceUpdate>> {
    if r.userId in channels then channels[r.userId := channels[r.userId] + [UpdateOf(r, now)]] else channels
  }

  /** The stores after one call that nothing interleaves with. */
  function Handled(s: Stores, a: Attempt): Stores {
    if !a.ReachesRedis() then s
    else if !a.ReachesMemory() then s.(redis := RedisAfter(s.redis, a))
    else
      var r := a.req.value;
      Stores(
        RedisAfter(s.redis, a),
        s.history + [RowOf(r, a.now)],
        Commit(s.active, r, a.now),
        Sent(s.channels, r, a.now),
        if a.publishes then s.kafka + [EventOf(r, a.now)] else s.kafka)
  }

  class Service {
    var redis: R.Redis
    var history: seq<HistoryRow>
    var activeUsers: Cache
    var userSubscriptions: map<UserId, seq<PresenceUpdate>>
    var kafka: seq<PresenceEvent>
    ghost var commits: seq<Attempt>

    ghost function View(): Stores
      reads this
    {
      Stores(redis, history, activeUsers, userSubscriptions, kafka)
    }

    constructor ()
      ensures View() == Stores(R.EMPTY, [], map[], map[], []) && commits == []
    {
      redis, history, activeUsers, userSubscriptions, kafka := R.EMPTY, [], map[], map[], [];
      commits := [];
    }

    method UpdatePresence(a: Attempt) returns (r: Result<bool, ServiceError>)
      modifies this
      ensures View() == Handled(old(View()), a)
      ensures r.Ok? <==> a.Succeeds()
      ensures r.Err? ==> r.error == if a.req.None? then InvalidUserId
                                    else if !a.connects then RedisDown
                                    else if !a.storesRow then NotStored
                                    else NotPublished
      ensures commits == if a.ReachesMemory() then old(commits) + [a] else old(commits)
    {
      if a.req.None? {
        return Err(InvalidUserId);
      }
      var req := a.req.value;
      if !a.connects {
        return Err(RedisDown);
      }
      WriteRedis(a);
      if !a.storesRow {
        return Err(NotStored);
      }
      history := history + [RowOf(req, a.now)];
      CommitInMemory(req, a.now);
      commits := commits + [a];

      Broadcast(req, a.now);
      if !a.publishes {
        return Err(NotPublished);
      }
      kafka := kafka + [EventOf(req, a.now)];
      return Ok(true);
    }

    /** The three Redis commands, whose results are discarded. */
    method WriteRedis(a: Attempt)
      requires a.req.Some?
      modifies this`redis
      ensures redis == RedisAfter(old(redis), a)
    {
      var req := a.req.value;
      if a.keyAt.Some? {
        redis := R.SetEx(redis, req, a.now, a.keyAt.value);
      }
      if a.indexAt.Some? {
        redis := R.SAdd(redis, req, a.indexAt.value);
      }
      if a.renewedAt.Some? {
        redis := R.Expire(redis, req.userId, a.renewedAt.value);
      }
    }

    /** The block under the write guard: update or add the device's entry, then drop the user's stale entries. */
    method CommitInMemory(req: UpdateRequest, now: int)
      modifies this`activeUsers
      ensures activeUsers == Commit(old(activeUsers), req, now)
    {
      var expiresAt := now + TTL;
      var userStates := Entries(activeUsers, req.userId);
      var i := IndexOf(userStates, req.deviceId);
      if i < |userStates| {
        var existing := userStates[i];
        userStates := userStates[i := existing.(status := req.status, lastActive := now, expiresAt := expiresAt,
                                               customStatus := req.customStatus)];
      } else {
        userStates := userStates + [PresenceState(req.userId, req.status, req.deviceId, req.ipAddress, req.userAgent,
                                                  req.customStatus, now, expiresAt)];
      }
      userStates := Retain(userStates, now);
      activeUsers := activeUsers[req.userId := userStates];
    }

    method Broadcast(req: UpdateRequest, now: int)
      modifies this`userSubscriptions
      ensures userSubscriptions == Sent(old(userSubscriptions), req, now)
      ensures userSubscriptions.Keys == old(userSubscriptions).Keys
      ensures forall u :: u in userSubscriptions ==>
        userSubscriptions[u] == old(userSubscriptions)[u] + (if u == req.userId then [UpdateOf(req, now)] else [])
    {
      if req.userId in userSubscriptions {
        var update := PresenceUpdate(req.userId, req.status, req.deviceId, now, req.customStatus);
        userSubscriptions := userSubscriptions[req.userId := userSubscriptions[req.userId] + [update]];
      }
    }

    /** Creates the user's channel if there is none; the subscriber starts at its current end. */
    method SubscribePresence(user: Option<UserId>) returns (r: Result<nat, ServiceError>)
      modifies this`userSubscriptions
      ensures user.None? ==> r == Err(InvalidUserId) && unchanged(this)
      ensures user.Some? ==>
        && (forall u :: u in userSubscriptions <==> u in old(userSubscriptions) || u == user.value)
        && (forall u :: u in userSubscriptions ==>
              userSubscriptions[u] == if u in old(userSubscriptions) then old(userSubscriptions)[u] else [])
        && r == Ok(|userSubscriptions[user.value]|)
    {
      if user.None? {
        return Err(InvalidUserId);
      }
      var u := user.value;
      if u !in userSubscriptions {
        userSubscriptions := userSubscriptions[u := []];
      }
      return Ok(|userSubscriptions[u]|);
    }

    /** A user's entry stays exactly when it outlives `now`, and no user is left with an empty list. */
    method RunCleanup(now: int)
      modifies this`activeUsers
      ensures activeUsers == Sweep(old(activeUsers), now)
      ensures forall u :: u in activeUsers ==> activeUsers[u] != []
      ensures forall u, e :: e in Entries(activeUsers, u) <==> e in Entries(old(activeUsers), u) && e.expiresAt > now
    {
      forall u ensures Entries(Sweep(activeUsers, now), u) == Retain(Entries(activeUsers, u), now) {
        SweepEntries(activeUsers, now, u);
      }
      activeUsers := map u | u in activeUsers && Retain(activeUsers[u], now) != [] :: Retain(activeUsers[u], now);
    }

    /**
     Every update of the batch is counted once, in counters of 32 bits; the Kafka log grows by the events
     of the successes, in batch order; a failed publish leaves its commit behind, so commits lie between
     successes and total.
     */
    method BulkPresenceUpdate(updates: seq<Attempt>) returns (successes: nat, failures: nat)
      modifies this
      ensures successes == Wrapped(|EventsOf(updates)|)
      ensures |EventsOf(updates)| <= |updates| && failures == Wrapped(|updates| - |EventsOf(updates)|)
      ensures |updates| < TWO_32 ==> successes + failures == |updates| && successes == |kafka| - |old(kafka)|
      ensures kafka == old(kafka) + EventsOf(updates)
      ensures commits == old(commits) + Reaching(updates)
      ensures |EventsOf(updates)| <= |commits| - |old(commits)| <= |updates|
      ensures View() == HandledAll(old(View()), updates)
    {
      successes, failures := 0, 0;
      for n := 0 to |updates|
        invariant successes == Wrapped(|EventsOf(updates[..n])|)
        invariant failures == Wrapped(FailuresOf(updates[..n]))
        invariant commits == old(commits) + Reaching(updates[..n])
        invariant View() == HandledAll(old(View()), updates[..n])
      {
        OneMore(old(View()), updates, n);
        WrapsOnce(|EventsOf(updates[..n])|);
        WrapsOnce(FailuresOf(updates[..n]));
        var r := UpdatePresence(updates[n]);
        if r.Ok? {
          successes := Increment(successes);
        } else {
          failures := Increment(failures);
        }
      }
      assert updates[..|updates|] == updates;
      KafkaOfBatch(old(View()), updates);
      BatchAddsUp(updates);
      WrapsOnce(|EventsOf(updates)|);
      WrapsOnce(FailuresOf(updates));
    }
  }

  function HandledAll(s: Stores, updates: seq<Attempt>): Stores {
    if updates == [] then s else Handled(HandledAll(s, updates[..|updates| - 1]), updates[|updates| - 1])
  }

  /** The events of the updates that succeed. */
  function EventsOf(updates: seq<Attempt>): seq<PresenceEvent> {
    if updates == [] then []
    else
      var a := updates[|updates| - 1];
      EventsOf(updates[..|updates| - 1]) + (if a.Succeeds() then [EventOf(a.req.value, a.now)] else [])
  }

  /** The updates that get as far as the in-memory map. */
  function Reaching(updates: seq<Attempt>): seq<Attempt> {
    if updates == [] then []
    else
      var a := updates[|updates| - 1];
      Reaching(updates[..|updates| - 1]) + (if a.ReachesMemory() then [a] else [])
  }

  function FailuresOf(updates: seq<Attempt>): nat {
    if updates == [] then 0
    else FailuresOf(updates[..|updates| - 1]) + (if updates[|updates| - 1].Succeeds() then 0 else 1)
  }

  lemma OneMore(s: Stores, updates: seq<Attempt>, n: nat)
    requires n < |updates|
    ensures var front, a := updates[..n], updates[n];
      && HandledAll(s, updates[..n + 1]) == Handled(HandledAll(s, front), a)
      && EventsOf(updates[..n + 1]) == EventsOf(front) + (if a.Succeeds() then [EventOf(a.req.value, a.now)] else [])
      && Reaching(updates[..n + 1]) == Reaching(front) + (if a.ReachesMemory() then [a] else [])
      && FailuresOf(updates[..n + 1]) == FailuresOf(front) + (if a.Succeeds() then 0 else 1)
  {
    assert updates[..n + 1][..n] == updates[..n];
  }

  /** Successes and failures make the batch, and whatever succeeds has reached the map. */
  lemma {:induction false} BatchAddsUp(updates: seq<Attempt>)
    ensures |EventsOf(updates)| + FailuresOf(updates) == |updates|
    ensures |EventsOf(updates)| <= |Reaching(updates)| <= |updates|
  {
    if updates != [] {
      BatchAddsUp(updates[..|updates| - 1]);
    }
  }

  lemma {:induction false} KafkaOfBatch(s: Stores, updates: seq<Attempt>)
    ensures HandledAll(s, updates).kafka == s.kafka + EventsOf(updates)
  {
    if updates != [] {
      KafkaOfBatch(s, updates[..|updates| - 1]);
    }
  }

  // ---------- The handler as a run of the machine ----------

  function StoresOf(s: M.State): Stores {
    Stores(s.redis, s.history, s.active, s.channels, s.kafka)
  }

  /** The time of the last command that ran, if any did. */
  function Reached(t: int, at: Option<int>): int {
    if at.Some? then at.value else t
  }

  function AfterRedis(a: Attempt): int {
    Reached(Reached(Reached(a.now, a.keyAt), a.indexAt), a.renewedAt)
  }

  /** The clock is read, then the commands that succeed run one after the other. */
  predicate InTime(a: Attempt) {
    && a.now <= Reached(a.now, a.keyAt)
    && Reached(a.now, a.keyAt) <= Reached(Reached(a.now, a.keyAt), a.indexAt)
    && Reached(Reached(a.now, a.keyAt), a.indexAt) <= AfterRedis(a)
  }

  lemma RunUpToClock(t0: int, es: seq<M.Event>, s: M.State, id: RequestId, a: Attempt)
    returns (es': seq<M.Event>, s': M.State)
    requires M.Run(t0, es) == Some(s) && id !in s.handlers && a.req.Some? && s.clock <= a.now
    ensures M.Run(t0, es') == Some(s')
    ensures s' == s.(clock := a.now, handlers := s.handlers[id := M.Handler(a.req.value, M.Stamped(a.now))])
  {
    var s1, s2;
    es', s1 := T.Extend(t0, es, s, M.Arrive(id, a.req.value));
    es', s2 := T.Extend(t0, es', s1, M.Tick(a.now));
    es', s' := T.Extend(t0, es', s2, M.Connect(id, true));
  }

  lemma RunUpToKey(t0: int, es: seq<M.Event>, s: M.State, id: RequestId, a: Attempt)
    returns (es': seq<M.Event>, s': M.State)
    requires M.Run(t0, es) == Some(s) && id !in s.handlers && a.ReachesRedis() && InTime(a) && s.clock <= a.now
    ensures M.Run(t0, es') == Some(s')
    ensures s' == s.(clock := Reached(a.now, a.keyAt),
                     handlers := s.handlers[id := M.Handler(a.req.value, M.KeyWritten(a.now))],
                     redis := if a.keyAt.Some? then R.SetEx(s.redis, a.req.value, a.now, a.keyAt.value) else s.redis)
  {
    var s1;
    es', s1 := RunUpToClock(t0, es, s, id, a);
    var s2;
    es', s2 := T.Extend(t0, es', s1, M.Tick(Reached(a.now, a.keyAt)));
    es', s' := T.Extend(t0, es', s2, M.WriteKey(id, a.keyAt.Some?));
  }

  lemma RunUpToIndex(t0: int, es: seq<M.Event>, s: M.State, id: RequestId, a: Attempt)
    returns (es': seq<M.Event>, s': M.State)
    requires M.Run(t0, es) == Some(s) && a.req.Some? && s.clock <= Reached(s.clock, a.indexAt)
    requires M.At(s, id, M.KeyWritten(a.now)) && s.handlers[id].req == a.req.value
    ensures M.Run(t0, es') == Some(s')
    ensures s' == s.(clock := Reached(s.clock, a.indexAt),
                     handlers := s.handlers[id := M.Handler(a.req.value, M.IndexWritten(a.now))],
                     redis := if a.indexAt.Some? then R.SAdd(s.redis, a.req.value, a.indexAt.value) else s.redis)
  {
    es', s' := T.Extend(t0, es, s, M.Tick(Reached(s.clock, a.indexAt)));
    es', s' := T.Extend(t0, es', s', M.WriteIndex(id, a.indexAt.Some?));
  }

  lemma RunUpToRenewal(t0: int, es: seq<M.Event>, s: M.State, id: RequestId, a: Attempt)
    returns (es': seq<M.Event>, s': M.State)
    requires M.Run(t0, es) == Some(s) && a.req.Some? && s.clock <= Reached(s.clock, a.renewedAt)
    requires M.At(s, id, M.IndexWritten(a.now)) && s.handlers[id].req == a.req.value
    ensures M.Run(t0, es') == Some(s')
    ensures s' == s.(clock := Reached(s.clock, a.renewedAt),
                     handlers := s.handlers[id := M.Handler(a.req.value, M.IndexRenewed(a.now))],
                     redis := if a.renewedAt.Some? then R.Expire(s.redis, a.req.value.userId, a.renewedAt.value)
                              else s.redis)
  {
    es', s' := T.Extend(t0, es, s, M.Tick(Reached(s.clock, a.renewedAt)));
    es', s' := T.Extend(t0, es', s', M.RenewIndex(id, a.renewedAt.Some?));
  }

  lemma RunUpToRow(t0: int, es: seq<M.Event>, s: M.State, id: RequestId, a: Attempt)
    returns (es': seq<M.Event>, s': M.State)
    requires M.Run(t0, es) == Some(s) && id !in s.handlers && a.ReachesRedis() && InTime(a) && s.clock <= a.now
    ensures M.Run(t0, es') == Some(s')
    ensures s' == s.(clock := AfterRedis(a), handlers := s'.handlers, redis := RedisAfter(s.redis, a))
    ensures M.At(s', id, M.IndexRenewed(a.now)) && s'.handlers[id].req == a.req.value
  {
    var s1, s2;
    es', s1 := RunUpToKey(t0, es, s, id, a);
    es', s2 := RunUpToIndex(t0, es', s1, id, a);
    es', s' := RunUpToRenewal(t0, es', s2, id, a);
  }

  lemma RunFromRow(t0: int, es: seq<M.Event>, s: M.State, id: RequestId, a: Attempt)
    returns (es': seq<M.Event>, s': M.State)
    requires M.Run(t0, es) == Some(s) && s.guard.None? && a.req.Some?
    requires M.At(s, id, M.RowStored(a.now)) && s.handlers[id].req == a.req.value
    ensures M.Run(t0, es') == Some(s') && s'.guard.None? && M.At(s', id, M.Done(a.publishes))
    ensures StoresOf(s') == StoresOf(s).(
      active := Commit(s.active, a.req.value, a.now),
      channels := Sent(s.channels, a.req.value, a.now),
      kafka := if a.publishes then s.kafka + [EventOf(a.req.value, a.now)] else s.kafka)
  {
    es', s' := T.Extend(t0, es, s, M.CommitInMemory(id));
    es', s' := T.Extend(t0, es', s', M.Announce(id));
    es', s' := T.Extend(t0, es', s', M.Publish(id, a.publishes));
  }

  lemma RunRefused(t0: int, es: seq<M.Event>, s: M.State, id: RequestId, r: UpdateRequest)
    returns (es': seq<M.Event>, s': M.State)
    requires M.Run(t0, es) == Some(s) && id !in s.handlers
    ensures M.Run(t0, es') == Some(s') && StoresOf(s') == StoresOf(s) && s'.guard == s.guard
    ensures M.At(s', id, M.Done(false))
  {
    es', s' := T.Extend(t0, es, s, M.Arrive(id, r));
    es', s' := T.Extend(t0, es', s', M.Connect(id, false));
  }

  /**
   A call that nothing interleaves with, however much time passes between its steps, is a run of the
   machine, to the same stores and the same answer.
   */
  lemma HandlerIsRun(t0: int, es: seq<M.Event>, s: M.State, id: RequestId, a: Attempt)
    returns (es': seq<M.Event>, s': M.State)
    requires M.Run(t0, es) == Some(s) && id !in s.handlers && s.guard.None?
    requires a.req.Some? && InTime(a) && s.clock <= a.now
    ensures M.Run(t0, es') == Some(s')
    ensures StoresOf(s') == Handled(StoresOf(s), a)
    ensures s'.guard.None? && M.At(s', id, M.Done(a.Succeeds()))
  {
    if !a.connects {
      es', s' := RunRefused(t0, es, s, id, a.req.value);
    } else {
      es', s' := RunUpToRow(t0, es, s, id, a);
      es', s' := T.Extend(t0, es', s', M.StoreRow(id, a.storesRow));
      if a.storesRow {
        es', s' := RunFromRow(t0, es', s', id, a);
      }
    }
  }
}
