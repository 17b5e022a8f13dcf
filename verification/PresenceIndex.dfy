/**
 The index of device keys under every interleaving of requests, with commands that fail or are delayed.
 A key whose request is between its commands may be missing from the index; a settled key is missing
 only if the command that settled it came after the index had lost it, or failed to extend it.
 */
module PresenceIndex {
  import opened PresenceTypes
  import opened RedisStore
  import opened PresenceMachine

  predicate IsBetween(s: State, id: RequestId, k: DeviceKey) {
    && id in s.handlers && KeyOf(s.handlers[id].req) == k
    && (s.handlers[id].phase.KeyWritten? || s.handlers[id].phase.IndexWritten?)
  }

  /** Some request of this key has written the key and has not come to the end of its commands. */
  ghost predicate Unsettled(s: State, k: DeviceKey) {
    exists id :: IsBetween(s, id, k)
  }

  /** The index holds the key for as long as the key lives. */
  predicate Covered(redis: Redis, k: DeviceKey, t: int) {
    DeviceLive(redis, k, t) ==>
      && k in Members(redis, k.userId, t)
      && (redis.indexes[k.userId].deadline.Some? ==>
            redis.devices[k].deadline <= redis.indexes[k.userId].deadline.value)
  }

  /** That is: with nothing more happening, a reader that finds the key alive finds it in the index. */
  lemma CoveredIff(redis: Redis, k: DeviceKey, t: int)
    ensures Covered(redis, k, t)
       <==> forall t' :: t' >= t && DeviceLive(redis, k, t') ==> k in Members(redis, k.userId, t')
  {
    if !Covered(redis, k, t) && k in Members(redis, k.userId, t) {
      var end := redis.indexes[k.userId].deadline.value;
      assert DeviceLive(redis, k, end) && k !in Members(redis, k.userId, end);
    }
  }

  /** The last command of this request finds its key dead, or in the index and extends it or need not. */
  predicate RenewsInTime(s: State, id: RequestId, ok: bool)
    requires id in s.handlers
  {
    var k := KeyOf(s.handlers[id].req);
    DeviceLive(s.redis, k, s.clock) ==> k in Members(s.redis, k.userId, s.clock) && (ok || Covered(s.redis, k, s.clock))
  }

  predicate Renews(s: State, e: Event, k: DeviceKey) {
    e.RenewIndex? && e.id in s.handlers && KeyOf(s.handlers[e.id].req) == k
  }

  /** The most recent last command of this key's requests, if there was one, came in time. */
  predicate LastInTime(t0: int, es: seq<Event>, k: DeviceKey) {
    es == [] || Run(t0, es[..|es| - 1]).None? ||
    (var front, e := es[..|es| - 1], es[|es| - 1];
     var s := Run(t0, front).value;
     if Renews(s, e, k) then RenewsInTime(s, e.id, e.ok) else LastInTime(t0, front, k))
  }

  /** The last command leaves its key covered exactly when it comes in time. */
  lemma RenewalCoversIff(s: State, id: RequestId, ok: bool)
    requires Enabled(s, RenewIndex(id, ok)) && Embedded(s.redis, s.clock)
    ensures Covered(Apply(s, RenewIndex(id, ok)).redis, KeyOf(s.handlers[id].req), s.clock) <==> RenewsInTime(s, id, ok)
  {
  }

  ghost predicate SettledIsCovered(s: State, k: DeviceKey) {
    Unsettled(s, k) || Covered(s.redis, k, s.clock)
  }

  /** Only its last command takes a request out of its commands. */
  lemma StaysBetween(s: State, e: Event, id: RequestId, k: DeviceKey)
    requires Enabled(s, e) && IsBetween(s, id, k) && !(e.RenewIndex? && e.id == id)
    ensures IsBetween(Apply(s, e), id, k)
  {
    if Acts(e, id) {
      if !e.Arrive? {
        HandlerMoves(s, e, id);
      }
    } else {
      HandlerRests(s, e, id);
    }
  }

  lemma StaysUnsettled(s: State, e: Event, k: DeviceKey)
    requires Enabled(s, e) && Unsettled(s, k)
    requires !(e.RenewIndex? && KeyOf(s.handlers[e.id].req) == k)
    ensures Unsettled(Apply(s, e), k)
  {
    var id :| IsBetween(s, id, k);
    StaysBetween(s, e, id, k);
  }

  lemma KeyWriteUnsettles(s: State, id: RequestId, ok: bool)
    requires Enabled(s, WriteKey(id, ok))
    ensures Unsettled(Apply(s, WriteKey(id, ok)), KeyOf(s.handlers[id].req))
  {
    assert IsBetween(Apply(s, WriteKey(id, ok)), id, KeyOf(s.handlers[id].req));
  }

  /** A command of another key does not take a key out of the index while it lives. */
  lemma CommandKeepsCovered(redis: Redis, k: DeviceKey, r: UpdateRequest, now: int, t: int)
    requires Embedded(redis, t) && Covered(redis, k, t)
    ensures KeyOf(r) != k ==> Covered(SetEx(redis, r, now, t), k, t)
    ensures Covered(SAdd(redis, r, t), k, t)
    ensures Covered(Expire(redis, r.userId, t), k, t)
  {
  }

  lemma OthersKeepCovered(s: State, e: Event, k: DeviceKey)
    requires Enabled(s, e) && Embedded(s.redis, s.clock) && Covered(s.redis, k, s.clock)
    requires !(e.WriteKey? && KeyOf(s.handlers[e.id].req) == k)
    ensures Covered(Apply(s, e).redis, k, Apply(s, e).clock)
  {
    if e.WriteKey? || e.WriteIndex? || e.RenewIndex? {
      var h := s.handlers[e.id];
      CommandKeepsCovered(s.redis, k, h.req, h.phase.now, s.clock);
    } else {
      RedisRests(s, e);
    }
  }

  lemma RedisRests(s: State, e: Event)
    requires Enabled(s, e) && !(e.WriteKey? || e.WriteIndex? || e.RenewIndex?)
    ensures Apply(s, e).redis == s.redis && Apply(s, e).clock >= s.clock
  {
  }

  lemma SettledStep(s: State, e: Event, k: DeviceKey)
    requires Enabled(s, e) && Embedded(s.redis, s.clock)
    requires if Renews(s, e, k) then RenewsInTime(s, e.id, e.ok) else SettledIsCovered(s, k)
    ensures SettledIsCovered(Apply(s, e), k)
  {
    if Renews(s, e, k) {
      RenewalCoversIff(s, e.id, e.ok);
    } else if e.WriteKey? && KeyOf(s.handlers[e.id].req) == k {
      KeyWriteUnsettles(s, e.id, e.ok);
    } else if Unsettled(s, k) {
      StaysUnsettled(s, e, k);
    } else {
      OthersKeepCovered(s, e, k);
    }
  }

  /**
   In every run, with any commands failing or lapsing before: if the most recent last command of the key's
   requests came in time, the key is in its user's index whenever it is alive and no request of it is
   between its commands.
   */
  lemma {:induction false} SettledKeyIsIndexed(t0: int, es: seq<Event>, k: DeviceKey)
    requires Run(t0, es).Some? && LastInTime(t0, es, k)
    ensures SettledIsCovered(Run(t0, es).value, k)
  {
    if es != [] {
      var front, e := es[..|es| - 1], es[|es| - 1];
      RunKeepsInv(t0, front);
      if !Renews(Run(t0, front).value, e, k) {
        SettledKeyIsIndexed(t0, front, k);
      }
      SettledStep(Run(t0, front).value, e, k);
    }
  }

  // ---------- Updates whose commands share an instant ----------

  /** No time passes while a request of the key is between its commands, and its two index commands succeed. */
  ghost predicate Prompt(s: State, e: Event, k: DeviceKey) {
    && (e.Tick? && e.to > s.clock ==> !Unsettled(s, k))
    && ((e.WriteIndex? || e.RenewIndex?) && e.id in s.handlers && KeyOf(s.handlers[e.id].req) == k ==> e.ok)
  }

  ghost predicate PromptRun(t0: int, es: seq<Event>, k: DeviceKey) {
    es == [] ||
    (var front := es[..|es| - 1];
     PromptRun(t0, front, k) && Run(t0, front).Some? && Prompt(Run(t0, front).value, es[|es| - 1], k))
  }

  predicate Listed(redis: Redis, k: DeviceKey, t: int) {
    k in Members(redis, k.userId, t)
  }

  /** A request that has put the key into the index and not come to its end still finds it there. */
  ghost predicate ListedInv(s: State, k: DeviceKey) {
    forall id :: IsBetween(s, id, k) && s.handlers[id].phase.IndexWritten? ==> Listed(s.redis, k, s.clock)
  }

  lemma CommandsKeepListed(redis: Redis, k: DeviceKey, r: UpdateRequest, now: int, t: int)
    ensures Listed(redis, k, t) ==>
      && Listed(SetEx(redis, r, now, t), k, t)
      && Listed(SAdd(redis, r, t), k, t)
      && Listed(Expire(redis, r.userId, t), k, t)
    ensures KeyOf(r) == k ==> Listed(SAdd(redis, r, t), k, t)
  {
  }

  /** A request is in that stretch after its second command, or was before. */
  lemma ListedBefore(s: State, e: Event, id: RequestId, k: DeviceKey)
    requires Enabled(s, e) && IsBetween(Apply(s, e), id, k) && Apply(s, e).handlers[id].phase.IndexWritten?
    ensures (e.WriteIndex? && e.id == id) || (IsBetween(s, id, k) && s.handlers[id] == Apply(s, e).handlers[id])
    ensures id in s.handlers && KeyOf(s.handlers[id].req) == k
  {
    if Acts(e, id) {
      if !e.Arrive? {
        HandlerMoves(s, e, id);
      }
    } else {
      HandlerRests(s, e, id);
    }
  }

  lemma ListedStep(s: State, e: Event, k: DeviceKey)
    requires Enabled(s, e) && ListedInv(s, k) && Prompt(s, e, k)
    ensures ListedInv(Apply(s, e), k)
  {
    var s' := Apply(s, e);
    forall id | IsBetween(s', id, k) && s'.handlers[id].phase.IndexWritten? ensures Listed(s'.redis, k, s'.clock) {
      ListedBefore(s, e, id, k);
      if e.WriteKey? || e.WriteIndex? || e.RenewIndex? {
        var h := s.handlers[e.id];
        CommandsKeepListed(s.redis, k, h.req, h.phase.now, s.clock);
      } else {
        RedisRests(s, e);
        if e.Tick? {
          assert Unsettled(s, k);
        } else {
          ClockRests(s, e);
        }
      }
    }
  }

  lemma ClockRests(s: State, e: Event)
    requires Enabled(s, e) && !e.Tick?
    ensures Apply(s, e).clock == s.clock
  {
  }

  lemma {:induction false} PromptRunLists(t0: int, es: seq<Event>, k: DeviceKey)
    requires Run(t0, es).Some? && PromptRun(t0, es, k)
    ensures ListedInv(Run(t0, es).value, k)
  {
    if es != [] {
      PromptRunLists(t0, es[..|es| - 1], k);
      ListedStep(Run(t0, es[..|es| - 1]).value, es[|es| - 1], k);
    }
  }

  /** So the last command always comes in time. */
  lemma {:induction false} PromptRunIsInTime(t0: int, es: seq<Event>, k: DeviceKey)
    requires Run(t0, es).Some? && PromptRun(t0, es, k)
    ensures LastInTime(t0, es, k)
  {
    if es != [] {
      var front, e := es[..|es| - 1], es[|es| - 1];
      PromptRunLists(t0, front, k);
      var s := Run(t0, front).value;
      if Renews(s, e, k) {
        assert IsBetween(s, e.id, k);
      } else {
        PromptRunIsInTime(t0, front, k);
      }
    }
  }

  /**
   In every run, other requests interleaving at will: if no time passes between the commands of the key's
   requests and its index commands succeed, a live key is in its user's index whenever no request of it
   is between its commands.
   */
  lemma {:induction false} PromptKeyIsIndexed(t0: int, es: seq<Event>, k: DeviceKey)
    requires Run(t0, es).Some? && PromptRun(t0, es, k)
    ensures SettledIsCovered(Run(t0, es).value, k)
  {
    PromptRunIsInTime(t0, es, k);
    SettledKeyIsIndexed(t0, es, k);
  }

  // ---------- What an index may hold ----------

  /** Request `id` of user `u` and this device has performed its `sadd`. */
  predicate HasAdded(s: State, es: seq<Event>, i: nat, u: UserId, d: DeviceId) {
    && i < |es| && es[i].WriteIndex? && es[i].ok && es[i].id in s.handlers
    && s.handlers[es[i].id].req.userId == u && s.handlers[es[i].id].req.deviceId == d
  }

  /** Each index names keys of its own user alone, each added by a request for that device. */
  ghost predicate IndexInv(s: State, es: seq<Event>) {
    forall u, k :: u in s.redis.indexes && k in s.redis.indexes[u].members ==> IsOwn(s, es, u, k)
  }

  ghost predicate IsOwn(s: State, es: seq<Event>, u: UserId, k: DeviceKey) {
    k.userId == u && exists i: nat :: HasAdded(s, es, i, u, k.deviceId)
  }

  /** A handled request keeps its user and device. */
  lemma RequestsStay(s: State, e: Event, id: RequestId)
    requires Enabled(s, e) && id in s.handlers
    ensures id in Apply(s, e).handlers && Apply(s, e).handlers[id].req == s.handlers[id].req
  {
    if Acts(e, id) {
      HandlerMoves(s, e, id);
    } else {
      HandlerRests(s, e, id);
    }
  }

  lemma AddedStays(s: State, es: seq<Event>, e: Event, i: nat, u: UserId, d: DeviceId)
    requires Enabled(s, e) && HasAdded(s, es, i, u, d)
    ensures HasAdded(Apply(s, e), es + [e], i, u, d)
  {
    RequestsStay(s, e, es[i].id);
  }

  /** Only `sadd` puts a key into an index, and only its own request's. */
  lemma IndexStep(s: State, e: Event, u: UserId, k: DeviceKey)
    requires Enabled(s, e)
    requires u in Apply(s, e).redis.indexes && k in Apply(s, e).redis.indexes[u].members
    ensures || (u in s.redis.indexes && k in s.redis.indexes[u].members)
            || (e.WriteIndex? && e.ok && u == s.handlers[e.id].req.userId
                && k == DeviceKey(u, s.handlers[e.id].req.deviceId))
  {
    if !(e.WriteKey? || e.WriteIndex? || e.RenewIndex?) {
      RedisRests(s, e);
    }
  }

  /** In every run each index holds keys of its own user, each put there by a request of that device. */
  lemma {:induction false} IndexHoldsOwnKeys(t0: int, es: seq<Event>)
    requires Run(t0, es).Some?
    ensures IndexInv(Run(t0, es).value, es)
  {
    if es == [] {
      return;
    }
    var front, e := es[..|es| - 1], es[|es| - 1];
    var s, s' := Run(t0, front).value, Run(t0, es).value;
    IndexHoldsOwnKeys(t0, front);
    assert es == front + [e];
    forall u: UserId, k | u in s'.redis.indexes && k in s'.redis.indexes[u].members ensures IsOwn(s', es, u, k) {
      IndexStep(s, e, u, k);
      if u in s.redis.indexes && k in s.redis.indexes[u].members {
        assert IsOwn(s, front, u, k);
        var i: nat :| HasAdded(s, front, i, u, k.deviceId);
        AddedStays(s, front, e, i, u, k.deviceId);
      } else {
        RequestsStay(s, e, e.id);
        assert HasAdded(s', es, |front|, u, k.deviceId);
      }
    }
  }
}
