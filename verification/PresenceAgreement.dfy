/**
 Redis and the in-memory map side by side. When one user's updates meet no failure and do not overlap,
 the reader of Redis sees that user's live devices as the in-memory map has them, with one exception:
 a device whose last update lost the user's index between the two commands that extend it.
 */
module PresenceAgreement {
  import opened Wrappers
  import opened PresenceTypes
  import opened RedisStore
  import C = PresenceCache

  /** An update that read the clock, ran its Redis commands and committed, or a sweep with its clock reading. */
  datatype Op =
    | Updated(req: UpdateRequest, now: int, keyAt: int, indexAt: int, renewedAt: int, committed: int)
    | Cleaned(read: int)

  predicate IsUpdateOf(op: Op, u: UserId) {
    op.Updated? && op.req.userId == u
  }

  /** One user's updates follow one another; sweeps and other users' updates run anywhere. All of it is over by `t`. */
  ghost predicate Serial(ops: seq<Op>, u: UserId, t: int) {
    && (forall i :: 0 <= i < |ops| ==> (if ops[i].Updated? then ops[i].now else ops[i].read) <= t)
    && (forall i :: 0 <= i < |ops| && IsUpdateOf(ops[i], u) ==>
          ops[i].now <= ops[i].keyAt <= ops[i].indexAt <= ops[i].renewedAt <= ops[i].committed <= t)
    && (forall i, j :: 0 <= i < j < |ops| && IsUpdateOf(ops[i], u) && IsUpdateOf(ops[j], u) ==>
          ops[i].committed <= ops[j].now)
  }

  function WriteOf(op: Op): RedisWrite
    requires op.Updated?
  {
    RedisWrite(op.req, op.now, op.keyAt, op.indexAt, op.renewedAt)
  }

  function RedisWrites(ops: seq<Op>): seq<RedisWrite> {
    if ops == [] then []
    else
      var op := ops[|ops| - 1];
      RedisWrites(ops[..|ops| - 1]) + (if op.Updated? then [WriteOf(op)] else [])
  }

  function GuardLog(ops: seq<Op>): (log: seq<C.Item>)
    ensures |log| == |ops|
    ensures forall i :: 0 <= i < |ops| ==> log[i].now == (if ops[i].Updated? then ops[i].now else ops[i].read)
  {
    if ops == [] then []
    else
      var op := ops[|ops| - 1];
      GuardLog(ops[..|ops| - 1]) + [if op.Updated? then C.Update(|ops|, op.req, op.now) else C.Swept(op.read)]
  }

  /** One device as a reader of Redis sees it at `t`. */
  function RedisView(redis: Redis, u: UserId, d: DeviceId, t: int): Option<PresenceUpdate> {
    var k := DeviceKey(u, d);
    if k in Members(redis, u, t) && DeviceLive(redis, k, t) && redis.devices[k].value.expiresAt > t then
      var e := redis.devices[k].value;
      Some(PresenceUpdate(u, e.status, d, e.lastActive, e.customStatus))
    else None
  }

  /** Redis keeps, under each device's key, the last commit of that device. */
  ghost predicate HoldsLast(redis: Redis, log: seq<C.Item>) {
    forall u, d ::
      var c, k := C.LastCommit(log, u, d), DeviceKey(u, d);
      && (c.Some? <==> k in redis.devices)
      && (c.Some? ==> redis.devices[k].value == StateOf(c.value.req, c.value.now))
  }

  lemma {:induction false} RedisHoldsLast(ops: seq<Op>)
    ensures HoldsLast(Writes(RedisWrites(ops)), GuardLog(ops))
  {
    if ops == [] {
      return;
    }
    var front, op := ops[..|ops| - 1], ops[|ops| - 1];
    var log, ws := GuardLog(ops), RedisWrites(ops);
    RedisHoldsLast(front);
    assert log[..|log| - 1] == GuardLog(front);
    if op.Updated? {
      assert ws[..|ws| - 1] == RedisWrites(front);
    } else {
      assert ws == RedisWrites(front);
    }
  }

  /** Up to a user's next update, its earlier ones are over. */
  lemma {:induction false} WritesInOrder(ops: seq<Op>, u: UserId, t: int)
    requires forall i :: 0 <= i < |ops| && IsUpdateOf(ops[i], u) ==>
      ops[i].now <= ops[i].keyAt <= ops[i].indexAt <= ops[i].renewedAt <= ops[i].committed <= t
    requires forall i, j :: 0 <= i < j < |ops| && IsUpdateOf(ops[i], u) && IsUpdateOf(ops[j], u) ==>
      ops[i].committed <= ops[j].now
    ensures InOrder(RedisWrites(ops), u, t)
  {
    if ops != [] {
      var op := ops[|ops| - 1];
      WritesInOrder(ops[..|ops| - 1], u, if IsUpdateOf(op, u) then op.now else t);
    }
  }

  /** The device is live and its last update lost the user's index. */
  predicate Hidden(ops: seq<Op>, u: UserId, d: DeviceId, t: int) {
    var ws, k := RedisWrites(ops), DeviceKey(u, d);
    LastLapsed(ws, k) && k in Writes(ws).devices && Writes(ws).devices[k].value.expiresAt > t
  }

  /**
   At every time after a user's last completed update, the two stores agree on a device exactly when its
   last update did not lose the user's index while its entry is still live.
   */
  lemma StoresAgreeIff(ops: seq<Op>, u: UserId, d: DeviceId, t: int)
    requires Serial(ops, u, t)
    ensures RedisView(Writes(RedisWrites(ops)), u, d, t) == C.View(C.Lookup(C.CacheOf(GuardLog(ops)), u, d), t)
       <==> !Hidden(ops, u, d, t)
  {
    RedisHoldsLast(ops);
    WritesInOrder(ops, u, t);
    WritesKeepKey(RedisWrites(ops), DeviceKey(u, d), t);
    C.LiveViewIsLastCommit(GuardLog(ops), u, d, t);
    assert C.LastCommit(GuardLog(ops), u, d).Some? <==> DeviceKey(u, d) in Writes(RedisWrites(ops)).devices;
  }

  /** So they always agree when the three commands of each update of the device share an instant. */
  lemma {:induction false} InstantUpdatesAgree(ops: seq<Op>, u: UserId, d: DeviceId, t: int)
    requires Serial(ops, u, t)
    requires forall i :: 0 <= i < |ops| && IsUpdateOf(ops[i], u) && ops[i].req.deviceId == d ==>
      ops[i].keyAt == ops[i].indexAt == ops[i].renewedAt
    ensures RedisView(Writes(RedisWrites(ops)), u, d, t) == C.View(C.Lookup(C.CacheOf(GuardLog(ops)), u, d), t)
  {
    InstantWrites(ops, u, d);
    InstantWritesNeverLapse(RedisWrites(ops), DeviceKey(u, d));
    StoresAgreeIff(ops, u, d, t);
  }

  lemma {:induction false} InstantWrites(ops: seq<Op>, u: UserId, d: DeviceId)
    requires forall i :: 0 <= i < |ops| && IsUpdateOf(ops[i], u) && ops[i].req.deviceId == d ==>
      ops[i].keyAt == ops[i].indexAt == ops[i].renewedAt
    ensures forall i :: 0 <= i < |RedisWrites(ops)| && KeyOf(RedisWrites(ops)[i].req) == DeviceKey(u, d) ==>
      RedisWrites(ops)[i].keyAt == RedisWrites(ops)[i].indexAt == RedisWrites(ops)[i].renewedAt
  {
    if ops != [] {
      InstantWrites(ops[..|ops| - 1], u, d);
    }
  }

  const PHONE := Updated(UpdateRequest(7, ONLINE, "phone", None, None, None), 0, 0, 0, 0, 0)
  const LAPTOP := Updated(UpdateRequest(7, ONLINE, "laptop", None, None, None), 298, 298, 299, 301, 301)

  lemma StraddlingWrites()
    ensures RedisWrites([PHONE, LAPTOP]) == [WriteOf(PHONE), WriteOf(LAPTOP)]
    ensures Writes([WriteOf(PHONE), WriteOf(LAPTOP)]) == After(After(EMPTY, WriteOf(PHONE)), WriteOf(LAPTOP))
    ensures LastLapsed([WriteOf(PHONE), WriteOf(LAPTOP)], DeviceKey(7, "laptop"))
  {
    assert [PHONE, LAPTOP][..1] == [PHONE];
    assert RedisWrites([PHONE]) == [WriteOf(PHONE)];
    assert [WriteOf(PHONE), WriteOf(LAPTOP)][..1] == [WriteOf(PHONE)];
    assert Writes([WriteOf(PHONE)]) == After(EMPTY, WriteOf(PHONE));
  }

  lemma StraddlingIsHidden()
    ensures Serial([PHONE, LAPTOP], 7, 301) && Hidden([PHONE, LAPTOP], 7, "laptop", 301)
    ensures RedisView(Writes(RedisWrites([PHONE, LAPTOP])), 7, "laptop", 301).None?
  {
    StraddlingWrites();
  }

  /** The exception occurs: a second device's update straddles the end of the index of the first. */
  lemma HiddenDeviceWitness()
    ensures Serial([PHONE, LAPTOP], 7, 301)
    ensures RedisView(Writes(RedisWrites([PHONE, LAPTOP])), 7, "laptop", 301).None?
    ensures C.View(C.Lookup(C.CacheOf(GuardLog([PHONE, LAPTOP])), 7, "laptop"), 301).Some?
  {
    StraddlingIsHidden();
    StoresAgreeIff([PHONE, LAPTOP], 7, "laptop", 301);
  }
}
