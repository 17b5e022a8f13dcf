/**
 The two Redis structures of the presence service: one string per device and one set of device keys
 per user, both with a time to live. A lookup at time t ignores whatever has reached its deadline.
 */
module RedisStore {
  import opened Wrappers
  import opened Sets
  import opened PresenceTypes

  datatype DeviceKey = DeviceKey(userId: UserId, deviceId: DeviceId)

  datatype Stored = Stored(value: PresenceState, deadline: int)

  datatype Index = Index(members: set<DeviceKey>, deadline: Option<int>)

  datatype Redis = Redis(devices: map<DeviceKey, Stored>, indexes: map<UserId, Index>)

  const EMPTY := Redis(map[], map[])

  function KeyOf(r: UpdateRequest): DeviceKey {
    DeviceKey(r.userId, r.deviceId)
  }

  predicate DeviceLive(redis: Redis, k: DeviceKey, t: int) {
    k in redis.devices && redis.devices[k].deadline > t
  }

  predicate IndexLive(redis: Redis, u: UserId, t: int) {
    u in redis.indexes && (redis.indexes[u].deadline.None? || redis.indexes[u].deadline.value > t)
  }

  function Members(redis: Redis, u: UserId, t: int): set<DeviceKey> {
    if IndexLive(redis, u, t) then redis.indexes[u].members else {}
  }

  /** `SET key value EX 300`. */
  function SetEx(redis: Redis, r: UpdateRequest, now: int, t: int): Redis {
    redis.(devices := redis.devices[KeyOf(r) := Stored(StateOf(r, now), t + TTL)])
  }

  /** `SADD`: an existing set keeps its deadline, a new one has none. */
  function SAdd(redis: Redis, r: UpdateRequest, t: int): Redis {
    var deadline := if IndexLive(redis, r.userId, t) then redis.indexes[r.userId].deadline else None;
    redis.(indexes := redis.indexes[r.userId := Index(Members(redis, r.userId, t) + {KeyOf(r)}, deadline)])
  }

  /** `EXPIRE key 300`: does nothing when the set is gone. */
  function Expire(redis: Redis, u: UserId, t: int): Redis {
    if IndexLive(redis, u, t) then
      redis.(indexes := redis.indexes[u := redis.indexes[u].(deadline := Some(t + TTL))])
    else redis
  }

  /** The three commands of one update, each at its own time. */
  function WriteSpread(redis: Redis, r: UpdateRequest, now: int, t1: int, t2: int, t3: int): Redis {
    Expire(SAdd(SetEx(redis, r, now, t1), r, t2), r.userId, t3)
  }

  /** The three commands of one update at one instant. */
  function Write(redis: Redis, r: UpdateRequest, now: int, t: int): Redis {
    WriteSpread(redis, r, now, t, t, t)
  }

  /** The embedded expiry never outlives the key, and no deadline is further away than one lifetime. */
  ghost predicate Embedded(redis: Redis, t: int) {
    forall k :: k in redis.devices ==>
      && redis.devices[k].value.userId == k.userId
      && redis.devices[k].value.deviceId == k.deviceId
      && redis.devices[k].value.expiresAt <= redis.devices[k].deadline <= t + TTL
  }

  /** Every unexpired device key is in its user's index, which lasts at least as long. */
  ghost predicate Indexed(redis: Redis, t: int) {
    forall k :: DeviceLive(redis, k, t) ==>
      && k in Members(redis, k.userId, t)
      && (redis.indexes[k.userId].deadline.Some? ==>
            redis.devices[k].deadline <= redis.indexes[k.userId].deadline.value)
  }

  /** The index lapses between `sadd` and `expire`, while the new key still lives. */
  predicate IndexLapses(redis: Redis, r: UpdateRequest, t1: int, t2: int, t3: int) {
    && r.userId in redis.indexes
    && redis.indexes[r.userId].deadline.Some?
    && t2 < redis.indexes[r.userId].deadline.value <= t3
    && t3 < t1 + TTL
  }

  /**
   With time passing between the three commands, the index still agrees at the end exactly when it did
   not lapse between `sadd` and `expire`.
   */
  lemma SpreadWriteAgreesIff(redis: Redis, r: UpdateRequest, now: int, t1: int, t2: int, t3: int)
    requires now <= t1 <= t2 <= t3
    requires Embedded(redis, t1) && Indexed(redis, t1)
    ensures Embedded(WriteSpread(redis, r, now, t1, t2, t3), t3)
    ensures Indexed(WriteSpread(redis, r, now, t1, t2, t3), t3) <==> !IndexLapses(redis, r, t1, t2, t3)
  {
  }

  /** Two devices of one user: the second write straddles the end of the index. */
  lemma LapseWitness()
    ensures var r1 := UpdateRequest(7, ONLINE, "phone", None, None, None);
      var r2 := UpdateRequest(7, ONLINE, "laptop", None, None, None);
      var before := Write(EMPTY, r1, 0, 0);
      var after := WriteSpread(before, r2, 298, 298, 299, 301);
      && Indexed(before, 298)
      && DeviceLive(after, KeyOf(r2), 301)
      && Members(after, 7, 301) == {}
  {
  }

  // ---------- Whole runs of writes ----------

  /** The three commands of one update, with the clock reading they carry and the times at which they ran. */
  datatype RedisWrite = RedisWrite(req: UpdateRequest, now: int, keyAt: int, indexAt: int, renewedAt: int)

  predicate Ordered(w: RedisWrite, t: int) {
    w.now <= w.keyAt <= w.indexAt <= w.renewedAt <= t
  }

  /** One user's updates follow one another and are over by `t`; those of other users run as they like. */
  ghost predicate InOrder(ws: seq<RedisWrite>, u: UserId, t: int) {
    && (forall i :: 0 <= i < |ws| && ws[i].req.userId == u ==> Ordered(ws[i], t))
    && (forall i, j :: 0 <= i < j < |ws| && ws[i].req.userId == u && ws[j].req.userId == u ==>
          ws[i].renewedAt <= ws[j].keyAt)
  }

  function After(redis: Redis, w: RedisWrite): Redis {
    WriteSpread(redis, w.req, w.now, w.keyAt, w.indexAt, w.renewedAt)
  }

  function Writes(ws: seq<RedisWrite>): Redis {
    if ws == [] then EMPTY else After(Writes(ws[..|ws| - 1]), ws[|ws| - 1])
  }

  /** This write finds the index alive at `sadd` and gone at `expire`. */
  predicate Lapses(redis: Redis, w: RedisWrite) {
    IndexLapses(redis, w.req, w.keyAt, w.indexAt, w.renewedAt)
  }

  /** The last write of this key lost the index. */
  predicate LastLapsed(ws: seq<RedisWrite>, k: DeviceKey) {
    ws != [] &&
      var front, w := ws[..|ws| - 1], ws[|ws| - 1];
      if KeyOf(w.req) == k then Lapses(Writes(front), w) else LastLapsed(front, k)
  }

  /** An index cannot lapse within one instant. */
  lemma {:induction false} InstantWritesNeverLapse(ws: seq<RedisWrite>, k: DeviceKey)
    requires forall i :: 0 <= i < |ws| && KeyOf(ws[i].req) == k ==> ws[i].keyAt == ws[i].indexAt == ws[i].renewedAt
    ensures !LastLapsed(ws, k)
  {
    if ws != [] {
      InstantWritesNeverLapse(ws[..|ws| - 1], k);
    }
  }

  /**
   One key and its user's index: the index has a deadline; the key carries its own ids and an expiry
   within its deadline; unless its last write lost the index, a live key is in the index, which lasts at
   least as long; otherwise it is in no index.
   */
  predicate KeyOk(redis: Redis, k: DeviceKey, lapsed: bool, t: int) {
    && (k.userId in redis.indexes ==> redis.indexes[k.userId].deadline.Some?)
    && (k in redis.devices ==>
          && redis.devices[k].value.userId == k.userId && redis.devices[k].value.deviceId == k.deviceId
          && redis.devices[k].value.expiresAt <= redis.devices[k].deadline <= t + TTL)
    && (DeviceLive(redis, k, t) && !lapsed ==>
          && k in Members(redis, k.userId, t)
          && redis.devices[k].deadline <= redis.indexes[k.userId].deadline.value)
    && (DeviceLive(redis, k, t) && lapsed ==> k !in Members(redis, k.userId, t))
  }

  lemma KeyStep(redis: Redis, k: DeviceKey, lapsed: bool, w: RedisWrite, t: int)
    requires w.req.userId == k.userId && Ordered(w, t) && KeyOk(redis, k, lapsed, w.keyAt)
    ensures KeyOk(After(redis, w), k, if KeyOf(w.req) == k then Lapses(redis, w) else lapsed, t)
  {
  }

  lemma {:induction false} WritesKeepKey(ws: seq<RedisWrite>, k: DeviceKey, t: int)
    requires InOrder(ws, k.userId, t)
    ensures KeyOk(Writes(ws), k, LastLapsed(ws, k), t)
  {
    if ws != [] {
      var front, w := ws[..|ws| - 1], ws[|ws| - 1];
      if w.req.userId == k.userId {
        WritesKeepKey(front, k, w.keyAt);
        KeyStep(Writes(front), k, LastLapsed(front, k), w, t);
      } else {
        WritesKeepKey(front, k, t);
      }
    }
  }

  /** After any run, an unexpired device key is in its user's index exactly when its last write did not lose it. */
  lemma IndexedIff(ws: seq<RedisWrite>, k: DeviceKey, t: int)
    requires InOrder(ws, k.userId, t) && DeviceLive(Writes(ws), k, t)
    ensures k in Members(Writes(ws), k.userId, t) <==> !LastLapsed(ws, k)
  {
    WritesKeepKey(ws, k, t);
  }

  /** The device keys of one user whose embedded expiry lies ahead. */
  ghost function LiveDevices(redis: Redis, u: UserId, t: int): set<DeviceKey> {
    set k | k in redis.devices && k.userId == u && DeviceLive(redis, k, t) && redis.devices[k].value.expiresAt > t
  }

  /**
   The devices a reader counts include every live one exactly when no live device's last write lost the
   index, and then the reported count is never below the number of live devices.
   */
  lemma CountCoversLiveDevices(ws: seq<RedisWrite>, u: UserId, t: int)
    requires InOrder(ws, u, t)
    ensures LiveDevices(Writes(ws), u, t) <= Members(Writes(ws), u, t)
       <==> forall k :: k in LiveDevices(Writes(ws), u, t) ==> !LastLapsed(ws, k)
    ensures (forall k :: k in LiveDevices(Writes(ws), u, t) ==> !LastLapsed(ws, k)) ==>
      |LiveDevices(Writes(ws), u, t)| <= |Members(Writes(ws), u, t)|
  {
    var live, members := LiveDevices(Writes(ws), u, t), Members(Writes(ws), u, t);
    forall k | k in live ensures k in members <==> !LastLapsed(ws, k) {
      IndexedIff(ws, k, t);
    }
    if live <= members {
      SubsetCardinality(live, members);
    }
  }
}
