/**
 Reading presence back: the fold over a user's device data, the lookup of several users, the list of
 online friends, and the agreement of what Redis shows with what the in-memory map shows.
 */
module PresenceReader {
  import opened Wrappers
  import opened PresenceTypes
  import opened RedisStore

  datatype UserPresence = UserPresence(status: string, lastActive: int, customStatus: Option<string>, devices: nat)

  datatype ReadError = InvalidArgument | Internal

  /** One MGET value: a device record, or `None` for a string that does not parse. */
  type DeviceData = Option<PresenceState>

  predicate Live(d: DeviceData, now: int) {
    d.Some? && d.value.expiresAt > now
  }

  predicate LiveOnline(d: DeviceData, now: int) {
    Live(d, now) && d.value.status == ONLINE
  }

  /** Index of the first live online device, or the length. */
  ghost predicate IsFirstOnline(data: seq<DeviceData>, now: int, i: nat) {
    i < |data| && LiveOnline(data[i], now) && forall j :: 0 <= j < i ==> !LiveOnline(data[j], now)
  }

  ghost predicate IsLastLive(data: seq<DeviceData>, now: int, i: nat) {
    i < |data| && Live(data[i], now) && forall j :: i < j < |data| ==> !Live(data[j], now)
  }

  /** `i` is the first live device with a last activity of `t`. */
  ghost predicate IsFirstActiveAt(data: seq<DeviceData>, now: int, i: nat, t: int) {
    && i < |data| && Live(data[i], now) && data[i].value.lastActive == t
    && forall j :: 0 <= j < i ==> !(Live(data[j], now) && data[j].value.lastActive == t)
  }

  /** `m` is the maximum of `now` and every live device's last activity. */
  ghost predicate IsLatest(data: seq<DeviceData>, now: int, m: int) {
    && m >= now
    && (forall j :: 0 <= j < |data| && Live(data[j], now) ==> data[j].value.lastActive <= m)
    && (m == now || exists j :: 0 <= j < |data| && Live(data[j], now) && data[j].value.lastActive == m)
  }

  /** The status of the last live device, or offline. */
  ghost predicate IsLastStatus(data: seq<DeviceData>, now: int, status: string) {
    if exists i :: 0 <= i < |data| && Live(data[i], now)
    then exists i: nat :: IsLastLive(data, now, i) && status == data[i].value.status
    else status == "offline"
  }

  /** The latest activity, and the custom status of the first device that has it if it lies after `now`. */
  ghost predicate IsLatestWith(data: seq<DeviceData>, now: int, m: int, customStatus: Option<string>) {
    && IsLatest(data, now, m)
    && (if m == now then customStatus == None
        else exists i: nat :: IsFirstActiveAt(data, now, i, m) && customStatus == data[i].value.customStatus)
  }

  /** What a reader is told when some device is online, and what otherwise. */
  ghost predicate Summarizes(data: seq<DeviceData>, now: int, status: string, lastActive: int,
                             customStatus: Option<string>) {
    if exists i :: 0 <= i < |data| && LiveOnline(data[i], now) then
      exists i: nat :: IsFirstOnline(data, now, i)
        && status == ONLINE
        && lastActive == data[i].value.lastActive
        && customStatus == data[i].value.customStatus
    else IsLastStatus(data, now, status) && IsLatestWith(data, now, lastActive, customStatus)
  }

  lemma StatusStep(data: seq<DeviceData>, d: DeviceData, now: int, status: string)
    requires IsLastStatus(data, now, status)
    ensures IsLastStatus(data + [d], now, if Live(d, now) then d.value.status else status)
  {
    var after := data + [d];
    if Live(d, now) {
      assert IsLastLive(after, now, |data|);
    } else if exists i :: 0 <= i < |data| && Live(data[i], now) {
      var i: nat :| IsLastLive(data, now, i) && status == data[i].value.status;
      assert IsLastLive(after, now, i);
    }
  }

  lemma LatestStep(data: seq<DeviceData>, d: DeviceData, now: int, m: int, customStatus: Option<string>)
    requires IsLatestWith(data, now, m, customStatus)
    ensures if Live(d, now) && d.value.lastActive > m
            then IsLatestWith(data + [d], now, d.value.lastActive, d.value.customStatus)
            else IsLatestWith(data + [d], now, m, customStatus)
  {
    var after := data + [d];
    if Live(d, now) && d.value.lastActive > m {
      assert after[|data|] == d;
      assert IsFirstActiveAt(after, now, |data|, d.value.lastActive);
    } else if m != now {
      var i: nat :| IsFirstActiveAt(data, now, i, m) && customStatus == data[i].value.customStatus;
      assert IsFirstActiveAt(after, now, i, m);
    }
  }

  datatype Fold = Fold(status: string, lastActive: int, customStatus: Option<string>)

  /** What the loop has gathered from devices none of which is online. */
  function Gathered(data: seq<DeviceData>, now: int): Fold {
    if data == [] then Fold(OFFLINE, now, None)
    else
      var before, d := Gathered(data[..|data| - 1], now), data[|data| - 1];
      if !Live(d, now) then before
      else if d.value.lastActive > before.lastActive then Fold(d.value.status, d.value.lastActive, d.value.customStatus)
      else before.(status := d.value.status)
  }

  lemma {:induction false} GatheredIsLatest(data: seq<DeviceData>, now: int)
    ensures IsLastStatus(data, now, Gathered(data, now).status)
    ensures IsLatestWith(data, now, Gathered(data, now).lastActive, Gathered(data, now).customStatus)
  {
    if data != [] {
      var front, d := data[..|data| - 1], data[|data| - 1];
      var before := Gathered(front, now);
      GatheredIsLatest(front, now);
      assert data == front + [d];
      StatusStep(front, d, now, before.status);
      LatestStep(front, d, now, before.lastActive, before.customStatus);
    }
  }

  /** The fold: stops at the first live online device, otherwise remembers the last live status. */
  method Summarize(data: seq<DeviceData>, now: int)
    returns (status: string, lastActive: int, customStatus: Option<string>)
    ensures Summarizes(data, now, status, lastActive, customStatus)
  {
    status, lastActive, customStatus := OFFLINE, now, None;
    for n := 0 to |data|
      invariant forall i :: 0 <= i < n ==> !LiveOnline(data[i], now)
      invariant Fold(status, lastActive, customStatus) == Gathered(data[..n], now)
    {
      assert data[..n + 1][..n] == data[..n];
      if Live(data[n], now) {
        var presence := data[n].value;
        if presence.status == ONLINE {
          status, lastActive, customStatus := ONLINE, presence.lastActive, presence.customStatus;
          assert IsFirstOnline(data, now, n);
          return;
        } else {
          status := presence.status;
          if presence.lastActive > lastActive {
            lastActive := presence.lastActive;
            customStatus := presence.customStatus;
          }
        }
      }
    }
    assert data[..|data|] == data;
    GatheredIsLatest(data, now);
  }

  /** Whether a user counts as online, and since when another status is current, ignores the order of the devices. */
  lemma {:induction false} SummaryIgnoresOrder(a: seq<DeviceData>, b: seq<DeviceData>, now: int,
                            sa: string, la: int, ca: Option<string>, sb: string, lb: int, cb: Option<string>)
    requires forall d :: d in a <==> d in b
    requires Summarizes(a, now, sa, la, ca) && Summarizes(b, now, sb, lb, cb)
    ensures sa == ONLINE <==> exists d :: d in a && LiveOnline(d, now)
    ensures sa == ONLINE <==> sb == ONLINE
    ensures sa != ONLINE ==> la == lb
  {
    OnlineIsMembership(a, now, sa, la, ca);
    OnlineIsMembership(b, now, sb, lb, cb);
    if sa != ONLINE {
      LatestIgnoresOrder(a, b, now, la, lb);
    }
  }

  lemma OnlineIsMembership(data: seq<DeviceData>, now: int, status: string, lastActive: int, custom: Option<string>)
    requires Summarizes(data, now, status, lastActive, custom)
    ensures status == ONLINE <==> exists d :: d in data && LiveOnline(d, now)
  {
  }

  lemma LatestIgnoresOrder(a: seq<DeviceData>, b: seq<DeviceData>, now: int, la: int, lb: int)
    requires forall d :: d in a <==> d in b
    requires IsLatest(a, now, la) && IsLatest(b, now, lb)
    ensures la == lb
  {
    if la != now {
      var j :| 0 <= j < |a| && Live(a[j], now) && a[j].value.lastActive == la;
      assert a[j] in b;
    }
    if lb != now {
      var j :| 0 <= j < |b| && Live(b[j], now) && b[j].value.lastActive == lb;
      assert b[j] in a;
    }
  }

  // ---------- Looking users up ----------

  /** `SMEMBERS` returns the members in some order, each once. */
  method SMembers(redis: Redis, u: UserId, t: int) returns (keys: seq<DeviceKey>)
    ensures forall k :: k in keys <==> k in Members(redis, u, t)
    ensures |keys| == |Members(redis, u, t)|
  {
    var rest := Members(redis, u, t);
    keys := [];
    while rest != {}
      invariant rest <= Members(redis, u, t)
      invariant forall k :: k in Members(redis, u, t) <==> k in keys || k in rest
      invariant |keys| + |rest| == |Members(redis, u, t)|
      decreases rest
    {
      var k :| k in rest;
      keys := keys + [k];
      rest := rest - {k};
    }
  }

  /** `MGET` of device keys. The caller asks for strings, so a missing value fails the whole command. */
  method MGet(redis: Redis, keys: seq<DeviceKey>, t: int) returns (r: Result<seq<DeviceData>, ReadError>)
    ensures r.Ok? <==> forall k :: k in keys ==> DeviceLive(redis, k, t)
    ensures r.Ok? ==> |r.value| == |keys|
    ensures r.Ok? ==> forall i :: 0 <= i < |keys| ==>
      keys[i] in redis.devices && r.value[i] == Some(redis.devices[keys[i]].value)
  {
    var data: seq<DeviceData> := [];
    for n := 0 to |keys|
      invariant forall i :: 0 <= i < n ==> DeviceLive(redis, keys[i], t)
      invariant |data| == n
      invariant forall i :: 0 <= i < n ==> data[i] == Some(redis.devices[keys[i]].value)
    {
      if !DeviceLive(redis, keys[n], t) {
        return Err(Internal);
      }
      data := data + [Some(redis.devices[keys[n]].value)];
    }
    return Ok(data);
  }

  /** What Redis holds when the two commands of one user's lookup run, each at its own time. */
  datatype Reading = Reading(index: Redis, indexAt: int, values: Redis, valuesAt: int)
  {
    function Keys(u: UserId): set<DeviceKey> { Members(index, u, indexAt) }
  }

  /** Every indexed key still has a value when the values are read. */
  predicate Answerable(at: Reading, u: UserId) {
    forall k :: k in at.Keys(u) ==> DeviceLive(at.values, k, at.valuesAt)
  }

  ghost predicate HasLiveOnline(at: Reading, u: UserId, now: int) {
    exists k :: k in at.Keys(u) && DeviceLive(at.values, k, at.valuesAt)
      && at.values.devices[k].value.expiresAt > now && at.values.devices[k].value.status == "online"
  }

  /** The device data behind an index, in some order. */
  ghost predicate Enumerates(data: seq<DeviceData>, redis: Redis, keys: set<DeviceKey>) {
    && |data| == |keys|
    && (forall k :: k in keys ==> k in redis.devices && Some(redis.devices[k].value) in data)
    && (forall d :: d in data ==> exists k :: k in keys && k in redis.devices && d == Some(redis.devices[k].value))
  }

  /** What one user's lookup, with the clock read at `now`, may answer. */
  ghost predicate Answers(at: Reading, u: UserId, now: int, p: UserPresence) {
    if at.Keys(u) == {} then p == UserPresence("offline", 0, None, 0)
    else
      && p.devices == |at.Keys(u)|
      && exists data :: Enumerates(data, at.values, at.Keys(u))
           && Summarizes(data, now, p.status, p.lastActive, p.customStatus)
  }

  /** One round of the lookup loop. */
  method LookUp(at: Reading, u: UserId, now: int) returns (r: Result<UserPresence, ReadError>)
    ensures r.Ok? <==> Answerable(at, u)
    ensures r.Ok? ==> Answers(at, u, now, r.value)
    ensures r.Err? ==> r.error == Internal
  {
    var keys := SMembers(at.index, u, at.indexAt);
    if keys == [] {
      return Ok(UserPresence(OFFLINE, 0, None, 0));
    }
    var data := MGet(at.values, keys, at.valuesAt);
    if data.Err? {
      return Err(Internal);
    }
    var status, lastActive, customStatus := Summarize(data.value, now);
    assert keys[0] in at.Keys(u);
    assert Enumerates(data.value, at.values, at.Keys(u)) by {
      forall d | d in data.value
        ensures exists k :: k in at.Keys(u) && k in at.values.devices && d == Some(at.values.devices[k].value)
      {
        var i :| 0 <= i < |data.value| && data.value[i] == d;
        assert keys[i] in at.Keys(u);
      }
      forall k | k in at.Keys(u) ensures k in at.values.devices && Some(at.values.devices[k].value) in data.value {
        var i :| 0 <= i < |keys| && keys[i] == k;
        assert data.value[i] == Some(at.values.devices[k].value);
      }
    }
    return Ok(UserPresence(status, lastActive, customStatus, |keys|));
  }

  lemma AnswerIsOnlineIff(at: Reading, u: UserId, now: int, p: UserPresence)
    requires Answers(at, u, now, p) && Answerable(at, u)
    ensures p.status == ONLINE <==> HasLiveOnline(at, u, now)
  {
    if at.Keys(u) != {} {
      var data :| Enumerates(data, at.values, at.Keys(u))
        && Summarizes(data, now, p.status, p.lastActive, p.customStatus);
      OnlineIsMembership(data, now, p.status, p.lastActive, p.customStatus);
    }
  }

  /** The ids that parse, in order. */
  function Parsed(ids: seq<Option<UserId>>): seq<UserId> {
    if ids == [] then []
    else
      var id := ids[|ids| - 1];
      Parsed(ids[..|ids| - 1]) + (if id.Some? then [id.value] else [])
  }

  lemma {:induction false} ParsedMembers(ids: seq<Option<UserId>>, u: UserId)
    ensures u in Parsed(ids) <==> Some(u) in ids
  {
    if ids != [] {
      var front := ids[..|ids| - 1];
      ParsedMembers(front, u);
      assert ids == front + [ids[|ids| - 1]];
    }
  }

  /** The last place at which a list names a user. */
  function LastOf(users: seq<UserId>, u: UserId): (n: nat)
    requires u in users
    ensures n < |users| && users[n] == u && u !in users[n + 1..]
  {
    if users[|users| - 1] == u then |users| - 1 else LastOf(users[..|users| - 1], u)
  }

  /**
   `get_presence`: ids that do not parse are dropped and the clock is read once. The n-th lookup sees
   Redis as `world(n)` says; any lookup whose index names a key without a value fails the whole request,
   and of several lookups of one user the last one counts.
   */
  method GetPresence(ids: seq<Option<UserId>>, world: nat -> Reading, connected: bool, now: int)
    returns (r: Result<map<UserId, UserPresence>, ReadError>)
    ensures (r == Err(InvalidArgument)) <==> Parsed(ids) == []
    ensures r.Ok? <==>
      connected && Parsed(ids) != [] && forall n: nat :: n < |Parsed(ids)| ==> Answerable(world(n), Parsed(ids)[n])
    ensures r.Ok? ==> forall u :: u in r.value <==> Some(u) in ids
    ensures r.Ok? ==> forall u :: u in r.value ==>
      u in Parsed(ids) && Answers(world(LastOf(Parsed(ids), u)), u, now, r.value[u])
  {
    var userIds := Parsed(ids);
    if userIds == [] {
      return Err(InvalidArgument);
    }
    if !connected {
      return Err(Internal);
    }
    var presenceMap: map<UserId, UserPresence> := map[];
    for n := 0 to |userIds|
      invariant forall u :: u in presenceMap <==> u in userIds[..n]
      invariant forall u :: u in presenceMap ==> Answers(world(LastOf(userIds[..n], u)), u, now, presenceMap[u])
      invariant forall m: nat :: m < n ==> Answerable(world(m), userIds[m])
    {
      var p := LookUp(world(n), userIds[n], now);
      if p.Err? {
        return Err(Internal);
      }
      assert userIds[..n + 1][..n] == userIds[..n];
      presenceMap := presenceMap[userIds[n] := p.value];
    }
    assert userIds[..|userIds|] == userIds;
    forall u: UserId ensures u in userIds <==> Some(u) in ids {
      ParsedMembers(ids, u);
    }
    return Ok(presenceMap);
  }

  datatype FriendPresence = FriendPresence(
    userId: UserId,
    status: string,
    lastActive: int,
    customStatus: Option<string>)

  /** The entry shows the user as online, with the time and custom status of the lookup. */
  predicate Copies(f: FriendPresence, p: UserPresence) {
    f.status == "online" && f.lastActive == p.lastActive && f.customStatus == p.customStatus
  }

  predicate Lists(fs: seq<FriendPresence>, u: UserId) {
    exists i :: 0 <= i < |fs| && fs[i].userId == u
  }

  ghost predicate DistinctUsers(fs: seq<FriendPresence>) {
    forall i, j :: 0 <= i < j < |fs| ==> fs[i].userId != fs[j].userId
  }

  /** Filters the answer map, in whatever order the map yields its keys. */
  method ListOnline(presence: map<UserId, UserPresence>) returns (online: seq<FriendPresence>)
    ensures forall u :: Lists(online, u) <==> u in presence && presence[u].status == ONLINE
    ensures DistinctUsers(online)
    ensures forall f :: f in online ==>
      f.userId in presence && Copies(f, presence[f.userId])
  {
    online := [];
    var rest := presence.Keys;
    while rest != {}
      invariant rest <= presence.Keys
      invariant forall u :: Lists(online, u) <==> u in presence && u !in rest && presence[u].status == ONLINE
      invariant DistinctUsers(online)
      invariant forall f :: f in online ==>
        f.userId in presence && Copies(f, presence[f.userId])
      decreases rest
    {
      var u :| u in rest;
      var p := presence[u];
      rest := rest - {u};
      if p.status == ONLINE {
        ghost var before := online;
        assert !Lists(before, u);
        online := online + [FriendPresence(u, p.status, p.lastActive, p.customStatus)];
        forall v ensures Lists(online, v) <==> Lists(before, v) || v == u {
          assert online[|before|].userId == u;
          if Lists(before, v) {
            var i :| 0 <= i < |before| && before[i].userId == v;
            assert online[i].userId == v;
          }
        }
      }
    }
  }

  lemma {:induction false} AllParse(friends: seq<UserId>, ids: seq<Option<UserId>>)
    requires |ids| == |friends| && forall i :: 0 <= i < |friends| ==> ids[i] == Some(friends[i])
    ensures Parsed(ids) == friends
  {
    if friends != [] {
      AllParse(friends[..|friends| - 1], ids[..|ids| - 1]);
    }
  }

  /**
   `get_online_friends`: when the lookup succeeds it lists exactly the friends with a live online
   device, each once however often the relationship table names them, as online and with the time and
   custom status their lookup answered. `user` is `None` for an id that does not parse, `rows` for a
   failed query.
   */
  method GetOnlineFriends(user: Option<UserId>, rows: Option<seq<UserId>>, world: nat -> Reading,
                          connected: bool, now: int)
    returns (r: Result<seq<FriendPresence>, ReadError>)
    ensures r == Err(InvalidArgument) <==> user.None?
    ensures r.Ok? <==>
      && user.Some? && rows.Some?
      && (rows.value == [] || (connected && forall n: nat :: n < |rows.value| ==> Answerable(world(n), rows.value[n])))
    ensures r.Ok? ==> forall u :: Lists(r.value, u) <==>
      u in rows.value && HasLiveOnline(world(LastOf(rows.value, u)), u, now)
    ensures r.Ok? ==> DistinctUsers(r.value)
    ensures r.Ok? ==> forall f :: f in r.value ==>
      f.userId in rows.value
      && exists p :: Answers(world(LastOf(rows.value, f.userId)), f.userId, now, p) && Copies(f, p)
  {
    if user.None? {
      return Err(InvalidArgument);
    }
    if rows.None? {
      return Err(Internal);
    }
    var friends := rows.value;
    if friends == [] {
      return Ok([]);
    }
    var ids := seq(|friends|, i requires 0 <= i < |friends| => Some(friends[i]));
    AllParse(friends, ids);
    var found := GetPresence(ids, world, connected, now);
    if found.Err? {
      return Err(found.error);
    }
    var online := ListOnline(found.value);
    forall u: UserId
      ensures u in found.value <==> u in friends
      ensures u in friends ==> (found.value[u].status == ONLINE <==> HasLiveOnline(world(LastOf(friends, u)), u, now))
    {
      ParsedMembers(ids, u);
      if u in friends {
        AnswerIsOnlineIff(world(LastOf(friends, u)), u, now, found.value[u]);
      }
    }
    forall f | f in online
      ensures f.userId in friends
      ensures exists p :: Answers(world(LastOf(friends, f.userId)), f.userId, now, p) && Copies(f, p)
    {
      assert f.userId in friends && Copies(f, found.value[f.userId]);
    }
    return Ok(online);
  }
}
