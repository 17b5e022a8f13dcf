/**
 The in-memory presence map: the two operations performed on it under the write lock, and what the
 map says about the sequence of commits and sweeps that built it. Commits carry the clock value
 read long before the lock was taken, so their stamps may arrive in any order.
 */
module PresenceCache {
  import opened Wrappers
  import opened Sequences
  import opened PresenceTypes

  type Cache = map<UserId, seq<PresenceState>>

  /** Index of the first entry of device `d`, or the length of the list. */
  function IndexOf(states: seq<PresenceState>, d: DeviceId): (i: nat)
    ensures i <= |states|
    ensures i < |states| ==> states[i].deviceId == d
    ensures forall j :: 0 <= j < i ==> states[j].deviceId != d
  {
    FirstWhere(states, (e: PresenceState) => e.deviceId == d)
  }

  function Find(states: seq<PresenceState>, d: DeviceId): Option<PresenceState> {
    var i := IndexOf(states, d);
    if i < |states| then Some(states[i]) else None
  }

  /** Overwrites four fields of an existing entry; address and agent stay those of its first commit. */
  function Refresh(e: PresenceState, r: UpdateRequest, now: int): PresenceState {
    e.(status := r.status, lastActive := now, expiresAt := now + TTL, customStatus := r.customStatus)
  }

  function Upsert(states: seq<PresenceState>, r: UpdateRequest, now: int): seq<PresenceState> {
    var i := IndexOf(states, r.deviceId);
    if i < |states| then states[i := Refresh(states[i], r, now)] else states + [StateOf(r, now)]
  }

  /** The entries that outlive `t`, in order. */
  function Retain(states: seq<PresenceState>, t: int): (kept: seq<PresenceState>)
    ensures forall e :: e in kept <==> e in states && e.expiresAt > t
  {
    Filter(states, (e: PresenceState) => e.expiresAt > t)
  }

  function Entries(cache: Cache, u: UserId): seq<PresenceState> {
    if u in cache then cache[u] else []
  }

  /** One update under the lock: upsert, then drop this user's entries that do not outlive `now`. */
  function Commit(cache: Cache, r: UpdateRequest, now: int): Cache {
    cache[r.userId := Retain(Upsert(Entries(cache, r.userId), r, now), now)]
  }

  /** The cleanup task under the lock. */
  function Sweep(cache: Cache, now: int): Cache {
    map u | u in cache && Retain(cache[u], now) != [] :: Retain(cache[u], now)
  }

  function Lookup(cache: Cache, u: UserId, d: DeviceId): Option<PresenceState> {
    Find(Entries(cache, u), d)
  }

  ghost predicate UniqueDevices(states: seq<PresenceState>) {
    forall i, j :: 0 <= i < j < |states| ==> states[i].deviceId != states[j].deviceId
  }

  /** No key holds an empty list, a device appears once, and an entry sits under its own user. */
  ghost predicate WellFormed(cache: Cache) {
    forall u :: u in cache ==>
      && cache[u] != []
      && UniqueDevices(cache[u])
      && (forall e :: e in cache[u] ==> e.userId == u)
  }

  // ---------- One operation, seen by one device ----------

  lemma FindIsMembership(states: seq<PresenceState>, e: PresenceState)
    requires UniqueDevices(states)
    ensures e in states <==> Find(states, e.deviceId) == Some(e)
  {
  }

  lemma UpsertKeepsOthers(states: seq<PresenceState>, r: UpdateRequest, now: int, d: DeviceId)
    requires UniqueDevices(states)
    ensures UniqueDevices(Upsert(states, r, now))
    ensures d != r.deviceId ==> Find(Upsert(states, r, now), d) == Find(states, d)
    ensures Find(Upsert(states, r, now), r.deviceId)
         == Some(match Find(states, r.deviceId)
                 case Some(e) => Refresh(e, r, now)
                 case None => StateOf(r, now))
  {
    var after := Upsert(states, r, now);
    var i := IndexOf(states, r.deviceId);
    assert after[i].deviceId == r.deviceId;
    assert forall j :: 0 <= j < i ==> after[j] == states[j];
    if d != r.deviceId {
      var k := IndexOf(states, d);
      if k < |states| {
        assert after[k] == states[k];
      }
    }
  }

  lemma {:induction false} RetainKeepsUnique(states: seq<PresenceState>, t: int)
    requires UniqueDevices(states)
    ensures UniqueDevices(Retain(states, t))
  {
    if states != [] {
      var front := states[..|states| - 1];
      RetainKeepsUnique(front, t);
      var kept := Retain(front, t);
      forall i | 0 <= i < |kept| ensures kept[i].deviceId != states[|states| - 1].deviceId {
        assert kept[i] in front;
      }
    }
  }

  /** Order and multiplicity are kept too. */
  lemma RetainIsExact(states: seq<PresenceState>, t: int)
    ensures Subsequence(Retain(states, t), states)
    ensures forall e :: multiset(Retain(states, t))[e] == if e.expiresAt > t then multiset(states)[e] else 0
  {
    FilterIsExact(states, (e: PresenceState) => e.expiresAt > t);
  }

  lemma FindAfterRetain(states: seq<PresenceState>, t: int, d: DeviceId)
    requires UniqueDevices(states)
    ensures Find(Retain(states, t), d)
         == match Find(states, d)
            case Some(e) => if e.expiresAt > t then Some(e) else None
            case None => None
  {
    RetainKeepsUnique(states, t);
    var kept := Retain(states, t);
    match Find(kept, d) {
      case Some(e) =>
        FindIsMembership(states, e);
      case None =>
        match Find(states, d) {
          case Some(e) =>
            FindIsMembership(states, e);
            FindIsMembership(kept, e);
          case None =>
        }
    }
  }

  lemma UpsertUsers(states: seq<PresenceState>, r: UpdateRequest, now: int)
    requires forall e :: e in states ==> e.userId == r.userId
    ensures forall e :: e in Upsert(states, r, now) ==> e.userId == r.userId
  {
  }

  lemma {:induction false} CommitKeepsShape(cache: Cache, r: UpdateRequest, now: int)
    requires WellFormed(cache)
    ensures WellFormed(Commit(cache, r, now))
  {
    var states := Entries(cache, r.userId);
    UpsertKeepsOthers(states, r, now, r.deviceId);
    UpsertUsers(states, r, now);
    RetainKeepsUnique(Upsert(states, r, now), now);
    FindAfterRetain(Upsert(states, r, now), now, r.deviceId);
  }

  lemma SweepKeepsShape(cache: Cache, t: int)
    requires WellFormed(cache)
    ensures WellFormed(Sweep(cache, t))
  {
    forall u | u in cache ensures UniqueDevices(Retain(cache[u], t)) {
      RetainKeepsUnique(cache[u], t);
    }
  }

  predicate LiveAt(e: Option<PresenceState>, t: int) {
    e.Some? && e.value.expiresAt > t
  }

  lemma SweepEntries(cache: Cache, t: int, u: UserId)
    ensures Entries(Sweep(cache, t), u) == Retain(Entries(cache, u), t)
  {
  }

  // ---------- Whole histories ----------

  /** What happened under the write lock, in lock order. */
  datatype Item =
    | Update(id: RequestId, req: UpdateRequest, now: int)
    | Swept(now: int)

  function CacheOf(log: seq<Item>): Cache {
    if log == [] then map[]
    else
      var before := CacheOf(log[..|log| - 1]);
      match log[|log| - 1]
      case Update(_, r, now) => Commit(before, r, now)
      case Swept(now) => Sweep(before, now)
  }

  predicate IsCommitOf(item: Item, u: UserId, d: DeviceId) {
    item.Update? && item.req.userId == u && item.req.deviceId == d
  }

  predicate CommitAt(log: seq<Item>, k: nat, u: UserId, d: DeviceId) {
    k < |log| && IsCommitOf(log[k], u, d)
  }

  /** The last commit of one device. */
  function LastCommit(log: seq<Item>, u: UserId, d: DeviceId): (c: Option<Item>)
    ensures c.Some? ==> c.value in log && IsCommitOf(c.value, u, d)
    ensures c.None? ==> forall k :: 0 <= k < |log| ==> !IsCommitOf(log[k], u, d)
  {
    if log == [] then None
    else if IsCommitOf(log[|log| - 1], u, d) then Some(log[|log| - 1])
    else LastCommit(log[..|log| - 1], u, d)
  }

  /** The last commit of one device among those that outlive `t`. */
  function LastLiveCommit(log: seq<Item>, u: UserId, d: DeviceId, t: int): (c: Option<Item>)
    ensures c.Some? ==> c.value in log && IsCommitOf(c.value, u, d) && c.value.now + TTL > t
    ensures c.None? ==> forall k :: 0 <= k < |log| && IsCommitOf(log[k], u, d) ==> log[k].now + TTL <= t
  {
    if log == [] then None
    else if IsCommitOf(log[|log| - 1], u, d) && log[|log| - 1].now + TTL > t then Some(log[|log| - 1])
    else LastLiveCommit(log[..|log| - 1], u, d, t)
  }

  /** Item `k` removes the entry of (u, d): it touches user u and its stamp has reached that entry's expiry. */
  predicate DropsAt(log: seq<Item>, k: nat, u: UserId, d: DeviceId)
    requires k < |log|
  {
    && (log[k].Swept? || log[k].req.userId == u)
    && !IsCommitOf(log[k], u, d)
    && LastCommit(log[..k], u, d).Some?
    && LastCommit(log[..k], u, d).value.now + TTL <= log[k].now
  }

  /** The commit at `k` is the first of its device since the device was last removed. */
  ghost predicate OpensAt(log: seq<Item>, k: nat, u: UserId, d: DeviceId)
    requires k < |log|
  {
    && CommitAt(log, k, u, d)
    && (forall j :: k < j < |log| ==> !DropsAt(log, j, u, d))
    && (forall i :: 0 <= i < k && CommitAt(log, i, u, d) ==> exists j :: i < j < k && DropsAt(log, j, u, d))
  }

  /** An entry carries the first commit's address and agent and the last commit's status and times. */
  predicate Describes(e: PresenceState, first: Item, last: Item)
    requires first.Update? && last.Update?
  {
    e == StateOf(last.req, last.now).(ipAddress := first.req.ipAddress, userAgent := first.req.userAgent)
  }

  lemma {:induction false} CacheShape(log: seq<Item>)
    ensures WellFormed(CacheOf(log))
  {
    if log != [] {
      var front := log[..|log| - 1];
      CacheShape(front);
      match log[|log| - 1] {
        case Update(_, r, now) => CommitKeepsShape(CacheOf(front), r, now);
        case Swept(now) => SweepKeepsShape(CacheOf(front), now);
      }
    }
  }

  /** How one more item changes what the cache holds for one device. */
  lemma {:induction false} LookupStep(log: seq<Item>, u: UserId, d: DeviceId)
    requires log != []
    ensures var item, prev := log[|log| - 1], Lookup(CacheOf(log[..|log| - 1]), u, d);
      Lookup(CacheOf(log), u, d) ==
        if IsCommitOf(item, u, d) then
          Some(if prev.Some? then Refresh(prev.value, item.req, item.now) else StateOf(item.req, item.now))
        else if (item.Swept? || item.req.userId == u) && prev.Some? && prev.value.expiresAt <= item.now then None
        else prev
  {
    var front := log[..|log| - 1];
    var cache := CacheOf(front);
    CacheShape(front);
    var states := Entries(cache, u);
    match log[|log| - 1] {
      case Update(_, r, now) =>
        if r.userId == u {
          UpsertKeepsOthers(states, r, now, d);
          FindAfterRetain(Upsert(states, r, now), now, d);
        }
      case Swept(now) =>
        FindAfterRetain(states, now, d);
        assert Entries(Sweep(cache, now), u) == Retain(states, now);
    }
  }

  lemma AppendDrop(log: seq<Item>, j: nat, u: UserId, d: DeviceId)
    requires j < |log| - 1
    ensures DropsAt(log, j, u, d) == DropsAt(log[..|log| - 1], j, u, d)
  {
    assert log[..|log| - 1][..j] == log[..j];
  }

  lemma OpeningSurvives(log: seq<Item>, k: nat, u: UserId, d: DeviceId)
    requires k < |log| - 1
    requires OpensAt(log[..|log| - 1], k, u, d) && !DropsAt(log, |log| - 1, u, d)
    ensures OpensAt(log, k, u, d)
  {
    var front := log[..|log| - 1];
    forall j | 0 <= j < |front| ensures DropsAt(log, j, u, d) == DropsAt(front, j, u, d) {
      AppendDrop(log, j, u, d);
    }
    forall i | 0 <= i < k && CommitAt(log, i, u, d) ensures exists j :: i < j < k && DropsAt(log, j, u, d) {
      assert CommitAt(front, i, u, d);
      var j :| i < j < k && DropsAt(front, j, u, d);
      assert DropsAt(log, j, u, d);
    }
  }

  /** Every commit of the device has been followed by a removal: the cache has nothing for it. */
  ghost predicate AllDropped(log: seq<Item>, u: UserId, d: DeviceId) {
    forall i :: 0 <= i < |log| && CommitAt(log, i, u, d) ==> exists j :: i < j < |log| && DropsAt(log, j, u, d)
  }

  lemma AbsenceSurvives(log: seq<Item>, u: UserId, d: DeviceId)
    requires log != [] && AllDropped(log[..|log| - 1], u, d)
    ensures CommitAt(log, |log| - 1, u, d) ==> OpensAt(log, |log| - 1, u, d)
    ensures !CommitAt(log, |log| - 1, u, d) ==> AllDropped(log, u, d)
  {
    var n := |log| - 1;
    var front := log[..n];
    forall i | 0 <= i < n && CommitAt(log, i, u, d) ensures exists j :: i < j < n && DropsAt(log, j, u, d) {
      assert CommitAt(front, i, u, d);
      var j :| i < j < n && DropsAt(front, j, u, d);
      AppendDrop(log, j, u, d);
    }
  }

  ghost predicate Explains(log: seq<Item>, u: UserId, d: DeviceId, held: Option<PresenceState>) {
    match held
    case Some(e) =>
      && LastCommit(log, u, d).Some?
      && (exists k :: 0 <= k < |log| && OpensAt(log, k, u, d) && Describes(e, log[k], LastCommit(log, u, d).value))
    case None => AllDropped(log, u, d)
  }

  /** The opening commit and the last commit after one more item that does not remove the entry. */
  lemma {:induction false} ExplainKept(log: seq<Item>, k: nat, u: UserId, d: DeviceId, e: PresenceState)
    requires log != [] && k < |log| - 1 && OpensAt(log[..|log| - 1], k, u, d)
    requires LastCommit(log[..|log| - 1], u, d).Some?
    requires Describes(e, log[k], LastCommit(log[..|log| - 1], u, d).value)
    requires !DropsAt(log, |log| - 1, u, d)
    ensures var item := log[|log| - 1];
      Explains(log, u, d, Some(if IsCommitOf(item, u, d) then Refresh(e, item.req, item.now) else e))
  {
    OpeningSurvives(log, k, u, d);
    var item := log[|log| - 1];
    var next := if IsCommitOf(item, u, d) then Refresh(e, item.req, item.now) else e;
    assert Describes(next, log[k], LastCommit(log, u, d).value);
  }

  lemma ExplainDropped(log: seq<Item>, u: UserId, d: DeviceId)
    requires log != [] && DropsAt(log, |log| - 1, u, d)
    ensures Explains(log, u, d, None)
  {
  }

  /**
   Every entry is described by the commit that opened its current life and by the last commit of its
   device; a device without an entry has no commit, or was removed after its last one.
   */
  lemma {:induction false} EntryOrigin(log: seq<Item>, u: UserId, d: DeviceId)
    ensures Explains(log, u, d, Lookup(CacheOf(log), u, d))
  {
    if log == [] {
      assert AllDropped(log, u, d);
      return;
    }
    var n := |log| - 1;
    EntryOrigin(log[..n], u, d);
    LookupStep(log, u, d);
    match Lookup(CacheOf(log[..n]), u, d) {
      case Some(e) =>
        var k :| 0 <= k < n && OpensAt(log[..n], k, u, d) && Describes(e, log[k], LastCommit(log[..n], u, d).value);
        if DropsAt(log, n, u, d) {
          ExplainDropped(log, u, d);
        } else {
          ExplainKept(log, k, u, d, e);
        }
      case None =>
        AbsenceSurvives(log, u, d);
        if CommitAt(log, n, u, d) {
          assert Describes(StateOf(log[n].req, log[n].now), log[n], log[n]);
        }
    }
  }

  /** No sweep and no commit can remove an entry that outlives every stamp seen so far. */
  lemma {:induction false} LiveDeviceIsKept(log: seq<Item>, u: UserId, d: DeviceId, t: int)
    requires forall k :: 0 <= k < |log| ==> log[k].now <= t
    requires LastCommit(log, u, d).Some? && LastCommit(log, u, d).value.now + TTL > t
    ensures Lookup(CacheOf(log), u, d).Some?
  {
    EntryOrigin(log, u, d);
    if Lookup(CacheOf(log), u, d).None? {
      var i := LastCommitIndex(log, u, d);
      assert CommitAt(log, i, u, d);
      var j :| i < j < |log| && DropsAt(log, j, u, d);
      LastCommitPrefix(log, u, d, i, j);
      assert false;
    }
  }

  lemma {:induction false} LastCommitIndex(log: seq<Item>, u: UserId, d: DeviceId) returns (i: nat)
    requires LastCommit(log, u, d).Some?
    ensures i < |log| && IsCommitOf(log[i], u, d) && LastCommit(log, u, d) == Some(log[i])
    ensures forall j :: i < j < |log| ==> !IsCommitOf(log[j], u, d)
  {
    if IsCommitOf(log[|log| - 1], u, d) {
      i := |log| - 1;
    } else {
      i := LastCommitIndex(log[..|log| - 1], u, d);
    }
  }

  lemma {:induction false} LastCommitPrefix(log: seq<Item>, u: UserId, d: DeviceId, i: nat, j: nat)
    requires i < j <= |log| && IsCommitOf(log[i], u, d)
    requires forall k :: i < k < j ==> !IsCommitOf(log[k], u, d)
    ensures LastCommit(log[..j], u, d) == Some(log[i])
  {
    if i + 1 < j {
      LastCommitPrefix(log, u, d, i, j - 1);
      assert log[..j][..j - 1] == log[..j - 1];
    }
  }

  /** What the map shows of one device at `t`. */
  function View(e: Option<PresenceState>, t: int): Option<PresenceUpdate> {
    if LiveAt(e, t) then
      Some(PresenceUpdate(e.value.userId, e.value.status, e.value.deviceId, e.value.lastActive, e.value.customStatus))
    else None
  }

  predicate IsLive(c: Item, t: int)
    requires c.Update?
  {
    c.now + TTL > t
  }

  /** What a commit, if there is one, has to show at `t`. */
  function CommitView(c: Option<Item>, t: int): Option<PresenceUpdate>
    requires c.Some? ==> c.value.Update?
  {
    if c.Some? && IsLive(c.value, t) then Some(UpdateOf(c.value.req, c.value.now)) else None
  }

  /**
   The live view, for any order of stamps and any sweeps: at every clock value `t` not before a stamp
   already used, the map shows of (u, d) the last commit of that device if that outlives `t`, and
   otherwise nothing.
   */
  lemma {:induction false} LiveViewIsLastCommit(log: seq<Item>, u: UserId, d: DeviceId, t: int)
    requires forall k :: 0 <= k < |log| ==> log[k].now <= t
    ensures View(Lookup(CacheOf(log), u, d), t) == CommitView(LastCommit(log, u, d), t)
  {
    EntryOrigin(log, u, d);
    if LastCommit(log, u, d).Some? && IsLive(LastCommit(log, u, d).value, t) {
      LiveDeviceIsKept(log, u, d, t);
    }
  }

  /** No commit of the device that is live at `clock` carries a later stamp than the last one committed. */
  ghost predicate LastIsNewest(log: seq<Item>, u: UserId, d: DeviceId, clock: int) {
    forall k :: 0 <= k < |log| && IsCommitOf(log[k], u, d) && IsLive(log[k], clock) ==>
      LastCommit(log, u, d).Some? && log[k].now <= LastCommit(log, u, d).value.now
  }

  /** A commit that outlives the last one is shown by the log at a time when the last one no longer is. */
  lemma NewerOutlivesLast(log: seq<Item>, u: UserId, d: DeviceId, clock: int) returns (t: int)
    requires !LastIsNewest(log, u, d, clock)
    ensures t >= clock && CommitView(LastCommit(log, u, d), t) != CommitView(LastLiveCommit(log, u, d, t), t)
  {
    var k :| 0 <= k < |log| && IsCommitOf(log[k], u, d) && IsLive(log[k], clock)
      && !(LastCommit(log, u, d).Some? && log[k].now <= LastCommit(log, u, d).value.now);
    var last := LastCommit(log, u, d).value;
    t := if IsLive(last, clock) then last.now + TTL else clock;
    assert LastLiveCommit(log, u, d, t).Some?;
  }

  /** When the last commit outlives `t` it is also the last among those that outlive `t`. */
  lemma {:induction false} LastLiveIsLast(log: seq<Item>, u: UserId, d: DeviceId, t: int)
    requires LastCommit(log, u, d).Some? && IsLive(LastCommit(log, u, d).value, t)
    ensures LastLiveCommit(log, u, d, t) == LastCommit(log, u, d)
  {
    if !IsCommitOf(log[|log| - 1], u, d) {
      LastLiveIsLast(log[..|log| - 1], u, d, t);
    }
  }

  /** At one time: the last commit speaks for the live ones if none of them is newer. */
  lemma {:induction false} LastSpeaksForLive(log: seq<Item>, u: UserId, d: DeviceId, clock: int, t: int)
    requires LastIsNewest(log, u, d, clock) && clock <= t
    ensures CommitView(LastCommit(log, u, d), t) == CommitView(LastLiveCommit(log, u, d, t), t)
  {
    if LastCommit(log, u, d).Some? && IsLive(LastCommit(log, u, d).value, t) {
      LastLiveIsLast(log, u, d, t);
    } else {
      assert forall k :: 0 <= k < |log| && IsCommitOf(log[k], u, d) ==> !IsLive(log[k], t);
    }
  }
}
