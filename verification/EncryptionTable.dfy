/**
 The `encryption_sessions` table as an upsert table, and what it says about the log of stores and
 deletes that built it. Key material is opaque; the three counters are 32-bit and cross the database
 as signed integers.
 */
module EncryptionTable {
  import opened Wrappers

  type UserId = nat
  type SessionId = nat
  type Bytes = seq<bv8>

  const TWO_31 := 0x8000_0000
  const TWO_32 := 0x1_0000_0000

  newtype u32 = x: int | 0 <= x < 0x1_0000_0000
  newtype i32 = x: int | -0x8000_0000 <= x < 0x8000_0000

  /** The casts `as i32` and `as u32` keep the bit pattern. */
  function ToI32(x: u32): i32 {
    if (x as int) < TWO_31 then x as i32 else (x as int - TWO_32) as i32
  }

  function ToU32(x: i32): u32 {
    if x >= 0 then x as u32 else (x as int + TWO_32) as u32
  }

  lemma CounterRoundTrip(x: u32)
    ensures ToU32(ToI32(x)) == x
  {
  }

  /** One encrypted session's identity: the conflict target of the upsert. */
  datatype Triple = Triple(userId: UserId, peerId: UserId, sessionId: SessionId)

  datatype Keys = Keys(
    rootKey: Bytes,
    sendingChainKey: Bytes,
    receivingChainKey: Bytes,
    sendingRatchetKey: Bytes,
    receivingRatchetKey: Bytes)

  datatype Counters<T> = Counters(prevSending: T, prevReceiving: T, messageNumber: T)

  function Stored(c: Counters<u32>): Counters<i32> {
    Counters(ToI32(c.prevSending), ToI32(c.prevReceiving), ToI32(c.messageNumber))
  }

  function Loaded(c: Counters<i32>): Counters<u32> {
    Counters(ToU32(c.prevSending), ToU32(c.prevReceiving), ToU32(c.messageNumber))
  }

  datatype Row = Row(keys: Keys, counters: Counters<i32>, createdAt: int, updatedAt: int)

  type Table = map<Triple, Row>

  datatype Op =
    | Store(id: Triple, keys: Keys, counters: Counters<u32>, at: int)
    | Delete(session: SessionId)

  /** `INSERT ... ON CONFLICT DO UPDATE`: an existing row keeps its counters and creation time. */
  function Upsert(rows: Table, id: Triple, keys: Keys, counters: Counters<u32>, now: int): Table {
    rows[id := if id in rows then rows[id].(keys := keys, updatedAt := now)
               else Row(keys, Stored(counters), now, now)]
  }

  /** `DELETE ... WHERE session_id`: every user's and peer's row of the session. */
  function Remove(rows: Table, session: SessionId): Table {
    map id | id in rows && id.sessionId != session :: rows[id]
  }

  function Applied(rows: Table, op: Op): Table {
    match op
    case Store(id, keys, counters, at) => Upsert(rows, id, keys, counters, at)
    case Delete(session) => Remove(rows, session)
  }

  function TableOf(log: seq<Op>): Table {
    if log == [] then map[] else Applied(TableOf(log[..|log| - 1]), log[|log| - 1])
  }

  lemma TableOfSnoc(log: seq<Op>, op: Op)
    ensures TableOf(log + [op]) == Applied(TableOf(log), op)
  {
    assert (log + [op])[..|log|] == log;
  }

  // ---------- The log's side ----------

  predicate StoresAt(log: seq<Op>, i: nat, id: Triple) {
    i < |log| && log[i].Store? && log[i].id == id
  }

  /** A store of `id` whose session was not deleted afterwards. */
  predicate LiveAt(log: seq<Op>, i: nat, id: Triple) {
    StoresAt(log, i, id) && forall j :: i < j < |log| ==> log[j] != Delete(id.sessionId)
  }

  /** The first store of `id` since the last delete of its session. */
  ghost predicate IsFirst(log: seq<Op>, i: nat, id: Triple) {
    LiveAt(log, i, id) && forall j :: 0 <= j < i ==> !LiveAt(log, j, id)
  }

  /** The latest store of `id`. */
  ghost predicate IsLast(log: seq<Op>, i: nat, id: Triple) {
    LiveAt(log, i, id) && forall j :: i < j < |log| ==> !StoresAt(log, j, id)
  }

  predicate RowFrom(row: Row, first: Op, last: Op)
    requires first.Store? && last.Store?
  {
    row == Row(last.keys, Stored(first.counters), first.at, last.at)
  }

  /** One triple: it has a row exactly when some store of it is live, made of its first and last live store. */
  ghost predicate Represents(rows: Table, log: seq<Op>, id: Triple) {
    if id in rows then
      exists f: nat, l: nat :: IsFirst(log, f, id) && IsLast(log, l, id) && RowFrom(rows[id], log[f], log[l])
    else
      forall i :: 0 <= i < |log| ==> !LiveAt(log, i, id)
  }

  lemma LiveStep(log: seq<Op>, op: Op, i: nat, id: Triple)
    requires i < |log|
    ensures LiveAt(log + [op], i, id) <==> LiveAt(log, i, id) && op != Delete(id.sessionId)
  {
    var after := log + [op];
    assert after[|log|] == op;
    assert forall j :: 0 <= j < |log| ==> after[j] == log[j];
  }

  lemma FirstStays(log: seq<Op>, op: Op, i: nat, id: Triple)
    requires IsFirst(log, i, id) && op != Delete(id.sessionId)
    ensures IsFirst(log + [op], i, id)
  {
    forall j | 0 <= j <= i ensures LiveAt(log + [op], j, id) <==> LiveAt(log, j, id) {
      LiveStep(log, op, j, id);
    }
  }

  lemma LastStays(log: seq<Op>, op: Op, i: nat, id: Triple)
    requires IsLast(log, i, id) && op != Delete(id.sessionId) && !(op.Store? && op.id == id)
    ensures IsLast(log + [op], i, id)
  {
    LiveStep(log, op, i, id);
    forall j | i < j < |log| + 1 ensures !StoresAt(log + [op], j, id) {
      assert j < |log| ==> !StoresAt(log, j, id);
    }
  }

  lemma AbsentStep(log: seq<Op>, op: Op, id: Triple)
    requires forall i :: 0 <= i < |log| ==> !LiveAt(log, i, id)
    ensures forall i :: 0 <= i < |log| ==> !LiveAt(log + [op], i, id)
    ensures op.Store? && op.id == id ==> IsFirst(log + [op], |log|, id) && IsLast(log + [op], |log|, id)
    ensures !(op.Store? && op.id == id) ==> !LiveAt(log + [op], |log|, id)
  {
    forall i | 0 <= i < |log| ensures !LiveAt(log + [op], i, id) {
      LiveStep(log, op, i, id);
    }
  }

  lemma DeletedStep(log: seq<Op>, id: Triple)
    ensures forall i :: 0 <= i <= |log| ==> !LiveAt(log + [Delete(id.sessionId)], i, id)
  {
    forall i | 0 <= i < |log| ensures !LiveAt(log + [Delete(id.sessionId)], i, id) {
      LiveStep(log, Delete(id.sessionId), i, id);
    }
  }

  lemma RepresentsStep(rows: Table, log: seq<Op>, op: Op, id: Triple)
    requires Represents(rows, log, id)
    ensures Represents(Applied(rows, op), log + [op], id)
  {
    if op == Delete(id.sessionId) {
      DeletedStep(log, id);
    } else if id in rows {
      var f: nat, l: nat :| IsFirst(log, f, id) && IsLast(log, l, id) && RowFrom(rows[id], log[f], log[l]);
      FirstStays(log, op, f, id);
      if op.Store? && op.id == id {
        assert IsLast(log + [op], |log|, id);
      } else {
        LastStays(log, op, l, id);
      }
    } else {
      AbsentStep(log, op, id);
    }
  }

  lemma {:induction false} TableRepresentsLog(log: seq<Op>, id: Triple)
    ensures Represents(TableOf(log), log, id)
  {
    if log != [] {
      var front, op := log[..|log| - 1], log[|log| - 1];
      assert log == front + [op] && TableOf(log) == Applied(TableOf(front), op);
      assert Represents(Applied(TableOf(front), op), front + [op], id) by {
        TableRepresentsLog(front, id);
        RepresentsStep(TableOf(front), front, op, id);
      }
    }
  }

  // ---------- The query ----------

  predicate Matches(id: Triple, u: UserId, p: UserId) {
    id.userId == u && id.peerId == p
  }

  /** `ORDER BY updated_at DESC LIMIT 1`: any row of the pair with the greatest update time. */
  ghost predicate IsNewest(rows: Table, u: UserId, p: UserId, id: Triple) {
    && id in rows && Matches(id, u, p)
    && forall other :: other in rows && Matches(other, u, p) ==> rows[other].updatedAt <= rows[id].updatedAt
  }

  lemma {:induction false} NewestExists(rows: Table, ids: set<Triple>, u: UserId, p: UserId) returns (best: Triple)
    requires ids <= rows.Keys && ids != {} && forall id :: id in ids ==> Matches(id, u, p)
    ensures best in ids && forall id :: id in ids ==> rows[id].updatedAt <= rows[best].updatedAt
  {
    var x :| x in ids;
    best := x;
    if ids - {x} != {} {
      var y := NewestExists(rows, ids - {x}, u, p);
      best := if rows[y].updatedAt > rows[x].updatedAt then y else x;
    }
    forall id | id in ids ensures rows[id].updatedAt <= rows[best].updatedAt {
      assert id == x || id in ids - {x};
    }
  }

  datatype SessionResponse = SessionResponse(sessionId: SessionId, keys: Keys, counters: Counters<u32>)

  predicate StoresFor(log: seq<Op>, i: nat, u: UserId, p: UserId) {
    i < |log| && log[i].Store? && log[i].id.userId == u && log[i].id.peerId == p
  }

  /** The latest store of its triple, in log order, with the session not deleted since. */
  ghost predicate Stands(log: seq<Op>, i: nat, u: UserId, p: UserId) {
    StoresFor(log, i, u, p) && IsLast(log, i, log[i].id)
  }

  /** No standing store for the pair has a later time. */
  ghost predicate NoneLater(log: seq<Op>, c: nat, u: UserId, p: UserId)
    requires StoresFor(log, c, u, p)
  {
    forall j: nat :: Stands(log, j, u, p) ==> log[j].at <= log[c].at
  }

  /** An answer with the key material of store `c` and the counters of its triple's first store. */
  ghost predicate AnswersWith(log: seq<Op>, c: nat, u: UserId, p: UserId, answer: SessionResponse)
    requires StoresFor(log, c, u, p)
  {
    exists f: nat :: IsFirst(log, f, log[c].id)
      && answer == SessionResponse(log[c].id.sessionId, log[c].keys, log[f].counters)
  }

  /** The answer comes from a standing store of the pair with the greatest time. */
  ghost predicate AnswersLatest(log: seq<Op>, u: UserId, p: UserId, answer: SessionResponse) {
    exists c: nat :: Stands(log, c, u, p) && NoneLater(log, c, u, p) && AnswersWith(log, c, u, p, answer)
  }

  /** The row of a triple and the store that stands for it carry the same time. */
  lemma {:induction false} RowStands(log: seq<Op>, id: Triple) returns (f: nat, l: nat)
    requires id in TableOf(log)
    ensures IsFirst(log, f, id) && IsLast(log, l, id) && RowFrom(TableOf(log)[id], log[f], log[l])
  {
    TableRepresentsLog(log, id);
    f, l :| IsFirst(log, f, id) && IsLast(log, l, id) && RowFrom(TableOf(log)[id], log[f], log[l]);
  }

  lemma {:induction false} StandingHasRow(log: seq<Op>, j: nat, u: UserId, p: UserId)
    requires Stands(log, j, u, p)
    ensures log[j].id in TableOf(log) && TableOf(log)[log[j].id].updatedAt == log[j].at
  {
    TableRepresentsLog(log, log[j].id);
    var f, l := RowStands(log, log[j].id);
    assert StoresAt(log, j, log[j].id) && StoresAt(log, l, log[j].id);
  }

  function Answer(id: Triple, row: Row): SessionResponse {
    SessionResponse(id.sessionId, row.keys, Loaded(row.counters))
  }

  /** Whatever the times, the newest row answers for a standing store with the greatest time. */
  lemma {:induction false} NewestIsLatest(log: seq<Op>, u: UserId, p: UserId, id: Triple) returns (c: nat)
    requires IsNewest(TableOf(log), u, p, id)
    ensures Stands(log, c, u, p) && NoneLater(log, c, u, p) && log[c].id == id
    ensures AnswersWith(log, c, u, p, Answer(id, TableOf(log)[id]))
  {
    var f;
    f, c := RowStands(log, id);
    forall j: nat | Stands(log, j, u, p) ensures log[j].at <= log[c].at {
      StandingHasRow(log, j, u, p);
    }
    CounterRoundTrip(log[f].counters.prevSending);
    CounterRoundTrip(log[f].counters.prevReceiving);
    CounterRoundTrip(log[f].counters.messageNumber);
  }

  /** No two stores for the pair carry the same time. */
  ghost predicate DistinctTimes(log: seq<Op>, u: UserId, p: UserId) {
    forall i: nat, j: nat :: i < j && StoresFor(log, i, u, p) && StoresFor(log, j, u, p) ==> log[i].at != log[j].at
  }

  /** The last store for the pair to be committed, among those whose session was not deleted afterwards. */
  ghost predicate IsCurrent(log: seq<Op>, c: nat, u: UserId, p: UserId) {
    && StoresFor(log, c, u, p) && LiveAt(log, c, log[c].id)
    && forall j: nat :: j > c && StoresFor(log, j, u, p) ==> !LiveAt(log, j, log[j].id)
  }

  /** Deleting a session deletes every store of the triple, so the last live store is the last of its triple. */
  lemma CurrentStands(log: seq<Op>, c: nat, u: UserId, p: UserId)
    requires IsCurrent(log, c, u, p)
    ensures Stands(log, c, u, p)
  {
    forall j | c < j < |log| ensures !StoresAt(log, j, log[c].id) {
      if StoresAt(log, j, log[c].id) {
        assert StoresFor(log, j, u, p) && LiveAt(log, j, log[j].id);
      }
    }
  }

  /**
   With distinct times the newest row is the row of the last committed store exactly when no standing
   store for the pair has a later time than that one.
   */
  lemma {:induction false} NewestIsCurrentIff(log: seq<Op>, u: UserId, p: UserId, id: Triple, c: nat)
    requires IsNewest(TableOf(log), u, p, id) && IsCurrent(log, c, u, p) && DistinctTimes(log, u, p)
    ensures id == log[c].id <==> NoneLater(log, c, u, p)
    ensures NoneLater(log, c, u, p) ==> AnswersWith(log, c, u, p, Answer(id, TableOf(log)[id]))
  {
    CurrentStands(log, c, u, p);
    var l := NewestIsLatest(log, u, p, id);
    assert StoresAt(log, l, id);
    if NoneLater(log, c, u, p) {
      assert log[l].at == log[c].at;
    }
  }

  const ZERO: Counters<u32> := Counters(0, 0, 0)

  const FIRST_KEYS := Keys([1], [1], [1], [1], [1])

  const SECOND_KEYS := Keys([2], [2], [2], [2], [2])

  /** Two sessions of one pair: the second store is committed last and carries the earlier time. */
  const LATE_COMMIT := [Store(Triple(1, 2, 11), FIRST_KEYS, ZERO, 10), Store(Triple(1, 2, 12), SECOND_KEYS, ZERO, 5)]

  /** The newest row is not the row of the last committed store. */
  lemma LastCommittedIsNotNewest()
    ensures DistinctTimes(LATE_COMMIT, 1, 2)
    ensures IsCurrent(LATE_COMMIT, 1, 1, 2) && !NoneLater(LATE_COMMIT, 1, 1, 2)
    ensures IsNewest(TableOf(LATE_COMMIT), 1, 2, Triple(1, 2, 11)) && LATE_COMMIT[1].id == Triple(1, 2, 12)
  {
    assert LATE_COMMIT[..1] == [LATE_COMMIT[0]] && [LATE_COMMIT[0]][..0] == [];
    assert TableOf([LATE_COMMIT[0]]) == Applied(map[], LATE_COMMIT[0]);
    assert TableOf(LATE_COMMIT) == Applied(TableOf([LATE_COMMIT[0]]), LATE_COMMIT[1]);
    assert Stands(LATE_COMMIT, 0, 1, 2);
  }

  lemma NoRowNoStore(log: seq<Op>, u: UserId, p: UserId)
    requires forall id :: id in TableOf(log) ==> !Matches(id, u, p)
    ensures forall i: nat, id :: Matches(id, u, p) ==> !LiveAt(log, i, id)
  {
    forall i: nat, id | Matches(id, u, p) ensures !LiveAt(log, i, id) {
      TableRepresentsLog(log, id);
    }
  }

  // ---------- The service object ----------

  datatype ServiceError = InvalidArgument | Internal | SessionNotFound

  /** Ids are `None` when they do not parse; `up` says whether the database answers. */
  class EncryptionService {
    var sessions: Table
    ghost var log: seq<Op>

    ghost predicate Valid()
      reads this
    {
      sessions == TableOf(log)
    }

    constructor ()
      ensures Valid() && log == []
    {
      sessions, log := map[], [];
    }

    method StoreEncryptionSession(session: Option<SessionId>, user: Option<UserId>, peer: Option<UserId>,
                                  keys: Keys, counters: Counters<u32>, up: bool, now: int)
      returns (r: Result<bool, ServiceError>)
      requires Valid()
      modifies this
      ensures Valid()
      ensures r == Err(InvalidArgument) <==> session.None? || user.None? || peer.None?
      ensures r.Ok? <==> session.Some? && user.Some? && peer.Some? && up
      ensures log == old(log)
        + (if r.Ok? then [Store(Triple(user.value, peer.value, session.value), keys, counters, now)] else [])
    {
      if session.None? || user.None? || peer.None? {
        return Err(InvalidArgument);
      }
      if !up {
        return Err(Internal);
      }
      var id := Triple(user.value, peer.value, session.value);
      TableOfSnoc(log, Store(id, keys, counters, now));
      InsertOrUpdate(id, keys, counters, now);
      log := log + [Store(id, keys, counters, now)];
      return Ok(true);
    }

    /** The statement: a new row, or new key material and update time in the row that is there. */
    method InsertOrUpdate(id: Triple, keys: Keys, counters: Counters<u32>, now: int)
      modifies this`sessions
      ensures sessions == Upsert(old(sessions), id, keys, counters, now)
    {
      if id in sessions {
        sessions := sessions[id := sessions[id].(keys := keys, updatedAt := now)];
      } else {
        sessions := sessions[id := Row(keys, Stored(counters), now, now)];
      }
    }

    method DeleteEncryptionSession(session: Option<SessionId>, up: bool) returns (r: Result<bool, ServiceError>)
      requires Valid()
      modifies this
      ensures Valid()
      ensures r.Ok? <==> session.Some? && up
      ensures log == if r.Ok? then old(log) + [Delete(session.value)] else old(log)
    {
      if session.None? {
        return Err(InvalidArgument);
      }
      if !up {
        return Err(Internal);
      }
      TableOfSnoc(log, Delete(session.value));
      sessions := map id | id in sessions && id.sessionId != session.value :: sessions[id];
      log := log + [Delete(session.value)];
      return Ok(true);
    }

    /**
     Found exactly when some store for the pair has not been followed by a delete of its session. The answer
     is the key material of such a store with the greatest time, with the counters of its triple's first
     store since the session's last delete. With distinct times it is the last one committed exactly when
     that one's time is the greatest.
     */
    method GetEncryptionSession(user: Option<UserId>, peer: Option<UserId>, up: bool)
      returns (r: Result<SessionResponse, ServiceError>)
      requires Valid()
      ensures r == Err(InvalidArgument) <==> user.None? || peer.None?
      ensures r == Err(Internal) <==> user.Some? && peer.Some? && !up
      ensures user.Some? && peer.Some? && up ==>
        (r.Ok? <==> exists i: nat, id :: LiveAt(log, i, id) && id.userId == user.value && id.peerId == peer.value)
      ensures r.Ok? ==> AnswersLatest(log, user.value, peer.value, r.value)
      ensures r.Ok? && DistinctTimes(log, user.value, peer.value) ==>
        forall c: nat :: IsCurrent(log, c, user.value, peer.value) && NoneLater(log, c, user.value, peer.value) ==>
          AnswersWith(log, c, user.value, peer.value, r.value)
    {
      if user.None? || peer.None? {
        return Err(InvalidArgument);
      }
      if !up {
        return Err(Internal);
      }
      var u, p := user.value, peer.value;
      var ids := set id | id in sessions && Matches(id, u, p);
      if ids == {} {
        forall id | id in sessions ensures !Matches(id, u, p) {
          assert id !in ids;
        }
        NoRowNoStore(log, u, p);
        return Err(SessionNotFound);
      }
      ghost var best := NewestExists(sessions, ids, u, p);
      assert IsNewest(sessions, u, p, best);
      var id :| id in ids && forall other :: other in ids ==> sessions[other].updatedAt <= sessions[id].updatedAt;
      assert IsNewest(sessions, u, p, id);
      TableRepresentsLog(log, id);
      ghost var latest := NewestIsLatest(log, u, p, id);
      if DistinctTimes(log, u, p) {
        forall c: nat | IsCurrent(log, c, u, p) && NoneLater(log, c, u, p)
          ensures AnswersWith(log, c, u, p, Answer(id, sessions[id]))
        {
          NewestIsCurrentIff(log, u, p, id, c);
        }
      }
      return Ok(Answer(id, sessions[id]));
    }
  }
}
