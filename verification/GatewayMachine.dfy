/**
 Every interleaving of connects, heartbeats, cleanups and disconnects. A session's receive loop may
 outlive its handler: dropping the task handle in the handler's final `select!` does not stop it, so a
 heartbeat can arrive after the disconnect step.
 */
module GatewayMachine {
  import opened Wrappers
  import opened Sequences
  import opened Gateway

  const SWEEP_GAP := 30

  datatype Session = Session(
    userId: UserId,
    deviceId: DeviceId,
    disconnected: bool,
    receiving: bool,
    lastSent: int)

  datatype State = State(
    clock: int,
    lastSweep: int,
    sessions: map<SessionId, Session>,
    registry: Registry)

  datatype Event =
    | Tick(to: int)
    | Connect(x: SessionId, userId: UserId, deviceId: DeviceId)
    | SendHeartbeat(x: SessionId)
    | EndReceive(x: SessionId)
    | Disconnect(x: SessionId)
    | Cleanup

  function Init(t: int): State {
    State(t, t, map[], map[])
  }

  predicate Enabled(s: State, e: Event) {
    match e
    case Tick(to) => s.clock <= to
    case Connect(x, _, _) => x !in s.sessions
    case SendHeartbeat(x) => x in s.sessions && s.sessions[x].receiving
    case EndReceive(x) => x in s.sessions && s.sessions[x].receiving
    case Disconnect(x) => x in s.sessions && !s.sessions[x].disconnected
    case Cleanup => true
  }

  function Apply(s: State, e: Event): State
    requires Enabled(s, e)
  {
    match e
    case Tick(to) => s.(clock := to)
    case Connect(x, u, d) =>
      s.(sessions := s.sessions[x := Session(u, d, false, true, s.clock)],
         registry := Register(s.registry, Connection(x, u, d, s.clock, [])))
    case SendHeartbeat(x) =>
      var it := s.sessions[x];
      s.(sessions := s.sessions[x := it.(lastSent := s.clock)],
         registry := Heartbeat(s.registry, it.userId, it.deviceId, s.clock))
    case EndReceive(x) => s.(sessions := s.sessions[x := s.sessions[x].(receiving := false)])
    case Disconnect(x) =>
      var it := s.sessions[x];
      s.(sessions := s.sessions[x := it.(disconnected := true)],
         registry := Unregister(s.registry, it.userId, it.deviceId))
    case Cleanup => s.(lastSweep := s.clock, registry := CleanStale(s.registry, s.clock))
  }

  function Run(t: int, es: seq<Event>): Option<State> {
    if es == [] then Some(Init(t))
    else
      var e := es[|es| - 1];
      match Run(t, es[..|es| - 1])
      case None => None
      case Some(s) => if Enabled(s, e) then Some(Apply(s, e)) else None
  }

  // ---------- No ghost connections ----------

  predicate Backed(c: Connection, u: UserId, sessions: map<SessionId, Session>) {
    && c.userId == u
    && c.session in sessions
    && !sessions[c.session].disconnected
    && sessions[c.session].userId == u
    && sessions[c.session].deviceId == c.deviceId
  }

  /** Every list is non-empty, and every connection belongs to a session that has not disconnected. */
  ghost predicate RegistryInv(reg: Registry, sessions: map<SessionId, Session>) {
    && (forall u :: u in reg ==> reg[u] != [])
    && (forall u, c :: u in reg && c in reg[u] ==> Backed(c, u, sessions))
  }

  lemma TouchKeepsBacked(conns: seq<Connection>, d: DeviceId, now: int, u: UserId, sessions: map<SessionId, Session>)
    requires forall c :: c in conns ==> Backed(c, u, sessions)
    ensures forall c :: c in Touch(conns, d, now) ==> Backed(c, u, sessions)
  {
    var i := FirstOf(conns, d);
    if i < |conns| {
      assert Backed(conns[i], u, sessions);
    }
  }

  lemma StepKeepsRegistry(s: State, e: Event)
    requires Enabled(s, e) && RegistryInv(s.registry, s.sessions)
    ensures RegistryInv(Apply(s, e).registry, Apply(s, e).sessions)
  {
    match e {
      case Tick(_) =>
      case Connect(x, u, d) =>
      case SendHeartbeat(x) =>
        var it := s.sessions[x];
        if it.userId in s.registry {
          TouchKeepsBacked(s.registry[it.userId], it.deviceId, s.clock, it.userId, s.sessions);
        }
      case EndReceive(_) =>
      case Disconnect(_) =>
      case Cleanup =>
    }
  }

  /**
   In every run no key holds an empty list, each connection sits under its own user, and its session's
   handler has not done its disconnect step, also while receive loops outlive their handlers.
   */
  lemma {:induction false} NoGhostConnections(t: int, es: seq<Event>)
    requires Run(t, es).Some?
    ensures RegistryInv(Run(t, es).value.registry, Run(t, es).value.sessions)
  {
    if es != [] {
      NoGhostConnections(t, es[..|es| - 1]);
      StepKeepsRegistry(Run(t, es[..|es| - 1]).value, es[|es| - 1]);
    }
  }

  // ---------- Staleness ----------

  /** Cleanups keep up with the clock. */
  predicate SweptInTime(s: State, e: Event) {
    e.Tick? ==> e.to <= s.lastSweep + SWEEP_GAP
  }

  ghost predicate HeartbeatInv(s: State) {
    && s.lastSweep <= s.clock <= s.lastSweep + SWEEP_GAP
    && (forall u, c :: u in s.registry && c in s.registry[u] ==> s.lastSweep - c.lastHeartbeat < TIMEOUT)
  }

  lemma StepKeepsHeartbeats(s: State, e: Event)
    requires Enabled(s, e) && SweptInTime(s, e) && HeartbeatInv(s)
    ensures HeartbeatInv(Apply(s, e))
  {
  }

  predicate SweptRun(t: int, es: seq<Event>) {
    es == [] ||
    (var front := es[..|es| - 1];
     SweptRun(t, front) && Run(t, front).Some? && SweptInTime(Run(t, front).value, es[|es| - 1]))
  }

  lemma {:induction false} SweptRunInv(t: int, es: seq<Event>)
    requires Run(t, es).Some? && SweptRun(t, es)
    ensures HeartbeatInv(Run(t, es).value)
  {
    if es != [] {
      SweptRunInv(t, es[..|es| - 1]);
      StepKeepsHeartbeats(Run(t, es[..|es| - 1]).value, es[|es| - 1]);
    }
  }

  /** With cleanups at most 30 seconds apart, a registered connection is under 90 seconds past its last heartbeat. */
  lemma RegisteredIsRecent(t: int, es: seq<Event>, u: UserId, c: Connection)
    requires Run(t, es).Some? && SweptRun(t, es)
    requires u in Run(t, es).value.registry && c in Run(t, es).value.registry[u]
    ensures Run(t, es).value.clock - c.lastHeartbeat < 90
  {
    SweptRunInv(t, es);
  }

  /** Such runs go on for as long as one likes: a cleanup every 30 seconds. */
  lemma {:induction false} SweptRunsGoOn(t: int, n: nat) returns (es: seq<Event>, s: State)
    ensures Run(t, es) == Some(s) && SweptRun(t, es)
    ensures s.clock == s.lastSweep == t + 30 * n && s.sessions == map[]
  {
    if n == 0 {
      es, s := [], Init(t);
    } else {
      es, s := SweptRunsGoOn(t, n - 1);
      es, s := ExtendSwept(t, es, s, Tick(s.clock + 30));
      es, s := ExtendSwept(t, es, s, Cleanup);
    }
  }

  lemma ExtendSwept(t: int, es: seq<Event>, s: State, e: Event) returns (es': seq<Event>, s': State)
    requires Run(t, es) == Some(s) && SweptRun(t, es) && Enabled(s, e) && SweptInTime(s, e)
    ensures es' == es + [e] && s' == Apply(s, e) && Run(t, es') == Some(s') && SweptRun(t, es')
  {
    es', s' := es + [e], Apply(s, e);
    assert es'[..|es'| - 1] == es;
  }

  /** A receive loop that has ended stays silent. */
  lemma SilenceLasts(s: State, e: Event, x: SessionId)
    requires Enabled(s, e) && x in s.sessions && (!s.sessions[x].receiving || e == EndReceive(x))
    ensures x in Apply(s, e).sessions && !Enabled(Apply(s, e), SendHeartbeat(x))
  {
  }

  // ---------- Punctual connections ----------

  predicate Registered(reg: Registry, u: UserId, x: SessionId) {
    exists i :: 0 <= i < |ConnectionsOf(reg, u)| && ConnectionsOf(reg, u)[i].session == x
  }

  /** No earlier connection in the list has the device of session `x`, whose heartbeats have all arrived. */
  ghost predicate ReachesOwn(conns: seq<Connection>, x: SessionId, d: DeviceId, lastSent: int) {
    forall i :: 0 <= i < |conns| && conns[i].session == x ==>
      && conns[i].deviceId == d
      && lastSent <= conns[i].lastHeartbeat
      && (forall j :: 0 <= j < i ==> conns[j].deviceId != d)
  }

  ghost predicate OwnInv(s: State, x: SessionId) {
    && x in s.sessions
    && s.sessions[x].lastSent <= s.clock
    && ReachesOwn(ConnectionsOf(s.registry, s.sessions[x].userId), x, s.sessions[x].deviceId, s.sessions[x].lastSent)
  }

  /** Filtering keeps the order, so it brings no duplicate before the session's own connection. */
  lemma {:induction false} FilterReachesOwn(conns: seq<Connection>, keep: Connection -> bool,
                                            x: SessionId, d: DeviceId, lastSent: int)
    requires ReachesOwn(conns, x, d, lastSent)
    ensures ReachesOwn(Filter(conns, keep), x, d, lastSent)
  {
    if conns != [] {
      var front := conns[..|conns| - 1];
      FilterReachesOwn(front, keep, x, d, lastSent);
      var kept := Filter(front, keep);
      forall j | 0 <= j < |kept| && conns[|conns| - 1].session == x ensures kept[j].deviceId != d {
        assert kept[j] in front;
      }
    }
  }

  /** The session's own heartbeat finds its own connection; any other renews what it finds. */
  lemma TouchReachesOwn(conns: seq<Connection>, x: SessionId, d: DeviceId, lastSent: int, other: DeviceId, now: int)
    requires ReachesOwn(conns, x, d, lastSent) && lastSent <= now
    ensures ReachesOwn(Touch(conns, other, now), x, d, lastSent)
    ensures other == d ==> ReachesOwn(Touch(conns, d, now), x, d, now)
  {
  }

  lemma ConnectReachesOwn(conns: seq<Connection>, c: Connection, x: SessionId, d: DeviceId, lastSent: int)
    requires ReachesOwn(conns, x, d, lastSent) && c.session != x
    ensures ReachesOwn(conns + [c], x, d, lastSent)
  {
  }

  lemma OwnStep(s: State, e: Event, x: SessionId)
    requires OwnInv(s, x) && Enabled(s, e)
    ensures OwnInv(Apply(s, e), x)
  {
    var it := s.sessions[x];
    var conns := ConnectionsOf(s.registry, it.userId);
    match e {
      case Connect(y, u, d) => ConnectReachesOwn(conns, Connection(y, u, d, s.clock, []), x, it.deviceId, it.lastSent);
      case SendHeartbeat(y) => TouchReachesOwn(conns, x, it.deviceId, it.lastSent, s.sessions[y].deviceId, s.clock);
      case Disconnect(y) =>
        FilterReachesOwn(conns, (c: Connection) => c.deviceId != s.sessions[y].deviceId, x, it.deviceId, it.lastSent);
      case Cleanup =>
        FilterReachesOwn(conns, (c: Connection) => s.clock - c.lastHeartbeat < TIMEOUT, x, it.deviceId, it.lastSent);
      case _ =>
    }
  }

  /** A session that sent a heartbeat in the last 60 seconds keeps its connection over a cleanup. */
  predicate SurvivesCleanup(s: State, x: SessionId, u: UserId) {
    x in s.sessions && Registered(s.registry, u, x) && s.clock - s.sessions[x].lastSent < 60 ==>
      Registered(Apply(s, Cleanup).registry, u, x)
  }

  lemma OwnSurvives(s: State, x: SessionId)
    requires OwnInv(s, x)
    ensures SurvivesCleanup(s, x, s.sessions[x].userId)
  {
    var u := s.sessions[x].userId;
    if Registered(s.registry, u, x) && s.clock - s.sessions[x].lastSent < TIMEOUT {
      var conns := ConnectionsOf(s.registry, u);
      var i :| 0 <= i < |conns| && conns[i].session == x;
      var kept := FreshOnly(conns, s.clock);
      assert conns[i] in kept;
      var k :| 0 <= k < |kept| && kept[k] == conns[i];
      assert ConnectionsOf(Apply(s, Cleanup).registry, u) == kept;
    }
  }

  lemma {:induction false} OwnForever(t: int, es: seq<Event>, x: SessionId, more: seq<Event>)
    requires Run(t, es).Some? && OwnInv(Run(t, es).value, x)
    requires Run(t, es + more).Some?
    ensures OwnInv(Run(t, es + more).value, x)
    ensures Run(t, es + more).value.sessions[x].userId == Run(t, es).value.sessions[x].userId
  {
    if more == [] {
      assert es + more == es;
    } else {
      var n := |more| - 1;
      assert (es + more)[..|es + more| - 1] == es + more[..n];
      OwnForever(t, es, x, more[..n]);
      OwnStep(Run(t, es + more[..n]).value, more[n], x);
    }
  }

  /** A socket opens when its user has no registered connection for the device. */
  predicate OpensNewDevice(s: State, u: UserId, d: DeviceId) {
    FirstOf(ConnectionsOf(s.registry, u), d) == |ConnectionsOf(s.registry, u)|
  }

  /** Whatever happens after the run `es`, cleanups spare the session while it is punctual. */
  ghost predicate SafeAfter(t: int, es: seq<Event>, x: SessionId, u: UserId) {
    forall more :: Run(t, es + more).Some? ==> SurvivesCleanup(Run(t, es + more).value, x, u)
  }

  lemma NewToList(t: int, es: seq<Event>, x: SessionId, u: UserId)
    requires Run(t, es).Some? && x !in Run(t, es).value.sessions
    ensures forall i :: 0 <= i < |ConnectionsOf(Run(t, es).value.registry, u)| ==>
      ConnectionsOf(Run(t, es).value.registry, u)[i].session != x
  {
    var s := Run(t, es).value;
    NoGhostConnections(t, es);
    var conns := ConnectionsOf(s.registry, u);
    forall i | 0 <= i < |conns| ensures conns[i].session != x {
      assert conns[i] in s.registry[u] && Backed(conns[i], u, s.sessions);
    }
  }

  lemma NewDeviceIsSafe(t: int, es: seq<Event>, x: SessionId, u: UserId, d: DeviceId)
    requires Run(t, es).Some? && Enabled(Run(t, es).value, Connect(x, u, d)) && OpensNewDevice(Run(t, es).value, u, d)
    ensures SafeAfter(t, es + [Connect(x, u, d)], x, u)
  {
    var s := Run(t, es).value;
    NewToList(t, es, x, u);
    var es', s' := Extend(t, es, s, Connect(x, u, d));
    assert OwnInv(s', x);
    forall more | Run(t, es' + more).Some? ensures SurvivesCleanup(Run(t, es' + more).value, x, u) {
      OwnForever(t, es', x, more);
      OwnSurvives(Run(t, es' + more).value, x);
    }
  }

  lemma Extend(t: int, es: seq<Event>, s: State, e: Event) returns (es': seq<Event>, s': State)
    requires Run(t, es) == Some(s) && Enabled(s, e)
    ensures es' == es + [e] && s' == Apply(s, e) && Run(t, es') == Some(s')
  {
    es', s' := es + [e], Apply(s, e);
    assert es'[..|es'| - 1] == es;
  }

  /** A heartbeat of a device that an earlier connection has leaves the last connection as it was. */
  lemma TouchMissesLast(conns: seq<Connection>, c: Connection, now: int)
    requires FirstOf(conns, c.deviceId) < |conns|
    ensures var after := Touch(conns + [c], c.deviceId, now);
      && |after| == |conns| + 1 && after[|conns|] == c
      && forall i :: 0 <= i < |conns| ==> after[i].session == conns[i].session
  {
    assert (conns + [c])[FirstOf(conns, c.deviceId)] == conns[FirstOf(conns, c.deviceId)];
    assert FirstOf(conns + [c], c.deviceId) < |conns|;
  }

  /** The session connects, sends a heartbeat after 30 seconds, and another 30 pass. */
  lemma HalfwayHeartbeat(t: int, es: seq<Event>, s: State, x: SessionId, u: UserId, d: DeviceId)
    returns (more: seq<Event>, s': State)
    requires Run(t, es) == Some(s) && Enabled(s, Connect(x, u, d))
    ensures Run(t, es + [Connect(x, u, d)] + more) == Some(s') && s'.clock == s.clock + 60
    ensures x in s'.sessions && s'.sessions[x].lastSent == s.clock + 30
    ensures ConnectionsOf(s'.registry, u)
         == Touch(ConnectionsOf(s.registry, u) + [Connection(x, u, d, s.clock, [])], d, s.clock + 30)
  {
    var es1, es2, es3, es4, s1, s2, s3;
    es1, s1 := Extend(t, es, s, Connect(x, u, d));
    es2, s2 := Extend(t, es1, s1, Tick(s.clock + 30));
    es3, s3 := Extend(t, es2, s2, SendHeartbeat(x));
    es4, s' := Extend(t, es3, s3, Tick(s.clock + 60));
    more := [Tick(s.clock + 30), SendHeartbeat(x), Tick(s.clock + 60)];
    assert es4 == es + [Connect(x, u, d)] + more;
  }

  /** A stale connection at the end of the list, and no other of its session. */
  lemma StaleLastIsEvicted(s: State, u: UserId, x: SessionId)
    requires var conns := ConnectionsOf(s.registry, u);
      && conns != [] && s.clock - conns[|conns| - 1].lastHeartbeat >= TIMEOUT
      && forall i :: 0 <= i < |conns| - 1 ==> conns[i].session != x
    ensures !Registered(Apply(s, Cleanup).registry, u, x)
  {
    var conns := ConnectionsOf(s.registry, u);
    var kept := FreshOnly(conns, s.clock);
    forall k | 0 <= k < |kept| ensures kept[k].session != x {
      assert kept[k] in conns;
    }
    assert ConnectionsOf(Apply(s, Cleanup).registry, u) == kept;
  }

  /** With an earlier connection of its device: heartbeat after 30 seconds, evicted after 60. */
  lemma DuplicateIsUnsafe(t: int, es: seq<Event>, x: SessionId, u: UserId, d: DeviceId)
    requires Run(t, es).Some? && Enabled(Run(t, es).value, Connect(x, u, d))
    requires !OpensNewDevice(Run(t, es).value, u, d)
    ensures !SafeAfter(t, es + [Connect(x, u, d)], x, u)
  {
    var s := Run(t, es).value;
    var conns := ConnectionsOf(s.registry, u);
    NewToList(t, es, x, u);
    var more, s' := HalfwayHeartbeat(t, es, s, x, u, d);
    TouchMissesLast(conns, Connection(x, u, d, s.clock, []), s.clock + 30);
    assert ConnectionsOf(s'.registry, u)[|conns|].session == x;
    StaleLastIsEvicted(s', u, x);
    assert !SurvivesCleanup(s', x, u);
  }

  /**
   At each connect: a session is spared by every later cleanup while it sends a heartbeat every 60
   seconds, whatever else happens, exactly when its user had no registered connection for its device.
   */
  lemma PunctualIsSafeIff(t: int, es: seq<Event>, x: SessionId, u: UserId, d: DeviceId)
    requires Run(t, es).Some? && Enabled(Run(t, es).value, Connect(x, u, d))
    ensures SafeAfter(t, es + [Connect(x, u, d)], x, u) <==> OpensNewDevice(Run(t, es).value, u, d)
  {
    if OpensNewDevice(Run(t, es).value, u, d) {
      NewDeviceIsSafe(t, es, x, u, d);
    } else {
      DuplicateIsUnsafe(t, es, x, u, d);
    }
  }

  lemma OnlyFirstSurvives(reg: Registry, u: UserId, c1: Connection, c2: Connection, now: int)
    requires u in reg && reg[u] == [c1, c2] && c1.session != c2.session
    requires now - c1.lastHeartbeat < TIMEOUT <= now - c2.lastHeartbeat
    ensures Registered(CleanStale(reg, now), u, c1.session) && !Registered(CleanStale(reg, now), u, c2.session)
  {
    var kept := FreshOnly(reg[u], now);
    assert c1 in kept && forall i :: 0 <= i < |kept| ==> kept[i] in kept;
    assert ConnectionsOf(CleanStale(reg, now), u) == kept && kept[0].session == c1.session;
  }

  /** Two sockets of one device at time 0; at 30 the second sends a heartbeat; now it is 60. */
  lemma DuplicateDevice() returns (es: seq<Event>, s: State)
    ensures Run(0, es) == Some(s) && s.clock == 60
    ensures 1 in s.sessions && s.sessions[1].lastSent == 0 && 2 in s.sessions && s.sessions[2].lastSent == 30
    ensures 7 in s.registry && s.registry[7] == [Connection(1, 7, "phone", 30, []), Connection(2, 7, "phone", 0, [])]
  {
    s := Init(0);
    es := [];
    es, s := Extend(0, es, s, Connect(1, 7, "phone"));
    es, s := Extend(0, es, s, Connect(2, 7, "phone"));
    assert s.registry[7] == [Connection(1, 7, "phone", 0, []), Connection(2, 7, "phone", 0, [])];
    es, s := Extend(0, es, s, Tick(30));
    es, s := Extend(0, es, s, SendHeartbeat(2));
    es, s := Extend(0, es, s, Tick(60));
  }

  /** With a duplicate device id the heartbeat of the second connection renews the first, and the second is evicted. */
  lemma DuplicateDeviceIsEvicted() returns (es: seq<Event>)
    ensures Run(0, es).Some?
    ensures var s := Run(0, es).value;
      && 1 in s.sessions && 2 in s.sessions
      && Registered(s.registry, 7, 2) && s.clock - s.sessions[2].lastSent == 30
      && !Registered(Apply(s, Cleanup).registry, 7, 2)
      && Registered(Apply(s, Cleanup).registry, 7, 1) && s.clock - s.sessions[1].lastSent == 60
  {
    var s;
    es, s := DuplicateDevice();
    var conns := s.registry[7];
    assert ConnectionsOf(s.registry, 7)[1].session == 2;
    OnlyFirstSurvives(s.registry, 7, conns[0], conns[1], 60);
  }

  /** A disconnect removes exactly the connections of its user and device, whichever session opened them. */
  lemma DisconnectRemoves(s: State, x: SessionId, u: UserId, c: Connection)
    requires Enabled(s, Disconnect(x)) && c in ConnectionsOf(s.registry, u)
    ensures c in ConnectionsOf(Apply(s, Disconnect(x)).registry, u)
       <==> !(u == s.sessions[x].userId && c.deviceId == s.sessions[x].deviceId)
  {
  }

  /** The same connection, with perhaps a later heartbeat. */
  predicate Continues(c: Connection, c': Connection) {
    && c'.session == c.session && c'.userId == c.userId && c'.deviceId == c.deviceId && c'.sent == c.sent
    && c'.lastHeartbeat >= c.lastHeartbeat
  }

  predicate HasContinuation(reg: Registry, u: UserId, c: Connection) {
    exists i :: 0 <= i < |ConnectionsOf(reg, u)| && Continues(c, ConnectionsOf(reg, u)[i])
  }

  /** A cleanup finds the connection a minute old, or its user and device disconnect. */
  predicate Ends(s: State, e: Event, u: UserId, c: Connection) {
    || (e.Cleanup? && s.clock - c.lastHeartbeat >= 60)
    || (e.Disconnect? && e.x in s.sessions && s.sessions[e.x].userId == u && s.sessions[e.x].deviceId == c.deviceId)
  }

  /** Nothing else takes a connection out of the registry, changes its owner or what it was sent. */
  lemma ConnectionStays(s: State, e: Event, u: UserId, c: Connection)
    requires Enabled(s, e) && c in ConnectionsOf(s.registry, u) && c.lastHeartbeat <= s.clock && !Ends(s, e, u, c)
    ensures HasContinuation(Apply(s, e).registry, u, c)
  {
    var conns, after := ConnectionsOf(s.registry, u), ConnectionsOf(Apply(s, e).registry, u);
    if e.SendHeartbeat? && s.sessions[e.x].userId == u {
      var i :| 0 <= i < |conns| && conns[i] == c;
      assert Continues(c, after[i]);
    } else {
      assert c in after;
      var i :| 0 <= i < |after| && after[i] == c;
      assert Continues(c, after[i]);
    }
  }

  /** And those two always do. */
  lemma EndedIsGone(s: State, e: Event, u: UserId, c: Connection)
    requires Enabled(s, e) && c in ConnectionsOf(s.registry, u) && Ends(s, e, u, c)
    ensures c !in ConnectionsOf(Apply(s, e).registry, u)
  {
  }

  /** No heartbeat lies in the future. */
  ghost predicate BeatsInPast(s: State) {
    forall u, c :: u in s.registry && c in s.registry[u] ==> c.lastHeartbeat <= s.clock
  }

  lemma TouchInPast(conns: seq<Connection>, d: DeviceId, now: int)
    requires forall c :: c in conns ==> c.lastHeartbeat <= now
    ensures forall c :: c in Touch(conns, d, now) ==> c.lastHeartbeat <= now
  {
  }

  lemma {:induction false} RunBeatsInPast(t: int, es: seq<Event>)
    requires Run(t, es).Some?
    ensures BeatsInPast(Run(t, es).value)
  {
    if es != [] {
      var front, e := es[..|es| - 1], es[|es| - 1];
      var s := Run(t, front).value;
      RunBeatsInPast(t, front);
      if e.SendHeartbeat? && s.sessions[e.x].userId in s.registry {
        TouchInPast(s.registry[s.sessions[e.x].userId], s.sessions[e.x].deviceId, s.clock);
      }
    }
  }

  /**
   In every run a registered connection goes with an event exactly when that is a cleanup that finds it a
   minute old or a disconnect of its user and device; any other event leaves it, its owner and what it was
   sent in place.
   */
  lemma {:induction false} RegisteredStaysIff(t: int, es: seq<Event>, e: Event, u: UserId, c: Connection)
    requires Run(t, es).Some? && Enabled(Run(t, es).value, e)
    requires c in ConnectionsOf(Run(t, es).value.registry, u)
    ensures Ends(Run(t, es).value, e, u, c) ==> c !in ConnectionsOf(Apply(Run(t, es).value, e).registry, u)
    ensures !Ends(Run(t, es).value, e, u, c) ==> HasContinuation(Apply(Run(t, es).value, e).registry, u, c)
  {
    RunBeatsInPast(t, es);
    if Ends(Run(t, es).value, e, u, c) {
      EndedIsGone(Run(t, es).value, e, u, c);
    } else {
      ConnectionStays(Run(t, es).value, e, u, c);
    }
  }

  /** A connect registers its session, with nothing sent to it yet. */
  lemma ConnectRegisters(s: State, x: SessionId, u: UserId, d: DeviceId)
    requires Enabled(s, Connect(x, u, d))
    ensures Connection(x, u, d, s.clock, []) in ConnectionsOf(Apply(s, Connect(x, u, d)).registry, u)
  {
  }

  /** The receive loop of a session outlives its handler: a heartbeat after the disconnect step. */
  lemma HeartbeatAfterDisconnect() returns (es: seq<Event>)
    ensures Run(0, es).Some? && es != [] && es[|es| - 1] == SendHeartbeat(1)
    ensures Run(0, es[..|es| - 1]).Some? && 1 in Run(0, es[..|es| - 1]).value.sessions
    ensures Run(0, es[..|es| - 1]).value.sessions[1].disconnected
  {
    var s := Init(0);
    es := [];
    es, s := Extend(0, es, s, Connect(1, 7, "phone"));
    es, s := Extend(0, es, s, Disconnect(1));
    var before := es;
    es, s := Extend(0, es, s, SendHeartbeat(1));
    assert es[..|es| - 1] == before;
  }

  lemma OnlyUnkept(conns: seq<Connection>, keep: Connection -> bool)
    requires forall c :: c in conns ==> !keep(c)
    ensures Filter(conns, keep) == []
  {
  }

  /** So the late disconnect of an evicted session takes the device's new connection with it. */
  lemma LateDisconnectDropsReconnect() returns (es: seq<Event>)
    ensures Run(0, es).Some?
    ensures var s := Run(0, es).value;
      && 2 in s.sessions && s.clock - s.sessions[2].lastSent == 0 && !s.sessions[2].disconnected
      && !Registered(s.registry, 7, 2)
  {
    var s := Init(0);
    es := [];
    es, s := Extend(0, es, s, Connect(1, 7, "phone"));
    es, s := Extend(0, es, s, Tick(60));
    var c1 := Connection(1, 7, "phone", 0, []);
    assert s.registry[7] == [c1];
    OnlyUnkept([c1], (c: Connection) => 60 - c.lastHeartbeat < TIMEOUT);
    es, s := Extend(0, es, s, Cleanup);
    es, s := Extend(0, es, s, Connect(2, 7, "phone"));
    assert s.registry[7] == [Connection(2, 7, "phone", 60, [])];
    OnlyUnkept(s.registry[7], (c: Connection) => c.deviceId != "phone");
    es, s := Extend(0, es, s, Disconnect(1));
  }
}
