/**
 The gateway's consumer of the `processed-messages` log and its broadcast loop, interleaved with
 everything that changes the registry. The loop walks the map user by user: a user registered when it
 starts and not removed is visited once; one who appears meanwhile may be visited or missed.
 */
module Fanout {
  import opened Wrappers
  import opened Gateway
  import G = GatewayMachine
  import opened Processor

  datatype Cast =
    | Quiet
    | Casting(e: Envelope, pending: set<UserId>, visited: set<UserId>)

  /** How much of each processed log had been fetched when a session connected, and what was being broadcast. */
  datatype Arrival = Arrival(fetched: map<ConversationId, nat>, casting: Option<ConversationId>)

  datatype Fan = Fan(
    gate: G.State,
    fetched: map<ConversationId, nat>,
    cast: Cast,
    arrivals: map<SessionId, Arrival>)

  datatype FanEvent =
    | Gate(g: G.Event)
    | Fetch(v: ConversationId)
    | Visit(u: UserId)
    | EndCast
    | Type(x: SessionId, u: UserId, v: ConversationId, isTyping: bool)

  function FanInit(t: int): Fan {
    Fan(G.Init(t), map[], Quiet, map[])
  }

  function Offset(offsets: map<ConversationId, nat>, v: ConversationId): nat {
    if v in offsets then offsets[v] else 0
  }

  function Since(arrivals: map<SessionId, Arrival>, x: SessionId, v: ConversationId): nat {
    if x in arrivals then Offset(arrivals[x].fetched, v) else 0
  }

  /** The session connected while a message of this conversation was being broadcast. */
  predicate CameDuring(arrivals: map<SessionId, Arrival>, x: SessionId, v: ConversationId) {
    x in arrivals && arrivals[x].casting == Some(v)
  }

  function CastOn(cast: Cast): Option<ConversationId> {
    if cast.Casting? then Some(cast.e.conversationId) else None
  }

  predicate FanEnabled(f: Fan, processed: Logs, ev: FanEvent) {
    match ev
    case Gate(g) => G.Enabled(f.gate, g)
    case Fetch(v) => f.cast.Quiet? && Offset(f.fetched, v) < |LogOf(processed, v)|
    case Visit(u) => f.cast.Casting? && u in f.gate.registry && u !in f.cast.visited
    case EndCast => f.cast.Casting? && f.cast.pending == {}
    case Type(x, u, _, _) =>
      x in f.gate.sessions && f.gate.sessions[x].receiving && u in f.gate.registry && u != f.gate.sessions[x].userId
  }

  /** A user whose key disappears during a broadcast no longer has to be visited. */
  function Narrow(cast: Cast, keys: set<UserId>): Cast {
    if cast.Casting? then cast.(pending := cast.pending * keys) else cast
  }

  function FanApply(f: Fan, processed: Logs, ev: FanEvent): Fan
    requires FanEnabled(f, processed, ev)
  {
    match ev
    case Gate(g) =>
      var gate' := G.Apply(f.gate, g);
      f.(gate := gate',
         cast := Narrow(f.cast, gate'.registry.Keys),
         arrivals := if g.Connect? then f.arrivals[g.x := Arrival(f.fetched, CastOn(f.cast))] else f.arrivals)
    case Fetch(v) =>
      var n := Offset(f.fetched, v);
      f.(fetched := f.fetched[v := n + 1],
         cast := Casting(LogOf(processed, v)[n], f.gate.registry.Keys, {}))
    case Visit(u) =>
      f.(gate := f.gate.(registry := SendTo(f.gate.registry, u, Chat(f.cast.e), f.cast.e.senderId)),
         cast := Casting(f.cast.e, f.cast.pending - {u}, f.cast.visited + {u}))
    case EndCast => f.(cast := Quiet)
    case Type(x, u, v, isTyping) =>
      var sender := f.gate.sessions[x].userId;
      f.(gate := f.gate.(registry := SendTo(f.gate.registry, u, TypingIndicator(v, isTyping), sender)))
  }

  // ---------- One connection ----------

  /** The chat messages of one conversation among what a connection was sent. */
  function Chats(sent: seq<Outgoing>, v: ConversationId): seq<Envelope> {
    if sent == [] then []
    else
      var item := sent[|sent| - 1];
      Chats(sent[..|sent| - 1], v)
        + (if item.Chat? && item.message.conversationId == v then [item.message] else [])
  }

  /** What a user is owed of a stretch of a log: the messages of others. */
  function NotFrom(log: seq<Envelope>, u: UserId): seq<Envelope> {
    if log == [] then []
    else
      var e := log[|log| - 1];
      NotFrom(log[..|log| - 1], u) + (if e.senderId != u then [e] else [])
  }

  /** `got` is exactly what `u` is owed of the stretch of `log` between two offsets. */
  predicate Owed(got: seq<Envelope>, log: seq<Envelope>, start: int, upto: int, u: UserId) {
    0 <= start <= upto <= |log| && got == NotFrom(log[start..upto], u)
  }

  /** Everything since connecting, and possibly the message that was being broadcast at that moment, if one was. */
  predicate UpToDate(got: seq<Envelope>, log: seq<Envelope>, since: nat, during: bool, upto: int, u: UserId) {
    Owed(got, log, since, upto, u) || (during && Owed(got, log, since - 1, upto, u))
  }

  /** How far a user has been served in one conversation. */
  function Served(fetched: map<ConversationId, nat>, cast: Cast, u: UserId, v: ConversationId): int {
    Offset(fetched, v) - (if cast.Casting? && cast.e.conversationId == v && u !in cast.visited then 1 else 0)
  }

  ghost predicate CastInv(f: Fan, processed: Logs) {
    && (forall v :: Offset(f.fetched, v) <= |LogOf(processed, v)|)
    && (f.cast.Casting? ==>
          var v := f.cast.e.conversationId;
          && Offset(f.fetched, v) > 0
          && LogOf(processed, v)[Offset(f.fetched, v) - 1] == f.cast.e)
  }

  /** Sessions have their offsets recorded; whoever still has to get the current message is pending. */
  ghost predicate ArrivalInv(f: Fan) {
    && (forall x :: x in f.gate.sessions <==> x in f.arrivals)
    && (forall x, v :: x in f.arrivals ==> Since(f.arrivals, x, v) <= Offset(f.fetched, v))
    && (forall u, c :: u in f.gate.registry && c in f.gate.registry[u] && MustVisit(f, u, c.session) ==>
          u in f.cast.pending)
  }

  /** The session was connected before the current broadcast began, and its user has not been visited. */
  predicate MustVisit(f: Fan, u: UserId, x: SessionId) {
    && f.cast.Casting?
    && u !in f.cast.visited
    && Since(f.arrivals, x, f.cast.e.conversationId) < Offset(f.fetched, f.cast.e.conversationId)
  }

  predicate Served1(f: Fan, processed: Logs, u: UserId, c: Connection, v: ConversationId) {
    UpToDate(Chats(c.sent, v), LogOf(processed, v), Since(f.arrivals, c.session, v),
             CameDuring(f.arrivals, c.session, v), Served(f.fetched, f.cast, u, v), u)
  }

  ghost predicate ServedInv(f: Fan, processed: Logs) {
    forall u, c, v :: u in f.gate.registry && c in f.gate.registry[u] ==> Served1(f, processed, u, c, v)
  }

  ghost predicate FanInv(f: Fan, processed: Logs) {
    && G.RegistryInv(f.gate.registry, f.gate.sessions)
    && CastInv(f, processed)
    && ArrivalInv(f)
    && ServedInv(f, processed)
  }

  lemma ChatsSnoc(sent: seq<Outgoing>, item: Outgoing, v: ConversationId)
    ensures Chats(sent + [item], v)
         == Chats(sent, v) + (if item.Chat? && item.message.conversationId == v then [item.message] else [])
  {
    assert (sent + [item])[..|sent|] == sent;
  }

  lemma NotFromSnoc(log: seq<Envelope>, start: int, upto: int, u: UserId)
    requires 0 <= start <= upto < |log|
    ensures NotFrom(log[start..upto + 1], u)
         == NotFrom(log[start..upto], u) + (if log[upto].senderId != u then [log[upto]] else [])
  {
    assert log[start..upto + 1] == log[start..upto] + [log[upto]];
    assert log[start..upto + 1][..upto - start] == log[start..upto];
  }

  /** The processed log may grow under the consumer's feet. */
  lemma OwedGrows(got: seq<Envelope>, log: seq<Envelope>, more: seq<Envelope>, start: int, upto: int, u: UserId)
    requires Owed(got, log, start, upto, u)
    ensures Owed(got, log + more, start, upto, u)
  {
    assert (log + more)[start..upto] == log[start..upto];
  }

  /** Sending the next message, unless it is the user's own, serves the user one further. */
  lemma OwedSends(got: seq<Envelope>, log: seq<Envelope>, start: int, upto: int, u: UserId, e: Envelope)
    requires Owed(got, log, start, upto, u) && upto < |log| && log[upto] == e
    ensures Owed(got + (if e.senderId != u then [e] else []), log, start, upto + 1, u)
  {
    NotFromSnoc(log, start, upto, u);
  }

  lemma UpToDateGrows(got: seq<Envelope>, log: seq<Envelope>, more: seq<Envelope>, since: nat, during: bool,
                      upto: int, u: UserId)
    requires UpToDate(got, log, since, during, upto, u)
    ensures UpToDate(got, log + more, since, during, upto, u)
  {
    if Owed(got, log, since, upto, u) {
      OwedGrows(got, log, more, since, upto, u);
    } else {
      OwedGrows(got, log, more, since - 1, upto, u);
    }
  }

  lemma UpToDateSends(got: seq<Envelope>, log: seq<Envelope>, since: nat, during: bool, upto: int,
                      u: UserId, e: Envelope)
    requires UpToDate(got, log, since, during, upto, u) && 0 <= upto < |log| && log[upto] == e
    ensures UpToDate(got + (if e.senderId != u then [e] else []), log, since, during, upto + 1, u)
  {
    if Owed(got, log, since, upto, u) {
      OwedSends(got, log, since, upto, u, e);
    } else {
      OwedSends(got, log, since - 1, upto, u, e);
    }
  }

  /** A connection that came during a broadcast and was missed by it is owed nothing of it. */
  lemma MissedIsUpToDate(got: seq<Envelope>, log: seq<Envelope>, since: nat, during: bool, u: UserId)
    requires UpToDate(got, log, since, during, since - 1, u) && since <= |log|
    ensures UpToDate(got, log, since, during, since, u)
  {
    assert log[since - 1..since - 1] == [] && log[since..since] == [];
  }

  lemma FreshIsUpToDate(log: seq<Envelope>, since: nat, during: bool, upto: int, u: UserId)
    requires 0 <= upto <= since <= |log| && (upto == since || (during && upto + 1 == since))
    ensures UpToDate([], log, since, during, upto, u)
  {
    assert log[upto..upto] == [];
  }

  // ---------- What each event keeps ----------

  lemma GrowKeeps(f: Fan, processed: Logs, e: Envelope)
    requires FanInv(f, processed)
    ensures FanInv(f, Append(processed, e))
  {
    var after := Append(processed, e);
    forall u, c, v | u in f.gate.registry && c in f.gate.registry[u] ensures Served1(f, after, u, c, v) {
      assert Served1(f, processed, u, c, v);
      if v == e.conversationId {
        UpToDateGrows(Chats(c.sent, v), LogOf(processed, v), [e], Since(f.arrivals, c.session, v),
                      CameDuring(f.arrivals, c.session, v), Served(f.fetched, f.cast, u, v), u);
      }
    }
  }

  lemma FetchKeeps(f: Fan, processed: Logs, v: ConversationId)
    requires FanInv(f, processed) && Keyed(processed) && FanEnabled(f, processed, Fetch(v))
    ensures FanInv(FanApply(f, processed, Fetch(v)), processed)
  {
    var f' := FanApply(f, processed, Fetch(v));
    assert f'.cast.e in LogOf(processed, v);
    forall u, c, w | u in f'.gate.registry && c in f'.gate.registry[u] ensures Served1(f', processed, u, c, w) {
      assert Served1(f, processed, u, c, w);
      assert Served(f'.fetched, f'.cast, u, w) == Served(f.fetched, f.cast, u, w);
    }
  }

  lemma EndKeeps(f: Fan, processed: Logs)
    requires FanInv(f, processed) && FanEnabled(f, processed, EndCast)
    ensures FanInv(FanApply(f, processed, EndCast), processed)
  {
    var f' := FanApply(f, processed, EndCast);
    forall u, c, v | u in f'.gate.registry && c in f'.gate.registry[u] ensures Served1(f', processed, u, c, v) {
      assert Served1(f, processed, u, c, v);
      if v == f.cast.e.conversationId && u !in f.cast.visited {
        assert !MustVisit(f, u, c.session);
        MissedIsUpToDate(Chats(c.sent, v), LogOf(processed, v), Since(f.arrivals, c.session, v),
                         CameDuring(f.arrivals, c.session, v), u);
      }
    }
  }

  /** Pushing changes only what was sent, to every connection of the user or to none. */
  function Pushed(c: Connection, item: Outgoing, sender: UserId, u: UserId): Connection {
    if u == sender then c else c.(sent := c.sent + [item])
  }

  lemma PushOrigin(conns: seq<Connection>, item: Outgoing, sender: UserId, u: UserId, c': Connection)
    returns (c: Connection)
    requires forall x :: x in conns ==> x.userId == u
    requires c' in Push(conns, item, sender)
    ensures c in conns && c' == Pushed(c, item, sender, u)
  {
    var i :| 0 <= i < |conns| && Push(conns, item, sender)[i] == c';
    c := conns[i];
  }

  lemma VisitServes(f: Fan, processed: Logs, u: UserId, c: Connection, v: ConversationId)
    requires CastInv(f, processed) && f.cast.Casting? && u !in f.cast.visited
    requires Served1(f, processed, u, c, v)
    ensures var e := f.cast.e;
      var sent := if u == e.senderId then c.sent else c.sent + [Chat(e)];
      var cast' := Casting(e, f.cast.pending - {u}, f.cast.visited + {u});
      UpToDate(Chats(sent, v), LogOf(processed, v), Since(f.arrivals, c.session, v),
               CameDuring(f.arrivals, c.session, v), Served(f.fetched, cast', u, v), u)
  {
    var e := f.cast.e;
    var got, log, upto := Chats(c.sent, v), LogOf(processed, v), Served(f.fetched, f.cast, u, v);
    ChatsSnoc(c.sent, Chat(e), v);
    if v == e.conversationId {
      assert log[upto] == e;
      UpToDateSends(got, log, Since(f.arrivals, c.session, v), CameDuring(f.arrivals, c.session, v), upto, u, e);
      assert got + [] == got;
    }
  }

  lemma SendKeepsRegistry(reg: Registry, sessions: map<SessionId, G.Session>, u: UserId, item: Outgoing, sender: UserId)
    requires G.RegistryInv(reg, sessions) && u in reg
    ensures G.RegistryInv(SendTo(reg, u, item, sender), sessions)
  {
    forall w, c' | w in SendTo(reg, u, item, sender) && c' in SendTo(reg, u, item, sender)[w]
      ensures G.Backed(c', w, sessions)
    {
      if w == u {
        var c := PushOrigin(reg[u], item, sender, u, c');
        assert G.Backed(c, u, sessions);
      }
    }
  }

  lemma VisitKeeps(f: Fan, processed: Logs, u: UserId)
    requires FanInv(f, processed) && FanEnabled(f, processed, Visit(u))
    ensures FanInv(FanApply(f, processed, Visit(u)), processed)
  {
    var f' := FanApply(f, processed, Visit(u));
    var e, conns := f.cast.e, f.gate.registry[u];
    SendKeepsRegistry(f.gate.registry, f.gate.sessions, u, Chat(e), e.senderId);
    forall w, c', v | w in f'.gate.registry && c' in f'.gate.registry[w] ensures Served1(f', processed, w, c', v) {
      if w == u {
        var c := PushOrigin(conns, Chat(e), e.senderId, u, c');
        assert Served1(f, processed, u, c, v);
        VisitServes(f, processed, u, c, v);
      } else {
        assert Served1(f, processed, w, c', v);
      }
    }
  }

  lemma TypeServes(f: Fan, f': Fan, processed: Logs, u: UserId, item: Outgoing, sender: UserId)
    requires ServedInv(f, processed) && G.RegistryInv(f.gate.registry, f.gate.sessions)
    requires item.TypingIndicator? && u in f.gate.registry
    requires f' == f.(gate := f.gate.(registry := SendTo(f.gate.registry, u, item, sender)))
    ensures ServedInv(f', processed)
  {
    var conns := f.gate.registry[u];
    forall w, c', v | w in f'.gate.registry && c' in f'.gate.registry[w] ensures Served1(f', processed, w, c', v) {
      if w == u {
        var c := PushOrigin(conns, item, sender, u, c');
        assert Served1(f, processed, w, c, v);
        ChatsSnoc(c.sent, item, v);
      } else {
        assert Served1(f, processed, w, c', v);
      }
    }
  }

  lemma TypeKeeps(f: Fan, processed: Logs, ev: FanEvent)
    requires FanInv(f, processed) && ev.Type? && FanEnabled(f, processed, ev)
    ensures FanInv(FanApply(f, processed, ev), processed)
  {
    var f' := FanApply(f, processed, ev);
    var item, sender := TypingIndicator(ev.v, ev.isTyping), f.gate.sessions[ev.x].userId;
    SendKeepsRegistry(f.gate.registry, f.gate.sessions, ev.u, item, sender);
    TypeServes(f, f', processed, ev.u, item, sender);
    forall u, c' | u in f'.gate.registry && c' in f'.gate.registry[u] && MustVisit(f', u, c'.session)
      ensures u in f'.cast.pending
    {
      if u == ev.u {
        var c := PushOrigin(f.gate.registry[u], item, sender, u, c');
        assert MustVisit(f, u, c.session);
      } else {
        assert MustVisit(f, u, c'.session);
      }
    }
  }

  /** A typing step sends the indicator into every connection of its user and changes nothing else. */
  lemma TypingReaches(f: Fan, processed: Logs, x: SessionId, u: UserId, v: ConversationId, isTyping: bool)
    requires FanEnabled(f, processed, Type(x, u, v, isTyping)) && G.RegistryInv(f.gate.registry, f.gate.sessions)
    ensures var before, after := f.gate.registry, FanApply(f, processed, Type(x, u, v, isTyping)).gate.registry;
      && after - {u} == before - {u} && u in after && |after[u]| == |before[u]|
      && forall i :: 0 <= i < |before[u]| ==>
           after[u][i] == before[u][i].(sent := before[u][i].sent + [TypingIndicator(v, isTyping)])
  {
    forall i | 0 <= i < |f.gate.registry[u]| ensures f.gate.registry[u][i].userId == u {
      assert G.Backed(f.gate.registry[u][i], u, f.gate.sessions);
    }
  }

  // ---------- Changes of the registry ----------

  /** Every connection of the later registry was there before, with the same session and the same sends. */
  ghost predicate Descends(reg: Registry, reg': Registry) {
    forall u, c' :: u in reg' && c' in reg'[u] ==> u in reg && HasTwin(reg[u], c')
  }

  predicate HasTwin(conns: seq<Connection>, c': Connection) {
    exists c :: c in conns && c.session == c'.session && c.sent == c'.sent
  }

  lemma GateDescends(s: G.State, g: G.Event)
    requires G.Enabled(s, g) && !g.Connect?
    ensures Descends(s.registry, G.Apply(s, g).registry)
    ensures G.Apply(s, g).sessions.Keys == s.sessions.Keys
  {
  }

  lemma DescentKeeps(f: Fan, f': Fan, processed: Logs)
    requires CastInv(f, processed) && ArrivalInv(f) && ServedInv(f, processed)
    requires Descends(f.gate.registry, f'.gate.registry) && f'.gate.sessions.Keys == f.gate.sessions.Keys
    requires f'.fetched == f.fetched && f'.arrivals == f.arrivals && f'.cast == Narrow(f.cast, f'.gate.registry.Keys)
    ensures CastInv(f', processed) && ArrivalInv(f') && ServedInv(f', processed)
  {
    forall u, c' | u in f'.gate.registry && c' in f'.gate.registry[u] && MustVisit(f', u, c'.session)
      ensures u in f'.cast.pending
    {
      var c :| c in f.gate.registry[u] && c.session == c'.session && c.sent == c'.sent;
      assert MustVisit(f, u, c.session);
    }
    forall u, c', v | u in f'.gate.registry && c' in f'.gate.registry[u] ensures Served1(f', processed, u, c', v) {
      var c :| c in f.gate.registry[u] && c.session == c'.session && c.sent == c'.sent;
      assert Served1(f, processed, u, c, v);
    }
  }

  /** Registering session `x` leaves every other connection as it was and adds an empty one. */
  ghost predicate Admits(f: Fan, f': Fan, x: SessionId) {
    && x !in f.gate.sessions
    && f'.fetched == f.fetched && f'.arrivals == f.arrivals[x := Arrival(f.fetched, CastOn(f.cast))]
    && f.gate.registry.Keys <= f'.gate.registry.Keys
    && f'.cast == Narrow(f.cast, f'.gate.registry.Keys)
    && (forall u, c :: u in f'.gate.registry && c in f'.gate.registry[u] ==>
          || (u in f.gate.registry && c in f.gate.registry[u] && c.session in f.gate.sessions)
          || (c.session == x && c.sent == []))
  }

  lemma ConnectAdmits(f: Fan, processed: Logs, g: G.Event)
    requires FanInv(f, processed) && g.Connect? && G.Enabled(f.gate, g)
    ensures Admits(f, FanApply(f, processed, Gate(g)), g.x)
  {
  }

  lemma AdmissionServes(f: Fan, f': Fan, processed: Logs, x: SessionId)
    requires Admits(f, f', x) && CastInv(f, processed) && ServedInv(f, processed)
    ensures ServedInv(f', processed)
  {
    forall u, c, v: ConversationId | u in f'.gate.registry && c in f'.gate.registry[u]
      ensures Served1(f', processed, u, c, v)
    {
      assert Served(f'.fetched, f'.cast, u, v) == Served(f.fetched, f.cast, u, v);
      if c.session == x && c.sent == [] {
        FreshIsUpToDate(LogOf(processed, v), Offset(f.fetched, v), CastOn(f.cast) == Some(v),
                        Served(f.fetched, f.cast, u, v), u);
      } else {
        assert Served1(f, processed, u, c, v);
      }
    }
  }

  lemma AdmissionPends(f: Fan, f': Fan, x: SessionId)
    requires Admits(f, f', x) && ArrivalInv(f) && f'.gate.sessions.Keys == f.gate.sessions.Keys + {x}
    ensures ArrivalInv(f')
  {
  }

  lemma ConnectKeeps(f: Fan, processed: Logs, g: G.Event)
    requires FanInv(f, processed) && g.Connect? && G.Enabled(f.gate, g)
    ensures FanInv(FanApply(f, processed, Gate(g)), processed)
  {
    var f' := FanApply(f, processed, Gate(g));
    G.StepKeepsRegistry(f.gate, g);
    ConnectAdmits(f, processed, g);
    AdmissionServes(f, f', processed, g.x);
    AdmissionPends(f, f', g.x);
  }

  lemma FanStepKeeps(f: Fan, processed: Logs, ev: FanEvent)
    requires FanInv(f, processed) && Keyed(processed) && FanEnabled(f, processed, ev)
    ensures FanInv(FanApply(f, processed, ev), processed)
  {
    match ev {
      case Gate(g) =>
        if g.Connect? {
          ConnectKeeps(f, processed, g);
        } else {
          G.StepKeepsRegistry(f.gate, g);
          GateDescends(f.gate, g);
          DescentKeeps(f, FanApply(f, processed, ev), processed);
        }
      case Fetch(v) => FetchKeeps(f, processed, v);
      case Visit(u) => VisitKeeps(f, processed, u);
      case EndCast => EndKeeps(f, processed);
      case Type(_, _, _, _) => TypeKeeps(f, processed, ev);
    }
  }
}
