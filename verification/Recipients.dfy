/**
 Who is queued a conversation's message. The broadcast loop does not look at the conversation: it
 reaches every other user it visits, member or not.
 */
module Recipients {
  import opened Wrappers
  import opened Gateway
  import G = GatewayMachine
  import P = Processor
  import opened Fanout
  import opened Pipeline

  /** Some connection of `u` was sent this message. */
  predicate Sent(before: Registry, after: Registry, u: UserId, e: Envelope) {
    exists i :: 0 <= i < |ConnectionsOf(before, u)| && i < |ConnectionsOf(after, u)|
      && ConnectionsOf(after, u)[i].sent == ConnectionsOf(before, u)[i].sent + [Chat(e)]
  }

  /** The users with a connection that was sent the message of the current or last broadcast. */
  function Receivers(t: int, es: seq<Event>): set<UserId> {
    if es == [] || Run(t, es).None? then {}
    else
      var front, ev := es[..|es| - 1], es[|es| - 1];
      var s, s' := Run(t, front).value, Run(t, es).value;
      if ev.Serve? && ev.fe.Fetch? then {}
      else if ev.Serve? && ev.fe.Visit? && Sent(s.f.gate.registry, s'.f.gate.registry, ev.fe.u, s.f.cast.e)
      then Receivers(t, front) + {ev.fe.u}
      else Receivers(t, front)
  }

  /** A visit reaches its user exactly when that is not the sender. */
  lemma VisitSends(reg: Registry, sessions: map<SessionId, G.Session>, u: UserId, e: Envelope)
    requires G.RegistryInv(reg, sessions) && u in reg
    ensures Sent(reg, SendTo(reg, u, Chat(e), e.senderId), u, e) <==> u != e.senderId
  {
    var conns := reg[u];
    var after: Registry := SendTo(reg, u, Chat(e), e.senderId);
    forall i | 0 <= i < |conns| ensures conns[i].userId == u {
      assert conns[i] in conns && G.Backed(conns[i], u, sessions);
    }
    if u != e.senderId {
      assert ConnectionsOf(after, u)[0].sent == conns[0].sent + [Chat(e)];
    } else {
      forall i | 0 <= i < |conns| ensures after[u][i].sent != conns[i].sent + [Chat(e)] {
        assert |after[u][i].sent| == |conns[i].sent|;
      }
    }
  }

  lemma {:induction false} ReceiversAreVisited(t: int, es: seq<Event>)
    requires Run(t, es).Some? && Run(t, es).value.f.cast.Casting?
    ensures var cast := Run(t, es).value.f.cast; Receivers(t, es) == cast.visited - {cast.e.senderId}
  {
    if es != [] {
      var front, ev := es[..|es| - 1], es[|es| - 1];
      var s := Run(t, front).value;
      if ev.Serve? && ev.fe.Fetch? {
      } else if ev.Serve? && ev.fe.Visit? {
        ReceiversAreVisited(t, front);
        RunKeepsInv(t, front);
        VisitSends(s.f.gate.registry, s.f.gate.sessions, ev.fe.u, s.f.cast.e);
      } else {
        CastRests(s, ev);
        ReceiversAreVisited(t, front);
      }
    }
  }

  lemma CastRests(s: State, ev: Event)
    requires Enabled(s, ev) && !(ev.Serve? && (ev.fe.Fetch? || ev.fe.Visit?)) && Apply(s, ev).f.cast.Casting?
    ensures s.f.cast.Casting? && Apply(s, ev).f.cast.e == s.f.cast.e && Apply(s, ev).f.cast.visited == s.f.cast.visited
  {
  }

  predicate IsMember(s: State, u: UserId, v: ConversationId) {
    u in P.Members(s.p, v)
  }

  /** The session connected before the message now being broadcast was fetched. */
  predicate CameBefore(f: Fan, x: SessionId)
    requires f.cast.Casting?
  {
    Since(f.arrivals, x, f.cast.e.conversationId) < Offset(f.fetched, f.cast.e.conversationId)
  }

  /** When a broadcast is complete, it has reached every other user with a connection from before it began. */
  lemma {:induction false} BroadcastReachesAll(t: int, es: seq<Event>, u: UserId, c: Connection)
    requires Run(t, es).Some? && Enabled(Run(t, es).value, Serve(EndCast))
    requires u in Run(t, es).value.f.gate.registry && c in Run(t, es).value.f.gate.registry[u]
    requires u != Run(t, es).value.f.cast.e.senderId && CameBefore(Run(t, es).value.f, c.session)
    ensures u in Receivers(t, es)
  {
    ReceiversAreVisited(t, es);
    RunKeepsInv(t, es);
    assert !MustVisit(Run(t, es).value.f, u, c.session);
  }

  // ---------- A broadcast can always end ----------

  /** Whoever still has to be visited is in the registry and has not been. */
  ghost predicate CanVisit(f: Fan) {
    f.cast.Casting? ==> forall u :: u in f.cast.pending ==> u in f.gate.registry && u !in f.cast.visited
  }

  lemma {:induction false} RunCanVisit(t: int, es: seq<Event>)
    requires Run(t, es).Some?
    ensures CanVisit(Run(t, es).value.f)
  {
    if es != [] {
      RunCanVisit(t, es[..|es| - 1]);
    }
  }

  lemma Extend(t: int, es: seq<Event>, s: State, ev: Event) returns (es': seq<Event>, s': State)
    requires Run(t, es) == Some(s) && Enabled(s, ev)
    ensures es' == es + [ev] && s' == Apply(s, ev) && Run(t, es') == Some(s')
  {
    es', s' := es + [ev], Apply(s, ev);
    assert es'[..|es'| - 1] == es;
  }

  /** In every reachable state the broadcast under way can be completed by visits alone. */
  lemma {:induction false} BroadcastCanEnd(t: int, es: seq<Event>, s: State) returns (es': seq<Event>, s': State)
    requires Run(t, es) == Some(s) && s.f.cast.Casting?
    ensures es <= es' && Run(t, es') == Some(s') && s'.f.cast.Quiet?
    decreases |s.f.cast.pending|
  {
    if s.f.cast.pending == {} {
      es', s' := Extend(t, es, s, Serve(EndCast));
    } else {
      RunCanVisit(t, es);
      var u :| u in s.f.cast.pending;
      var es1, s1 := Extend(t, es, s, Serve(Visit(u)));
      es', s' := BroadcastCanEnd(t, es1, s1);
    }
  }

  // ---------- When members alone receive a message ----------

  /** The sender of a message, or a member of its conversation. */
  predicate Insider(s: State, e: Envelope, u: UserId) {
    u == e.senderId || IsMember(s, u, e.conversationId)
  }

  /** Only insiders connect, the conversation keeps its members, and the broadcast has not ended. */
  predicate Calm(s: State, e: Envelope, ev: Event) {
    && (ev.Work? && ev.pe.SetMembers? ==> ev.pe.v != e.conversationId)
    && (ev.Serve? && ev.fe.Gate? && ev.fe.g.Connect? ==> Insider(s, e, ev.fe.g.userId))
    && !(ev.Serve? && ev.fe.EndCast?)
  }

  /** A stretch of calm events after the state `s`. */
  ghost predicate AllCalm(s: State, e: Envelope, more: seq<Event>) {
    forall i :: 0 <= i < |more| ==> Calm(s, e, more[i])
  }

  /** The broadcast of `e` has met insiders alone, and finds nobody else in the registry. */
  ghost predicate Inside(s: State, s': State, e: Envelope) {
    && s'.f.cast.Casting? && s'.f.cast.e == e
    && P.Members(s'.p, e.conversationId) == P.Members(s.p, e.conversationId)
    && (forall u :: u in s'.f.gate.registry || u in s'.f.cast.visited ==> Insider(s, e, u))
  }

  lemma GateInside(s: State, s': State, e: Envelope, ev: Event)
    requires Inside(s, s', e) && ev.Serve? && ev.fe.Gate? && Enabled(s', ev) && Calm(s, e, ev)
    ensures Inside(s, Apply(s', ev), e)
  {
  }

  lemma WalkInside(s: State, s': State, e: Envelope, ev: Event)
    requires Inside(s, s', e) && ev.Serve? && (ev.fe.Visit? || ev.fe.Type?) && Enabled(s', ev)
    ensures Inside(s, Apply(s', ev), e)
  {
  }

  lemma MembersRest(p: P.State, pe: P.Event, v: ConversationId)
    requires P.Enabled(p, pe) && !(pe.SetMembers? && pe.v == v)
    ensures P.Members(P.Apply(p, pe), v) == P.Members(p, v)
  {
  }

  lemma WorkInside(s: State, s': State, e: Envelope, ev: Event)
    requires Inside(s, s', e) && !ev.Serve? && Enabled(s', ev) && Calm(s, e, ev)
    ensures Inside(s, Apply(s', ev), e)
  {
    match ev {
      case Ingest(_, m, ok) => MembersRest(s'.p, P.Forward(m, ok), e.conversationId);
      case Work(pe) => MembersRest(s'.p, pe, e.conversationId);
      case Serve(_) =>
    }
  }

  lemma {:induction false} CalmKeepsInside(t: int, es: seq<Event>, more: seq<Event>)
    requires Run(t, es).Some? && Run(t, es + more).Some?
    requires var s := Run(t, es).value; s.f.cast.Casting? && Inside(s, s, s.f.cast.e) && AllCalm(s, s.f.cast.e, more)
    ensures Inside(Run(t, es).value, Run(t, es + more).value, Run(t, es).value.f.cast.e)
  {
    if more == [] {
      assert es + more == es;
    } else {
      var n := |more| - 1;
      assert (es + more)[..|es + more| - 1] == es + more[..n];
      CalmKeepsInside(t, es, more[..n]);
      var s, s', ev := Run(t, es).value, Run(t, es + more[..n]).value, more[n];
      assert Calm(s, s.f.cast.e, ev);
      if !ev.Serve? {
        WorkInside(s, s', s.f.cast.e, ev);
      } else if ev.fe.Gate? {
        GateInside(s, s', s.f.cast.e, ev);
      } else {
        WalkInside(s, s', s.f.cast.e, ev);
      }
    }
  }

  /** In every calm continuation of the run `es`, members alone receive the message being broadcast. */
  ghost predicate OnlyMembersReceive(t: int, es: seq<Event>, s: State)
    requires s.f.cast.Casting?
  {
    forall more, u :: Run(t, es + more).Some? && AllCalm(s, s.f.cast.e, more) && u in Receivers(t, es + more) ==>
      IsMember(s, u, s.f.cast.e.conversationId)
  }

  lemma {:induction false} InsidersAreMembers(t: int, es: seq<Event>, s: State)
    requires Run(t, es) == Some(s) && s.f.cast.Casting? && Inside(s, s, s.f.cast.e)
    ensures OnlyMembersReceive(t, es, s)
  {
    forall more, u | Run(t, es + more).Some? && AllCalm(s, s.f.cast.e, more) && u in Receivers(t, es + more)
      ensures IsMember(s, u, s.f.cast.e.conversationId)
    {
      CalmKeepsInside(t, es, more);
      ReceiversAreVisited(t, es + more);
    }
  }

  /** The very next visit may be to an outsider who has a connection. */
  lemma {:induction false} OutsiderReceives(t: int, es: seq<Event>, s: State, u: UserId)
    requires Run(t, es) == Some(s) && s.f.cast.Casting? && s.f.cast.visited == {}
    requires u in s.f.gate.registry && !Insider(s, s.f.cast.e, u)
    ensures !OnlyMembersReceive(t, es, s)
  {
    var es', s' := Extend(t, es, s, Serve(Visit(u)));
    ReceiversAreVisited(t, es');
    assert es' == es + [Serve(Visit(u))];
    assert AllCalm(s, s.f.cast.e, [Serve(Visit(u))]);
  }

  /**
   When a broadcast begins: in every continuation in which only insiders connect and the members stay,
   members alone receive the message exactly when every user in the registry is the sender or a member.
   */
  lemma {:induction false} OnlyMembersIff(t: int, es: seq<Event>, s: State)
    requires Run(t, es) == Some(s) && s.f.cast.Casting? && s.f.cast.visited == {}
    ensures OnlyMembersReceive(t, es, s) <==> forall u :: u in s.f.gate.registry ==> Insider(s, s.f.cast.e, u)
  {
    if forall u :: u in s.f.gate.registry ==> Insider(s, s.f.cast.e, u) {
      InsidersAreMembers(t, es, s);
    } else {
      var u :| u in s.f.gate.registry && !Insider(s, s.f.cast.e, u);
      OutsiderReceives(t, es, s, u);
    }
  }

  // ---------- A run ----------

  const NOTE := Envelope(1, 50, 1000, "hello")

  /** Users 1 and 2 are connected and user 1 is the only member of conversation 50. */
  lemma TwoConnected() returns (es: seq<Event>, s: State)
    ensures Run(0, es) == Some(s)
    ensures s.f == FanInit(0).(gate := s.f.gate, arrivals := s.f.arrivals)
    ensures s.f.gate.registry == map[1 := [Connection(1, 1, "a", 0, [])], 2 := [Connection(2, 2, "b", 0, [])]]
    ensures 1 in s.f.gate.sessions && s.f.gate.sessions[1] == G.Session(1, "a", false, true, 0)
    ensures s.p == P.START.(members := map[50 := [1]])
  {
    es, s := [], Init(0);
    es, s := Extend(0, es, s, Serve(Gate(G.Connect(1, 1, "a"))));
    es, s := Extend(0, es, s, Serve(Gate(G.Connect(2, 2, "b"))));
    es, s := Extend(0, es, s, Work(P.SetMembers(50, [1])));
    assert [] + [Connection(1, 1, "a", 0, [])] == [Connection(1, 1, "a", 0, [])];
    assert [] + [Connection(2, 2, "b", 0, [])] == [Connection(2, 2, "b", 0, [])];
  }

  /** User 1's message passes its check and is stored. */
  lemma Admitted(es: seq<Event>, s: State) returns (es': seq<Event>, s': State)
    requires Run(0, es) == Some(s) && s.p == P.START.(members := map[50 := [1]])
    requires 1 in s.f.gate.sessions && s.f.gate.sessions[1] == G.Session(1, "a", false, true, 0)
    ensures Run(0, es') == Some(s') && s' == s.(p := s'.p)
    ensures s'.p.phase == P.Stamping(NOTE) && s'.p.members == s.p.members && s'.p.processed == map[]
  {
    es', s' := Extend(0, es, s, Ingest(1, NOTE, true));
    es', s' := Extend(0, es', s', Work(P.Receive(50)));
    es', s' := Extend(0, es', s', Work(P.Check(true)));
    es', s' := Extend(0, es', s', Work(P.Store(true)));
  }

  /** The sender is the only participant: nothing to count, one row to insert. */
  lemma Counted(es: seq<Event>, s: State) returns (es': seq<Event>, s': State)
    requires Run(0, es) == Some(s) && s.p.phase == P.Stamping(NOTE) && s.p.members == map[50 := [1]]
    ensures Run(0, es') == Some(s') && s' == s.(p := s.p.(phase := P.Recording(NOTE, [1], 0)))
  {
    var s1, s2, s3;
    es', s1 := Extend(0, es, s, Work(P.Stamp(true)));
    es', s2 := Extend(0, es', s1, Work(P.ListParticipants([1], true)));
    es', s3 := Extend(0, es', s2, Work(P.SkipSender));
    es', s' := Extend(0, es', s3, Work(P.EndCounting));
  }

  lemma Recorded(es: seq<Event>, s: State) returns (es': seq<Event>, s': State)
    requires Run(0, es) == Some(s) && s.p.phase == P.Recording(NOTE, [1], 0)
    ensures Run(0, es') == Some(s') && s' == s.(p := s.p.(phase := P.Publishing(NOTE), rows := s'.p.rows))
  {
    var s1;
    es', s1 := Extend(0, es, s, Work(P.RecordNext(true, true)));
    es', s' := Extend(0, es', s1, Work(P.EndRecording));
  }

  lemma Broadcast(es: seq<Event>, s: State) returns (es': seq<Event>, s': State)
    requires Run(0, es) == Some(s) && s.p.phase == P.Publishing(NOTE) && s.p.processed == map[]
    requires s.f == FanInit(0).(gate := s.f.gate, arrivals := s.f.arrivals)
    requires s.f.gate.registry == map[1 := [Connection(1, 1, "a", 0, [])], 2 := [Connection(2, 2, "b", 0, [])]]
    ensures Run(0, es') == Some(s') && s'.p.members == s.p.members
    ensures 2 in s'.f.gate.registry && s'.f.gate.registry[2] == [Connection(2, 2, "b", 0, [Chat(NOTE)])]
  {
    var s1, s2;
    es', s1 := Extend(0, es, s, Work(P.Publish(true)));
    es', s2 := Extend(0, es', s1, Serve(Fetch(50)));
    es', s' := Extend(0, es', s2, Serve(Visit(2)));
    assert [] + [Chat(NOTE)] == [Chat(NOTE)];
    assert s'.f.gate.registry[2] == Push([Connection(2, 2, "b", 0, [])], Chat(NOTE), 1);
  }

  /** A user who is not a member of a conversation is queued its message. */
  lemma NonMemberIsQueued() returns (es: seq<Event>)
    ensures Run(0, es).Some?
    ensures var s := Run(0, es).value;
      && !IsMember(s, 2, 50)
      && 2 in s.f.gate.registry && |s.f.gate.registry[2]| == 1 && Chat(NOTE) in s.f.gate.registry[2][0].sent
  {
    var s;
    es, s := TwoConnected();
    es, s := Admitted(es, s);
    es, s := Counted(es, s);
    es, s := Recorded(es, s);
    es, s := Broadcast(es, s);
  }
}
