/**
 The whole pipeline: many sockets, one gateway, one processor that does not restart. A session's
 receive loop forwards to the `messages` log; the processor filters into the `processed-messages` log;
 the gateway's consumer fans that out to the registered connections.
 */
module Pipeline {
  import opened Wrappers
  import opened Sequences
  import opened Gateway
  import G = GatewayMachine
  import P = Processor
  import opened Fanout

  datatype State = State(p: P.State, f: Fan)

  datatype Event =
    | Ingest(x: SessionId, e: Envelope, ok: bool)
    | Work(pe: P.Event)
    | Serve(fe: FanEvent)

  function Init(t: int): State {
    State(P.START, FanInit(t))
  }

  /** Any live receive loop may forward, under its session's user. */
  predicate Enabled(s: State, ev: Event) {
    match ev
    case Ingest(x, e, _) =>
      x in s.f.gate.sessions && s.f.gate.sessions[x].receiving && e.senderId == s.f.gate.sessions[x].userId
    case Work(pe) => !pe.Forward? && P.Enabled(s.p, pe)
    case Serve(fe) => FanEnabled(s.f, s.p.processed, fe)
  }

  function Apply(s: State, ev: Event): State
    requires Enabled(s, ev)
  {
    match ev
    case Ingest(_, e, ok) => s.(p := P.Apply(s.p, P.Forward(e, ok)))
    case Work(pe) => s.(p := P.Apply(s.p, pe))
    case Serve(fe) => s.(f := FanApply(s.f, s.p.processed, fe))
  }

  function Run(t: int, es: seq<Event>): Option<State> {
    if es == [] then Some(Init(t))
    else
      var e := es[|es| - 1];
      match Run(t, es[..|es| - 1])
      case None => None
      case Some(s) => if Enabled(s, e) then Some(Apply(s, e)) else None
  }

  ghost predicate Inv(s: State) {
    && P.OrderInv(s.p)
    && P.CountInv(s.p)
    && P.Keyed(s.p.processed)
    && FanInv(s.f, s.p.processed)
  }

  /** The processor changes its output log only by publishing the message at hand. */
  lemma WorkAppends(p: P.State, pe: P.Event)
    requires P.Enabled(p, pe)
    ensures P.Apply(p, pe).processed ==
      if pe.Publish? && pe.ok then P.Append(p.processed, p.phase.e) else p.processed
  {
    match pe {
      case Forward(_, _) =>
      case Receive(_) =>
      case Check(_) =>
      case Publish(_) =>
      case _ => P.OtherKeepsLogs(p, pe);
    }
  }

  lemma WorkKeeps(s: State, pe: P.Event)
    requires Inv(s) && P.Enabled(s.p, pe)
    ensures Inv(s.(p := P.Apply(s.p, pe)))
  {
    P.StepKeepsOrder(s.p, pe);
    P.StepKeepsCounts(s.p, pe);
    WorkAppends(s.p, pe);
    if pe.Publish? && pe.ok {
      P.AppendKeepsKeys(s.p.processed, s.p.phase.e);
      GrowKeeps(s.f, s.p.processed, s.p.phase.e);
    }
  }

  lemma {:induction false} StepKeepsInv(s: State, ev: Event)
    requires Inv(s) && Enabled(s, ev)
    ensures Inv(Apply(s, ev))
  {
    match ev {
      case Ingest(_, e, ok) => WorkKeeps(s, P.Forward(e, ok));
      case Work(pe) => WorkKeeps(s, pe);
      case Serve(fe) => FanStepKeeps(s.f, s.p.processed, fe);
    }
  }

  lemma {:induction false} RunKeepsInv(t: int, es: seq<Event>)
    requires Run(t, es).Some?
    ensures Inv(Run(t, es).value)
  {
    if es != [] {
      RunKeepsInv(t, es[..|es| - 1]);
      StepKeepsInv(Run(t, es[..|es| - 1]).value, es[|es| - 1]);
    } else {
      P.RunKeepsOrder([]);
      P.RunKeepsCounts([]);
    }
  }

  lemma {:induction false} NotFromIsSubsequence(log: seq<Envelope>, u: UserId)
    ensures Subsequence(NotFrom(log, u), log)
  {
    if log != [] {
      var front, e := log[..|log| - 1], log[|log| - 1];
      NotFromIsSubsequence(front, u);
      assert log == front + [e];
      if e.senderId != u {
        SubsequenceKeep(NotFrom(front, u), front, e);
      } else {
        assert NotFrom(log, u) == NotFrom(front, u);
        SubsequenceSkip(NotFrom(front, u), front, e);
      }
    }
  }

  predicate NoneFrom(got: seq<Envelope>, u: UserId) {
    forall i :: 0 <= i < |got| ==> got[i].senderId != u
  }

  lemma OwedIsSubsequence(got: seq<Envelope>, log: seq<Envelope>, start: int, upto: int, u: UserId)
    requires Owed(got, log, start, upto, u)
    ensures Subsequence(got, log) && NoneFrom(got, u)
  {
    NotFromIsSubsequence(log[start..upto], u);
    NotFromExcludes(log[start..upto], u);
    SliceIsSubsequence(log, start, upto);
    SubsequenceTransitive(got, log[start..upto], log);
  }

  /**
   End-to-end order: in every run, the messages of a conversation that were queued for a registered
   connection are a subsequence of what was appended to that conversation's `messages` log, and of the
   processed log; none of them is the user's own.
   */
  lemma QueuesKeepLogOrder(t: int, es: seq<Event>, u: UserId, c: Connection, v: ConversationId)
    requires Run(t, es).Some?
    requires u in Run(t, es).value.f.gate.registry && c in Run(t, es).value.f.gate.registry[u]
    ensures var s := Run(t, es).value;
      && Subsequence(Chats(c.sent, v), P.LogOf(s.p.processed, v))
      && Subsequence(P.LogOf(s.p.processed, v), P.LogOf(s.p.messages, v))
      && Subsequence(Chats(c.sent, v), P.LogOf(s.p.messages, v))
      && NoneFrom(Chats(c.sent, v), u)
  {
    var s := Run(t, es).value;
    RunKeepsInv(t, es);
    assert Served1(s.f, s.p.processed, u, c, v);
    var got, log := Chats(c.sent, v), P.LogOf(s.p.processed, v);
    var from, upto := Since(s.f.arrivals, c.session, v), Served(s.f.fetched, s.f.cast, u, v);
    OwedIsSubsequence(got, log, if Owed(got, log, from, upto, u) then from as int else from - 1, upto, u);
    ProcessedFollowsMessages(s.p, v);
    SubsequenceTransitive(got, log, P.LogOf(s.p.messages, v));
  }

  /** The same by positions: each queued message has its own place in the log, later ones further back. */
  lemma {:induction false} QueuePositions(t: int, es: seq<Event>, u: UserId, c: Connection, v: ConversationId)
    returns (at: seq<nat>)
    requires Run(t, es).Some?
    requires u in Run(t, es).value.f.gate.registry && c in Run(t, es).value.f.gate.registry[u]
    ensures var log, got := P.LogOf(Run(t, es).value.p.messages, v), Chats(c.sent, v);
      && |at| == |got|
      && (forall i :: 0 <= i < |got| ==> at[i] < |log| && got[i] == log[at[i]])
      && (forall i, j :: 0 <= i < j < |got| ==> at[i] < at[j])
  {
    QueuesKeepLogOrder(t, es, u, c, v);
    at := SubsequencePositions(Chats(c.sent, v), P.LogOf(Run(t, es).value.p.messages, v));
  }

  lemma {:induction false} NotFromExcludes(log: seq<Envelope>, u: UserId)
    ensures NoneFrom(NotFrom(log, u), u)
  {
    if log != [] {
      NotFromExcludes(log[..|log| - 1], u);
    }
  }

  lemma ProcessedFollowsMessages(p: P.State, v: ConversationId)
    requires P.OrderInv(p)
    ensures Subsequence(P.LogOf(p.processed, v), P.LogOf(p.messages, v))
  {
    assert P.OrderOk(p, v);
    var log, flags := P.LogOf(p.messages, v), P.Settled(P.Verdicts(p, v), p.phase, v);
    P.AdmittedIsSubsequence(log, flags);
    SubsequenceAppendRight(P.Admitted(log, flags), log[..|flags|], log[|flags|..]);
    assert log[..|flags|] + log[|flags|..] == log;
  }

  /**
   Nothing is missed: whenever no broadcast is under way, a registered connection has been queued, in
   order, exactly the processed messages fetched since it connected that are not its own user's; only if
   a broadcast of the conversation was under way when it connected may that message come before them.
   */
  lemma RegisteredGetsEverything(t: int, es: seq<Event>, u: UserId, c: Connection, v: ConversationId)
    requires Run(t, es).Some? && Run(t, es).value.f.cast.Quiet?
    requires u in Run(t, es).value.f.gate.registry && c in Run(t, es).value.f.gate.registry[u]
    ensures var s := Run(t, es).value;
      var log, from, fetched := P.LogOf(s.p.processed, v), Since(s.f.arrivals, c.session, v), Offset(s.f.fetched, v);
      && from <= fetched <= |log|
      && UpToDate(Chats(c.sent, v), log, from, CameDuring(s.f.arrivals, c.session, v), fetched, u)
  {
    var s := Run(t, es).value;
    RunKeepsInv(t, es);
    assert Served1(s.f, s.p.processed, u, c, v);
  }

  // ---------- The processor inside the pipeline ----------

  /** What the processor sees of a run. */
  function ProcessorEvents(es: seq<Event>): seq<P.Event> {
    if es == [] then []
    else
      var ev := es[|es| - 1];
      ProcessorEvents(es[..|es| - 1])
        + match ev
          case Ingest(_, e, ok) => [P.Forward(e, ok)]
          case Work(pe) => [pe]
          case Serve(_) => []
  }

  /** The processor of a pipeline run has had a run of its own, so all that holds of its runs holds here. */
  lemma {:induction false} ProcessorRuns(t: int, es: seq<Event>)
    requires Run(t, es).Some?
    ensures P.Run(ProcessorEvents(es)) == Some(Run(t, es).value.p)
  {
    if es != [] {
      var front := es[..|es| - 1];
      var seen, after := ProcessorEvents(front), ProcessorEvents(es);
      ProcessorRuns(t, front);
      if !es[|es| - 1].Serve? {
        assert after[..|after| - 1] == seen;
      } else {
        assert after == seen;
      }
    }
  }

  /** The messages of one conversation that sockets forwarded with success, in order. */
  function Ingested(es: seq<Event>, v: ConversationId): seq<Envelope> {
    if es == [] then []
    else
      var ev := es[|es| - 1];
      Ingested(es[..|es| - 1], v) + (if ev.Ingest? && ev.ok && ev.e.conversationId == v then [ev.e] else [])
  }

  lemma {:induction false} IngestedIsForwarded(es: seq<Event>, v: ConversationId)
    requires forall i :: 0 <= i < |es| && es[i].Work? ==> !es[i].pe.Forward?
    ensures P.Forwards(ProcessorEvents(es), v) == Ingested(es, v)
  {
    if es != [] {
      var front := es[..|es| - 1];
      var after := ProcessorEvents(es);
      IngestedIsForwarded(front, v);
      if !es[|es| - 1].Serve? {
        assert after[..|after| - 1] == ProcessorEvents(front);
      } else {
        assert after == ProcessorEvents(front);
      }
    }
  }

  lemma {:induction false} OnlySocketsForward(t: int, es: seq<Event>)
    requires Run(t, es).Some?
    ensures forall i :: 0 <= i < |es| && es[i].Work? ==> !es[i].pe.Forward?
  {
    if es != [] {
      OnlySocketsForward(t, es[..|es| - 1]);
      assert Enabled(Run(t, es[..|es| - 1]).value, es[|es| - 1]);
    }
  }

  /**
   From socket to queue: what a registered connection was queued of a conversation is a subsequence of
   what sockets forwarded, filtered by the sender's membership at the moment of its check.
   */
  lemma {:induction false} QueuedPassedCheck(t: int, es: seq<Event>, u: UserId, c: Connection, v: ConversationId)
    requires Run(t, es).Some?
    requires u in Run(t, es).value.f.gate.registry && c in Run(t, es).value.f.gate.registry[u]
    ensures var p, pes := Run(t, es).value.p, ProcessorEvents(es);
      && |P.Settled(P.Checks(pes, v), p.phase, v)| <= |Ingested(es, v)|
      && Subsequence(Chats(c.sent, v), P.Admitted(Ingested(es, v), P.Settled(P.Checks(pes, v), p.phase, v)))
  {
    ProcessorRuns(t, es);
    OnlySocketsForward(t, es);
    IngestedIsForwarded(es, v);
    P.ProcessedIsFilteredPrefix(ProcessorEvents(es), v);
    QueuesKeepLogOrder(t, es, u, c, v);
  }

  // ---------- Senders ----------

  predicate Known(sessions: map<SessionId, G.Session>, u: UserId) {
    exists x :: x in sessions && sessions[x].userId == u
  }

  /** Every forwarded message names the user of some session. */
  ghost predicate SendersKnown(messages: P.Logs, sessions: map<SessionId, G.Session>) {
    forall v, e :: v in messages && e in messages[v] ==> Known(sessions, e.senderId)
  }

  lemma ForwardKeepsSenders(messages: P.Logs, sessions: map<SessionId, G.Session>, e: Envelope)
    requires SendersKnown(messages, sessions) && Known(sessions, e.senderId)
    ensures SendersKnown(P.Append(messages, e), sessions)
  {
  }

  /** No step of the processor touches the log it reads. */
  lemma WorkReadsMessages(p: P.State, pe: P.Event)
    requires P.Enabled(p, pe) && !pe.Forward?
    ensures P.Apply(p, pe).messages == p.messages
  {
    match pe {
      case Receive(_) =>
      case Check(_) =>
      case Publish(_) =>
      case _ => P.OtherKeepsLogs(p, pe);
    }
  }

  /** A session keeps its user, and none disappears. */
  predicate Outlive(before: map<SessionId, G.Session>, after: map<SessionId, G.Session>) {
    forall x :: x in before ==> x in after && after[x].userId == before[x].userId
  }

  lemma ServeKeepsSessions(f: Fan, processed: P.Logs, fe: FanEvent)
    requires FanEnabled(f, processed, fe)
    ensures Outlive(f.gate.sessions, FanApply(f, processed, fe).gate.sessions)
  {
  }

  lemma OutliveKeepsSenders(messages: P.Logs, before: map<SessionId, G.Session>, after: map<SessionId, G.Session>)
    requires SendersKnown(messages, before) && Outlive(before, after)
    ensures SendersKnown(messages, after)
  {
  }

  lemma SenderStep(s: State, ev: Event)
    requires Enabled(s, ev) && SendersKnown(s.p.messages, s.f.gate.sessions)
    ensures SendersKnown(Apply(s, ev).p.messages, Apply(s, ev).f.gate.sessions)
  {
    match ev {
      case Ingest(x, e, _) => ForwardKeepsSenders(s.p.messages, s.f.gate.sessions, e);
      case Work(pe) => WorkReadsMessages(s.p, pe);
      case Serve(fe) =>
        ServeKeepsSessions(s.f, s.p.processed, fe);
        OutliveKeepsSenders(s.p.messages, s.f.gate.sessions, Apply(s, ev).f.gate.sessions);
    }
  }

  lemma {:induction false} SendersAreKnown(t: int, es: seq<Event>)
    requires Run(t, es).Some?
    ensures SendersKnown(Run(t, es).value.p.messages, Run(t, es).value.f.gate.sessions)
  {
    if es != [] {
      SendersAreKnown(t, es[..|es| - 1]);
      SenderStep(Run(t, es[..|es| - 1]).value, es[|es| - 1]);
    }
  }

  /** No queued message names a sender that never had a session. */
  lemma QueuedSenderIsKnown(t: int, es: seq<Event>, u: UserId, c: Connection, v: ConversationId, e: Envelope)
    requires Run(t, es).Some?
    requires u in Run(t, es).value.f.gate.registry && c in Run(t, es).value.f.gate.registry[u]
    requires e in Chats(c.sent, v)
    ensures e.senderId != u && Known(Run(t, es).value.f.gate.sessions, e.senderId)
  {
    var s := Run(t, es).value;
    QueuesKeepLogOrder(t, es, u, c, v);
    SendersAreKnown(t, es);
    SubsequenceMembers(Chats(c.sent, v), P.LogOf(s.p.messages, v), e);
  }
}
