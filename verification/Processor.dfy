/**
 The message processor: it consumes the `messages` log, checks membership, books unread counts and
 delivery rows for the participants, and appends to the `processed-messages` log. Both logs are keyed
 by conversation; each conversation is one ordered sequence, and the consumer may take conversations
 in any order.
 */
module Processor {
  import opened Wrappers
  import opened Sequences
  import opened Gateway

  type Logs = map<ConversationId, seq<Envelope>>

  function LogOf(logs: Logs, v: ConversationId): seq<Envelope> {
    if v in logs then logs[v] else []
  }

  function Append(logs: Logs, e: Envelope): Logs {
    logs[e.conversationId := LogOf(logs, e.conversationId) + [e]]
  }

  datatype DeliveryRow = DeliveryRow(messageId: nat, conversationId: ConversationId, userId: UserId, delivered: bool)

  type Counters = map<(UserId, ConversationId), nat>

  function Unread(counters: Counters, u: UserId, v: ConversationId): nat {
    if (u, v) in counters then counters[(u, v)] else 0
  }

  function Raise(counters: Counters, u: UserId, v: ConversationId): Counters {
    counters[(u, v) := Unread(counters, u, v) + 1]
  }

  /** The delivery row of one participant: the sender's own copy is born delivered. */
  function RowFor(e: Envelope, u: UserId): DeliveryRow {
    DeliveryRow(e.messageId, e.conversationId, u, u == e.senderId)
  }

  /** The undelivered rows inserted for one user in one conversation. */
  function Undelivered(rows: seq<DeliveryRow>, u: UserId, v: ConversationId): nat {
    if rows == [] then 0
    else
      var r := rows[|rows| - 1];
      Undelivered(rows[..|rows| - 1], u, v) + (if r.userId == u && r.conversationId == v && !r.delivered then 1 else 0)
  }

  /** How often a list of participants names a user. */
  function Times(parts: seq<UserId>, u: UserId): nat {
    if parts == [] then 0 else Times(parts[..|parts| - 1], u) + (if parts[|parts| - 1] == u then 1 else 0)
  }

  /** The messages whose check found a member, in order. */
  function Admitted(messages: seq<Envelope>, verdicts: seq<bool>): seq<Envelope>
    requires |verdicts| <= |messages|
  {
    if verdicts == [] then []
    else
      var n := |verdicts| - 1;
      Admitted(messages, verdicts[..n]) + (if verdicts[n] then [messages[n]] else [])
  }

  // ---------- The consume loop as a machine ----------

  /** Where the processor stands with its current message; an error in any step ends the loop for good. */
  datatype Phase =
    | Idle
    | Checking(e: Envelope)
    | Storing(e: Envelope)
    | Stamping(e: Envelope)
    | Listing(e: Envelope)
    | Counting(e: Envelope, parts: seq<UserId>, done: nat)
    | Recording(e: Envelope, parts: seq<UserId>, done: nat)
    | Publishing(e: Envelope)
    | Stopped(unfinished: Option<Envelope>)

  /** `verdicts` records each membership check at the moment it was made. */
  datatype State = State(
    messages: Logs,
    taken: map<ConversationId, nat>,
    verdicts: map<ConversationId, seq<bool>>,
    processed: Logs,
    members: map<ConversationId, seq<UserId>>,
    unread: Counters,
    rows: seq<DeliveryRow>,
    phase: Phase)

  datatype Event =
    | Forward(e: Envelope, ok: bool)
    | SetMembers(v: ConversationId, users: seq<UserId>)
    | Receive(v: ConversationId)
    | Check(ok: bool)
    | Store(ok: bool)
    | Stamp(ok: bool)
    | ListParticipants(users: seq<UserId>, ok: bool)
    | SkipSender
    | CountNext(ok: bool, applied: bool)
    | EndCounting
    | RecordNext(ok: bool, applied: bool)
    | EndRecording
    | Publish(ok: bool)

  const START := State(map[], map[], map[], map[], map[], map[], [], Idle)

  function Taken(s: State, v: ConversationId): nat {
    if v in s.taken then s.taken[v] else 0
  }

  function Verdicts(s: State, v: ConversationId): seq<bool> {
    if v in s.verdicts then s.verdicts[v] else []
  }

  function Members(s: State, v: ConversationId): seq<UserId> {
    if v in s.members then s.members[v] else []
  }

  /** The query answers with the current members in some order. A command that failed may have been applied. */
  predicate Enabled(s: State, e: Event) {
    match e
    case Forward(_, _) => true
    case SetMembers(_, _) => true
    case Receive(v) => s.phase.Idle? && Taken(s, v) < |LogOf(s.messages, v)|
    case Check(_) => s.phase.Checking?
    case Store(_) => s.phase.Storing?
    case Stamp(_) => s.phase.Stamping?
    case ListParticipants(users, _) =>
      s.phase.Listing? && multiset(users) == multiset(Members(s, s.phase.e.conversationId))
    case SkipSender =>
      && s.phase.Counting? && s.phase.done < |s.phase.parts|
      && s.phase.parts[s.phase.done] == s.phase.e.senderId
    case CountNext(ok, applied) =>
      && s.phase.Counting? && s.phase.done < |s.phase.parts|
      && s.phase.parts[s.phase.done] != s.phase.e.senderId && (ok ==> applied)
    case EndCounting => s.phase.Counting? && s.phase.done == |s.phase.parts|
    case RecordNext(ok, applied) => s.phase.Recording? && s.phase.done < |s.phase.parts| && (ok ==> applied)
    case EndRecording => s.phase.Recording? && s.phase.done == |s.phase.parts|
    case Publish(_) => s.phase.Publishing?
  }

  function Apply(s: State, ev: Event): State
    requires Enabled(s, ev)
  {
    match ev
    case Forward(e, ok) => if ok then s.(messages := Append(s.messages, e)) else s
    case SetMembers(v, users) => s.(members := s.members[v := users])
    case Receive(v) =>
      s.(taken := s.taken[v := Taken(s, v) + 1], phase := Checking(LogOf(s.messages, v)[Taken(s, v)]))
    case Check(ok) =>
      var e := s.phase.e;
      if !ok then s.(phase := Stopped(None))
      else
        var member := e.senderId in Members(s, e.conversationId);
        s.(verdicts := s.verdicts[e.conversationId := Verdicts(s, e.conversationId) + [member]],
           phase := if member then Storing(e) else Idle)
    case Store(ok) => s.(phase := if ok then Stamping(s.phase.e) else Stopped(Some(s.phase.e)))
    case Stamp(ok) => s.(phase := if ok then Listing(s.phase.e) else Stopped(Some(s.phase.e)))
    case ListParticipants(users, ok) =>
      s.(phase := if ok then Counting(s.phase.e, users, 0) else Stopped(Some(s.phase.e)))
    case SkipSender => s.(phase := Counting(s.phase.e, s.phase.parts, s.phase.done + 1))
    case CountNext(ok, applied) =>
      s.(unread := if applied then Raise(s.unread, s.phase.parts[s.phase.done], s.phase.e.conversationId) else s.unread,
         phase := if ok then Counting(s.phase.e, s.phase.parts, s.phase.done + 1) else Stopped(Some(s.phase.e)))
    case EndCounting => s.(phase := Recording(s.phase.e, s.phase.parts, 0))
    case RecordNext(ok, applied) =>
      s.(rows := if applied then s.rows + [RowFor(s.phase.e, s.phase.parts[s.phase.done])] else s.rows,
         phase := if ok then Recording(s.phase.e, s.phase.parts, s.phase.done + 1) else Stopped(Some(s.phase.e)))
    case EndRecording => s.(phase := Publishing(s.phase.e))
    case Publish(ok) =>
      var e := s.phase.e;
      if ok then s.(processed := Append(s.processed, e), phase := Idle) else s.(phase := Stopped(Some(e)))
  }

  function Run(es: seq<Event>): Option<State> {
    if es == [] then Some(START)
    else
      var e := es[|es| - 1];
      match Run(es[..|es| - 1])
      case None => None
      case Some(s) => if Enabled(s, e) then Some(Apply(s, e)) else None
  }

  // ---------- Order ----------

  /** The message that passed its check and has not been published. */
  function Unpublished(p: Phase): Option<Envelope> {
    match p
    case Idle => None
    case Checking(_) => None
    case Stopped(unfinished) => unfinished
    case Storing(e) => Some(e)
    case Stamping(e) => Some(e)
    case Listing(e) => Some(e)
    case Counting(e, _, _) => Some(e)
    case Recording(e, _, _) => Some(e)
    case Publishing(e) => Some(e)
  }

  /** The processor has admitted but not published a message of conversation `v`. */
  predicate Pending(p: Phase, v: ConversationId) {
    Unpublished(p).Some? && Unpublished(p).value.conversationId == v
  }

  predicate CheckingIn(p: Phase, v: ConversationId) {
    p.Checking? && p.e.conversationId == v
  }

  /** The verdicts of one conversation that have taken full effect. */
  function Settled(verdicts: seq<bool>, p: Phase, v: ConversationId): seq<bool> {
    if Pending(p, v) && verdicts != [] then verdicts[..|verdicts| - 1] else verdicts
  }

  /** One conversation: the processed log is the consumed prefix of the messages log, filtered by the verdicts. */
  ghost predicate InOrder(log: seq<Envelope>, taken: nat, verdicts: seq<bool>, processed: seq<Envelope>,
                          p: Phase, v: ConversationId) {
    && |verdicts| <= taken <= |log|
    && processed == Admitted(log, Settled(verdicts, p, v))
    && (CheckingIn(p, v) ==> |verdicts| + 1 == taken && log[|verdicts|] == p.e)
    && (Pending(p, v) ==>
          verdicts != [] && verdicts[|verdicts| - 1] && log[|verdicts| - 1] == Unpublished(p).value)
    && (!p.Stopped? && !CheckingIn(p, v) ==> |verdicts| == taken)
  }

  ghost predicate OrderOk(s: State, v: ConversationId) {
    InOrder(LogOf(s.messages, v), Taken(s, v), Verdicts(s, v), LogOf(s.processed, v), s.phase, v)
  }

  /** Every message sits in the log of its own conversation. */
  ghost predicate Keyed(logs: Logs) {
    forall v, e :: v in logs && e in logs[v] ==> e.conversationId == v
  }

  lemma AppendKeepsKeys(logs: Logs, e: Envelope)
    requires Keyed(logs)
    ensures Keyed(Append(logs, e))
  {
  }

  ghost predicate OrderInv(s: State) {
    && Keyed(s.messages)
    && (forall v :: OrderOk(s, v))
  }

  lemma {:induction false} AdmittedFrame(a: seq<Envelope>, b: seq<Envelope>, verdicts: seq<bool>)
    requires |verdicts| <= |a| && a <= b
    ensures Admitted(a, verdicts) == Admitted(b, verdicts)
  {
    if verdicts != [] {
      AdmittedFrame(a, b, verdicts[..|verdicts| - 1]);
    }
  }

  lemma AdmittedSnoc(log: seq<Envelope>, verdicts: seq<bool>, x: bool)
    requires |verdicts| < |log|
    ensures Admitted(log, verdicts + [x]) == Admitted(log, verdicts) + (if x then [log[|verdicts|]] else [])
  {
    assert (verdicts + [x])[..|verdicts|] == verdicts;
  }

  lemma OrderGrows(log: seq<Envelope>, more: seq<Envelope>, taken: nat, verdicts: seq<bool>, processed: seq<Envelope>,
                   p: Phase, v: ConversationId)
    requires InOrder(log, taken, verdicts, processed, p, v)
    ensures InOrder(log + more, taken, verdicts, processed, p, v)
  {
    AdmittedFrame(log, log + more, Settled(verdicts, p, v));
  }

  /** A verdict on the message under check. */
  lemma OrderJudges(log: seq<Envelope>, taken: nat, verdicts: seq<bool>, processed: seq<Envelope>,
                    e: Envelope, member: bool)
    requires InOrder(log, taken, verdicts, processed, Checking(e), e.conversationId)
    ensures InOrder(log, taken, verdicts + [member], processed, if member then Storing(e) else Idle, e.conversationId)
  {
    AdmittedSnoc(log, verdicts, member);
    assert (verdicts + [member])[..|verdicts|] == verdicts;
  }

  lemma OrderPublishes(log: seq<Envelope>, taken: nat, verdicts: seq<bool>, processed: seq<Envelope>, e: Envelope)
    requires InOrder(log, taken, verdicts, processed, Publishing(e), e.conversationId)
    ensures InOrder(log, taken, verdicts, processed + [e], Idle, e.conversationId)
  {
  }

  /** A phase change that neither starts nor ends a check nor publishes. */
  lemma OrderMoves(log: seq<Envelope>, taken: nat, verdicts: seq<bool>, processed: seq<Envelope>,
                   p: Phase, p': Phase, v: ConversationId)
    requires InOrder(log, taken, verdicts, processed, p, v)
    requires Unpublished(p) == Unpublished(p') || (!Pending(p, v) && !Pending(p', v))
    requires CheckingIn(p', v) ==> CheckingIn(p, v) && p == p'
    requires p'.Stopped? || (!p.Stopped? && !CheckingIn(p, v)) || p == p'
    ensures InOrder(log, taken, verdicts, processed, p', v)
  {
  }

  lemma OrderForward(s: State, ev: Event)
    requires OrderInv(s) && ev.Forward? && ev.ok && Enabled(s, ev)
    ensures OrderInv(Apply(s, ev))
  {
    var s' := Apply(s, ev);
    forall v ensures OrderOk(s', v) {
      assert OrderOk(s, v);
      if v == ev.e.conversationId {
        OrderGrows(LogOf(s.messages, v), [ev.e], Taken(s, v), Verdicts(s, v), LogOf(s.processed, v), s.phase, v);
      }
    }
    AppendKeepsKeys(s.messages, ev.e);
  }

  lemma OrderCheck(s: State, ev: Event)
    requires OrderInv(s) && ev.Check? && ev.ok && Enabled(s, ev)
    ensures OrderInv(Apply(s, ev))
  {
    var s' := Apply(s, ev);
    var e := s.phase.e;
    forall v ensures OrderOk(s', v) {
      assert OrderOk(s, v);
      if v == e.conversationId {
        OrderJudges(LogOf(s.messages, v), Taken(s, v), Verdicts(s, v), LogOf(s.processed, v), e,
                    e.senderId in Members(s, v));
      } else {
        OrderMoves(LogOf(s.messages, v), Taken(s, v), Verdicts(s, v), LogOf(s.processed, v), s.phase, s'.phase, v);
      }
    }
  }

  lemma OrderPublish(s: State, ev: Event)
    requires OrderInv(s) && ev.Publish? && ev.ok && Enabled(s, ev)
    ensures OrderInv(Apply(s, ev))
  {
    var s' := Apply(s, ev);
    forall v ensures OrderOk(s', v) {
      assert OrderOk(s, v);
      if v == s.phase.e.conversationId {
        OrderPublishes(LogOf(s.messages, v), Taken(s, v), Verdicts(s, v), LogOf(s.processed, v), s.phase.e);
      } else {
        OrderMoves(LogOf(s.messages, v), Taken(s, v), Verdicts(s, v), LogOf(s.processed, v), s.phase, s'.phase, v);
      }
    }
  }

  /** The next message of the log is taken up for its check. */
  lemma OrderTakes(log: seq<Envelope>, taken: nat, verdicts: seq<bool>, processed: seq<Envelope>, v: ConversationId)
    requires InOrder(log, taken, verdicts, processed, Idle, v) && taken < |log| && log[taken].conversationId == v
    ensures InOrder(log, taken + 1, verdicts, processed, Checking(log[taken]), v)
  {
  }

  lemma OrderReceive(s: State, ev: Event)
    requires OrderInv(s) && ev.Receive? && Enabled(s, ev)
    ensures OrderInv(Apply(s, ev))
  {
    var s', e := Apply(s, ev), LogOf(s.messages, ev.v)[Taken(s, ev.v)];
    assert e in s.messages[ev.v];
    forall v ensures OrderOk(s', v) {
      assert OrderOk(s, v);
      if v == ev.v {
        OrderTakes(LogOf(s.messages, v), Taken(s, v), Verdicts(s, v), LogOf(s.processed, v), v);
      } else {
        OrderMoves(LogOf(s.messages, v), Taken(s, v), Verdicts(s, v), LogOf(s.processed, v), Idle, Checking(e), v);
      }
    }
  }

  /** A failure, and every step between the check and the publish, leaves the logs and verdicts alone. */
  predicate KeepsLogs(s: State, s': State) {
    && s'.messages == s.messages && s'.taken == s.taken && s'.verdicts == s.verdicts && s'.processed == s.processed
    && Unpublished(s'.phase) == Unpublished(s.phase)
    && (s'.phase == s.phase || s'.phase.Stopped? || (!s.phase.Stopped? && !s.phase.Checking? && !s'.phase.Checking?))
  }

  lemma OtherKeepsLogs(s: State, ev: Event)
    requires Enabled(s, ev)
    requires !(ev.Forward? && ev.ok) && !ev.Receive? && !(ev.Check? && ev.ok) && !(ev.Publish? && ev.ok)
    ensures KeepsLogs(s, Apply(s, ev))
  {
  }

  lemma OrderOther(s: State, s': State)
    requires OrderInv(s) && KeepsLogs(s, s')
    ensures OrderInv(s')
  {
    forall v ensures OrderOk(s', v) {
      assert OrderOk(s, v);
      OrderMoves(LogOf(s.messages, v), Taken(s, v), Verdicts(s, v), LogOf(s.processed, v), s.phase, s'.phase, v);
    }
  }

  lemma StepKeepsOrder(s: State, ev: Event)
    requires OrderInv(s) && Enabled(s, ev)
    ensures OrderInv(Apply(s, ev))
  {
    match ev {
      case Forward(_, true) => OrderForward(s, ev);
      case Check(true) => OrderCheck(s, ev);
      case Publish(true) => OrderPublish(s, ev);
      case Receive(_) => OrderReceive(s, ev);
      case _ =>
        OtherKeepsLogs(s, ev);
        OrderOther(s, Apply(s, ev));
    }
  }

  lemma {:induction false} RunKeepsOrder(es: seq<Event>)
    requires Run(es).Some?
    ensures OrderInv(Run(es).value)
  {
    if es != [] {
      RunKeepsOrder(es[..|es| - 1]);
      StepKeepsOrder(Run(es[..|es| - 1]).value, es[|es| - 1]);
    } else {
      forall v ensures OrderOk(START, v) {
      }
    }
  }

  lemma {:induction false} AdmittedIsSubsequence(log: seq<Envelope>, verdicts: seq<bool>)
    requires |verdicts| <= |log|
    ensures Subsequence(Admitted(log, verdicts), log[..|verdicts|])
  {
    if verdicts != [] {
      var n := |verdicts| - 1;
      AdmittedIsSubsequence(log, verdicts[..n]);
      assert log[..n + 1] == log[..n] + [log[n]];
      if verdicts[n] {
        SubsequenceKeep(Admitted(log, verdicts[..n]), log[..n], log[n]);
      } else {
        assert Admitted(log, verdicts) == Admitted(log, verdicts[..n]);
        SubsequenceSkip(Admitted(log, verdicts[..n]), log[..n], log[n]);
      }
    }
  }

  // ---------- What the logs and verdicts are, from the events alone ----------

  /** The messages of one conversation that were forwarded with success, in order. */
  function Forwards(es: seq<Event>, v: ConversationId): seq<Envelope> {
    if es == [] then []
    else
      var ev := es[|es| - 1];
      Forwards(es[..|es| - 1], v) + (if ev.Forward? && ev.ok && ev.e.conversationId == v then [ev.e] else [])
  }

  /** In every run the messages log holds what was forwarded. */
  lemma {:induction false} MessagesAreForwards(es: seq<Event>, v: ConversationId)
    requires Run(es).Some?
    ensures LogOf(Run(es).value.messages, v) == Forwards(es, v)
  {
    if es != [] {
      MessagesAreForwards(es[..|es| - 1], v);
      MessagesStep(Run(es[..|es| - 1]).value, es[|es| - 1], v);
    }
  }

  lemma MessagesStep(s: State, ev: Event, v: ConversationId)
    requires Enabled(s, ev)
    ensures LogOf(Apply(s, ev).messages, v)
         == LogOf(s.messages, v) + (if ev.Forward? && ev.ok && ev.e.conversationId == v then [ev.e] else [])
  {
    match ev {
      case Forward(_, true) =>
      case Receive(_) =>
      case Check(true) =>
      case Publish(true) =>
      case _ => OtherKeepsLogs(s, ev);
    }
  }

  predicate ChecksIn(s: State, ev: Event, v: ConversationId) {
    ev.Check? && ev.ok && CheckingIn(s.phase, v)
  }

  /**
   The successful membership checks of one conversation: the i-th asks whether the sender of the i-th
   message of its log is among the members at that moment.
   */
  ghost function Checks(es: seq<Event>, v: ConversationId): seq<bool> {
    if es == [] || Run(es[..|es| - 1]).None? then []
    else
      var front := es[..|es| - 1];
      var s, before := Run(front).value, Checks(front, v);
      if ChecksIn(s, es[|es| - 1], v) && |before| < |LogOf(s.messages, v)| then
        before + [v in s.members && LogOf(s.messages, v)[|before|].senderId in s.members[v]]
      else before
  }

  lemma VerdictStep(s: State, ev: Event, v: ConversationId)
    requires Enabled(s, ev) && OrderOk(s, v)
    ensures Verdicts(Apply(s, ev), v) ==
      if ChecksIn(s, ev, v) && |Verdicts(s, v)| < |LogOf(s.messages, v)| then
        Verdicts(s, v) + [v in s.members && LogOf(s.messages, v)[|Verdicts(s, v)|].senderId in s.members[v]]
      else Verdicts(s, v)
  {
    match ev {
      case Forward(_, true) =>
      case Receive(_) =>
      case Check(true) =>
      case Publish(true) =>
      case _ => OtherKeepsLogs(s, ev);
    }
  }

  /** In every run a verdict is what its check found: membership of that message's sender at that moment. */
  lemma {:induction false} VerdictsAreChecks(es: seq<Event>, v: ConversationId)
    requires Run(es).Some?
    ensures Verdicts(Run(es).value, v) == Checks(es, v)
  {
    if es != [] {
      var front := es[..|es| - 1];
      VerdictsAreChecks(front, v);
      RunKeepsOrder(front);
      assert OrderOk(Run(front).value, v);
      VerdictStep(Run(front).value, es[|es| - 1], v);
    }
  }

  /**
   In every run, failures included, each conversation's processed log is the consumed prefix of what was
   forwarded, filtered by membership at the moment of each check, short at most of the message at hand.
   */
  lemma {:induction false} ProcessedIsFilteredPrefix(es: seq<Event>, v: ConversationId)
    requires Run(es).Some?
    ensures var s := Run(es).value;
      && |Checks(es, v)| <= Taken(s, v) <= |Forwards(es, v)|
      && LogOf(s.processed, v) == Admitted(Forwards(es, v), Settled(Checks(es, v), s.phase, v))
      && Subsequence(LogOf(s.processed, v), Forwards(es, v))
      && (s.phase.Idle? ==> |Checks(es, v)| == Taken(s, v))
  {
    RunKeepsOrder(es);
    VerdictsAreChecks(es, v);
    MessagesAreForwards(es, v);
    var s := Run(es).value;
    assert OrderOk(s, v);
    var log, flags := LogOf(s.messages, v), Settled(Verdicts(s, v), s.phase, v);
    AdmittedIsSubsequence(log, flags);
    SubsequenceAppendRight(Admitted(log, flags), log[..|flags|], log[|flags|..]);
    assert log[..|flags|] + log[|flags|..] == log;
  }

  /** The participants that the current message is being booked for. */
  function Participants(p: Phase): Option<seq<UserId>> {
    if p.Counting? || p.Recording? then Some(p.parts) else None
  }

  /** The `i`-th event listed these participants: the members of the conversation at that moment, in some order. */
  ghost predicate ListedAt(es: seq<Event>, i: nat, v: ConversationId, parts: seq<UserId>) {
    && i < |es| && es[i] == ListParticipants(parts, true) && Run(es[..i]).Some?
    && var s := Run(es[..i]).value;
       multiset(parts) == multiset(if v in s.members then s.members[v] else [])
  }

  lemma ListStarts(s: State, ev: Event)
    requires Enabled(s, ev) && ev.ListParticipants? && Participants(Apply(s, ev).phase).Some?
    ensures ev.ok && s.phase.Listing? && Participants(Apply(s, ev).phase) == Some(ev.users)
    ensures Unpublished(Apply(s, ev).phase) == Some(s.phase.e)
  {
  }

  /** The loops go on over the same list. */
  lemma ListGoesOn(s: State, ev: Event)
    requires Enabled(s, ev) && (ev.SkipSender? || ev.CountNext? || ev.EndCounting? || ev.RecordNext?)
    requires Participants(Apply(s, ev).phase).Some?
    ensures Participants(s.phase) == Participants(Apply(s, ev).phase)
    ensures Unpublished(s.phase) == Unpublished(Apply(s, ev).phase)
  {
  }

  lemma OthersRest(s: State, ev: Event)
    requires Enabled(s, ev) && (ev.Forward? || ev.SetMembers?)
    ensures Apply(s, ev).phase == s.phase
  {
  }

  /** Before the list and after the last row there are no participants at hand. */
  lemma NoneYet(s: State, v: ConversationId)
    requires Enabled(s, Receive(v))
    ensures Apply(s, Receive(v)).phase.Checking?
  {
  }

  lemma NoneChecked(s: State, ok: bool)
    requires Enabled(s, Check(ok))
    ensures var p := Apply(s, Check(ok)).phase; p.Stopped? || p.Storing? || p.Idle?
  {
  }

  lemma NoneBefore(s: State, ev: Event)
    requires Enabled(s, ev) && (ev.Store? || ev.Stamp?)
    ensures Participants(Apply(s, ev).phase).None?
  {
  }

  lemma NoneAfter(s: State)
    requires Enabled(s, EndRecording)
    ensures Apply(s, EndRecording).phase.Publishing?
  {
  }

  lemma NonePublished(s: State, ok: bool)
    requires Enabled(s, Publish(ok))
    ensures var p := Apply(s, Publish(ok)).phase; p.Idle? || p.Stopped?
  {
  }

  /** Participants are at hand only from the list to the last row, whatever happens beside it. */
  lemma WhoIsListed(s: State, ev: Event)
    requires Enabled(s, ev)
    ensures Participants(Apply(s, ev).phase).Some? ==>
      || ev.ListParticipants? || ev.Forward? || ev.SetMembers?
      || ev.SkipSender? || ev.CountNext? || ev.EndCounting? || ev.RecordNext?
  {
    match ev {
      case Receive(v) => NoneYet(s, v);
      case Check(ok) => NoneChecked(s, ok);
      case Store(_) => NoneBefore(s, ev);
      case Stamp(_) => NoneBefore(s, ev);
      case EndRecording => NoneAfter(s);
      case Publish(ok) => NonePublished(s, ok);
      case _ =>
    }
  }

  /** In every run, who is being counted and given a row were the members when the participants were listed. */
  lemma {:induction false} ParticipantsWereMembers(es: seq<Event>)
    requires Run(es).Some? && Participants(Run(es).value.phase).Some?
    ensures var p := Run(es).value.phase;
      exists i: nat :: ListedAt(es, i, Unpublished(p).value.conversationId, Participants(p).value)
  {
    if es != [] {
      var n := |es| - 1;
      var front, ev := es[..n], es[n];
      var s, s' := Run(front).value, Run(es).value;
      WhoIsListed(s, ev);
      if ev.ListParticipants? {
        ListStarts(s, ev);
        assert ListedAt(es, n, Unpublished(s'.phase).value.conversationId, ev.users);
      } else {
        if ev.SkipSender? || ev.CountNext? || ev.EndCounting? || ev.RecordNext? {
          ListGoesOn(s, ev);
        } else {
          OthersRest(s, ev);
        }
        ParticipantsWereMembers(front);
        var i: nat :| ListedAt(front, i, Unpublished(s.phase).value.conversationId, Participants(s.phase).value);
        assert es[..i] == front[..i];
        assert ListedAt(es, i, Unpublished(s'.phase).value.conversationId, Participants(s'.phase).value);
      }
    }
  }

  // ---------- Conservation of unread counts ----------

  lemma UndeliveredSnoc(rows: seq<DeliveryRow>, r: DeliveryRow, u: UserId, v: ConversationId)
    ensures Undelivered(rows + [r], u, v)
         == Undelivered(rows, u, v) + (if r.userId == u && r.conversationId == v && !r.delivered then 1 else 0)
  {
    assert (rows + [r])[..|rows|] == rows;
  }

  lemma TimesSnoc(parts: seq<UserId>, n: nat, u: UserId)
    requires n < |parts|
    ensures Times(parts[..n + 1], u) == Times(parts[..n], u) + (if parts[n] == u then 1 else 0)
  {
    assert parts[..n + 1][..n] == parts[..n];
  }

  /** Increments already booked for the current message whose rows are still to come. */
  function Ahead(p: Phase, u: UserId, v: ConversationId): int {
    match p
    case Counting(e, parts, n) =>
      if n <= |parts| && e.conversationId == v && e.senderId != u then Times(parts[..n], u) else 0
    case Recording(e, parts, n) =>
      if n <= |parts| && e.conversationId == v && e.senderId != u then Times(parts, u) - Times(parts[..n], u) else 0
    case _ => 0
  }

  /** Unread increments without an undelivered row, for one user and conversation. */
  function Gap(unread: Counters, rows: seq<DeliveryRow>, u: UserId, v: ConversationId): int {
    Unread(unread, u, v) - Undelivered(rows, u, v)
  }

  /** Every increment has its row, or the row is still to come; after an error some rows may never come. */
  ghost predicate Balanced(gap: int, p: Phase, u: UserId, v: ConversationId) {
    if p.Stopped? then 0 <= gap else gap == Ahead(p, u, v)
  }

  ghost predicate WithinList(p: Phase) {
    && (p.Counting? ==> p.done <= |p.parts|)
    && (p.Recording? ==> p.done <= |p.parts|)
  }

  ghost predicate CountInv(s: State) {
    && WithinList(s.phase)
    && (forall u, v :: Balanced(Gap(s.unread, s.rows, u, v), s.phase, u, v))
  }

  lemma {:induction false} TimesGrows(parts: seq<UserId>, n: nat, u: UserId)
    requires n <= |parts|
    ensures Times(parts[..n], u) <= Times(parts, u)
  {
    if n < |parts| {
      TimesGrows(parts[..|parts| - 1], n, u);
      assert parts[..|parts| - 1][..n] == parts[..n];
    } else {
      assert parts[..n] == parts;
    }
  }

  lemma AheadIsNatural(p: Phase, u: UserId, v: ConversationId)
    requires WithinList(p)
    ensures 0 <= Ahead(p, u, v)
  {
    if p.Recording? {
      TimesGrows(p.parts, p.done, u);
    }
  }

  lemma AheadCounts(e: Envelope, parts: seq<UserId>, n: nat, u: UserId, v: ConversationId)
    requires n < |parts|
    ensures Ahead(Counting(e, parts, n + 1), u, v) == Ahead(Counting(e, parts, n), u, v)
      + (if parts[n] == u && u != e.senderId && e.conversationId == v then 1 else 0)
    ensures Ahead(Recording(e, parts, n + 1), u, v) == Ahead(Recording(e, parts, n), u, v)
      - (if parts[n] == u && u != e.senderId && e.conversationId == v then 1 else 0)
  {
    TimesSnoc(parts, n, u);
  }

  lemma AheadTurns(e: Envelope, parts: seq<UserId>, u: UserId, v: ConversationId)
    ensures Ahead(Counting(e, parts, 0), u, v) == 0
    ensures Ahead(Counting(e, parts, |parts|), u, v) == Ahead(Recording(e, parts, 0), u, v)
    ensures Ahead(Recording(e, parts, |parts|), u, v) == 0
  {
    assert parts[..0] == [] && parts[..|parts|] == parts;
  }

  lemma CountingStep(s: State, ev: Event, u: UserId, v: ConversationId)
    requires CountInv(s) && (ev.CountNext? || ev.SkipSender?) && Enabled(s, ev)
    ensures Balanced(Gap(Apply(s, ev).unread, Apply(s, ev).rows, u, v), Apply(s, ev).phase, u, v)
  {
    assert Balanced(Gap(s.unread, s.rows, u, v), s.phase, u, v);
    AheadIsNatural(s.phase, u, v);
    AheadCounts(s.phase.e, s.phase.parts, s.phase.done, u, v);
  }

  lemma RecordingStep(s: State, ev: Event, u: UserId, v: ConversationId)
    requires CountInv(s) && ev.RecordNext? && Enabled(s, ev)
    ensures Balanced(Gap(Apply(s, ev).unread, Apply(s, ev).rows, u, v), Apply(s, ev).phase, u, v)
  {
    var e, parts, n := s.phase.e, s.phase.parts, s.phase.done;
    assert Balanced(Gap(s.unread, s.rows, u, v), s.phase, u, v);
    AheadIsNatural(s.phase, u, v);
    AheadCounts(e, parts, n, u, v);
    AheadIsNatural(Recording(e, parts, n + 1), u, v);
    UndeliveredSnoc(s.rows, RowFor(e, parts[n]), u, v);
  }

  lemma TurningStep(s: State, ev: Event, u: UserId, v: ConversationId)
    requires CountInv(s) && (ev.ListParticipants? || ev.EndCounting? || ev.EndRecording?) && Enabled(s, ev)
    ensures Balanced(Gap(Apply(s, ev).unread, Apply(s, ev).rows, u, v), Apply(s, ev).phase, u, v)
  {
    assert Balanced(Gap(s.unread, s.rows, u, v), s.phase, u, v);
    AheadTurns(s.phase.e, if ev.ListParticipants? then ev.users else s.phase.parts, u, v);
  }

  lemma {:induction false} QuietStep(s: State, ev: Event, u: UserId, v: ConversationId)
    requires CountInv(s) && Enabled(s, ev)
    requires ev.Forward? || ev.SetMembers? || ev.Receive? || ev.Check? || ev.Store? || ev.Stamp? || ev.Publish?
    ensures Balanced(Gap(Apply(s, ev).unread, Apply(s, ev).rows, u, v), Apply(s, ev).phase, u, v)
  {
    assert Balanced(Gap(s.unread, s.rows, u, v), s.phase, u, v);
  }

  lemma StepKeepsCounts(s: State, ev: Event)
    requires CountInv(s) && Enabled(s, ev)
    ensures CountInv(Apply(s, ev))
  {
    var s' := Apply(s, ev);
    forall u, v ensures Balanced(Gap(s'.unread, s'.rows, u, v), s'.phase, u, v) {
      match ev {
        case SkipSender => CountingStep(s, ev, u, v);
        case CountNext(_, _) => CountingStep(s, ev, u, v);
        case RecordNext(_, _) => RecordingStep(s, ev, u, v);
        case ListParticipants(_, _) => TurningStep(s, ev, u, v);
        case EndCounting => TurningStep(s, ev, u, v);
        case EndRecording => TurningStep(s, ev, u, v);
        case _ => QuietStep(s, ev, u, v);
      }
    }
  }

  lemma {:induction false} RunKeepsCounts(es: seq<Event>)
    requires Run(es).Some?
    ensures CountInv(Run(es).value)
  {
    if es != [] {
      RunKeepsCounts(es[..|es| - 1]);
      StepKeepsCounts(Run(es[..|es| - 1]).value, es[|es| - 1]);
    }
  }

  /**
   At every step of every run undelivered delivery rows never exceed unread increments, for each user
   and conversation; whenever the processor is between messages the two are equal.
   */
  lemma UnreadIsConserved(es: seq<Event>, u: UserId, v: ConversationId)
    requires Run(es).Some?
    ensures var s := Run(es).value;
      && Undelivered(s.rows, u, v) <= Unread(s.unread, u, v)
      && (s.phase.Idle? ==> Undelivered(s.rows, u, v) == Unread(s.unread, u, v))
  {
    RunKeepsCounts(es);
    var s := Run(es).value;
    assert Balanced(Gap(s.unread, s.rows, u, v), s.phase, u, v);
    AheadIsNatural(s.phase, u, v);
  }

  /** A count only ever rises by one, in its own conversation, for a message of somebody else. */
  lemma OwnMessageNeverCounts(s: State, ev: Event, u: UserId, v: ConversationId)
    requires Enabled(s, ev) && Unread(Apply(s, ev).unread, u, v) != Unread(s.unread, u, v)
    ensures s.phase.Counting? && s.phase.e.conversationId == v && s.phase.e.senderId != u
    ensures s.phase.done < |s.phase.parts| && s.phase.parts[s.phase.done] == u
    ensures Unread(Apply(s, ev).unread, u, v) == Unread(s.unread, u, v) + 1
  {
  }
}
