/**
 The processor object and its two booking loops, one message at a time. What the databases and the
 producer answer during the call comes in as `Answers`.
 */
module MessageProcessor {
  import opened Wrappers
  import opened Gateway
  import opened Processor

  /** `None` is a failed query; `commands` counts the bookings that succeed before one fails. */
  datatype Answers = Answers(
    member: Option<bool>,
    stores: bool,
    stamps: bool,
    participants: Option<seq<UserId>>,
    commands: nat,
    publishes: bool)

  /** How much one fan-out raises the unread count of a user. */
  function Share(e: Envelope, parts: seq<UserId>, u: UserId, v: ConversationId): nat {
    if e.conversationId == v && e.senderId != u then Times(parts, u) else 0
  }

  function RowsFor(e: Envelope, parts: seq<UserId>): seq<DeliveryRow> {
    seq(|parts|, i requires 0 <= i < |parts| => RowFor(e, parts[i]))
  }

  /** The participants that are counted, one command each. */
  function Others(e: Envelope, parts: seq<UserId>): nat {
    if parts == [] then 0
    else Others(e, parts[..|parts| - 1]) + (if parts[|parts| - 1] == e.senderId then 0 else 1)
  }

  lemma OthersSnoc(e: Envelope, parts: seq<UserId>, n: nat)
    requires n < |parts|
    ensures Others(e, parts[..n + 1]) == Others(e, parts[..n]) + (if parts[n] == e.senderId then 0 else 1)
  {
    assert parts[..n + 1][..n] == parts[..n];
  }

  lemma {:induction false} OthersGrows(e: Envelope, parts: seq<UserId>, n: nat)
    requires n <= |parts|
    ensures Others(e, parts[..n]) <= Others(e, parts)
  {
    if n < |parts| {
      OthersGrows(e, parts[..|parts| - 1], n);
      assert parts[..|parts| - 1][..n] == parts[..n];
    } else {
      assert parts[..n] == parts;
    }
  }

  /** Every step of the message succeeds. */
  predicate Succeeds(e: Envelope, a: Answers) {
    && a.member == Some(true) && a.stores && a.stamps && a.participants.Some? && a.publishes
    && a.commands >= Others(e, a.participants.value) + |a.participants.value|
  }

  lemma {:induction false} RowsMatchShare(rows: seq<DeliveryRow>, e: Envelope, parts: seq<UserId>,
                                          u: UserId, v: ConversationId)
    ensures Undelivered(rows + RowsFor(e, parts), u, v) == Undelivered(rows, u, v) + Share(e, parts, u, v)
  {
    if parts == [] {
      assert rows + RowsFor(e, parts) == rows;
    } else {
      var front, last := parts[..|parts| - 1], parts[|parts| - 1];
      RowsMatchShare(rows, e, front, u, v);
      assert rows + RowsFor(e, parts) == rows + RowsFor(e, front) + [RowFor(e, last)];
      UndeliveredSnoc(rows + RowsFor(e, front), RowFor(e, last), u, v);
    }
  }

  lemma ShareSnoc(e: Envelope, parts: seq<UserId>, n: nat, u: UserId, v: ConversationId)
    requires n < |parts|
    ensures Share(e, parts[..n + 1], u, v)
         == Share(e, parts[..n], u, v) + (if parts[n] == u && e.conversationId == v && e.senderId != u then 1 else 0)
  {
    TimesSnoc(parts, n, u);
  }

  lemma {:induction false} RowsForPrefix(rows: seq<DeliveryRow>, e: Envelope, parts: seq<UserId>,
                                         n: nat, u: UserId, v: ConversationId)
    requires n <= |parts|
    ensures Undelivered(rows + RowsFor(e, parts[..n]), u, v) <= Undelivered(rows, u, v) + Share(e, parts, u, v)
  {
    RowsMatchShare(rows, e, parts[..n], u, v);
    TimesGrows(parts, n, u);
  }

  class MessageProcessor {
    var unread: Counters
    var rows: seq<DeliveryRow>
    var processed: Logs

    constructor ()
      ensures unread == map[] && rows == [] && processed == map[]
    {
      unread, rows, processed := map[], [], map[];
    }

    /** Raises the unread count of every participant but the sender; stops at the first failure. */
    method CountUnread(e: Envelope, parts: seq<UserId>, commands: nat) returns (left: Option<nat>)
      modifies this`unread
      ensures left.Some? <==> commands >= Others(e, parts)
      ensures left.Some? ==> left.value == commands - Others(e, parts)
      ensures left.Some? ==> forall u, v :: Unread(unread, u, v) == Unread(old(unread), u, v) + Share(e, parts, u, v)
      ensures forall u, v :: Unread(unread, u, v) >= Unread(old(unread), u, v)
      ensures forall v :: Unread(unread, e.senderId, v) == Unread(old(unread), e.senderId, v)
    {
      var budget: nat := commands;
      for n := 0 to |parts|
        invariant budget + Others(e, parts[..n]) == commands
        invariant forall u, v :: Unread(unread, u, v) == Unread(old(unread), u, v) + Share(e, parts[..n], u, v)
      {
        OthersSnoc(e, parts, n);
        forall u, v
          ensures Share(e, parts[..n + 1], u, v)
               == Share(e, parts[..n], u, v)
                  + (if parts[n] == u && e.conversationId == v && e.senderId != u then 1 else 0)
        {
          ShareSnoc(e, parts, n, u, v);
        }
        if parts[n] != e.senderId {
          if budget == 0 {
            OthersGrows(e, parts, n + 1);
            return None;
          }
          budget := budget - 1;
          unread := Raise(unread, parts[n], e.conversationId);
        }
      }
      assert parts[..|parts|] == parts;
      return Some(budget);
    }

    /** Inserts one delivery row per participant, in list order; stops at the first failure. */
    method CreateDeliveryStatus(e: Envelope, parts: seq<UserId>, commands: nat) returns (left: Option<nat>)
      modifies this`rows
      ensures left.Some? <==> commands >= |parts|
      ensures left.Some? ==> left.value == commands - |parts|
      ensures left.Some? ==> rows == old(rows) + RowsFor(e, parts)
      ensures left.Some? ==> forall i :: 0 <= i < |parts| ==>
        rows[|old(rows)| + i] == DeliveryRow(e.messageId, e.conversationId, parts[i], parts[i] == e.senderId)
      ensures exists n: nat :: n <= |parts| && rows == old(rows) + RowsFor(e, parts[..n])
    {
      var budget: nat := commands;
      assert rows == old(rows) + RowsFor(e, parts[..0]);
      for n := 0 to |parts|
        invariant budget + n == commands
        invariant rows == old(rows) + RowsFor(e, parts[..n])
      {
        if budget == 0 {
          return None;
        }
        budget := budget - 1;
        rows := rows + [RowFor(e, parts[n])];
        assert RowsFor(e, parts[..n + 1]) == RowsFor(e, parts[..n]) + [RowFor(e, parts[n])];
      }
      assert parts[..|parts|] == parts;
      return Some(budget);
    }

    /**
     One message. It is published exactly when no step fails. A non-member's message changes nothing; a
     published message has booked every participant but the sender once per listing, with one row per
     listing; a failure publishes nothing and leaves no undelivered row without its increment.
     */
    method ProcessMessage(e: Envelope, a: Answers) returns (r: Result<bool, ()>)
      modifies this
      ensures r == Ok(false) <==> a.member == Some(false)
      ensures r == Ok(true) <==> Succeeds(e, a)
      ensures r == Ok(false) ==> unchanged(this)
      ensures r == Ok(true) ==>
        && a.member == Some(true) && a.participants.Some?
        && processed == Append(old(processed), e)
        && rows == old(rows) + RowsFor(e, a.participants.value)
        && forall u, v :: Unread(unread, u, v) == Unread(old(unread), u, v) + Share(e, a.participants.value, u, v)
      ensures r.Err? ==> processed == old(processed)
      ensures forall u, v :: Gap(unread, rows, u, v) >= Gap(old(unread), old(rows), u, v)
      ensures r.Ok? ==> forall u, v :: Gap(unread, rows, u, v) == Gap(old(unread), old(rows), u, v)
      ensures forall v :: Unread(unread, e.senderId, v) == Unread(old(unread), e.senderId, v)
    {
      if a.member.None? {
        return Err(());
      }
      if !a.member.value {
        return Ok(false);
      }
      if !a.stores || !a.stamps || a.participants.None? {
        return Err(());
      }
      var participants := a.participants.value;
      var left := CountUnread(e, participants, a.commands);
      if left.None? {
        return Err(());
      }
      left := CreateDeliveryStatus(e, participants, left.value);
      ghost var n: nat :| n <= |participants| && rows == old(rows) + RowsFor(e, participants[..n]);
      forall u, v
        ensures Gap(unread, rows, u, v) >= Gap(old(unread), old(rows), u, v)
        ensures left.Some? ==> Gap(unread, rows, u, v) == Gap(old(unread), old(rows), u, v)
      {
        RowsForPrefix(old(rows), e, participants, n, u, v);
        RowsMatchShare(old(rows), e, participants, u, v);
      }
      if left.None? {
        return Err(());
      }
      if !a.publishes {
        return Err(());
      }
      processed := Append(processed, e);
      return Ok(true);
    }
  }

  // ---------- One message as a run of the machine ----------

  lemma Extend(es: seq<Event>, s: State, ev: Event) returns (es': seq<Event>, s': State)
    requires Run(es) == Some(s) && Enabled(s, ev)
    ensures es' == es + [ev] && s' == Apply(s, ev) && Run(es') == Some(s')
  {
    es', s' := es + [ev], Apply(s, ev);
    assert es'[..|es'| - 1] == es;
  }

  lemma CountOne(es: seq<Event>, s: State, e: Envelope, parts: seq<UserId>, n: nat, ok: bool)
    returns (es': seq<Event>, s': State)
    requires Run(es) == Some(s) && n < |parts| && s.phase == Counting(e, parts, n) && parts[n] != e.senderId
    ensures Run(es') == Some(s')
    ensures s' == s.(unread := if ok then Raise(s.unread, parts[n], e.conversationId) else s.unread,
                     phase := if ok then Counting(e, parts, n + 1) else Stopped(Some(e)))
  {
    es', s' := Extend(es, s, CountNext(ok, ok));
  }

  lemma SkipOne(es: seq<Event>, s: State, e: Envelope, parts: seq<UserId>, n: nat) returns (es': seq<Event>, s': State)
    requires Run(es) == Some(s) && n < |parts| && s.phase == Counting(e, parts, n) && parts[n] == e.senderId
    ensures Run(es') == Some(s') && s' == s.(phase := Counting(e, parts, n + 1))
  {
    es', s' := Extend(es, s, SkipSender);
  }

  lemma RecordOne(es: seq<Event>, s: State, e: Envelope, parts: seq<UserId>, n: nat, ok: bool)
    returns (es': seq<Event>, s': State)
    requires Run(es) == Some(s) && n < |parts| && s.phase == Recording(e, parts, n)
    ensures Run(es') == Some(s')
    ensures s' == s.(rows := if ok then s.rows + [RowFor(e, parts[n])] else s.rows,
                     phase := if ok then Recording(e, parts, n + 1) else Stopped(Some(e)))
  {
    es', s' := Extend(es, s, RecordNext(ok, ok));
  }

  lemma RowsFrom(e: Envelope, parts: seq<UserId>, n: nat, rows: seq<DeliveryRow>)
    requires n < |parts|
    ensures rows + RowsFor(e, parts)[n..] == rows + [RowFor(e, parts[n])] + RowsFor(e, parts)[n + 1..]
  {
    assert RowsFor(e, parts)[n..] == [RowFor(e, parts[n])] + RowsFor(e, parts)[n + 1..];
  }

  /** The counting loop from its `n`-th participant on, with so many commands that succeed. */
  lemma {:induction false} CountRun(es: seq<Event>, s: State, e: Envelope, parts: seq<UserId>, n: nat, budget: nat)
    returns (es': seq<Event>, s': State, left: Option<nat>)
    requires Run(es) == Some(s) && n <= |parts| && s.phase == Counting(e, parts, n)
    ensures Run(es') == Some(s')
    ensures left.Some? <==> budget + Others(e, parts[..n]) >= Others(e, parts)
    ensures left.Some? ==> left.value == budget + Others(e, parts[..n]) - Others(e, parts)
    ensures s' == s.(unread := s'.unread,
                     phase := if left.Some? then Recording(e, parts, 0) else Stopped(Some(e)))
    decreases |parts| - n
  {
    if n == |parts| {
      assert parts[..n] == parts;
      es', s' := Extend(es, s, EndCounting);
      left := Some(budget);
    } else {
      OthersSnoc(e, parts, n);
      OthersGrows(e, parts, n + 1);
      if parts[n] == e.senderId {
        var es1, s1 := SkipOne(es, s, e, parts, n);
        es', s', left := CountRun(es1, s1, e, parts, n + 1, budget);
      } else {
        var es1, s1 := CountOne(es, s, e, parts, n, budget > 0);
        if budget > 0 {
          es', s', left := CountRun(es1, s1, e, parts, n + 1, budget - 1);
        } else {
          es', s', left := es1, s1, None;
        }
      }
    }
  }

  lemma {:induction false} RecordRun(es: seq<Event>, s: State, e: Envelope, parts: seq<UserId>, n: nat, budget: nat)
    returns (es': seq<Event>, s': State)
    requires Run(es) == Some(s) && n <= |parts| && s.phase == Recording(e, parts, n)
    ensures Run(es') == Some(s')
    ensures s' == s.(rows := s'.rows, phase := if budget + n >= |parts| then Publishing(e) else Stopped(Some(e)))
    ensures budget + n >= |parts| ==> s'.rows == s.rows + RowsFor(e, parts)[n..]
    decreases |parts| - n
  {
    if n == |parts| {
      es', s' := Extend(es, s, EndRecording);
    } else {
      var es1, s1 := RecordOne(es, s, e, parts, n, budget > 0);
      if budget > 0 {
        RowsFrom(e, parts, n, s.rows);
        es', s' := RecordRun(es1, s1, e, parts, n + 1, budget - 1);
      } else {
        es', s' := es1, s1;
      }
    }
  }

  /** The databases' answers fit the state: the member found, and the members listed. */
  predicate Fits(s: State, e: Envelope, a: Answers) {
    && (a.member.Some? ==> a.member.value == (e.senderId in Members(s, e.conversationId)))
    && (a.participants.Some? ==> multiset(a.participants.value) == multiset(Members(s, e.conversationId)))
  }

  /** From a member's message in hand to the list of participants, if the steps up to there succeed. */
  lemma RunToList(es: seq<Event>, s: State, e: Envelope, a: Answers) returns (es': seq<Event>, s': State)
    requires Run(es) == Some(s) && s.phase == Storing(e) && Fits(s, e, a)
    ensures Run(es') == Some(s')
    ensures s' == s.(phase := if a.stores && a.stamps && a.participants.Some? then Counting(e, a.participants.value, 0)
                              else Stopped(Some(e)))
  {
    es', s' := Extend(es, s, Store(a.stores));
    if a.stores {
      es', s' := Extend(es', s', Stamp(a.stamps));
      if a.stamps {
        var users := if a.participants.Some? then a.participants.value else Members(s, e.conversationId);
        es', s' := Extend(es', s', ListParticipants(users, a.participants.Some?));
      }
    }
  }

  /** How the message at hand ends. */
  function Ended(e: Envelope, a: Answers): Phase {
    if a.member.None? then Stopped(None)
    else if !a.member.value || Succeeds(e, a) then Idle
    else Stopped(Some(e))
  }

  /**
   A message that nothing interleaves with is a run of the machine: it is published with its rows exactly
   when every step succeeds, a non-member's leaves everything as it was, and an error ends the loop.
   */
  lemma MessageIsRun(es: seq<Event>, s: State, e: Envelope, a: Answers) returns (es': seq<Event>, s': State)
    requires Run(es) == Some(s) && s.phase == Checking(e) && Fits(s, e, a)
    ensures Run(es') == Some(s') && s'.phase == Ended(e, a)
    ensures s'.processed == if Succeeds(e, a) then Append(s.processed, e) else s.processed
    ensures Succeeds(e, a) ==> s'.rows == s.rows + RowsFor(e, a.participants.value)
    ensures a.member != Some(true) ==> s'.rows == s.rows && s'.unread == s.unread
  {
    var s1;
    es', s1 := Extend(es, s, Check(a.member.Some?));
    s' := s1;
    if a.member == Some(true) {
      var s2;
      es', s2 := RunToList(es', s1, e, a);
      s' := s2;
      if s2.phase.Counting? {
        var parts := a.participants.value;
        var left;
        es', s', left := CountRun(es', s2, e, parts, 0, a.commands);
        assert parts[..0] == [];
        if left.Some? {
          es', s' := RecordRun(es', s', e, parts, 0, left.value);
          assert RowsFor(e, parts)[0..] == RowsFor(e, parts);
          if s'.phase.Publishing? {
            es', s' := Extend(es', s', Publish(a.publishes));
          }
        }
      }
    }
  }
}
