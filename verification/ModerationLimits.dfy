/**
 What the automatic ban does with either rendering of the stored texts, and what it rests on when one
 reporter's requests overlap.
 */
module ModerationLimits {
  import opened Wrappers
  import opened Moderation
  import opened ModerationMachine

  /** No stored target type is the literal that the count compares with. */
  ghost predicate NeverMatches(s: State) {
    && (forall k :: 0 <= k < |s.reports| ==> s.reports[k].targetType != USER_TEXT)
    && s.restrictions == []
  }

  lemma {:induction false} NothingCounts(reports: seq<Report>, target: TargetId, now: int)
    requires forall k :: 0 <= k < |reports| ==> reports[k].targetType != USER_TEXT
    ensures SpamCount(reports, target, now) == 0
  {
    if reports != [] {
      NothingCounts(reports[..|reports| - 1], target, now);
    }
  }

  lemma DebugTextDiffers(t: TargetType)
    ensures TypeText(DebugFormat, t) != USER_TEXT
  {
    assert TypeText(DebugFormat, t)[0] != 'u';
  }

  lemma {:induction false} NeverBansAsWritten(t: int, es: seq<Event>)
    requires Run(DebugFormat, t, es).Some?
    ensures NeverMatches(Run(DebugFormat, t, es).value)
  {
    if es != [] {
      var front, e := es[..|es| - 1], es[|es| - 1];
      NeverBansAsWritten(t, front);
      var s := Run(DebugFormat, t, front).value;
      if e.Insert? {
        DebugTextDiffers(s.requests[e.id].targetType);
      }
      if e.CheckAutomatedActions? {
        NothingCounts(s.reports, s.requests[e.id].target, s.clock);
      }
    }
  }

  lemma Extend(how: Rendering, t: int, es: seq<Event>, s: State, e: Event) returns (es': seq<Event>, s': State)
    requires Run(how, t, es) == Some(s) && Enabled(s, e)
    ensures es' == es + [e] && s' == Apply(how, s, e) && Run(how, t, es') == Some(s')
    ensures SerialRun(how, t, es) && Serial(s, e) ==> SerialRun(how, t, es')
  {
    es', s' := es + [e], Apply(how, s, e);
    assert es'[..|es'| - 1] == es;
  }

  const TARGET: TargetId := 900

  /** The first `n` requests have inserted spam reports at time 0, request i for reporter `who(i)`. */
  ghost predicate Filed(s: State, n: nat, who: nat -> UserId) {
    && s.clock == 0 && s.restrictions == []
    && |s.reports| == n
    && (forall k :: 0 <= k < n ==> s.reports[k] == NewReport(who(k), TARGET, USER_TEXT, Spam, 0))
  }

  lemma {:induction false} FiledCounts(reports: seq<Report>, who: nat -> UserId)
    requires forall k :: 0 <= k < |reports| ==> reports[k] == NewReport(who(k), TARGET, USER_TEXT, Spam, 0)
    ensures SpamCount(reports, TARGET, 0) == |reports|
  {
    if reports != [] {
      FiledCounts(reports[..|reports| - 1], who);
    }
  }

  function Self(k: nat): UserId { k }

  function Always1(k: nat): UserId { 1 }

  /** One request of a reporter who has filed nothing and has no other request open. */
  lemma {:induction false} FileOne(es: seq<Event>, s: State, id: nat) returns (es': seq<Event>, s': State)
    requires Run(LowerCase, 0, es) == Some(s) && SerialRun(LowerCase, 0, es) && id !in s.requests
    requires !ReportedRecently(s.reports, id, TARGET, USER_TEXT, s.clock)
    requires forall x :: x in s.requests ==> s.requests[x].phase.Inserted?
    ensures Run(LowerCase, 0, es') == Some(s') && SerialRun(LowerCase, 0, es')
    ensures s' == s.(requests := s.requests[id := Request(id, TARGET, User, Spam, Inserted(|s.reports|))],
                     reports := s.reports + [NewReport(id, TARGET, USER_TEXT, Spam, s.clock)])
  {
    es', s' := Extend(LowerCase, 0, es, s, Arrive(id, id, TARGET, User, Spam));
    es', s' := Extend(LowerCase, 0, es', s', Check(id));
    es', s' := Extend(LowerCase, 0, es', s', Insert(id, true));
  }

  /** Requests 0, 1, ... of reporters 0, 1, ..., one after the other. */
  lemma {:induction false} FileDistinct(n: nat) returns (es: seq<Event>, s: State)
    ensures Run(LowerCase, 0, es) == Some(s) && SerialRun(LowerCase, 0, es)
    ensures Filed(s, n, Self)
    ensures forall id :: id in s.requests <==> 0 <= id < n
    ensures forall id :: id in s.requests ==> s.requests[id] == Request(id, TARGET, User, Spam, Inserted(id))
  {
    if n == 0 {
      es, s := [], Init(0);
    } else {
      es, s := FileDistinct(n - 1);
      es, s := FileOne(es, s, n - 1);
    }
  }

  /** With matching texts, the fifth distinct reporter within the hour gets the target banned. */
  lemma FifthReportBans() returns (es: seq<Event>)
    ensures Run(LowerCase, 0, es).Some? && SerialRun(LowerCase, 0, es)
    ensures Run(LowerCase, 0, es).value.restrictions == [Ban(TARGET, 0)]
  {
    var s;
    es, s := FileDistinct(5);
    assert 4 in s.requests;
    FiledCounts(s.reports, Self);
    es, s := Extend(LowerCase, 0, es, s, Announce(4, true));
    es, s := Extend(LowerCase, 0, es, s, CheckAutomatedActions(4, true));
  }

  /** A ban can happen exactly when the service stores the texts that its own queries compare with. */
  lemma BanReachableIff(how: Rendering)
    ensures (exists t, es :: Run(how, t, es).Some? && SerialRun(how, t, es) && Run(how, t, es).value.restrictions != [])
       <==> how == LowerCase
  {
    if how == LowerCase {
      var es := FifthReportBans();
      assert Run(how, 0, es).value.restrictions != [];
    } else {
      forall t, es | Run(how, t, es).Some? ensures Run(how, t, es).value.restrictions == [] {
        NeverBansAsWritten(t, es);
      }
    }
  }

  /**
   The automatic check bans exactly when five distinct users reported the target for spam in the last hour,
   wherever no complaint about the target was doubled.
   */
  lemma {:induction false} CheckBansIff(how: Rendering, t: int, es: seq<Event>, id: RequestId)
    requires Run(how, t, es).Some? && Enabled(Run(how, t, es).value, CheckAutomatedActions(id, true))
    requires Run(how, t, es).value.requests[id].reason == Spam
    requires CleanRun(how, t, es, Run(how, t, es).value.requests[id].target)
    ensures var s := Run(how, t, es).value;
      Apply(how, s, CheckAutomatedActions(id, true)).restrictions ==
        s.restrictions + (if |Reporters(s.reports, s.requests[id].target, s.clock)| >= THRESHOLD
                          then [Ban(s.requests[id].target, s.clock)] else [])
  {
    var s := Run(how, t, es).value;
    var target := s.requests[id].target;
    ResolutionFieldsAgree(how, t, es);
    SpacedIffClean(how, t, es, target);
    SpacedCountsOnce(s.reports, target, s.clock);
    CountIsReportersIff(s.reports, target, s.clock);
  }

  // ---------- One reporter, overlapping requests ----------

  lemma {:induction false} ClearMany(n: nat) returns (es: seq<Event>, s: State)
    ensures Run(LowerCase, 0, es) == Some(s) && Filed(s, 0, Always1)
    ensures forall id :: id in s.requests <==> 0 <= id < n
    ensures forall id :: id in s.requests ==> s.requests[id] == Request(1, TARGET, User, Spam, Cleared(0))
  {
    if n == 0 {
      es, s := [], Init(0);
    } else {
      var id: nat := n - 1;
      es, s := ClearMany(id);
      es, s := Extend(LowerCase, 0, es, s, Arrive(id, 1, TARGET, User, Spam));
      es, s := Extend(LowerCase, 0, es, s, Check(id));
    }
  }

  lemma {:induction false} InsertMany(n: nat, m: nat) returns (es: seq<Event>, s: State)
    requires m <= n
    ensures Run(LowerCase, 0, es) == Some(s) && Filed(s, m, Always1)
    ensures forall id :: id in s.requests <==> 0 <= id < n
    ensures forall id :: id in s.requests ==>
      s.requests[id] == Request(1, TARGET, User, Spam, if id < m then Inserted(id) else Cleared(0))
  {
    if m == 0 {
      es, s := ClearMany(n);
    } else {
      var id: nat := m - 1;
      es, s := InsertMany(n, id);
      es, s := Extend(LowerCase, 0, es, s, Insert(id, true));
    }
  }

  /**
   Without that atomicity the ban proves nothing: five overlapping requests of one reporter all pass the
   duplicate check before any of them inserts, and ban the target on one reporter's word.
   */
  lemma RacingReporterBansAlone() returns (es: seq<Event>)
    ensures Run(LowerCase, 0, es).Some?
    ensures var s := Run(LowerCase, 0, es).value;
      s.restrictions == [Ban(TARGET, 0)] && Reporters(s.reports, TARGET, 0) == {1}
  {
    var s;
    es, s := InsertMany(5, 5);
    FiledCounts(s.reports, Always1);
    assert 4 in s.requests;
    es, s := Extend(LowerCase, 0, es, s, Announce(4, true));
    es, s := Extend(LowerCase, 0, es, s, CheckAutomatedActions(4, true));
    assert CountsAgainst(s.reports[0], TARGET, 0) && s.reports[0].reporter == 1;
    forall k | 0 <= k < |s.reports| ensures s.reports[k].reporter == 1 {
    }
  }

  // ---------- The 24-hour window ----------

  /** One second short of a day after a report the same complaint is refused; a day after, it is stored. */
  lemma RepeatAfterADay(wait: int) returns (es: seq<Event>, s: State)
    requires 0 <= wait
    ensures Run(LowerCase, 0, es) == Some(s) && SerialRun(LowerCase, 0, es) && s.clock == wait
    ensures |s.reports| == if wait < 24 * 3600 then 1 else 2
  {
    es, s := [], Init(0);
    es, s := FileOne(es, s, 0);
    es, s := Extend(LowerCase, 0, es, s, Tick(wait));
    es, s := Extend(LowerCase, 0, es, s, Arrive(1, 0, TARGET, User, Spam));
    assert SameComplaint(s.reports[0], 0, TARGET, USER_TEXT);
    es, s := Extend(LowerCase, 0, es, s, Check(1));
    if wait >= DAY {
      es, s := Extend(LowerCase, 0, es, s, Insert(1, true));
    }
  }
}
