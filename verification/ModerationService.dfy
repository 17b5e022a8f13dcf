/**
 The moderation handlers over their two tables, one call at a time: each call runs its statements at
 one instant, and what lies outside the tables comes in as arguments.
 */
module ModerationService {
  import opened Wrappers
  import opened Counters
  import opened Sequences
  import opened Moderation
  import L = ModerationLimits
  import M = ModerationMachine

  datatype ServiceError =
    | ValidationError
    | Conflict
    | Forbidden
    | NotFound
    | DatabaseError
    | ExternalServiceError

  /** How the statements of one report request go; `targetExists` is `None` for a query that fails. */
  datatype Answers = Answers(
    targetExists: Option<bool>,
    checks: bool,
    inserts: bool,
    publishes: bool,
    counts: bool,
    bans: bool,
    resolves: bool)

  /** The restrictions in force for one user, each as often as the table has it, in table order. */
  function ActiveFor(restrictions: seq<Restriction>, u: TargetId, now: int): (active: seq<Restriction>)
    ensures Subsequence(active, restrictions)
    ensures forall r :: multiset(active)[r] == if Active(r, u, now) then multiset(restrictions)[r] else 0
    ensures forall r :: r in active <==> r in restrictions && Active(r, u, now)
  {
    FilterIsExact(restrictions, (r: Restriction) => Active(r, u, now));
    Filter(restrictions, (r: Restriction) => Active(r, u, now))
  }

  predicate ConcernsUser(r: Report, u: TargetId) {
    r.target == u && r.targetType == USER_TEXT
  }

  function TotalReports(reports: seq<Report>, u: TargetId): nat {
    if reports == [] then 0
    else TotalReports(reports[..|reports| - 1], u) + (if ConcernsUser(reports[|reports| - 1], u) then 1 else 0)
  }

  /** The rows that concern a user. */
  function RowsAbout(reports: seq<Report>, u: TargetId): set<nat> {
    set k: nat | k < |reports| && reports[k].target == u && reports[k].targetType == "user"
  }

  lemma {:induction false} TotalCountsRows(reports: seq<Report>, u: TargetId)
    ensures TotalReports(reports, u) == |RowsAbout(reports, u)|
  {
    if reports == [] {
      assert RowsAbout(reports, u) == {};
    } else {
      var n: nat := |reports| - 1;
      var front := reports[..n];
      TotalCountsRows(front, u);
      assert forall k: nat :: k < n ==> front[k] == reports[k];
      assert RowsAbout(reports, u) == RowsAbout(front, u) + (if ConcernsUser(reports[n], u) then {n} else {});
    }
  }

  datatype UserModerationStatus = UserModerationStatus(
    activeRestrictions: seq<Restriction>,
    totalReports: nat,
    isRestricted: bool)

  /** The target has been seen and the reporter has no recent report of it. */
  predicate Admissible(reports: seq<Report>, filed: Report, isMessage: bool, a: Answers) {
    && (isMessage || a.targetExists == Some(true))
    && a.checks && !ReportedRecently(reports, filed.reporter, filed.target, filed.targetType, filed.createdAt)
  }

  /** The rows against the target in the last hour, this one included, call for a ban. */
  predicate CallsForBan(reports: seq<Report>, r: Report, now: int) {
    r.reason == Spam && SpamCount(reports, r.target, now) >= THRESHOLD
  }

  /** They do exactly when five distinct users stand behind them, if none of them is there twice. */
  lemma CallsForBanIff(reports: seq<Report>, r: Report, now: int)
    requires CreatedBy(reports, now) && r.reason == Spam && OncePerReporter(reports, r.target, now)
    ensures CallsForBan(reports, r, now) <==> |Reporters(reports, r.target, now)| >= THRESHOLD
  {
    CountIsReportersIff(reports, r.target, now);
  }

  /** Whatever was spaced, and whatever was justified about a target with spaced reports, still is. */
  ghost predicate KeepsTrust(reports: seq<Report>, bans: seq<Restriction>, reports': seq<Report>,
                             bans': seq<Restriction>, now: int)
  {
    forall target :: Spaced(reports, target) ==>
      && Spaced(reports', target)
      && (M.BansJustified(bans, reports, target, now) ==> M.BansJustified(bans', reports', target, now))
  }

  /** Whether the automatic check of a report runs through. */
  predicate CheckSucceeds(reports: seq<Report>, r: Report, a: Answers, now: int) {
    r.reason == Spam ==> a.counts && (CallsForBan(reports, r, now) ==> a.bans && a.resolves)
  }

  /** What one request leaves in the two tables, and whether it is answered with success. */
  predicate Outcome(reports: seq<Report>, bans: seq<Restriction>, filed: Report, isMessage: bool, a: Answers, now: int,
                    reports': seq<Report>, bans': seq<Restriction>, ok: bool)
  {
    var all := reports + [filed];
    if !(Admissible(reports, filed, isMessage, a) && a.inserts) then !ok && reports' == reports && bans' == bans
    else if !a.publishes then !ok && reports' == all && bans' == bans
    else
      && ok == CheckSucceeds(all, filed, a, now)
      && bans' == bans
           + (if CallsForBan(all, filed, now) && a.counts && a.bans then [Ban(filed.target, now)] else [])
      && reports' == reports
           + [if CallsForBan(all, filed, now) && a.counts && a.bans && a.resolves
              then AutoResolved(filed, now) else filed]
  }

  /** The row shows the request it was filed for. */
  predicate Shows(r: Report, how: Rendering, reporter: UserId, target: TargetId, targetType: TargetType, reason: Reason,
                  now: int)
  {
    && r.reporter == reporter && r.target == target && r.reason == reason && r.createdAt == now
    && (r.targetType == "user" <==> how == LowerCase && targetType == User)
  }

  predicate IsPending(r: Report) {
    r.status == "pending" && r.resolvedAt == None && r.resolvedBy == None && r.actionTaken == None
  }

  predicate IsAutoResolved(r: Report, now: int) {
    && r.status == "resolved" && r.resolvedAt == Some(now)
    && r.resolvedBy == Some(0) && r.actionTaken == Some("Auto-banned for 24 hours")
  }

  /** A new row shows its request, before and after an automatic resolution. */
  lemma NewRowShows(how: Rendering, reporter: UserId, target: TargetId, targetType: TargetType, reason: Reason,
                    now: int)
    ensures var filed := NewReport(reporter, target, TypeText(how, targetType), reason, now);
      && Shows(filed, how, reporter, target, targetType, reason, now) && IsPending(filed)
      && Shows(AutoResolved(filed, now), how, reporter, target, targetType, reason, now)
      && IsAutoResolved(AutoResolved(filed, now), now)
  {
    TextsMatchIff(how, targetType, Pending);
  }

  class ModerationService {
    const how: Rendering
    var reports: seq<Report>
    var userRestrictions: seq<Restriction>

    /** What the report table keeps over any sequence of calls, up to the clock value `now`. */
    ghost predicate Valid(now: int)
      reads this
    {
      CreatedBy(reports, now) && (forall k :: 0 <= k < |reports| ==> Coherent(reports[k]))
    }

    constructor (how: Rendering)
      ensures this.how == how && reports == [] && userRestrictions == []
      ensures forall now :: Valid(now)
    {
      this.how := how;
      reports, userRestrictions := [], [];
    }

    /**
     A report request whose statements all run at `now`. What has been stored before a step fails stays
     stored: the report without its event or its check, or the ban without the report's resolution. On
     any tables, spaced reports stay spaced, and where they are, justified bans stay justified.
     */
    method CreateReport(reporter: UserId, target: TargetId, targetType: TargetType, reason: Reason,
                        a: Answers, now: int)
      returns (r: Result<nat, ServiceError>)
      requires Valid(now)
      modifies this
      ensures Valid(now)
      ensures KeepsTrust(old(reports), old(userRestrictions), reports, userRestrictions, now)
      ensures r == Err(ValidationError) <==> !targetType.Message? && a.targetExists == Some(false)
      ensures r == Err(Conflict) <==>
        && (targetType.Message? || a.targetExists == Some(true)) && a.checks
        && ReportedRecently(old(reports), reporter, target, TypeText(how, targetType), now)
      ensures r.Ok? ==>
        && r.value == |old(reports)| && |reports| == r.value + 1
        && Shows(reports[r.value], how, reporter, target, targetType, reason, now)
        && (IsPending(reports[r.value]) || IsAutoResolved(reports[r.value], now))
      ensures var filed := NewReport(reporter, target, TypeText(how, targetType), reason, now);
        && Outcome(old(reports), old(userRestrictions), filed, targetType.Message?, a, now,
                   reports, userRestrictions, r.Ok?)
        && (r.Err? && r.error == ExternalServiceError <==>
              Admissible(old(reports), filed, targetType.Message?, a) && a.inserts && !a.publishes)
    {
      var filed := NewReport(reporter, target, TypeText(how, targetType), reason, now);
      NewRowShows(how, reporter, target, targetType, reason, now);
      var refused := Refusal(filed, targetType.Message?, a);
      if refused.Some? {
        return Err(refused.value);
      }
      var row := |reports|;
      Insert(filed, now);
      if !a.publishes {
        return Err(ExternalServiceError);
      }
      var ok := CheckAutomatedActions(row, a, now);
      return if ok then Ok(row) else Err(DatabaseError);
    }

    /** The steps before the row is stored: the target, the duplicate check and the insert itself. */
    method Refusal(filed: Report, isMessage: bool, a: Answers) returns (e: Option<ServiceError>)
      ensures e.None? <==> Admissible(reports, filed, isMessage, a) && a.inserts
      ensures e != Some(ExternalServiceError)
      ensures e == Some(ValidationError) <==> !isMessage && a.targetExists == Some(false)
      ensures e == Some(Conflict) <==>
        && (isMessage || a.targetExists == Some(true)) && a.checks
        && ReportedRecently(reports, filed.reporter, filed.target, filed.targetType, filed.createdAt)
    {
      if !isMessage {
        if a.targetExists.None? {
          return Some(DatabaseError);
        }
        if !a.targetExists.value {
          return Some(ValidationError);
        }
      }
      if !a.checks {
        return Some(DatabaseError);
      }
      if ReportedRecently(reports, filed.reporter, filed.target, filed.targetType, filed.createdAt) {
        return Some(Conflict);
      }
      if !a.inserts {
        return Some(DatabaseError);
      }
      return None;
    }

    method Insert(filed: Report, now: int)
      requires Valid(now) && filed.createdAt == now && Coherent(filed)
      requires !ReportedRecently(reports, filed.reporter, filed.target, filed.targetType, now)
      modifies this`reports
      ensures Valid(now)
      ensures KeepsTrust(old(reports), userRestrictions, reports, userRestrictions, now)
      ensures reports == old(reports) + [filed]
    {
      var after := reports + [filed];
      forall target ensures Spaced(after, target) <==> Spaced(reports, target) {
        M.InsertKeepsSpacing(reports, filed, target);
      }
      KeepJustified(userRestrictions, reports, after);
      reports := after;
    }

    method CheckAutomatedActions(row: nat, a: Answers, now: int) returns (ok: bool)
      requires Valid(now) && row < |reports|
      modifies this
      ensures Valid(now)
      ensures KeepsTrust(old(reports), old(userRestrictions), reports, userRestrictions, now)
      ensures ok == CheckSucceeds(old(reports), old(reports[row]), a, now)
      ensures var banned := CallsForBan(old(reports), old(reports[row]), now) && a.counts && a.bans;
        && userRestrictions == old(userRestrictions) + (if banned then [Ban(old(reports[row]).target, now)] else [])
        && reports == if banned && a.resolves then old(reports)[row := AutoResolved(old(reports[row]), now)]
                      else old(reports)
    {
      var report := reports[row];
      if report.reason == Spam {
        if !a.counts {
          return false;
        }
        if SpamCount(reports, report.target, now) >= THRESHOLD {
          if !a.bans {
            return false;
          }
          BanKeepsTrust(reports, userRestrictions, report, now);
          userRestrictions := userRestrictions + [Ban(report.target, now)];
          if !a.resolves {
            return false;
          }
          SetOutcome(row, AutoResolved(report, now), now);
        }
      }
      return true;
    }

    /** Replaces one row by the same report with another outcome. */
    method SetOutcome(row: nat, r: Report, now: int)
      requires Valid(now) && row < |reports| && Coherent(r)
      requires SameComplaint(r, reports[row].reporter, reports[row].target, reports[row].targetType)
      requires r.reason == reports[row].reason && r.createdAt == reports[row].createdAt
      modifies this`reports
      ensures Valid(now)
      ensures KeepsTrust(old(reports), userRestrictions, reports, userRestrictions, now)
      ensures reports == old(reports)[row := r]
    {
      var after := reports[row := r];
      KeepJustified(userRestrictions, reports, after);
      forall target ensures Spaced(after, target) <==> Spaced(reports, target) {
        M.ExtendsKeepsSpacing(reports, after, target);
      }
      reports := after;
    }

    /** `isModerator` is `None` for a role query that fails. */
    method UpdateReport(row: nat, status: ReportStatus, moderator: UserId,
                        isModerator: Option<bool>, updates: bool, publishes: bool, now: int)
      returns (r: Result<Report, ServiceError>)
      requires Valid(now)
      modifies this`reports
      ensures Valid(now)
      ensures KeepsTrust(old(reports), userRestrictions, reports, userRestrictions, now)
      ensures r == Err(Forbidden) <==> isModerator == Some(false)
      ensures r == Err(NotFound) <==> isModerator == Some(true) && updates && row >= |old(reports)|
      ensures
        if isModerator == Some(true) && updates && row < |old(reports)| then
          && reports == old(reports)[row := Updated(old(reports[row]), StatusText(how, status), moderator, now)]
          && reports[row].status == StatusText(how, status)
          && reports[row].resolvedAt == (if how == LowerCase && status == Resolved then Some(now) else None)
          && reports[row].resolvedBy == (if how == LowerCase && status == Resolved then Some(moderator) else None)
          && reports[row].actionTaken == old(reports[row]).actionTaken
          && r == if publishes then Ok(reports[row]) else Err(ExternalServiceError)
        else r.Err? && reports == old(reports)
    {
      if isModerator.None? {
        return Err(DatabaseError);
      }
      if !isModerator.value {
        return Err(Forbidden);
      }
      if !updates {
        return Err(DatabaseError);
      }
      if row >= |reports| {
        return Err(NotFound);
      }
      TextsMatchIff(how, User, status);
      SetOutcome(row, Updated(reports[row], StatusText(how, status), moderator, now), now);
      if !publishes {
        return Err(ExternalServiceError);
      }
      return Ok(reports[row]);
    }

    method ResolveReport(row: nat, moderator: UserId, action: Option<string>,
                         isModerator: Option<bool>, updates: bool, publishes: bool, now: int)
      returns (r: Result<Report, ServiceError>)
      requires Valid(now)
      modifies this`reports
      ensures Valid(now)
      ensures KeepsTrust(old(reports), userRestrictions, reports, userRestrictions, now)
      ensures r == Err(Forbidden) <==> isModerator == Some(false)
      ensures r == Err(NotFound) <==> isModerator == Some(true) && updates && row >= |old(reports)|
      ensures
        if isModerator == Some(true) && updates && row < |old(reports)| then
          && reports == old(reports)[row := ResolvedBy(old(reports[row]), moderator, action, now)]
          && reports[row].status == "resolved" && reports[row].resolvedAt == Some(now)
          && reports[row].resolvedBy == Some(moderator) && reports[row].actionTaken == action
          && r == if publishes then Ok(reports[row]) else Err(ExternalServiceError)
        else r.Err? && reports == old(reports)
    {
      if isModerator.None? {
        return Err(DatabaseError);
      }
      if !isModerator.value {
        return Err(Forbidden);
      }
      if !updates {
        return Err(DatabaseError);
      }
      if row >= |reports| {
        return Err(NotFound);
      }
      SetOutcome(row, ResolvedBy(reports[row], moderator, action, now), now);
      if !publishes {
        return Err(ExternalServiceError);
      }
      return Ok(reports[row]);
    }

    /**
     The restrictions in force, and the number of reports in a 32-bit counter. A user shown as restricted
     whose bans are all justified was reported for spam by five distinct users in the last 25 hours.
     */
    method GetUserModerationStatus(u: TargetId, answers: bool, now: int)
      returns (r: Result<UserModerationStatus, ServiceError>)
      ensures r == if answers then Ok(UserModerationStatus(ActiveFor(userRestrictions, u, now),
                                                           Wrapped(|RowsAbout(reports, u)|),
                                                           IsRestricted(userRestrictions, u, now)))
                   else Err(DatabaseError)
      ensures r.Ok? && r.value.isRestricted && M.BansJustified(userRestrictions, reports, u, now) ==>
        M.ReportedByFive(reports, u, now)
    {
      if !answers {
        return Err(DatabaseError);
      }
      var active := ActiveFor(userRestrictions, u, now);
      TotalCountsRows(reports, u);
      if active != [] {
        assert active[0] in userRestrictions;
        var k :| 0 <= k < |userRestrictions| && userRestrictions[k] == active[0];
        if M.BansJustified(userRestrictions, reports, u, now) {
          M.ActiveIsRecent(userRestrictions[k], reports, u, now);
        }
      }
      return Ok(UserModerationStatus(active, Wrapped(TotalReports(reports, u)), active != []));
    }
  }

  /** Reports only ever gain company, so what they justified they still do. */
  lemma KeepJustified(bans: seq<Restriction>, before: seq<Report>, after: seq<Report>)
    requires Extends(before, after)
    ensures forall target, now :: M.BansJustified(bans, before, target, now) ==>
      M.BansJustified(bans, after, target, now)
  {
    forall target, now, k | M.BansJustified(bans, before, target, now) && 0 <= k < |bans| && bans[k].userId == target
      ensures M.Justified(bans[k], after)
    {
      M.JustifiedGrows(bans[k], before, after);
    }
  }

  /** A ban called for by spaced reports is justified. */
  lemma BanKeepsTrust(reports: seq<Report>, bans: seq<Restriction>, r: Report, now: int)
    requires CreatedBy(reports, now) && CallsForBan(reports, r, now)
    ensures KeepsTrust(reports, bans, reports, bans + [Ban(r.target, now)], now)
  {
    if Spaced(reports, r.target) {
      SpacedCountsOnce(reports, r.target, now);
      CallsForBanIff(reports, r, now);
    }
  }

  // ---------- The handler as a run of the machine ----------

  /** A request up to its insert, if it gets that far. */
  lemma RunToInsert(t: int, es: seq<M.Event>, how: Rendering, s: M.State, id: M.RequestId, c: M.Complaint, a: Answers)
    returns (es': seq<M.Event>, s': M.State, stored: bool)
    requires M.Run(how, t, es) == Some(s) && id !in s.requests
    ensures M.Run(how, t, es') == Some(s') && s'.clock == s.clock && s'.restrictions == s.restrictions
    ensures var filed := NewReport(c.reporter, c.target, TypeText(how, c.targetType), c.reason, s.clock);
      && stored == (Admissible(s.reports, filed, c.targetType.Message?, a) && a.inserts)
      && s'.reports == s.reports + (if stored then [filed] else [])
    ensures id in s'.requests && s'.requests[id] == M.Request(c.reporter, c.target, c.targetType, c.reason,
                                                              if stored then M.Inserted(|s.reports|) else M.Done(false))
  {
    var filed := NewReport(c.reporter, c.target, TypeText(how, c.targetType), c.reason, s.clock);
    var s1, s2;
    es', s1 := L.Extend(how, t, es, s, M.Arrive(id, c.reporter, c.target, c.targetType, c.reason));
    if !((c.targetType.Message? || a.targetExists == Some(true)) && a.checks) {
      es', s' := L.Extend(how, t, es', s1, M.Reject(id));
      stored := false;
    } else {
      es', s2 := L.Extend(how, t, es', s1, M.Check(id));
      if ReportedRecently(s.reports, filed.reporter, filed.target, filed.targetType, s.clock) {
        s', stored := s2, false;
      } else {
        es', s' := L.Extend(how, t, es', s2, M.Insert(id, a.inserts));
        stored := a.inserts;
      }
    }
  }

  /** The automatic check of a stored report, and the resolution that follows a ban. */
  lemma RunCheck(t: int, es: seq<M.Event>, how: Rendering, s: M.State, id: M.RequestId, row: nat, a: Answers)
    returns (es': seq<M.Event>, s': M.State)
    requires M.Run(how, t, es) == Some(s) && id in s.requests && s.requests[id].phase == M.Announced(row)
    requires row < |s.reports| && s.reports[row].reason == s.requests[id].reason
    requires s.reports[row].target == s.requests[id].target
    ensures M.Run(how, t, es') == Some(s') && s'.clock == s.clock
    ensures var banned := CallsForBan(s.reports, s.reports[row], s.clock) && a.counts && a.bans;
      && s'.restrictions == s.restrictions + (if banned then [Ban(s.reports[row].target, s.clock)] else [])
      && s'.reports == if banned && a.resolves then s.reports[row := AutoResolved(s.reports[row], s.clock)]
                       else s.reports
    ensures id in s'.requests
    ensures s'.requests[id].phase == M.Done(CheckSucceeds(s.reports, s.reports[row], a, s.clock))
  {
    var calls := CallsForBan(s.reports, s.reports[row], s.clock);
    var ok := a.counts && (calls ==> a.bans);
    es', s' := L.Extend(how, t, es, s, M.CheckAutomatedActions(id, ok));
    if calls && ok {
      es', s' := L.Extend(how, t, es', s', M.MarkResolved(id, a.resolves));
    }
  }

  /** A stored report's event, check and ban. */
  lemma RunStored(t: int, es: seq<M.Event>, how: Rendering, s: M.State, id: M.RequestId, row: nat, a: Answers)
    returns (es': seq<M.Event>, s': M.State, ok: bool)
    requires M.Run(how, t, es) == Some(s) && id in s.requests && s.requests[id].phase == M.Inserted(row)
    requires row < |s.reports| && s.reports[row].reason == s.requests[id].reason
    requires s.reports[row].target == s.requests[id].target
    ensures M.Run(how, t, es') == Some(s') && s'.clock == s.clock
    ensures id in s'.requests && s'.requests[id].phase == M.Done(ok)
    ensures ok == (a.publishes && CheckSucceeds(s.reports, s.reports[row], a, s.clock))
    ensures var banned := a.publishes && CallsForBan(s.reports, s.reports[row], s.clock) && a.counts && a.bans;
      && s'.restrictions == s.restrictions + (if banned then [Ban(s.reports[row].target, s.clock)] else [])
      && s'.reports == if banned && a.resolves then s.reports[row := AutoResolved(s.reports[row], s.clock)]
                       else s.reports
  {
    var s1;
    es', s1 := L.Extend(how, t, es, s, M.Announce(id, a.publishes));
    if a.publishes {
      es', s' := RunCheck(t, es', how, s1, id, row, a);
      ok := CheckSucceeds(s.reports, s.reports[row], a, s.clock);
    } else {
      s', ok := s1, false;
    }
  }

  /** A request that nothing interleaves with is a run of the machine, to the same tables and the same answer. */
  lemma ReportIsRun(t: int, es: seq<M.Event>, how: Rendering, s: M.State, id: M.RequestId, c: M.Complaint, a: Answers)
    returns (es': seq<M.Event>, s': M.State, ok: bool)
    requires M.Run(how, t, es) == Some(s) && id !in s.requests
    ensures M.Run(how, t, es') == Some(s') && s'.clock == s.clock
    ensures id in s'.requests && s'.requests[id].phase == M.Done(ok)
    ensures Outcome(s.reports, s.restrictions,
                    NewReport(c.reporter, c.target, TypeText(how, c.targetType), c.reason, s.clock),
                    c.targetType.Message?, a, s.clock, s'.reports, s'.restrictions, ok)
  {
    var s1, stored;
    es', s1, stored := RunToInsert(t, es, how, s, id, c, a);
    if !stored {
      s', ok := s1, false;
    } else {
      es', s', ok := RunStored(t, es', how, s1, id, |s.reports|, a);
    }
  }

  /** A moderator's step changes the outcome of one row, as the two statements say, and nothing else. */
  lemma ModeratorSteps(how: Rendering, s: M.State, row: nat, st: ReportStatus, moderator: UserId,
                       action: Option<string>)
    requires row < |s.reports|
    ensures var after, r := M.Apply(how, s, M.UpdateReport(row, st, moderator)), s.reports[row];
      var resolved := how == LowerCase && st == Resolved;
      after == s.(reports := s.reports[row := r.(status := StatusText(how, st),
                                                 resolvedAt := if resolved then Some(s.clock) else None,
                                                 resolvedBy := if resolved then Some(moderator) else None)])
    ensures var after, r := M.Apply(how, s, M.ResolveReport(row, moderator, action)), s.reports[row];
      after == s.(reports := s.reports[row := r.(status := "resolved", resolvedAt := Some(s.clock),
                                                 resolvedBy := Some(moderator), actionTaken := action)])
  {
    TextsMatchIff(how, User, st);
  }
}
