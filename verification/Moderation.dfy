/**
 Reports, restrictions and the automatic ban. The service stores target types and statuses through a
 rendering of its enums and compares the stored text with lower-case literals; `Rendering` is the
 choice between the rendering the code uses and the one its literals expect.
 */
module Moderation {
  import opened Wrappers
  import opened Sets

  type UserId = nat
  type TargetId = nat

  const HOUR := 3600
  const DAY := 86400

  /** Spam reports within an hour that ban their target. */
  const THRESHOLD := 5

  /** The all-zero id under which automatic resolutions are booked. */
  const SYSTEM: UserId := 0

  datatype TargetType = User | Message | Group

  datatype Reason = Spam | Harassment | HateSpeech | Nudity | Violence | Impersonation | Other

  datatype ReportStatus = Pending | Investigating | Resolved | Dismissed

  datatype Rendering = DebugFormat | LowerCase

  function TypeText(how: Rendering, t: TargetType): string {
    match (how, t)
    case (DebugFormat, User) => "User"
    case (DebugFormat, Message) => "Message"
    case (DebugFormat, Group) => "Group"
    case (LowerCase, User) => "user"
    case (LowerCase, Message) => "message"
    case (LowerCase, Group) => "group"
  }

  function StatusText(how: Rendering, st: ReportStatus): string {
    match (how, st)
    case (DebugFormat, Pending) => "Pending"
    case (DebugFormat, Investigating) => "Investigating"
    case (DebugFormat, Resolved) => "Resolved"
    case (DebugFormat, Dismissed) => "Dismissed"
    case (LowerCase, Pending) => "pending"
    case (LowerCase, Investigating) => "investigating"
    case (LowerCase, Resolved) => "resolved"
    case (LowerCase, Dismissed) => "dismissed"
  }

  /** The literals of the SQL statements. */
  const USER_TEXT := "user"
  const RESOLVED_TEXT := "resolved"
  const PENDING_TEXT := "pending"

  /** A stored text is the literal it is compared with only in lower case and for its own value. */
  lemma TextsMatchIff(how: Rendering, t: TargetType, st: ReportStatus)
    ensures TypeText(how, t) == "user" <==> how == LowerCase && t == User
    ensures StatusText(how, st) == "resolved" <==> how == LowerCase && st == Resolved
    ensures TypeText(DebugFormat, User) == "User" && StatusText(DebugFormat, Resolved) == "Resolved"
  {
    assert TypeText(how, t)[0] != 'u' || (how == LowerCase && t == User);
    assert StatusText(how, st)[0] != 'r' || (how == LowerCase && st == Resolved);
  }

  /** No two statuses are stored alike. */
  lemma StatusTextsDiffer(how: Rendering, a: ReportStatus, b: ReportStatus)
    requires StatusText(how, a) == StatusText(how, b)
    ensures a == b
  {
    assert StatusText(how, a)[0] == StatusText(how, b)[0];
  }

  datatype Report = Report(
    reporter: UserId,
    target: TargetId,
    targetType: string,
    reason: Reason,
    status: string,
    createdAt: int,
    resolvedAt: Option<int>,
    resolvedBy: Option<UserId>,
    actionTaken: Option<string>)

  /** A row of `user_restrictions`; a restriction without an expiry is permanent. */
  datatype Restriction = Restriction(userId: TargetId, expiresAt: Option<int>)

  // ---------- The statements ----------

  predicate SameComplaint(r: Report, reporter: UserId, target: TargetId, targetType: string) {
    r.reporter == reporter && r.target == target && r.targetType == targetType
  }

  /** The duplicate check: a report of this target by this reporter in the last 24 hours. */
  predicate ReportedRecently(reports: seq<Report>, reporter: UserId, target: TargetId, targetType: string, now: int) {
    exists k :: 0 <= k < |reports|
      && SameComplaint(reports[k], reporter, target, targetType) && reports[k].createdAt > now - DAY
  }

  function NewReport(reporter: UserId, target: TargetId, targetType: string, reason: Reason, now: int): Report {
    Report(reporter, target, targetType, reason, PENDING_TEXT, now, None, None, None)
  }

  predicate CountsAgainst(r: Report, target: TargetId, now: int) {
    r.target == target && r.targetType == USER_TEXT && r.reason == Spam && r.createdAt > now - HOUR
  }

  function SpamCount(reports: seq<Report>, target: TargetId, now: int): nat {
    if reports == [] then 0
    else
      SpamCount(reports[..|reports| - 1], target, now)
        + (if CountsAgainst(reports[|reports| - 1], target, now) then 1 else 0)
  }

  /** `UPDATE ... SET status, resolved_at, resolved_by`, with the CASE on the stored text. */
  function Updated(r: Report, text: string, moderator: UserId, now: int): Report {
    r.(status := text,
       resolvedAt := if text == RESOLVED_TEXT then Some(now) else None,
       resolvedBy := if text == RESOLVED_TEXT then Some(moderator) else None)
  }

  function ResolvedBy(r: Report, who: UserId, action: Option<string>, now: int): Report {
    r.(status := RESOLVED_TEXT, resolvedAt := Some(now), resolvedBy := Some(who), actionTaken := action)
  }

  function AutoResolved(r: Report, now: int): Report {
    ResolvedBy(r, SYSTEM, Some("Auto-banned for 24 hours"), now)
  }

  function Ban(target: TargetId, now: int): Restriction {
    Restriction(target, Some(now + DAY))
  }

  predicate Active(r: Restriction, u: TargetId, now: int) {
    r.userId == u && (r.expiresAt.None? || r.expiresAt.value > now)
  }

  predicate IsRestricted(restrictions: seq<Restriction>, u: TargetId, now: int) {
    exists k :: 0 <= k < |restrictions| && Active(restrictions[k], u, now)
  }

  /** A ban is in force for exactly the 24 hours after it was imposed. */
  lemma BanLastsADay(target: TargetId, now: int, u: TargetId, t: int)
    ensures Active(Ban(target, now), u, t) <==> u == target && t < now + 24 * 3600
  {
  }

  // ---------- The pigeonhole ----------

  /** Distinct users whose spam reports on `target` fall into the hour up to `t`. */
  function Reporters(reports: seq<Report>, target: TargetId, t: int): set<UserId> {
    set k | 0 <= k < |reports|
      && reports[k].target == target && reports[k].targetType == "user" && reports[k].reason == Spam
      && t - 3600 < reports[k].createdAt <= t :: reports[k].reporter
  }

  predicate Repeats(a: Report, b: Report) {
    SameComplaint(b, a.reporter, a.target, a.targetType)
  }

  /** Two reports of one reporter on this target lie at least a day apart. */
  ghost predicate Spaced(reports: seq<Report>, target: TargetId) {
    forall i, j :: 0 <= i < j < |reports| && reports[i].target == target && Repeats(reports[i], reports[j]) ==>
      reports[i].createdAt + DAY <= reports[j].createdAt
  }

  predicate BothCount(a: Report, b: Report, target: TargetId, now: int) {
    CountsAgainst(a, target, now) && CountsAgainst(b, target, now)
  }

  /** No reporter counts twice against the target in the hour up to `now`. */
  ghost predicate OncePerReporter(reports: seq<Report>, target: TargetId, now: int) {
    forall i, j :: 0 <= i < j < |reports| && BothCount(reports[i], reports[j], target, now) ==>
      reports[i].reporter != reports[j].reporter
  }

  ghost predicate CreatedBy(reports: seq<Report>, now: int) {
    forall k :: 0 <= k < |reports| ==> reports[k].createdAt <= now
  }

  lemma ReportersSnoc(reports: seq<Report>, target: TargetId, t: int)
    requires reports != []
    ensures var front, r := reports[..|reports| - 1], reports[|reports| - 1];
      Reporters(reports, target, t) ==
        Reporters(front, target, t) + (if CountsAgainst(r, target, t) && r.createdAt <= t then {r.reporter} else {})
  {
  }

  /** A day between repeated reports is more than the hour that counts. */
  lemma SpacedCountsOnce(reports: seq<Report>, target: TargetId, now: int)
    requires Spaced(reports, target) && CreatedBy(reports, now)
    ensures OncePerReporter(reports, target, now)
  {
    forall i, j | 0 <= i < j < |reports| && BothCount(reports[i], reports[j], target, now)
      ensures reports[i].reporter != reports[j].reporter
    {
      if reports[i].reporter == reports[j].reporter {
        assert Repeats(reports[i], reports[j]);
      }
    }
  }

  lemma OnceSnoc(reports: seq<Report>, target: TargetId, now: int)
    requires reports != [] && CreatedBy(reports, now)
    ensures var front, r := reports[..|reports| - 1], reports[|reports| - 1];
      OncePerReporter(reports, target, now) <==>
        && OncePerReporter(front, target, now)
        && (CountsAgainst(r, target, now) ==> r.reporter !in Reporters(front, target, now))
  {
    var n := |reports| - 1;
    var front, r := reports[..n], reports[n];
    assert forall k :: 0 <= k < n ==> front[k] == reports[k];
    if CountsAgainst(r, target, now) && r.reporter in Reporters(front, target, now) {
      var k :| 0 <= k < n && CountsAgainst(front[k], target, now) && front[k].reporter == r.reporter;
      assert reports[k] == front[k];
    }
  }

  /** The hourly count is the number of distinct reporters exactly when no reporter counts twice. */
  lemma {:induction false} CountIsReportersIff(reports: seq<Report>, target: TargetId, now: int)
    requires CreatedBy(reports, now)
    ensures |Reporters(reports, target, now)| <= SpamCount(reports, target, now)
    ensures SpamCount(reports, target, now) == |Reporters(reports, target, now)|
       <==> OncePerReporter(reports, target, now)
  {
    if reports == [] {
      assert Reporters(reports, target, now) == {};
    } else {
      var front, r := reports[..|reports| - 1], reports[|reports| - 1];
      CountIsReportersIff(front, target, now);
      ReportersSnoc(reports, target, now);
      OnceSnoc(reports, target, now);
      if CountsAgainst(r, target, now) && r.reporter in Reporters(front, target, now) {
        assert Reporters(front, target, now) + {r.reporter} == Reporters(front, target, now);
      }
    }
  }

  /** A later table has the same reports and perhaps more, their outcomes aside. */
  ghost predicate Extends(before: seq<Report>, after: seq<Report>) {
    |before| <= |after| && forall k :: 0 <= k < |before| ==>
      && SameComplaint(after[k], before[k].reporter, before[k].target, before[k].targetType)
      && after[k].reason == before[k].reason && after[k].createdAt == before[k].createdAt
  }

  lemma ReportersGrow(before: seq<Report>, after: seq<Report>, target: TargetId, t: int)
    requires Extends(before, after)
    ensures Reporters(before, target, t) <= Reporters(after, target, t)
    ensures |Reporters(before, target, t)| <= |Reporters(after, target, t)|
  {
    forall u | u in Reporters(before, target, t) ensures u in Reporters(after, target, t) {
      var k: nat :| k < |before| && before[k].target == target && before[k].targetType == "user"
        && before[k].reason == Spam && t - 3600 < before[k].createdAt <= t && before[k].reporter == u;
      assert SameComplaint(after[k], u, target, "user") && after[k].reason == Spam;
    }
    SubsetCardinality(Reporters(before, target, t), Reporters(after, target, t));
  }

  // ---------- Resolution ----------

  /** Both resolution fields are set exactly when the status is 'resolved', and never before creation. */
  predicate Coherent(r: Report) {
    && (r.resolvedAt.Some? <==> r.status == RESOLVED_TEXT)
    && (r.resolvedBy.Some? <==> r.status == RESOLVED_TEXT)
    && (r.resolvedAt.Some? ==> r.createdAt <= r.resolvedAt.value)
  }
}
