/**
 Report requests of any number of users, interleaved with moderators, as a machine. The duplicate check
 and the insert are two statements; the count and the ban insert share one instant.
 */
module ModerationMachine {
  import opened Wrappers
  import opened Sets
  import opened Moderation

  type RequestId = nat

  datatype Phase =
    | Received
    | Cleared(at: int)
    | Inserted(row: nat)
    | Announced(row: nat)
    | Banned(row: nat)
    | Done(ok: bool)

  datatype Request = Request(reporter: UserId, target: TargetId, targetType: TargetType, reason: Reason, phase: Phase)

  datatype State = State(
    clock: int,
    requests: map<RequestId, Request>,
    reports: seq<Report>,
    restrictions: seq<Restriction>)

  datatype Event =
    | Tick(to: int)
    | Arrive(id: RequestId, reporter: UserId, target: TargetId, targetType: TargetType, reason: Reason)
    | Reject(id: RequestId)
    | Check(id: RequestId)
    | Insert(id: RequestId, ok: bool)
    | Announce(id: RequestId, ok: bool)
    | CheckAutomatedActions(id: RequestId, ok: bool)
    | MarkResolved(id: RequestId, ok: bool)
    | UpdateReport(row: nat, status: ReportStatus, moderator: UserId)
    | ResolveReport(row: nat, moderator: UserId, action: Option<string>)

  function Init(t: int): State {
    State(t, map[], [], [])
  }

  predicate Enabled(s: State, e: Event) {
    match e
    case Tick(to) => s.clock <= to
    case Arrive(id, _, _, _, _) => id !in s.requests
    case Reject(id) => id in s.requests && s.requests[id].phase.Received?
    case Check(id) => id in s.requests && s.requests[id].phase.Received?
    case Insert(id, _) => id in s.requests && s.requests[id].phase.Cleared?
    case Announce(id, _) => id in s.requests && s.requests[id].phase.Inserted?
    case CheckAutomatedActions(id, _) => id in s.requests && s.requests[id].phase.Announced?
    case MarkResolved(id, _) =>
      id in s.requests && s.requests[id].phase.Banned? && s.requests[id].phase.row < |s.reports|
    case UpdateReport(row, _, _) => row < |s.reports|
    case ResolveReport(row, _, _) => row < |s.reports|
  }

  function Move(s: State, id: RequestId, phase: Phase): State
    requires id in s.requests
  {
    s.(requests := s.requests[id := s.requests[id].(phase := phase)])
  }

  function Apply(how: Rendering, s: State, e: Event): State
    requires Enabled(s, e)
  {
    match e
    case Tick(to) => s.(clock := to)
    case Arrive(id, reporter, target, targetType, reason) =>
      s.(requests := s.requests[id := Request(reporter, target, targetType, reason, Received)])
    case Reject(id) => Move(s, id, Done(false))
    case Check(id) =>
      var q := s.requests[id];
      Move(s, id, if ReportedRecently(s.reports, q.reporter, q.target, TypeText(how, q.targetType), s.clock)
                  then Done(false) else Cleared(s.clock))
    case Insert(id, ok) =>
      var q := s.requests[id];
      if ok then
        var filed := NewReport(q.reporter, q.target, TypeText(how, q.targetType), q.reason, s.clock);
        Move(s.(reports := s.reports + [filed]), id, Inserted(|s.reports|))
      else Move(s, id, Done(false))
    case Announce(id, ok) => Move(s, id, if ok then Announced(s.requests[id].phase.row) else Done(false))
    case CheckAutomatedActions(id, ok) =>
      var q := s.requests[id];
      if q.reason == Spam && !ok then Move(s, id, Done(false))
      else if q.reason == Spam && SpamCount(s.reports, q.target, s.clock) >= THRESHOLD then
        Move(s.(restrictions := s.restrictions + [Ban(q.target, s.clock)]), id, Banned(q.phase.row))
      else Move(s, id, Done(true))
    case MarkResolved(id, ok) =>
      var row := s.requests[id].phase.row;
      Move(if ok then s.(reports := s.reports[row := AutoResolved(s.reports[row], s.clock)]) else s, id, Done(ok))
    case UpdateReport(row, status, moderator) =>
      s.(reports := s.reports[row := Updated(s.reports[row], StatusText(how, status), moderator, s.clock)])
    case ResolveReport(row, moderator, action) =>
      s.(reports := s.reports[row := ResolvedBy(s.reports[row], moderator, action, s.clock)])
  }

  function Run(how: Rendering, t: int, es: seq<Event>): Option<State> {
    if es == [] then Some(Init(t))
    else
      var e := es[|es| - 1];
      match Run(how, t, es[..|es| - 1])
      case None => None
      case Some(s) => if Enabled(s, e) then Some(Apply(how, s, e)) else None
  }

  /** A successful insert still finds no report of its complaint in the 24 hours before its own instant. */
  predicate CleanInsert(how: Rendering, s: State, e: Event, target: TargetId) {
    e.Insert? && e.ok && e.id in s.requests && s.requests[e.id].target == target ==>
      var q := s.requests[e.id];
      !ReportedRecently(s.reports, q.reporter, target, TypeText(how, q.targetType), s.clock)
  }

  predicate CleanRun(how: Rendering, t: int, es: seq<Event>, target: TargetId) {
    es == [] ||
    (var front := es[..|es| - 1];
     && CleanRun(how, t, front, target)
     && Run(how, t, front).Some?
     && CleanInsert(how, Run(how, t, front).value, es[|es| - 1], target))
  }

  // ---------- Resolution fields, in every run ----------

  ghost predicate ResolutionInv(s: State) {
    && CreatedBy(s.reports, s.clock)
    && (forall k :: 0 <= k < |s.reports| ==> Coherent(s.reports[k]))
  }

  lemma ResolutionStep(how: Rendering, s: State, e: Event)
    requires ResolutionInv(s) && Enabled(s, e)
    ensures ResolutionInv(Apply(how, s, e))
  {
  }

  /**
   In every run, with either rendering and any mix of creation, update, resolution and automatic
   resolution, the resolution fields agree with the status and with the creation time.
   */
  lemma {:induction false} ResolutionFieldsAgree(how: Rendering, t: int, es: seq<Event>)
    requires Run(how, t, es).Some?
    ensures ResolutionInv(Run(how, t, es).value)
  {
    if es != [] {
      ResolutionFieldsAgree(how, t, es[..|es| - 1]);
      ResolutionStep(how, Run(how, t, es[..|es| - 1]).value, es[|es| - 1]);
    }
  }

  // ---------- Spacing ----------

  lemma ExtendsKeepsSpacing(before: seq<Report>, after: seq<Report>, target: TargetId)
    requires Extends(before, after) && |before| == |after|
    ensures Spaced(after, target) <==> Spaced(before, target)
  {
    assert forall i, j :: 0 <= i < j < |before| ==> (Repeats(after[i], after[j]) <==> Repeats(before[i], before[j]));
  }

  lemma InsertKeepsSpacing(reports: seq<Report>, r: Report, target: TargetId)
    ensures Spaced(reports + [r], target) <==>
      && Spaced(reports, target)
      && (r.target == target ==> !ReportedRecently(reports, r.reporter, r.target, r.targetType, r.createdAt))
  {
    var after, n := reports + [r], |reports|;
    assert after[n] == r && forall i :: 0 <= i < n ==> after[i] == reports[i];
    if Spaced(after, target) && r.target == target {
      forall k | 0 <= k < n && SameComplaint(reports[k], r.reporter, r.target, r.targetType)
        ensures reports[k].createdAt <= r.createdAt - DAY
      {
        assert Repeats(after[k], after[n]);
      }
    }
    if Spaced(reports, target)
      && (r.target == target ==> !ReportedRecently(reports, r.reporter, r.target, r.targetType, r.createdAt)) {
      forall i, j | 0 <= i < j < |after| && after[i].target == target && Repeats(after[i], after[j])
        ensures after[i].createdAt + DAY <= after[j].createdAt
      {
        if j == n {
          assert SameComplaint(reports[i], r.reporter, r.target, r.targetType);
        }
      }
    }
  }

  lemma ReportsAfter(how: Rendering, s: State, e: Event)
    requires Enabled(s, e) && !(e.Insert? && e.ok)
    ensures Extends(s.reports, Apply(how, s, e).reports) && |Apply(how, s, e).reports| == |s.reports|
  {
  }

  lemma SpacingStep(how: Rendering, s: State, e: Event, target: TargetId)
    requires Enabled(s, e)
    ensures Spaced(Apply(how, s, e).reports, target) <==> Spaced(s.reports, target) && CleanInsert(how, s, e, target)
  {
    if e.Insert? && e.ok {
      var q := s.requests[e.id];
      var filed := NewReport(q.reporter, q.target, TypeText(how, q.targetType), q.reason, s.clock);
      InsertKeepsSpacing(s.reports, filed, target);
    } else {
      ReportsAfter(how, s, e);
      ExtendsKeepsSpacing(s.reports, Apply(how, s, e).reports, target);
    }
  }

  /** In every run, repeated reports on a target lie a day apart exactly when each insert was clean. */
  lemma {:induction false} SpacedIffClean(how: Rendering, t: int, es: seq<Event>, target: TargetId)
    requires Run(how, t, es).Some?
    ensures Spaced(Run(how, t, es).value.reports, target) <==> CleanRun(how, t, es, target)
  {
    if es != [] {
      SpacedIffClean(how, t, es[..|es| - 1], target);
      SpacingStep(how, Run(how, t, es[..|es| - 1]).value, es[|es| - 1], target);
    }
  }

  // ---------- Checks and inserts that are not split ----------

  predicate IsCleared(s: State, id: RequestId) {
    id in s.requests && s.requests[id].phase.Cleared?
  }

  predicate SameRequest(a: Request, b: Request) {
    a.reporter == b.reporter && a.target == b.target && a.targetType == b.targetType
  }

  /** One complaint's check and insert are not split by another check of the same complaint. */
  predicate Serial(s: State, e: Event) {
    e.Check? && e.id in s.requests ==>
      forall id :: id in s.requests && IsCleared(s, id) ==> !SameRequest(s.requests[id], s.requests[e.id])
  }

  predicate SerialRun(how: Rendering, t: int, es: seq<Event>) {
    es == [] ||
    (var front := es[..|es| - 1];
     SerialRun(how, t, front) && Run(how, t, front).Some? && Serial(Run(how, t, front).value, es[|es| - 1]))
  }

  predicate StillClear(how: Rendering, s: State, q: Request)
    requires q.phase.Cleared?
  {
    && q.phase.at <= s.clock
    && !ReportedRecently(s.reports, q.reporter, q.target, TypeText(how, q.targetType), q.phase.at)
  }

  /** A cleared request has nothing of its own complaint in the last 24 hours, and its complaint no other. */
  ghost predicate ClearedInv(how: Rendering, s: State) {
    && (forall id :: IsCleared(s, id) ==> StillClear(how, s, s.requests[id]))
    && (forall a, b :: a != b && IsCleared(s, a) && IsCleared(s, b) ==> !SameRequest(s.requests[a], s.requests[b]))
  }

  lemma TextsDiffer(how: Rendering, a: TargetType, b: TargetType)
    requires a != b
    ensures TypeText(how, a) != TypeText(how, b)
  {
    assert TypeText(how, a)[0] != TypeText(how, b)[0];
  }

  /** A new report of another complaint clears as before. */
  lemma OtherInsertClears(how: Rendering, reports: seq<Report>, q: Request, p: Request, now: int, at: int)
    requires !SameRequest(p, q) && !ReportedRecently(reports, p.reporter, p.target, TypeText(how, p.targetType), at)
    ensures !ReportedRecently(reports + [NewReport(q.reporter, q.target, TypeText(how, q.targetType), q.reason, now)],
                              p.reporter, p.target, TypeText(how, p.targetType), at)
  {
    if p.targetType != q.targetType {
      TextsDiffer(how, p.targetType, q.targetType);
    }
  }

  lemma ClearedInsert(how: Rendering, s: State, e: Event)
    requires ClearedInv(how, s) && e.Insert? && e.ok && Enabled(s, e)
    ensures ClearedInv(how, Apply(how, s, e))
  {
    var s' := Apply(how, s, e);
    assert IsCleared(s, e.id);
    forall id | IsCleared(s', id) ensures StillClear(how, s', s'.requests[id]) {
      assert IsCleared(s, id) && s'.requests[id] == s.requests[id];
      OtherInsertClears(how, s.reports, s.requests[e.id], s.requests[id], s.clock, s.requests[id].phase.at);
    }
    forall a, b | a != b && IsCleared(s', a) && IsCleared(s', b) ensures !SameRequest(s'.requests[a], s'.requests[b]) {
      assert IsCleared(s, a) && IsCleared(s, b);
    }
  }

  lemma SameComplaintsClear(how: Rendering, before: seq<Report>, after: seq<Report>, q: Request, at: int)
    requires Extends(before, after) && |before| == |after|
    requires !ReportedRecently(before, q.reporter, q.target, TypeText(how, q.targetType), at)
    ensures !ReportedRecently(after, q.reporter, q.target, TypeText(how, q.targetType), at)
  {
    forall k | 0 <= k < |after| && SameComplaint(after[k], q.reporter, q.target, TypeText(how, q.targetType))
      ensures after[k].createdAt <= at - DAY
    {
      assert SameComplaint(before[k], q.reporter, q.target, TypeText(how, q.targetType));
    }
  }

  lemma ClearedAfter(how: Rendering, s: State, e: Event, id: RequestId)
    requires Enabled(s, e) && !(e.Insert? && e.ok) && IsCleared(Apply(how, s, e), id)
    ensures Apply(how, s, e).clock >= s.clock
    ensures IsCleared(s, id) ==> Apply(how, s, e).requests[id] == s.requests[id]
    ensures !IsCleared(s, id) ==> e == Check(id)
  {
  }

  lemma ClearedOther(how: Rendering, s: State, e: Event)
    requires ClearedInv(how, s) && Enabled(s, e) && Serial(s, e) && !(e.Insert? && e.ok)
    ensures ClearedInv(how, Apply(how, s, e))
  {
    var s' := Apply(how, s, e);
    ReportsAfter(how, s, e);
    forall id | IsCleared(s', id) ensures StillClear(how, s', s'.requests[id]) {
      ClearedAfter(how, s, e, id);
      if IsCleared(s, id) {
        SameComplaintsClear(how, s.reports, s'.reports, s.requests[id], s.requests[id].phase.at);
      }
    }
    forall a, b | a != b && IsCleared(s', a) && IsCleared(s', b) ensures !SameRequest(s'.requests[a], s'.requests[b]) {
      ClearedAfter(how, s, e, a);
      ClearedAfter(how, s, e, b);
    }
  }

  lemma SerialInsertIsClean(how: Rendering, s: State, e: Event, target: TargetId)
    requires ClearedInv(how, s) && Enabled(s, e)
    ensures CleanInsert(how, s, e, target)
  {
    if e.Insert? {
      assert IsCleared(s, e.id);
    }
  }

  /** Checks and inserts of one complaint that are not split make every insert clean. */
  lemma {:induction false} SerialRunIsClean(how: Rendering, t: int, es: seq<Event>)
    requires Run(how, t, es).Some? && SerialRun(how, t, es)
    ensures ClearedInv(how, Run(how, t, es).value)
    ensures forall target :: CleanRun(how, t, es, target)
  {
    if es != [] {
      var front, e := es[..|es| - 1], es[|es| - 1];
      SerialRunIsClean(how, t, front);
      var s := Run(how, t, front).value;
      if e.Insert? && e.ok {
        ClearedInsert(how, s, e);
      } else {
        ClearedOther(how, s, e);
      }
      forall target ensures CleanRun(how, t, es, target) {
        SerialInsertIsClean(how, s, e, target);
      }
    }
  }

  // ---------- Bans ----------

  /** A restriction rests on enough distinct reporters in the hour before it was imposed. */
  ghost predicate Justified(r: Restriction, reports: seq<Report>) {
    r.expiresAt.Some? && |Reporters(reports, r.userId, r.expiresAt.value - DAY)| >= THRESHOLD
  }

  /** Every ban of the target is justified and ends within a day. */
  ghost predicate BansJustified(restrictions: seq<Restriction>, reports: seq<Report>, target: TargetId, now: int) {
    forall k :: 0 <= k < |restrictions| && restrictions[k].userId == target ==>
      Justified(restrictions[k], reports) && restrictions[k].expiresAt.value <= now + DAY
  }

  ghost predicate BanInv(s: State, target: TargetId) {
    BansJustified(s.restrictions, s.reports, target, s.clock)
  }

  lemma JustifiedGrows(r: Restriction, before: seq<Report>, after: seq<Report>)
    requires Justified(r, before) && Extends(before, after)
    ensures Justified(r, after)
  {
    ReportersGrow(before, after, r.userId, r.expiresAt.value - DAY);
  }

  lemma ReportsExtend(how: Rendering, s: State, e: Event)
    requires Enabled(s, e)
    ensures Extends(s.reports, Apply(how, s, e).reports) && s.clock <= Apply(how, s, e).clock
    ensures !e.CheckAutomatedActions? ==> Apply(how, s, e).restrictions == s.restrictions
  {
  }

  lemma BanStep(how: Rendering, s: State, e: Event, target: TargetId)
    requires BanInv(s, target) && Enabled(s, e) && CreatedBy(s.reports, s.clock) && Spaced(s.reports, target)
    ensures BanInv(Apply(how, s, e), target)
  {
    var s' := Apply(how, s, e);
    ReportsExtend(how, s, e);
    forall k | 0 <= k < |s.restrictions| && s.restrictions[k].userId == target
      ensures Justified(s.restrictions[k], s'.reports)
    {
      JustifiedGrows(s.restrictions[k], s.reports, s'.reports);
    }
    if e.CheckAutomatedActions? {
      SpacedCountsOnce(s.reports, target, s.clock);
      CountIsReportersIff(s.reports, target, s.clock);
    }
  }

  lemma {:induction false} CleanRunInv(how: Rendering, t: int, es: seq<Event>, target: TargetId)
    requires Run(how, t, es).Some? && CleanRun(how, t, es, target)
    ensures BanInv(Run(how, t, es).value, target)
  {
    if es != [] {
      var front := es[..|es| - 1];
      CleanRunInv(how, t, front, target);
      SpacedIffClean(how, t, front, target);
      ResolutionFieldsAgree(how, t, front);
      BanStep(how, Run(how, t, front).value, es[|es| - 1], target);
    }
  }

  // ---------- Rows and requests ----------

  /** What a request complains of, as it arrived. */
  datatype Complaint = Complaint(reporter: UserId, target: TargetId, targetType: TargetType, reason: Reason)

  function ArrivalOf(es: seq<Event>, id: RequestId): Option<Complaint> {
    if es == [] then None
    else
      var e := es[|es| - 1];
      if e.Arrive? && e.id == id then Some(Complaint(e.reporter, e.target, e.targetType, e.reason))
      else ArrivalOf(es[..|es| - 1], id)
  }

  lemma RequestStays(how: Rendering, s: State, e: Event, id: RequestId)
    requires Enabled(s, e)
    ensures id in Apply(how, s, e).requests <==> id in s.requests || (e.Arrive? && e.id == id)
    ensures id in s.requests ==>
      var q, q' := s.requests[id], Apply(how, s, e).requests[id];
      q'.reporter == q.reporter && q'.target == q.target && q'.targetType == q.targetType && q'.reason == q.reason
  {
  }

  /** A request is what arrived under its id. */
  lemma {:induction false} RequestsAreArrivals(how: Rendering, t: int, es: seq<Event>, id: RequestId)
    requires Run(how, t, es).Some?
    ensures id in Run(how, t, es).value.requests <==> ArrivalOf(es, id).Some?
    ensures id in Run(how, t, es).value.requests ==>
      var q := Run(how, t, es).value.requests[id];
      ArrivalOf(es, id) == Some(Complaint(q.reporter, q.target, q.targetType, q.reason))
  {
    if es != [] {
      var front := es[..|es| - 1];
      RequestsAreArrivals(how, t, front, id);
      RequestStays(how, Run(how, t, front).value, es[|es| - 1], id);
    }
  }

  /** The `i`-th event stores the complaint of an arrived request at time `at`. */
  ghost predicate Files(how: Rendering, t: int, es: seq<Event>, i: nat, c: Complaint, at: int) {
    && i < |es| && es[i].Insert? && es[i].ok
    && ArrivalOf(es, es[i].id) == Some(c)
    && Run(how, t, es[..i]).Some? && Run(how, t, es[..i]).value.clock == at
  }

  /** The row shows this complaint and its time. */
  predicate Records(how: Rendering, r: Report, c: Complaint, at: int) {
    && r.reporter == c.reporter && r.target == c.target && r.targetType == TypeText(how, c.targetType)
    && r.reason == c.reason && r.createdAt == at
  }

  ghost predicate Stems(how: Rendering, t: int, es: seq<Event>, r: Report) {
    exists i: nat, c, at :: Files(how, t, es, i, c, at) && Records(how, r, c, at)
  }

  lemma {:induction false} ArrivalStays(how: Rendering, t: int, es: seq<Event>, e: Event, id: RequestId)
    requires Run(how, t, es + [e]).Some? && Run(how, t, es).Some? && ArrivalOf(es, id).Some?
    ensures ArrivalOf(es + [e], id) == ArrivalOf(es, id)
  {
    assert (es + [e])[..|es|] == es;
    RequestsAreArrivals(how, t, es, id);
  }

  lemma {:induction false} FilesStays(how: Rendering, t: int, es: seq<Event>, e: Event, i: nat, c: Complaint, at: int)
    requires Run(how, t, es + [e]).Some? && Run(how, t, es).Some? && Files(how, t, es, i, c, at)
    ensures Files(how, t, es + [e], i, c, at)
  {
    assert (es + [e])[..i] == es[..i];
    ArrivalStays(how, t, es, e, es[i].id);
  }

  /** In every run each row of the report table is the complaint of a request that arrived. */
  lemma {:induction false} RowsStemFromRequests(how: Rendering, t: int, es: seq<Event>, k: nat)
    requires Run(how, t, es).Some? && k < |Run(how, t, es).value.reports|
    ensures Stems(how, t, es, Run(how, t, es).value.reports[k])
  {
    var n := |es| - 1;
    var front, e := es[..n], es[n];
    var s, s' := Run(how, t, front).value, Run(how, t, es).value;
    assert es == front + [e];
    if k < |s.reports| {
      RowsStemFromRequests(how, t, front, k);
      var i: nat, c, at :| Files(how, t, front, i, c, at) && Records(how, s.reports[k], c, at);
      FilesStays(how, t, front, e, i, c, at);
      ReportsExtend(how, s, e);
      assert Records(how, s'.reports[k], c, at);
    } else {
      RequestsAreArrivals(how, t, es, e.id);
      var q := s.requests[e.id];
      var c := Complaint(q.reporter, q.target, q.targetType, q.reason);
      assert Files(how, t, es, n, c, s.clock) && Records(how, s'.reports[k], c, s.clock);
    }
  }

  /** The `i`-th event stores a spam complaint about user `u` after `since` and up to `now`. */
  ghost predicate FilesSpam(how: Rendering, t: int, es: seq<Event>, i: nat, u: TargetId, since: int, now: int) {
    exists c, at :: Files(how, t, es, i, c, at)
      && c.target == u && c.targetType == User && c.reason == Spam && since < at <= now
  }

  /** The distinct users who did so. */
  ghost function SpamFilers(how: Rendering, t: int, es: seq<Event>, u: TargetId, since: int, now: int): set<UserId> {
    set i: nat | i < |es| && FilesSpam(how, t, es, i, u, since, now) :: ArrivalOf(es, es[i].id).value.reporter
  }

  /** Distinct users who reported `u` for spam after `since` and up to `now`. */
  function SpamReportersSince(reports: seq<Report>, u: TargetId, since: int, now: int): set<UserId> {
    set k | 0 <= k < |reports|
      && reports[k].target == u && reports[k].targetType == "user" && reports[k].reason == Spam
      && since < reports[k].createdAt <= now :: reports[k].reporter
  }

  /** The table's spam reporters of a user are users whose requests complained of spam. */
  lemma {:induction false} ReportersAreFilers(how: Rendering, t: int, es: seq<Event>, u: TargetId, since: int, now: int)
    requires Run(how, t, es).Some?
    ensures SpamReportersSince(Run(how, t, es).value.reports, u, since, now) <= SpamFilers(how, t, es, u, since, now)
  {
    var reports := Run(how, t, es).value.reports;
    forall x | x in SpamReportersSince(reports, u, since, now) ensures x in SpamFilers(how, t, es, u, since, now) {
      var k: nat :| k < |reports|
        && reports[k].target == u && reports[k].targetType == "user" && reports[k].reason == Spam
        && since < reports[k].createdAt <= now && reports[k].reporter == x;
      RowsStemFromRequests(how, t, es, k);
      var i: nat, c, at :| Files(how, t, es, i, c, at) && Records(how, reports[k], c, at);
      TextsMatchIff(how, c.targetType, Pending);
      assert FilesSpam(how, t, es, i, u, since, now);
    }
  }

  /**
   Every automatic ban of a target on which no complaint was doubled rests on requests of at least five
   distinct users who reported it for spam in the hour before the ban: the 24-hour duplicate check makes
   the hourly count a count of users.
   */
  lemma {:induction false} BansRestOnFiveReporters(how: Rendering, t: int, es: seq<Event>, k: nat)
    requires Run(how, t, es).Some? && k < |Run(how, t, es).value.restrictions|
    requires CleanRun(how, t, es, Run(how, t, es).value.restrictions[k].userId)
    ensures var s, r := Run(how, t, es).value, Run(how, t, es).value.restrictions[k];
      && r.expiresAt.Some? && r.expiresAt.value <= s.clock + DAY
      && var at := r.expiresAt.value - 24 * 3600;
      && |Reporters(s.reports, r.userId, at)| >= 5
      && |SpamFilers(how, t, es, r.userId, at - 3600, at)| >= 5
  {
    var s, r := Run(how, t, es).value, Run(how, t, es).value.restrictions[k];
    CleanRunInv(how, t, es, r.userId);
    assert Justified(r, s.reports);
    var at := r.expiresAt.value - DAY;
    ReportersAreFilers(how, t, es, r.userId, at - HOUR, at);
    assert Reporters(s.reports, r.userId, at) == SpamReportersSince(s.reports, r.userId, at - HOUR, at);
    SubsetCardinality(Reporters(s.reports, r.userId, at), SpamFilers(how, t, es, r.userId, at - HOUR, at));
  }

  /** Five distinct users reported `u` for spam in the 25 hours before `now`. */
  predicate ReportedByFive(reports: seq<Report>, u: TargetId, now: int) {
    |SpamReportersSince(reports, u, now - DAY - HOUR, now)| >= THRESHOLD
  }

  lemma ActiveIsRecent(r: Restriction, reports: seq<Report>, u: TargetId, now: int)
    requires Justified(r, reports) && Active(r, u, now) && r.expiresAt.value <= now + DAY
    ensures ReportedByFive(reports, u, now)
  {
    var at := r.expiresAt.value - DAY;
    var wide := SpamReportersSince(reports, u, now - DAY - HOUR, now);
    forall x | x in Reporters(reports, u, at) ensures x in wide {
    }
    SubsetCardinality(Reporters(reports, u, at), wide);
  }

  lemma RestrictedIsRecent(s: State, u: TargetId)
    requires BanInv(s, u) && IsRestricted(s.restrictions, u, s.clock)
    ensures ReportedByFive(s.reports, u, s.clock)
  {
    var k :| 0 <= k < |s.restrictions| && Active(s.restrictions[k], u, s.clock);
    ActiveIsRecent(s.restrictions[k], s.reports, u, s.clock);
  }

  /** Whoever is shown as restricted was reported for spam by requests of five distinct users in the last 25 hours. */
  lemma {:induction false} RestrictedWasReported(how: Rendering, t: int, es: seq<Event>, u: TargetId)
    requires Run(how, t, es).Some? && CleanRun(how, t, es, u)
    requires IsRestricted(Run(how, t, es).value.restrictions, u, Run(how, t, es).value.clock)
    ensures ReportedByFive(Run(how, t, es).value.reports, u, Run(how, t, es).value.clock)
    ensures var now := Run(how, t, es).value.clock; |SpamFilers(how, t, es, u, now - 25 * 3600, now)| >= 5
  {
    CleanRunInv(how, t, es, u);
    var s := Run(how, t, es).value;
    RestrictedIsRecent(s, u);
    ReportersAreFilers(how, t, es, u, s.clock - DAY - HOUR, s.clock);
    SubsetCardinality(SpamReportersSince(s.reports, u, s.clock - DAY - HOUR, s.clock),
                      SpamFilers(how, t, es, u, s.clock - 25 * 3600, s.clock));
  }
}
