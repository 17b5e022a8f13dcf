/**
 Every interleaving of presence requests, the cleanup task and subscriptions, as a machine whose
 events are the stretches between two suspension points of the handler. The clock is read in one
 event, the write guard is taken in a much later one, and the guard is kept over the broadcast and
 the Kafka publish.
 */
module PresenceMachine {
  import opened Wrappers
  import opened Sequences
  import opened PresenceTypes
  import opened PresenceCache
  import R = RedisStore

  type StreamId = nat

  /** Where a request stands. The write guard is held in `InMemory` and `Announced`. */
  datatype Phase =
    | Connecting
    | Stamped(now: int)
    | KeyWritten(now: int)
    | IndexWritten(now: int)
    | IndexRenewed(now: int)
    | RowStored(now: int)
    | InMemory(now: int)
    | Announced(now: int)
    | Done(ok: bool)

  datatype Handler = Handler(req: UpdateRequest, phase: Phase)

  /** A subscriber of one channel; `received` is what its stream has yielded. */
  datatype Stream = Stream(userId: UserId, start: nat, cursor: nat, lagged: bool, received: seq<PresenceUpdate>)

  /** `log` records what happened under the write guard; `channels` what each sender was given. */
  datatype State = State(
    clock: int,
    handlers: map<RequestId, Handler>,
    guard: Option<RequestId>,
    sweepStamp: Option<int>,
    lastSweep: int,
    redis: R.Redis,
    history: seq<HistoryRow>,
    active: Cache,
    channels: map<UserId, seq<PresenceUpdate>>,
    streams: map<StreamId, Stream>,
    kafka: seq<PresenceEvent>,
    log: seq<Item>)

  datatype Event =
    | Tick(to: int)
    | Arrive(id: RequestId, req: UpdateRequest)
    | Connect(id: RequestId, ok: bool)
    | WriteKey(id: RequestId, ok: bool)
    | WriteIndex(id: RequestId, ok: bool)
    | RenewIndex(id: RequestId, ok: bool)
    | StoreRow(id: RequestId, ok: bool)
    | CommitInMemory(id: RequestId)
    | Announce(id: RequestId)
    | Publish(id: RequestId, ok: bool)
    | ReadSweepClock
    | RunSweep
    | Subscribe(stream: StreamId, userId: UserId)
    | Receive(stream: StreamId)
    | Lag(stream: StreamId, resumeAt: nat)

  function Init(t: int): State {
    State(t, map[], None, None, t, R.EMPTY, [], map[], map[], map[], [], [])
  }

  predicate At(s: State, id: RequestId, phase: Phase) {
    id in s.handlers && s.handlers[id].phase == phase
  }

  predicate Enabled(s: State, e: Event) {
    match e
    case Tick(to) => s.clock <= to
    case Arrive(id, _) => id !in s.handlers
    case Connect(id, _) => id in s.handlers && s.handlers[id].phase.Connecting?
    case WriteKey(id, _) => id in s.handlers && s.handlers[id].phase.Stamped?
    case WriteIndex(id, _) => id in s.handlers && s.handlers[id].phase.KeyWritten?
    case RenewIndex(id, _) => id in s.handlers && s.handlers[id].phase.IndexWritten?
    case StoreRow(id, _) => id in s.handlers && s.handlers[id].phase.IndexRenewed?
    case CommitInMemory(id) => id in s.handlers && s.handlers[id].phase.RowStored? && s.guard.None?
    case Announce(id) => id in s.handlers && s.handlers[id].phase.InMemory?
    case Publish(id, _) => id in s.handlers && s.handlers[id].phase.Announced?
    case ReadSweepClock => s.sweepStamp.None?
    case RunSweep => s.sweepStamp.Some? && s.guard.None?
    case Subscribe(x, _) => x !in s.streams
    case Receive(x) => x in s.streams && s.streams[x].cursor < |ChannelOf(s, s.streams[x].userId)|
    case Lag(x, to) => x in s.streams && s.streams[x].cursor < to <= |ChannelOf(s, s.streams[x].userId)|
  }

  function ChannelOf(s: State, u: UserId): seq<PresenceUpdate> {
    if u in s.channels then s.channels[u] else []
  }

  function Move(s: State, id: RequestId, phase: Phase): State
    requires id in s.handlers
  {
    s.(handlers := s.handlers[id := s.handlers[id].(phase := phase)])
  }

  function Apply(s: State, e: Event): State
    requires Enabled(s, e)
  {
    match e
    case Tick(to) => s.(clock := to)
    case Arrive(id, req) => s.(handlers := s.handlers[id := Handler(req, Connecting)])
    // A failed Redis connection is an error; otherwise the clock is read.
    case Connect(id, ok) => Move(s, id, if ok then Stamped(s.clock) else Done(false))
    // The results of the three Redis commands are discarded.
    case WriteKey(id, ok) =>
      var h := s.handlers[id];
      Move(if ok then s.(redis := R.SetEx(s.redis, h.req, h.phase.now, s.clock)) else s, id, KeyWritten(h.phase.now))
    case WriteIndex(id, ok) =>
      var h := s.handlers[id];
      Move(if ok then s.(redis := R.SAdd(s.redis, h.req, s.clock)) else s, id, IndexWritten(h.phase.now))
    case RenewIndex(id, ok) =>
      var h := s.handlers[id];
      Move(if ok then s.(redis := R.Expire(s.redis, h.req.userId, s.clock)) else s, id, IndexRenewed(h.phase.now))
    // A failed insert ends the request before the guard is taken.
    case StoreRow(id, ok) =>
      var h := s.handlers[id];
      if ok then Move(s.(history := s.history + [RowOf(h.req, h.phase.now)]), id, RowStored(h.phase.now))
      else Move(s, id, Done(false))
    case CommitInMemory(id) =>
      var h := s.handlers[id];
      Move(s.(guard := Some(id),
              active := Commit(s.active, h.req, h.phase.now),
              log := s.log + [Update(id, h.req, h.phase.now)]),
           id, InMemory(h.phase.now))
    case Announce(id) =>
      var h := s.handlers[id];
      var u := h.req.userId;
      var update := UpdateOf(h.req, h.phase.now);
      Move(if u in s.channels then s.(channels := s.channels[u := s.channels[u] + [update]]) else s,
           id, Announced(h.phase.now))
    // The guard is released when the handler returns, after the publish.
    case Publish(id, ok) =>
      var h := s.handlers[id];
      Move(s.(guard := None, kafka := if ok then s.kafka + [EventOf(h.req, h.phase.now)] else s.kafka), id, Done(ok))
    case ReadSweepClock => s.(sweepStamp := Some(s.clock))
    case RunSweep =>
      var t := s.sweepStamp.value;
      s.(sweepStamp := None, lastSweep := t, active := Sweep(s.active, t), log := s.log + [Swept(t)])
    case Subscribe(x, u) =>
      s.(channels := s.channels[u := ChannelOf(s, u)],
         streams := s.streams[x := Stream(u, |ChannelOf(s, u)|, |ChannelOf(s, u)|, false, [])])
    case Receive(x) =>
      var r := s.streams[x];
      var next := ChannelOf(s, r.userId)[r.cursor];
      s.(streams := s.streams[x := r.(cursor := r.cursor + 1, received := r.received + [next])])
    // A receiver that fell behind skips forward; the error it is given is filtered out of the stream.
    case Lag(x, to) =>
      s.(streams := s.streams[x := s.streams[x].(cursor := to, lagged := true)])
  }

  /** The state after a run of events, if each was enabled when it happened. */
  function Run(t: int, es: seq<Event>): Option<State> {
    if es == [] then Some(Init(t))
    else
      var e := es[|es| - 1];
      match Run(t, es[..|es| - 1])
      case None => None
      case Some(s) => if Enabled(s, e) then Some(Apply(s, e)) else None
  }

  /** The event is a step of this request. */
  predicate Acts(e: Event, id: RequestId) {
    (e.Arrive? || e.Connect? || e.WriteKey? || e.WriteIndex? || e.RenewIndex? || e.StoreRow? || e.CommitInMemory?
     || e.Announce? || e.Publish?)
    && e.id == id
  }

  /** Where a step leads its request. */
  function NextPhase(s: State, e: Event, id: RequestId): Phase
    requires Enabled(s, e) && !e.Arrive? && Acts(e, id)
  {
    var now := if e.Connect? then s.clock else s.handlers[id].phase.now;
    match e
    case Connect(_, ok) => if ok then Stamped(now) else Done(false)
    case WriteKey(_, _) => KeyWritten(now)
    case WriteIndex(_, _) => IndexWritten(now)
    case RenewIndex(_, _) => IndexRenewed(now)
    case StoreRow(_, ok) => if ok then RowStored(now) else Done(false)
    case CommitInMemory(_) => InMemory(now)
    case Announce(_) => Announced(now)
    case Publish(_, ok) => Done(ok)
  }

  lemma HandlerMoves(s: State, e: Event, id: RequestId)
    requires Enabled(s, e) && !e.Arrive? && Acts(e, id)
    ensures id in Apply(s, e).handlers
    ensures Apply(s, e).handlers[id] == Handler(s.handlers[id].req, NextPhase(s, e, id))
  {
  }

  lemma HandlerRests(s: State, e: Event, id: RequestId)
    requires Enabled(s, e) && !Acts(e, id)
    ensures id in Apply(s, e).handlers <==> id in s.handlers
    ensures id in s.handlers ==> Apply(s, e).handlers[id] == s.handlers[id]
  {
  }

  lemma LogRests(s: State, e: Event)
    requires Enabled(s, e) && !e.CommitInMemory? && !e.RunSweep?
    ensures Apply(s, e).log == s.log
  {
  }

  lemma GuardRests(s: State, e: Event)
    requires Enabled(s, e) && !e.CommitInMemory?
    ensures Apply(s, e).guard == if e.Publish? then None else s.guard
  {
  }

  // ---------- What each event keeps ----------

  ghost predicate ClockInv(s: State) {
    && s.lastSweep <= s.clock
    && (s.sweepStamp.Some? ==> s.sweepStamp.value <= s.clock)
    && (forall id :: id in s.handlers && !s.handlers[id].phase.Connecting? && !s.handlers[id].phase.Done? ==>
          s.handlers[id].phase.now <= s.clock)
    && (forall k :: 0 <= k < |s.log| ==> s.log[k].now <= s.clock)
    && R.Embedded(s.redis, s.clock)
  }

  predicate Holds(p: Phase) {
    p.InMemory? || p.Announced?
  }

  predicate Succeeded(hs: Handlers, id: RequestId) {
    id in hs && hs[id].phase == Done(true)
  }

  /** The events of those commits whose requests were answered with success, in commit order. */
  function Published(log: seq<Item>, hs: Handlers): seq<PresenceEvent> {
    if log == [] then []
    else
      var item := log[|log| - 1];
      var before := Published(log[..|log| - 1], hs);
      if item.Update? && Succeeded(hs, item.id) then before + [EventOf(item.req, item.now)] else before
  }

  /** The Kafka log, and the commit behind every success. */
  ghost predicate KafkaInv(s: State) {
    && s.kafka == Published(s.log, s.handlers)
    && (forall id :: Succeeded(s.handlers, id) ==> Logged(s.log, id))
  }

  /** One user's updates in commit order. */
  function UpdatesOf(log: seq<Item>, u: UserId): seq<PresenceUpdate> {
    if log == [] then []
    else
      var item := log[|log| - 1];
      var before := UpdatesOf(log[..|log| - 1], u);
      if item.Update? && item.req.userId == u then before + [UpdateOf(item.req, item.now)] else before
  }

  /** The part of the log that has been announced: all but a commit still on its way to the channel. */
  function Settled(s: State): seq<Item> {
    if s.log != [] && s.guard.Some? && s.guard.value in s.handlers && s.handlers[s.guard.value].phase.InMemory?
    then s.log[..|s.log| - 1] else s.log
  }

  ghost predicate IsSuffix<T>(a: seq<T>, b: seq<T>) {
    |a| <= |b| && b[|b| - |a|..] == a
  }

  /** A channel holds every update of its user announced since it was created. */
  ghost predicate ChannelInv(s: State) {
    forall u :: u in s.channels ==> IsSuffix(s.channels[u], UpdatesOf(Settled(s), u))
  }

  /** A stream yields what its channel was sent since it subscribed, minus what it lagged past. */
  ghost predicate StreamOk(x: Stream, channel: seq<PresenceUpdate>) {
    && x.start <= x.cursor <= |channel|
    && Subsequence(x.received, channel[x.start..x.cursor])
    && (!x.lagged ==> x.received == channel[x.start..x.cursor])
  }

  ghost predicate StreamInv(s: State) {
    forall x :: x in s.streams ==>
      s.streams[x].userId in s.channels && StreamOk(s.streams[x], s.channels[s.streams[x].userId])
  }

  type Handlers = map<RequestId, Handler>

  /** At most one request holds the guard, and its commit is the last thing in the log. */
  ghost predicate GuardInv(hs: Handlers, guard: Option<RequestId>, log: seq<Item>) {
    && (forall id :: id in hs && Holds(hs[id].phase) ==> guard == Some(id))
    && (guard.Some? ==>
          && guard.value in hs
          && Holds(hs[guard.value].phase)
          && log != []
          && log[|log| - 1] == Update(guard.value, hs[guard.value].req, hs[guard.value].phase.now))
  }

  /** Each commit is the one commit of a request that got as far as the guard. */
  ghost predicate LogInv(hs: Handlers, log: seq<Item>) {
    && (forall k :: 0 <= k < |log| && log[k].Update? ==>
          && log[k].id in hs
          && hs[log[k].id].req == log[k].req
          && (Holds(hs[log[k].id].phase) || hs[log[k].id].phase.Done?))
    && (forall i, j :: 0 <= i < j < |log| && log[i].Update? && log[j].Update? ==> log[i].id != log[j].id)
  }

  ghost predicate Logged(log: seq<Item>, id: RequestId) {
    exists k :: 0 <= k < |log| && log[k].Update? && log[k].id == id
  }

  /** A history row stands behind every request that asks for the guard and behind every commit. */
  ghost predicate RowInv(hs: Handlers, log: seq<Item>, history: seq<HistoryRow>) {
    && (forall id :: id in hs && hs[id].phase.RowStored? ==> RowOf(hs[id].req, hs[id].phase.now) in history)
    && (forall k :: 0 <= k < |log| && log[k].Update? ==> RowOf(log[k].req, log[k].now) in history)
  }

  ghost predicate CoreInv(s: State) {
    && GuardInv(s.handlers, s.guard, s.log)
    && LogInv(s.handlers, s.log)
    && RowInv(s.handlers, s.log, s.history)
  }

  /** The map in memory is the outcome of everything done under the guard. */
  ghost predicate CacheInv(s: State) {
    s.active == CacheOf(s.log)
  }

  ghost predicate Inv(s: State) {
    && CoreInv(s)
    && CacheInv(s)
    && ClockInv(s)
    && KafkaInv(s)
    && ChannelInv(s)
    && StreamInv(s)
  }

  // The shapes an event can take, as relations between the states around it.

  /** One stream subscribes, yields an update or lags; a new channel starts empty. */
  predicate Listens(s: State, s': State, x: StreamId) {
    && x in s'.streams
    && s' == s.(channels := s'.channels, streams := s.streams[x := s'.streams[x]])
    && s'.streams[x].userId in s'.channels
    && s'.channels == (if s'.streams[x].userId in s.channels then s.channels
                       else s.channels[s'.streams[x].userId := []])
  }

  /** A request before it asks for the guard: its own phase, Redis and the history table. */
  predicate Prepares(s: State, s': State, id: RequestId) {
    && id in s'.handlers
    && s' == s.(handlers := s.handlers[id := s'.handlers[id]], redis := s'.redis, history := s'.history)
    && s.history <= s'.history
    && var h' := s'.handlers[id];
    && !Holds(h'.phase) && h'.phase != Done(true)
    && (h'.phase.RowStored? ==> RowOf(h'.req, h'.phase.now) in s'.history)
    && (id in s.handlers ==>
          h'.req == s.handlers[id].req && !Holds(s.handlers[id].phase) && !s.handlers[id].phase.Done?)
  }

  predicate Commits(s: State, s': State, id: RequestId) {
    && id in s.handlers && s.handlers[id].phase.RowStored? && s.guard.None?
    && var h := s.handlers[id];
    && s' == s.(guard := Some(id), active := Commit(s.active, h.req, h.phase.now),
                log := s.log + [Update(id, h.req, h.phase.now)],
                handlers := s.handlers[id := Handler(h.req, InMemory(h.phase.now))])
  }

  predicate Announces(s: State, s': State, id: RequestId) {
    && id in s.handlers && s.handlers[id].phase.InMemory?
    && var h := s.handlers[id];
    && s' == s.(channels := s'.channels, handlers := s.handlers[id := Handler(h.req, Announced(h.phase.now))])
    && s'.channels == if h.req.userId !in s.channels then s.channels
                      else s.channels[h.req.userId := s.channels[h.req.userId] + [UpdateOf(h.req, h.phase.now)]]
  }

  predicate Publishes(s: State, s': State, id: RequestId, ok: bool) {
    && id in s.handlers && s.handlers[id].phase.Announced?
    && var h := s.handlers[id];
    && s' == s.(guard := None, kafka := if ok then s.kafka + [EventOf(h.req, h.phase.now)] else s.kafka,
                handlers := s.handlers[id := Handler(h.req, Done(ok))])
  }

  predicate Sweeps(s: State, s': State, t: int) {
    && s.guard.None?
    && s' == s.(sweepStamp := None, lastSweep := t, active := Sweep(s.active, t), log := s.log + [Swept(t)])
  }

  // ---------- Handlers, log and history ----------

  lemma PrepareStep(s: State, s': State, id: RequestId)
    requires Prepares(s, s', id)
    requires CoreInv(s)
    ensures CoreInv(s')
  {
  }

  /** A request reaches the guard once, so its id is new to the log. */
  lemma LogCommit(hs: Handlers, log: seq<Item>, id: RequestId)
    requires LogInv(hs, log) && id in hs && hs[id].phase.RowStored?
    ensures LogInv(hs[id := Handler(hs[id].req, InMemory(hs[id].phase.now))],
                   log + [Update(id, hs[id].req, hs[id].phase.now)])
  {
  }

  lemma GuardCommit(hs: Handlers, log: seq<Item>, id: RequestId)
    requires GuardInv(hs, None, log) && id in hs && hs[id].phase.RowStored?
    ensures GuardInv(hs[id := Handler(hs[id].req, InMemory(hs[id].phase.now))], Some(id),
                     log + [Update(id, hs[id].req, hs[id].phase.now)])
  {
  }

  lemma RowCommit(hs: Handlers, log: seq<Item>, history: seq<HistoryRow>, id: RequestId)
    requires RowInv(hs, log, history) && id in hs && hs[id].phase.RowStored?
    ensures RowInv(hs[id := Handler(hs[id].req, InMemory(hs[id].phase.now))],
                   log + [Update(id, hs[id].req, hs[id].phase.now)], history)
  {
  }

  lemma {:induction false} CommitStep(s: State, s': State, id: RequestId)
    requires Commits(s, s', id)
    requires CoreInv(s)
    ensures CoreInv(s')
  {
    GuardCommit(s.handlers, s.log, id);
    LogCommit(s.handlers, s.log, id);
    RowCommit(s.handlers, s.log, s.history, id);
  }

  lemma AnnounceStep(s: State, s': State, id: RequestId)
    requires Announces(s, s', id)
    requires CoreInv(s)
    ensures CoreInv(s')
  {
  }

  lemma PublishStep(s: State, s': State, id: RequestId, ok: bool)
    requires Publishes(s, s', id, ok)
    requires CoreInv(s)
    ensures CoreInv(s')
  {
  }

  lemma SweepStep(s: State, s': State, t: int)
    requires Sweeps(s, s', t)
    requires CoreInv(s)
    ensures CoreInv(s')
  {
  }

  lemma CacheCommit(s: State, s': State, id: RequestId)
    requires CacheInv(s) && Commits(s, s', id)
    ensures CacheInv(s')
  {
    assert s'.log[..|s'.log| - 1] == s.log;
  }

  lemma CacheSweep(s: State, s': State, t: int)
    requires CacheInv(s) && Sweeps(s, s', t)
    ensures CacheInv(s')
  {
    assert s'.log[..|s'.log| - 1] == s.log;
  }

  // ---------- The Kafka log ----------

  lemma {:induction false} PublishedFrame(log: seq<Item>, hs: Handlers, hs': Handlers)
    requires forall k :: 0 <= k < |log| && log[k].Update? ==> Succeeded(hs, log[k].id) == Succeeded(hs', log[k].id)
    ensures Published(log, hs) == Published(log, hs')
  {
    if log != [] {
      PublishedFrame(log[..|log| - 1], hs, hs');
    }
  }

  lemma LoggedGrows(log: seq<Item>, item: Item)
    ensures forall id :: Logged(log, id) ==> Logged(log + [item], id)
  {
    forall id | Logged(log, id) ensures Logged(log + [item], id) {
      var k :| 0 <= k < |log| && log[k].Update? && log[k].id == id;
      assert (log + [item])[k].Update? && (log + [item])[k].id == id;
    }
  }

  lemma KafkaPrepare(s: State, s': State, id: RequestId)
    requires CoreInv(s) && KafkaInv(s) && Prepares(s, s', id)
    ensures KafkaInv(s')
  {
    PublishedFrame(s.log, s.handlers, s'.handlers);
  }

  lemma KafkaCommit(s: State, s': State, id: RequestId)
    requires CoreInv(s) && KafkaInv(s) && Commits(s, s', id)
    ensures KafkaInv(s')
  {
    assert s'.log[..|s'.log| - 1] == s.log;
    PublishedFrame(s.log, s.handlers, s'.handlers);
    LoggedGrows(s.log, s'.log[|s.log|]);
  }

  lemma KafkaAnnounce(s: State, s': State, id: RequestId)
    requires CoreInv(s) && KafkaInv(s) && Announces(s, s', id)
    ensures KafkaInv(s')
  {
    PublishedFrame(s.log, s.handlers, s'.handlers);
  }

  /** The one event that can grow the log appends the event of the last commit, on success only. */
  lemma KafkaPublish(s: State, s': State, id: RequestId, ok: bool)
    requires CoreInv(s) && KafkaInv(s) && Publishes(s, s', id, ok)
    ensures KafkaInv(s')
  {
    var n := |s.log| - 1;
    assert s.log[n].Update? && s.log[n].id == id;
    assert Logged(s.log, id);
    PublishedFrame(s.log[..n], s.handlers, s'.handlers);
  }

  lemma KafkaSweep(s: State, s': State, t: int)
    requires CoreInv(s) && KafkaInv(s) && Sweeps(s, s', t)
    ensures KafkaInv(s')
  {
    assert s'.log[..|s'.log| - 1] == s.log;
    LoggedGrows(s.log, Swept(t));
  }

  // ---------- Channels and streams ----------

  lemma ChannelCommit(s: State, s': State, id: RequestId)
    requires CoreInv(s) && ChannelInv(s) && Commits(s, s', id)
    ensures ChannelInv(s')
  {
    assert s'.log[..|s'.log| - 1] == s.log;
  }

  lemma ChannelAnnounce(s: State, s': State, id: RequestId)
    requires CoreInv(s) && ChannelInv(s) && Announces(s, s', id)
    ensures ChannelInv(s')
  {
    var h := s.handlers[id];
    var item := s.log[|s.log| - 1];
    assert Settled(s) == s.log[..|s.log| - 1] && Settled(s') == s.log;
    forall u | u in s'.channels ensures IsSuffix(s'.channels[u], UpdatesOf(s.log, u)) {
      var was := UpdatesOf(Settled(s), u);
      if u == h.req.userId {
        assert UpdatesOf(s.log, u) == was + [UpdateOf(item.req, item.now)];
        SuffixGrows(s.channels[u], was, UpdateOf(item.req, item.now));
      }
    }
  }

  lemma SuffixGrows<T>(a: seq<T>, b: seq<T>, x: T)
    requires IsSuffix(a, b)
    ensures IsSuffix(a + [x], b + [x])
  {
  }

  lemma ChannelSweep(s: State, s': State, t: int)
    requires CoreInv(s) && ChannelInv(s) && Sweeps(s, s', t)
    ensures ChannelInv(s')
  {
    assert s'.log[..|s'.log| - 1] == s.log;
  }

  lemma StreamAnnounce(s: State, s': State, id: RequestId)
    requires StreamInv(s) && Announces(s, s', id)
    ensures StreamInv(s')
  {
    forall x | x in s'.streams ensures StreamOk(s'.streams[x], s'.channels[s'.streams[x].userId]) {
      var r := s.streams[x];
      StreamOkGrows(r, s.channels[r.userId], s'.channels[r.userId]);
    }
  }

  lemma StreamOkGrows(r: Stream, channel: seq<PresenceUpdate>, after: seq<PresenceUpdate>)
    requires StreamOk(r, channel) && channel <= after
    ensures StreamOk(r, after)
  {
    SliceOfPrefix(channel, after, r.start, r.cursor);
  }

  lemma StreamYields(r: Stream, channel: seq<PresenceUpdate>)
    requires StreamOk(r, channel) && r.cursor < |channel|
    ensures StreamOk(r.(cursor := r.cursor + 1, received := r.received + [channel[r.cursor]]), channel)
  {
    StretchGrows(r.received, channel, r.start, r.cursor);
  }

  lemma StreamLags(r: Stream, channel: seq<PresenceUpdate>, to: nat)
    requires StreamOk(r, channel) && r.cursor < to <= |channel|
    ensures StreamOk(r.(cursor := to, lagged := true), channel)
  {
    StretchSkips(r.received, channel, r.start, r.cursor, to);
  }

  lemma ListenStep(s: State, s': State, x: StreamId)
    requires Listens(s, s', x) && CoreInv(s) && ChannelInv(s) && StreamInv(s)
    requires StreamOk(s'.streams[x], s'.channels[s'.streams[x].userId])
    ensures ChannelInv(s') && StreamInv(s')
  {
    assert Settled(s') == Settled(s);
    forall y | y in s.streams ensures s'.channels[s.streams[y].userId] == s.channels[s.streams[y].userId] {
    }
  }

  lemma {:induction false} SubscribeKeeps(s: State, x: StreamId, u: UserId)
    requires Enabled(s, Subscribe(x, u)) && CoreInv(s) && ChannelInv(s) && StreamInv(s)
    ensures ChannelInv(Apply(s, Subscribe(x, u))) && StreamInv(Apply(s, Subscribe(x, u)))
  {
    var s' := Apply(s, Subscribe(x, u));
    assert u in s.channels ==> s.channels[u := s.channels[u]] == s.channels;
    ListenStep(s, s', x);
  }

  lemma {:induction false} ReceiveKeeps(s: State, x: StreamId)
    requires Enabled(s, Receive(x)) && CoreInv(s) && ChannelInv(s) && StreamInv(s)
    ensures ChannelInv(Apply(s, Receive(x))) && StreamInv(Apply(s, Receive(x)))
  {
    var r, s' := s.streams[x], Apply(s, Receive(x));
    var channel := s.channels[r.userId];
    StreamYields(r, channel);
    ReceiveShape(s, x, r, channel[r.cursor]);
    ListenStep(s, s', x);
  }

  lemma ReceiveShape(s: State, x: StreamId, r: Stream, next: PresenceUpdate)
    requires Enabled(s, Receive(x)) && r == s.streams[x] && r.userId in s.channels
    requires next == s.channels[r.userId][r.cursor]
    ensures Listens(s, Apply(s, Receive(x)), x) && Apply(s, Receive(x)).channels == s.channels
    ensures Apply(s, Receive(x)).streams[x] == r.(cursor := r.cursor + 1, received := r.received + [next])
  {
  }

  lemma {:induction false} LagKeeps(s: State, x: StreamId, to: nat)
    requires Enabled(s, Lag(x, to)) && CoreInv(s) && ChannelInv(s) && StreamInv(s)
    ensures ChannelInv(Apply(s, Lag(x, to))) && StreamInv(Apply(s, Lag(x, to)))
  {
    StreamLags(s.streams[x], s.channels[s.streams[x].userId], to);
    ListenStep(s, Apply(s, Lag(x, to)), x);
  }

  // ---------- The clock ----------

  lemma ClockTime(s: State, e: Event)
    requires ClockInv(s) && Enabled(s, e) && (e.Tick? || e.ReadSweepClock?)
    ensures ClockInv(Apply(s, e))
  {
  }

  lemma ClockRedis(s: State, e: Event)
    requires ClockInv(s) && Enabled(s, e) && (e.WriteIndex? || e.RenewIndex?)
    ensures ClockInv(Apply(s, e))
  {
  }

  lemma ClockKey(s: State, e: Event)
    requires ClockInv(s) && Enabled(s, e) && e.WriteKey?
    ensures ClockInv(Apply(s, e))
  {
  }

  lemma ClockPrepare(s: State, e: Event)
    requires ClockInv(s) && Enabled(s, e) && (e.Arrive? || e.Connect? || e.StoreRow?)
    ensures ClockInv(Apply(s, e))
  {
  }

  lemma StampsGrow(log: seq<Item>, item: Item, clock: int)
    requires (forall k :: 0 <= k < |log| ==> log[k].now <= clock) && item.now <= clock
    ensures forall k :: 0 <= k < |log + [item]| ==> (log + [item])[k].now <= clock
  {
  }

  lemma ClockCommit(s: State, id: RequestId)
    requires ClockInv(s) && Enabled(s, CommitInMemory(id))
    ensures ClockInv(Apply(s, CommitInMemory(id)))
  {
    StampsGrow(s.log, Update(id, s.handlers[id].req, s.handlers[id].phase.now), s.clock);
  }

  lemma ClockSweep(s: State)
    requires ClockInv(s) && Enabled(s, RunSweep)
    ensures ClockInv(Apply(s, RunSweep))
  {
    StampsGrow(s.log, Swept(s.sweepStamp.value), s.clock);
  }

  lemma ClockGuarded(s: State, e: Event)
    requires ClockInv(s) && Enabled(s, e) && (e.Announce? || e.Publish?)
    ensures ClockInv(Apply(s, e))
  {
  }

  // ---------- Whole runs ----------

  lemma PrepareKeeps(s: State, e: Event)
    requires Inv(s) && Enabled(s, e)
    requires e.Arrive? || e.Connect? || e.WriteKey? || e.WriteIndex? || e.RenewIndex? || e.StoreRow?
    ensures Inv(Apply(s, e))
  {
    var s' := Apply(s, e);
    PrepareShape(s, e);
    if e.Arrive? || e.Connect? || e.StoreRow? {
      ClockPrepare(s, e);
    } else if e.WriteKey? {
      ClockKey(s, e);
    } else {
      ClockRedis(s, e);
    }
    PrepareStep(s, s', e.id);
    KafkaPrepare(s, s', e.id);
    PrepareRests(s, s', e.id);
  }

  /** Nothing that is announced, sent or listened to changes before the guard. */
  lemma PrepareRests(s: State, s': State, id: RequestId)
    requires Prepares(s, s', id) && CacheInv(s) && ChannelInv(s) && StreamInv(s)
    ensures CacheInv(s') && ChannelInv(s') && StreamInv(s')
  {
    assert Settled(s') == Settled(s);
  }

  lemma PrepareShape(s: State, e: Event)
    requires Enabled(s, e)
    requires e.Arrive? || e.Connect? || e.WriteKey? || e.WriteIndex? || e.RenewIndex? || e.StoreRow?
    ensures Prepares(s, Apply(s, e), e.id)
  {
  }

  lemma CommitKeeps(s: State, id: RequestId)
    requires Inv(s) && Enabled(s, CommitInMemory(id))
    ensures Inv(Apply(s, CommitInMemory(id)))
  {
    var s' := Apply(s, CommitInMemory(id));
    ClockCommit(s, id);
    CommitStep(s, s', id);
    CacheCommit(s, s', id);
    KafkaCommit(s, s', id);
    ChannelCommit(s, s', id);
  }

  lemma AnnounceKeeps(s: State, id: RequestId)
    requires Inv(s) && Enabled(s, Announce(id))
    ensures Inv(Apply(s, Announce(id)))
  {
    var s' := Apply(s, Announce(id));
    ClockGuarded(s, Announce(id));
    AnnounceStep(s, s', id);
    KafkaAnnounce(s, s', id);
    ChannelAnnounce(s, s', id);
    StreamAnnounce(s, s', id);
  }

  lemma PublishKeeps(s: State, id: RequestId, ok: bool)
    requires Inv(s) && Enabled(s, Publish(id, ok))
    ensures Inv(Apply(s, Publish(id, ok)))
  {
    var s' := Apply(s, Publish(id, ok));
    ClockGuarded(s, Publish(id, ok));
    PublishStep(s, s', id, ok);
    KafkaPublish(s, s', id, ok);
    assert Settled(s') == Settled(s);
  }

  lemma SweepKeeps(s: State)
    requires Inv(s) && Enabled(s, RunSweep)
    ensures Inv(Apply(s, RunSweep))
  {
    var s' := Apply(s, RunSweep);
    var t := s.sweepStamp.value;
    ClockSweep(s);
    SweepStep(s, s', t);
    CacheSweep(s, s', t);
    KafkaSweep(s, s', t);
    ChannelSweep(s, s', t);
  }

  lemma StepKeepsInv(s: State, e: Event)
    requires Inv(s) && Enabled(s, e)
    ensures Inv(Apply(s, e))
  {
    match e {
      case Tick(_) =>
        ClockTime(s, e);
        assert Settled(Apply(s, e)) == Settled(s);
      case ReadSweepClock =>
        ClockTime(s, e);
        assert Settled(Apply(s, e)) == Settled(s);
      case CommitInMemory(id) => CommitKeeps(s, id);
      case Announce(id) => AnnounceKeeps(s, id);
      case Publish(id, ok) => PublishKeeps(s, id, ok);
      case RunSweep => SweepKeeps(s);
      case Subscribe(x, u) => SubscribeKeeps(s, x, u);
      case Receive(x) => ReceiveKeeps(s, x);
      case Lag(x, to) => LagKeeps(s, x, to);
      case _ => PrepareKeeps(s, e);
    }
  }

  lemma {:induction false} RunKeepsInv(t: int, es: seq<Event>)
    requires Run(t, es).Some?
    ensures Inv(Run(t, es).value)
  {
    if es != [] {
      RunKeepsInv(t, es[..|es| - 1]);
      StepKeepsInv(Run(t, es[..|es| - 1]).value, es[|es| - 1]);
    }
  }

  /**
   In every run, whatever the order in which requests read the clock and take the guard and however
   old the clock reading of a sweep: from now on, the map shows of each device its last commit while that
   is live, with its status, times and custom status, and then nothing.
   */
  lemma {:induction false} LiveView(t0: int, es: seq<Event>, u: UserId, d: DeviceId, t: int)
    requires Run(t0, es).Some? && Run(t0, es).value.clock <= t
    ensures var s := Run(t0, es).value;
      View(Lookup(s.active, u, d), t) == CommitView(LastCommit(s.log, u, d), t)
  {
    RunKeepsInv(t0, es);
    LiveViewIsLastCommit(Run(t0, es).value.log, u, d, t);
  }

  /** From now on the map shows, at each moment, the last commit among those still live at that moment. */
  ghost predicate ShowsLastLive(s: State, u: UserId, d: DeviceId) {
    forall t :: t >= s.clock ==>
      View(Lookup(s.active, u, d), t) == CommitView(LastLiveCommit(s.log, u, d, t), t)
  }

  /** The map does so exactly when no commit of the device that is live now has a later stamp than its last. */
  lemma {:induction false} ShowsLastLiveIff(t0: int, es: seq<Event>, u: UserId, d: DeviceId)
    requires Run(t0, es).Some?
    ensures var s := Run(t0, es).value;
      ShowsLastLive(s, u, d) <==> LastIsNewest(s.log, u, d, s.clock)
  {
    var s := Run(t0, es).value;
    if LastIsNewest(s.log, u, d, s.clock) {
      forall t | t >= s.clock
        ensures View(Lookup(s.active, u, d), t) == CommitView(LastLiveCommit(s.log, u, d, t), t)
      {
        LiveView(t0, es, u, d, t);
        LastSpeaksForLive(s.log, u, d, s.clock, t);
      }
    } else {
      var t := NewerOutlivesLast(s.log, u, d, s.clock);
      LiveView(t0, es, u, d, t);
    }
  }

  /** The entry that a commit stamped `now` is about to overwrite is live and has a later stamp. */
  predicate OverwritesNewer(s: State, r: UpdateRequest, now: int) {
    var e := Lookup(s.active, r.userId, r.deviceId);
    LiveAt(e, s.clock) && e.value.lastActive > now
  }

  lemma {:induction false} NewestAfterCommit(log: seq<Item>, item: Item, u: UserId, d: DeviceId, clock: int)
    requires IsCommitOf(item, u, d) && LastIsNewest(log, u, d, clock)
    ensures LastIsNewest(log + [item], u, d, clock)
       <==> !(LastCommit(log, u, d).Some? && IsLive(LastCommit(log, u, d).value, clock)
              && LastCommit(log, u, d).value.now > item.now)
  {
    var after := log + [item];
    assert after[..|after| - 1] == log;
    assert LastCommit(after, u, d) == Some(item);
    if LastCommit(log, u, d).Some? {
      var k := LastCommitIndex(log, u, d);
      assert after[k] == log[k];
    }
  }

  /** One commit takes this away from its device exactly when it overwrites a live entry with a later stamp. */
  lemma {:induction false} CommitKeepsLastLiveIff(t0: int, es: seq<Event>, id: RequestId)
    requires Run(t0, es).Some? && Enabled(Run(t0, es).value, CommitInMemory(id))
    requires var s := Run(t0, es).value; var r := s.handlers[id].req; ShowsLastLive(s, r.userId, r.deviceId)
    ensures var s := Run(t0, es).value; var h := s.handlers[id];
      ShowsLastLive(Apply(s, CommitInMemory(id)), h.req.userId, h.req.deviceId)
      <==> !OverwritesNewer(s, h.req, h.phase.now)
  {
    var s := Run(t0, es).value;
    var h := s.handlers[id];
    var u, d := h.req.userId, h.req.deviceId;
    var es' := es + [CommitInMemory(id)];
    assert es'[..|es'| - 1] == es;
    ShowsLastLiveIff(t0, es, u, d);
    ShowsLastLiveIff(t0, es', u, d);
    NewestAfterCommit(s.log, Update(id, h.req, h.phase.now), u, d, s.clock);
    LiveView(t0, es, u, d, s.clock);
  }

  /** In every run an entry is unique, under its own user, and explained by its first and last commit. */
  lemma {:induction false} EntriesExplained(t0: int, es: seq<Event>, u: UserId, e: PresenceState)
    requires Run(t0, es).Some? && u in Run(t0, es).value.active && e in Run(t0, es).value.active[u]
    ensures var s := Run(t0, es).value;
      && WellFormed(s.active)
      && LastCommit(s.log, u, e.deviceId).Some?
      && (exists k :: 0 <= k < |s.log| && OpensAt(s.log, k, u, e.deviceId)
            && Describes(e, s.log[k], LastCommit(s.log, u, e.deviceId).value))
  {
    var s := Run(t0, es).value;
    RunKeepsInv(t0, es);
    CacheShape(s.log);
    FindIsMembership(s.active[u], e);
    EntryOrigin(s.log, u, e.deviceId);
  }

  /** In every run, each entry repeats a stored history row, and so does each published event. */
  lemma HistoryBacksEverything(t0: int, es: seq<Event>)
    requires Run(t0, es).Some?
    ensures var s := Run(t0, es).value;
      && (forall u, e :: u in s.active && e in s.active[u] ==> BackedByRow(s.history, u, e))
      && (forall i :: 0 <= i < |s.kafka| ==> BackedByCommit(s, s.kafka[i]))
  {
    var s := Run(t0, es).value;
    RunKeepsInv(t0, es);
    forall u, e | u in s.active && e in s.active[u] ensures BackedByRow(s.history, u, e) {
      EntriesExplained(t0, es, u, e);
      var c := LastCommit(s.log, u, e.deviceId).value;
      assert RowOf(c.req, c.now) in s.history;
    }
    PublishedFromLog(s, s.log);
  }

  ghost predicate BackedByRow(history: seq<HistoryRow>, u: UserId, e: PresenceState) {
    exists row :: row in history
      && row.userId == u && row.deviceId == e.deviceId && row.status == e.status && row.createdAt == e.lastActive
  }

  ghost predicate BackedByCommit(s: State, event: PresenceEvent) {
    exists k :: 0 <= k < |s.log| && s.log[k].Update? && Reports(event, s.log[k], s.history)
  }

  /** The event tells of this commit, and the history table has its row. */
  predicate Reports(event: PresenceEvent, c: Item, history: seq<HistoryRow>)
    requires c.Update?
  {
    var r := c.req;
    && event == PresenceEvent(r.userId, r.status, r.deviceId, c.now, r.customStatus)
    && HistoryRow(r.userId, r.deviceId, r.status, r.ipAddress, r.userAgent, c.now) in history
  }

  lemma {:induction false} PublishedFromLog(s: State, log: seq<Item>)
    requires RowInv(s.handlers, s.log, s.history) && log <= s.log
    ensures forall i :: 0 <= i < |Published(log, s.handlers)| ==> BackedByCommit(s, Published(log, s.handlers)[i])
  {
    if log != [] {
      var n := |log| - 1;
      PublishedFromLog(s, log[..n]);
      assert s.log[n] == log[n];
      if log[n].Update? {
        assert Reports(EventOf(log[n].req, log[n].now), s.log[n], s.history);
      }
    }
  }

  /**
   In every run the Kafka log is the commit sequence minus the commits whose publish failed, and it
   has the event of every request that was answered with success.
   */
  lemma KafkaFollowsCommits(t0: int, es: seq<Event>)
    requires Run(t0, es).Some?
    ensures var s := Run(t0, es).value;
      && s.kafka == Published(s.log, s.handlers)
      && (forall id :: Succeeded(s.handlers, id) ==> Logged(s.log, id))
      && (forall i, j :: 0 <= i < j < |s.log| && s.log[i].Update? && s.log[j].Update? ==> s.log[i].id != s.log[j].id)
  {
    RunKeepsInv(t0, es);
  }

  ghost predicate IsSlice<T>(a: seq<T>, b: seq<T>) {
    exists lo, hi :: 0 <= lo <= hi <= |b| && a == b[lo..hi]
  }

  /** A stretch of a suffix of a prefix is a stretch of the whole. */
  lemma StretchOfWhole<T>(channel: seq<T>, settled: seq<T>, all: seq<T>, lo: nat, hi: nat)
    requires IsSuffix(channel, settled) && settled <= all && lo <= hi <= |channel|
    ensures IsSlice(channel[lo..hi], all) && Subsequence(channel[lo..hi], all)
  {
    var from := |settled| - |channel|;
    assert channel[lo..hi] == settled[from + lo..from + hi];
    SliceOfPrefix(settled, all, from + lo, from + hi);
    SliceIsSubsequence(all, from + lo, from + hi);
  }

  lemma TailOfSuffix<T>(channel: seq<T>, settled: seq<T>, lo: nat)
    requires IsSuffix(channel, settled) && lo <= |channel|
    ensures IsSuffix(channel[lo..|channel|], settled)
  {
  }

  lemma SettledIsPrefix(s: State, u: UserId)
    ensures UpdatesOf(Settled(s), u) <= UpdatesOf(s.log, u)
  {
  }

  /**
   In every run a stream is an order-preserving subsequence of its user's commits. If it never lagged
   it is a contiguous stretch of them, and once it has caught up it ends with the last one announced.
   */
  lemma {:induction false} StreamsFollowCommits(t0: int, es: seq<Event>, x: StreamId)
    requires Run(t0, es).Some? && x in Run(t0, es).value.streams
    ensures var s, r := Run(t0, es).value, Run(t0, es).value.streams[x];
      && Subsequence(r.received, UpdatesOf(s.log, r.userId))
      && (!r.lagged ==> IsSlice(r.received, UpdatesOf(s.log, r.userId)))
      && (!r.lagged && r.cursor == |ChannelOf(s, r.userId)| ==> IsSuffix(r.received, UpdatesOf(Settled(s), r.userId)))
  {
    var s := Run(t0, es).value;
    var r := s.streams[x];
    RunKeepsInv(t0, es);
    SettledIsPrefix(s, r.userId);
    var channel, settled, all := s.channels[r.userId], UpdatesOf(Settled(s), r.userId), UpdatesOf(s.log, r.userId);
    StretchOfWhole(channel, settled, all, r.start, r.cursor);
    SubsequenceTransitive(r.received, channel[r.start..r.cursor], all);
    if r.cursor == |channel| {
      TailOfSuffix(channel, settled, r.start);
    }
  }

  predicate HasLagged(es: seq<Event>, x: StreamId) {
    exists i :: 0 <= i < |es| && es[i].Lag? && es[i].stream == x
  }

  lemma LagStep(s: State, e: Event, x: StreamId)
    requires Enabled(s, e) && x in Apply(s, e).streams
    ensures Apply(s, e).streams[x].lagged <==> (e.Lag? && e.stream == x) || (x in s.streams && s.streams[x].lagged)
  {
  }

  /** In every run a stream counts as lagged exactly when it has lagged. */
  lemma {:induction false} LaggedIff(t0: int, es: seq<Event>, x: StreamId)
    requires Run(t0, es).Some?
    ensures HasLagged(es, x) ==> x in Run(t0, es).value.streams
    ensures x in Run(t0, es).value.streams ==> (Run(t0, es).value.streams[x].lagged <==> HasLagged(es, x))
  {
    if es != [] {
      var front, e := es[..|es| - 1], es[|es| - 1];
      LaggedIff(t0, front, x);
      var s := Run(t0, front).value;
      assert HasLagged(es, x) <==> HasLagged(front, x) || (e.Lag? && e.stream == x) by {
        if HasLagged(front, x) {
          var i :| 0 <= i < |front| && front[i].Lag? && front[i].stream == x;
          assert es[i] == front[i];
        }
      }
      if x in s.streams {
        StreamStays(s, e, x);
      }
      if x in Apply(s, e).streams {
        LagStep(s, e, x);
      }
    }
  }

  /** How many of a user's announced updates came before its channel was created. */
  function Missed(s: State, u: UserId): int
    requires u in s.channels
  {
    |UpdatesOf(Settled(s), u)| - |s.channels[u]|
  }

  lemma MissedCommit(s: State, id: RequestId, u: UserId)
    requires CoreInv(s) && Enabled(s, CommitInMemory(id)) && u in s.channels
    ensures u in Apply(s, CommitInMemory(id)).channels && Missed(Apply(s, CommitInMemory(id)), u) == Missed(s, u)
  {
    var s' := Apply(s, CommitInMemory(id));
    CommitShape(s, id);
    assert s'.log[..|s'.log| - 1] == s.log;
    assert Settled(s') == s.log == Settled(s);
  }

  lemma CommitShape(s: State, id: RequestId)
    requires Enabled(s, CommitInMemory(id))
    ensures Commits(s, Apply(s, CommitInMemory(id)), id)
  {
  }

  lemma MissedAnnounce(s: State, id: RequestId, u: UserId)
    requires CoreInv(s) && Enabled(s, Announce(id)) && u in s.channels
    ensures u in Apply(s, Announce(id)).channels && Missed(Apply(s, Announce(id)), u) == Missed(s, u)
  {
    var s', n := Apply(s, Announce(id)), |s.log| - 1;
    assert Settled(s) == s.log[..n] && Settled(s') == s.log;
  }

  lemma MissedSweep(s: State, u: UserId)
    requires CoreInv(s) && Enabled(s, RunSweep) && u in s.channels
    ensures u in Apply(s, RunSweep).channels && Missed(Apply(s, RunSweep), u) == Missed(s, u)
  {
    var s' := Apply(s, RunSweep);
    assert s'.log[..|s'.log| - 1] == s.log;
  }

  lemma MissedStays(s: State, e: Event, u: UserId)
    requires CoreInv(s) && Enabled(s, e) && u in s.channels
    ensures u in Apply(s, e).channels && Missed(Apply(s, e), u) == Missed(s, u)
  {
    match e {
      case CommitInMemory(id) => MissedCommit(s, id, u);
      case Announce(id) => MissedAnnounce(s, id, u);
      case RunSweep => MissedSweep(s, u);
      case _ => MissedQuiet(s, e, u);
    }
  }

  lemma ChannelRests(s: State, e: Event, u: UserId)
    requires Enabled(s, e) && u in s.channels && !e.Announce?
    ensures u in Apply(s, e).channels && Apply(s, e).channels[u] == s.channels[u]
  {
  }

  lemma SettledRests(s: State, e: Event)
    requires CoreInv(s) && Enabled(s, e) && !e.CommitInMemory? && !e.Announce? && !e.RunSweep?
    ensures Settled(Apply(s, e)) == Settled(s)
  {
    LogRests(s, e);
    GuardRests(s, e);
    if s.guard.Some? {
      if Acts(e, s.guard.value) {
        HandlerMoves(s, e, s.guard.value);
      } else {
        HandlerRests(s, e, s.guard.value);
      }
    }
  }

  lemma MissedQuiet(s: State, e: Event, u: UserId)
    requires CoreInv(s) && Enabled(s, e) && u in s.channels && !e.CommitInMemory? && !e.Announce? && !e.RunSweep?
    ensures u in Apply(s, e).channels && Missed(Apply(s, e), u) == Missed(s, u)
  {
    ChannelRests(s, e, u);
    SettledRests(s, e);
  }

  lemma StreamStays(s: State, e: Event, x: StreamId)
    requires Enabled(s, e) && x in s.streams
    ensures x in Apply(s, e).streams
    ensures Apply(s, e).streams[x].userId == s.streams[x].userId && Apply(s, e).streams[x].start == s.streams[x].start
  {
  }

  /** The user's updates announced before the `i`-th event. */
  function AnnouncedBefore(t0: int, es: seq<Event>, i: nat, u: UserId): nat
    requires i <= |es| && Run(t0, es[..i]).Some?
  {
    |UpdatesOf(Settled(Run(t0, es[..i]).value), u)|
  }

  lemma {:induction false} StreamOffset(t0: int, es: seq<Event>, i: nat, x: StreamId, u: UserId)
    requires Run(t0, es).Some? && i < |es| && es[i] == Subscribe(x, u)
    ensures Run(t0, es[..i]).Some?
    ensures var s := Run(t0, es).value;
      && x in s.streams && s.streams[x].userId == u && u in s.channels
      && Missed(s, u) + s.streams[x].start == AnnouncedBefore(t0, es, i, u)
  {
    var n := |es| - 1;
    var s := Run(t0, es[..n]).value;
    RunKeepsInv(t0, es[..n]);
    if i == n {
      assert Settled(Apply(s, es[n])) == Settled(s);
    } else {
      assert es[..n][..i] == es[..i];
      StreamOffset(t0, es[..n], i, x, u);
      MissedStays(s, es[n], u);
      StreamStays(s, es[n], x);
    }
  }

  lemma StreamIsFresh(r: Stream, channel: seq<PresenceUpdate>, settled: seq<PresenceUpdate>,
                      all: seq<PresenceUpdate>, n: nat)
    requires StreamOk(r, channel) && IsSuffix(channel, settled) && settled <= all
    requires |settled| - |channel| + r.start == n
    ensures n <= |all| && Subsequence(r.received, all[n..])
  {
    var from := |settled| - |channel|;
    assert channel[r.start..r.cursor] == settled[n..from + r.cursor];
    SliceOfPrefix(settled, all, n, from + r.cursor);
    assert all[n..][..r.cursor - r.start] == all[n..from + r.cursor];
    SliceIsSubsequence(all[n..], 0, r.cursor - r.start);
    SubsequenceTransitive(r.received, channel[r.start..r.cursor], all[n..]);
  }

  /** In every run a stream yields nothing that was announced before it subscribed. */
  lemma {:induction false} StreamsStartFresh(t0: int, es: seq<Event>, i: nat, x: StreamId, u: UserId)
    requires Run(t0, es).Some? && i < |es| && es[i] == Subscribe(x, u)
    ensures Run(t0, es[..i]).Some? && x in Run(t0, es).value.streams
    ensures var s, n := Run(t0, es).value, AnnouncedBefore(t0, es, i, u);
      n <= |UpdatesOf(s.log, u)| && Subsequence(s.streams[x].received, UpdatesOf(s.log, u)[n..])
  {
    var s := Run(t0, es).value;
    StreamOffset(t0, es, i, x, u);
    RunKeepsInv(t0, es);
    SettledIsPrefix(s, u);
    StreamIsFresh(s.streams[x], s.channels[u], UpdatesOf(Settled(s), u), UpdatesOf(s.log, u),
                  AnnouncedBefore(t0, es, i, u));
  }

  /** In every run, whatever Redis commands fail or are delayed, an embedded expiry never outlives its key. */
  lemma {:induction false} EmbeddedNeverOutlivesKey(t0: int, es: seq<Event>)
    requires Run(t0, es).Some?
    ensures R.Embedded(Run(t0, es).value.redis, Run(t0, es).value.clock)
  {
    RunKeepsInv(t0, es);
  }
}
