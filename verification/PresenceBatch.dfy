/**
 The requests of a bulk update among all others: the batch hands its updates in one after the other, and
 anything may happen in between.
 */
module PresenceBatch {
  import opened Sequences
  import opened Sets
  import opened PresenceTypes
  import opened PresenceCache
  import opened PresenceMachine

  ghost predicate AllAnswered(hs: Handlers, batch: set<RequestId>) {
    forall id :: id in batch ==> id in hs && hs[id].phase.Done?
  }

  ghost function Successes(hs: Handlers, batch: set<RequestId>): set<RequestId> {
    set id | id in batch && Succeeded(hs, id)
  }

  ghost function Failures(hs: Handlers, batch: set<RequestId>): set<RequestId> {
    set id | id in batch && !Succeeded(hs, id)
  }

  ghost function Committed(log: seq<Item>, batch: set<RequestId>): set<RequestId> {
    set id | id in batch && Logged(log, id)
  }

  /** The published events of the batch, in commit order. */
  function PublishedFor(log: seq<Item>, hs: Handlers, batch: set<RequestId>): seq<PresenceEvent> {
    if log == [] then []
    else
      var item := log[|log| - 1];
      PublishedFor(log[..|log| - 1], hs, batch)
        + (if item.Update? && item.id in batch && Succeeded(hs, item.id) then [EventOf(item.req, item.now)] else [])
  }

  lemma {:induction false} BatchFollowsLog(log: seq<Item>, hs: Handlers, batch: set<RequestId>)
    ensures Subsequence(PublishedFor(log, hs, batch), Published(log, hs))
  {
    if log != [] {
      var front, item := log[..|log| - 1], log[|log| - 1];
      BatchFollowsLog(front, hs, batch);
      var ours, all := PublishedFor(front, hs, batch), Published(front, hs);
      if item.Update? && Succeeded(hs, item.id) {
        SubsequenceSkip(ours, all, EventOf(item.req, item.now));
        SubsequenceKeep(ours, all, EventOf(item.req, item.now));
      }
      assert ours + [] == ours;
    }
  }

  ghost predicate OneCommitEach(log: seq<Item>) {
    forall i, j :: 0 <= i < j < |log| && log[i].Update? && log[j].Update? ==> log[i].id != log[j].id
  }

  lemma LoggedSnoc(log: seq<Item>, id: RequestId)
    requires log != []
    ensures Logged(log, id) <==> Logged(log[..|log| - 1], id) || (log[|log| - 1].Update? && log[|log| - 1].id == id)
  {
    if Logged(log[..|log| - 1], id) {
      var k :| 0 <= k < |log| - 1 && log[..|log| - 1][k].Update? && log[..|log| - 1][k].id == id;
      assert log[k].id == id;
    }
  }

  /** As many events as successes with a commit. */
  lemma {:induction false} OneEventEach(log: seq<Item>, hs: Handlers, batch: set<RequestId>)
    requires OneCommitEach(log)
    ensures |PublishedFor(log, hs, batch)| == |Committed(log, Successes(hs, batch))|
  {
    var ok := Successes(hs, batch);
    if log == [] {
      assert Committed(log, ok) == {};
    } else {
      var front, item := log[..|log| - 1], log[|log| - 1];
      OneEventEach(front, hs, batch);
      forall id ensures Logged(log, id) <==> Logged(front, id) || (item.Update? && item.id == id) {
        LoggedSnoc(log, id);
      }
      if item.Update? && item.id in ok {
        assert !Logged(front, item.id);
        assert Committed(log, ok) == Committed(front, ok) + {item.id};
      } else {
        assert Committed(log, ok) == Committed(front, ok);
      }
    }
  }

  /**
   In every run, for every set of answered requests: successes and failures add up to the requests, the
   Kafka log has exactly one event per success, in commit order among all others, and the commits lie
   between the successes and the total.
   */
  lemma {:induction false} BatchIsConserved(t0: int, es: seq<Event>, batch: set<RequestId>)
    requires Run(t0, es).Some? && AllAnswered(Run(t0, es).value.handlers, batch)
    ensures var s := Run(t0, es).value;
      && |Successes(s.handlers, batch)| + |Failures(s.handlers, batch)| == |batch|
      && |PublishedFor(s.log, s.handlers, batch)| == |Successes(s.handlers, batch)|
      && Subsequence(PublishedFor(s.log, s.handlers, batch), s.kafka)
      && |Successes(s.handlers, batch)| <= |Committed(s.log, batch)| <= |batch|
  {
    var s := Run(t0, es).value;
    KafkaFollowsCommits(t0, es);
    BatchFollowsLog(s.log, s.handlers, batch);
    OneEventEach(s.log, s.handlers, batch);
    BatchSizes(s, batch);
  }

  lemma BatchSizes(s: State, batch: set<RequestId>)
    requires forall id :: Succeeded(s.handlers, id) ==> Logged(s.log, id)
    ensures Committed(s.log, Successes(s.handlers, batch)) == Successes(s.handlers, batch)
    ensures |Successes(s.handlers, batch)| + |Failures(s.handlers, batch)| == |batch|
    ensures |Successes(s.handlers, batch)| <= |Committed(s.log, batch)| <= |batch|
  {
    var ok, failed, committed := Successes(s.handlers, batch), Failures(s.handlers, batch), Committed(s.log, batch);
    assert ok + failed == batch && ok !! failed;
    SubsetCardinality(ok, committed);
    SubsetCardinality(committed, batch);
  }
}
