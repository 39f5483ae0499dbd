/**
 The delivery machine and the agent's database object: a round of the send loop that nothing
 interrupts does to the queue what one call of `SendQueuedMetrics` does.
 */
module DeliveryRounds {
  import opened Wrappers
  import opened AgentTables
  import opened ServerStore
  import opened Delivery
  import A = AgentDatabase

  lemma FirstThen(c: Config, s: State, e: Event, rest: seq<Event>)
    requires CanStep(c, s, e) && CanRun(c, Apply(c, s, e), rest)
    ensures CanRun(c, s, [e] + rest) && Execute(c, s, [e] + rest) == Execute(c, Apply(c, s, e), rest)
  {
    hide Apply, CanStep;
    assert ([e] + rest)[1..] == rest;
  }

  /** One failure is recorded for each entry of a batch, at consecutive clock readings. */
  function FailureRun(n: nat, clock: nat -> int, from: nat): seq<Event> {
    if n == 0 then [] else [RecordFailure(clock(from))] + FailureRun(n - 1, clock, from + 1)
  }

  /** What recording all failures does to the queue. */
  ghost predicate AllRecorded(c: Config, before: State, after: State, rest: seq<nat>, clock: nat -> int, from: nat)
    requires forall q | q in rest :: q in before.t.queue
  {
    && after.phase.Idle? && after.t == before.t.(queue := after.t.queue) && after.server == before.server
    && after.t.queue.Keys == before.t.queue.Keys
    && (forall j | 0 <= j < |rest| ::
          A.FailedOnce(before.t.queue[rest[j]], after.t.queue[rest[j]], c.maxRetries, clock(from + j)))
    && (forall q | q in after.t.queue && q !in rest :: after.t.queue[q] == before.t.queue[q])
  }

  lemma RecordOne(c: Config, s: State, now: int)
    requires s.phase.Failing? && s.phase.rest != [] && s.phase.rest[0] in s.t.queue
    ensures var q, s' := s.phase.rest[0], RecordFailureStep(c, s, now);
      && s'.t == s.t.(queue := s'.t.queue) && s'.server == s.server && s'.t.queue.Keys == s.t.queue.Keys
      && A.FailedOnce(s.t.queue[q], s'.t.queue[q], c.maxRetries, now)
      && (forall p | p in s.t.queue && p != q :: s'.t.queue[p] == s.t.queue[p])
      && s'.phase == if |s.phase.rest| == 1 then Idle else Failing(s.phase.rest[1..])
  {
    hide BackoffMinutes;
  }

  lemma {:induction false} RecordAll(c: Config, s: State, clock: nat -> int, from: nat)
    requires s.phase.Failing? && s.phase.rest != [] && Distinct(s.phase.rest)
    requires forall q | q in s.phase.rest :: q in s.t.queue
    ensures CanRun(c, s, FailureRun(|s.phase.rest|, clock, from))
    ensures AllRecorded(c, s, Execute(c, s, FailureRun(|s.phase.rest|, clock, from)), s.phase.rest, clock, from)
    decreases |s.phase.rest|
  {
    hide A.FailedOnce, RecordFailureStep, CanRun, Execute;
    var rest, e := s.phase.rest, RecordFailure(clock(from));
    var s1 := Apply(c, s, e);
    RecordOne(c, s, clock(from));
    var later := FailureRun(|rest| - 1, clock, from + 1);
    assert rest == [rest[0]] + rest[1..];
    if |rest| > 1 {
      RecordAll(c, s1, clock, from + 1);
      var after := Execute(c, s1, later);
      forall j | 0 <= j < |rest|
        ensures A.FailedOnce(s.t.queue[rest[j]], after.t.queue[rest[j]], c.maxRetries, clock(from + j))
      {
        if j > 0 {
          assert rest[1..][j - 1] == rest[j] && rest[j] != rest[0];
        }
      }
    } else {
      NothingMore(c, s1);
    }
    FirstThen(c, s, e, later);
  }

  lemma NothingMore(c: Config, s: State)
    ensures CanRun(c, s, []) && Execute(c, s, []) == s
  {
  }

  /** The queue once a batch is fetched and sent, and the request under way. */
  lemma BatchGoesOut(c: Config, s: State, limit: nat, ids: seq<nat>, clock: nat -> int)
    requires s.phase.Idle? && IsBatch(s.t, clock(0), limit, ids) && Resolve(s.t, ids) != []
    ensures CanStep(c, s, Fetch(clock(0), limit, ids))
    ensures var s1 := Apply(c, s, Fetch(clock(0), limit, ids));
      && CanStep(c, s1, Send(clock(1)))
      && var s2 := Apply(c, s1, Send(clock(1)));
        && s2.phase == Waiting(s.nextRequest, Resolve(s.t, ids)) && s2.server == s.server && s2.answers == s.answers
        && s2.t == A.WhileOut(s.t, ids, Resolve(s.t, ids), clock(1))
        && s.nextRequest in s2.transit && s.nextRequest in s2.requests
        && s2.requests[s.nextRequest] == Metrics(Resolve(s.t, ids))
  {
    hide IsBatch, Resolve;
  }

  /** The agent's view of a round: the batch was the fetched one and each of its entries failed once more. */
  ghost predicate IsRefusedRound(c: Config, before: Tables, after: Tables, ids: seq<nat>, clock: nat -> int) {
    && after == before.(queue := after.queue)
    && A.IsLoaded(before, ids, Resolve(before, ids)) && A.OrphansRemoved(before, ids, after.queue)
    && A.OthersKept(before.queue, after.queue, ids) && A.NoneSending(after.queue, ids)
    && A.EachFailed(before.queue, after.queue, Resolve(before, ids), c.maxRetries, clock)
  }

  lemma FailuresEndRound(c: Config, s: State, s3: State, limit: nat, ids: seq<nat>, clock: nat -> int)
    requires IsBatch(s.t, clock(0), limit, ids) && Resolve(s.t, ids) != []
    requires s3.t == A.WhileOut(s.t, ids, Resolve(s.t, ids), clock(1)) && s3.phase == Failing(Ids(Resolve(s.t, ids)))
    ensures var run := FailureRun(|Resolve(s.t, ids)|, clock, 2);
      && CanRun(c, s3, run) && Execute(c, s3, run).phase.Idle?
      && IsRefusedRound(c, s.t, Execute(c, s3, run).t, ids, clock)
  {
    var batch := Resolve(s.t, ids);
    A.BatchEntries(s.t, clock(0), limit, ids);
    A.ResolveLoads(s.t, ids);
    A.IdsOfBatch(s.t, ids, batch, clock(1));
    hide IsBatch, Resolve, A.IsLoaded, A.OrphansRemoved, A.NoneSending, A.FailedOnce, OldestFirst, Ids, CanRun, Execute;
    RecordAll(c, s3, clock, 2);
    var after := Execute(c, s3, FailureRun(|batch|, clock, 2));
    RecordedEach(c, s3, after, batch, clock);
    A.RoundRefused(s.t, ids, batch, clock(1), after.t.queue, c.maxRetries, clock);
    assert s3.t == s.t.(queue := s3.t.queue);
  }

  lemma RecordedEach(c: Config, before: State, after: State, batch: seq<QueuedMetric>, clock: nat -> int)
    requires |Ids(batch)| == |batch| && forall i | 0 <= i < |batch| :: Ids(batch)[i] == batch[i].queueId
    requires (forall q | q in Ids(batch) :: q in before.t.queue) && AllRecorded(c, before, after, Ids(batch), clock, 2)
    ensures A.EachFailed(before.t.queue, after.t.queue, batch, c.maxRetries, clock)
    ensures A.OthersKept(before.t.queue, after.t.queue, Ids(batch))
  {
    hide A.FailedOnce, Ids;
    forall i | 0 <= i < |batch|
      ensures batch[i].queueId in before.t.queue && batch[i].queueId in after.t.queue
      ensures A.FailedOnce(before.t.queue[batch[i].queueId], after.t.queue[batch[i].queueId], c.maxRetries, clock(i + 2))
    {
      assert Ids(batch)[i] == batch[i].queueId && Ids(batch)[i] in Ids(batch) && clock(2 + i) == clock(i + 2);
    }
  }

  /** A round whose request gets no answer in time does to the queue what the refused call does. */
  lemma UnansweredRoundIsRefusedCall(c: Config, s: State, limit: nat, ids: seq<nat>, clock: nat -> int)
    requires s.phase.Idle? && IsBatch(s.t, clock(0), limit, ids) && Resolve(s.t, ids) != []
    ensures var run := [Fetch(clock(0), limit, ids)] + ([Send(clock(1))] + ([GiveUp] + FailureRun(|Resolve(s.t, ids)|, clock, 2)));
      && CanRun(c, s, run) && Execute(c, s, run).phase.Idle?
      && IsRefusedRound(c, s.t, Execute(c, s, run).t, ids, clock)
  {
    hide IsBatch, Resolve, CanRun, Execute, IsRefusedRound, A.WhileOut;
    var fetch, send := Fetch(clock(0), limit, ids), Send(clock(1));
    BatchGoesOut(c, s, limit, ids, clock);
    var s1 := Apply(c, s, fetch);
    var s2 := Apply(c, s1, send);
    var s3 := Apply(c, s2, GiveUp);
    var failures := FailureRun(|Resolve(s.t, ids)|, clock, 2);
    FailuresEndRound(c, s, s3, limit, ids, clock);
    FirstThen(c, s2, GiveUp, failures);
    FirstThen(c, s1, send, [GiveUp] + failures);
    FirstThen(c, s, fetch, [send] + ([GiveUp] + failures));
  }

  /** A request that arrives is answered by the transaction, and the agent takes the answer. */
  lemma ServerAnswers(c: Config, s: State, batch: seq<QueuedMetric>, now: int)
    requires s.phase.Waiting? && s.phase.batch == batch && ServerOk(s.server)
    requires s.phase.request in s.transit && s.phase.request in s.requests && s.requests[s.phase.request] == Metrics(batch)
    ensures CanStep(c, s, Deliver(s.phase.request, false))
    ensures var s1 := Apply(c, s, Deliver(s.phase.request, false));
      && CanStep(c, s1, Receive(now))
      && var s2 := Apply(c, s1, Receive(now));
        if NoClash(s.server, c.me, Metrics(batch)) then
          && InsertAll(s.server, c.me, Metrics(batch)) == Some(s2.server) && s2.phase.Idle?
          && s2.t == MarkSent(s.t, Ids(batch), now)
        else
          s2.server == s.server && s2.t == s.t && s2.phase == Failing(Ids(batch))
  {
    CommitsIffNoClash(s.server, c.me, Metrics(batch));
    hide InsertAll, NoClash, Ids, Metrics, MarkSent, ServerOk;
  }

  /**
   A round that the server answers: without a clash the batch is committed and every entry is
   sent, as by the accepted call; with a clash the server stays as it was and the round ends as
   the refused call does.
   */
  lemma AnsweredRoundIsOneCall(c: Config, s: State, limit: nat, ids: seq<nat>, clock: nat -> int)
    requires s.phase.Idle? && IsBatch(s.t, clock(0), limit, ids) && Resolve(s.t, ids) != [] && ServerOk(s.server)
    ensures var batch := Resolve(s.t, ids);
      var failures := if NoClash(s.server, c.me, Metrics(batch)) then [] else FailureRun(|batch|, clock, 2);
      var run := [Fetch(clock(0), limit, ids)] + ([Send(clock(1))] + ([Deliver(s.nextRequest, false)] + ([Receive(clock(2))] + failures)));
      && CanRun(c, s, run)
      && var s' := Execute(c, s, run);
        && s'.phase.Idle?
        && (NoClash(s.server, c.me, Metrics(batch)) ==>
              && InsertAll(s.server, c.me, Metrics(batch)) == Some(s'.server)
              && A.IsLoaded(s.t, ids, batch) && A.OrphansRemoved(s.t, ids, s'.t.queue)
              && A.OthersKept(s.t.queue, s'.t.queue, ids) && A.NoneSending(s'.t.queue, ids)
              && A.EachSent(s.t.queue, s'.t.queue, batch, clock(1), clock(2)))
        && (!NoClash(s.server, c.me, Metrics(batch)) ==>
              s'.server == s.server && IsRefusedRound(c, s.t, s'.t, ids, clock))
  {
    hide IsBatch, Resolve, CanRun, Execute, IsRefusedRound, A.WhileOut, Metrics, Ids, Apply, CanStep, NoClash, ServerOk;
    hide InsertAll, MarkSent, A.IsLoaded, A.OrphansRemoved, A.OthersKept, A.NoneSending, A.EachSent;
    var batch := Resolve(s.t, ids);
    var fetch, send, deliver, receive := Fetch(clock(0), limit, ids), Send(clock(1)), Deliver(s.nextRequest, false), Receive(clock(2));
    BatchGoesOut(c, s, limit, ids, clock);
    var s1 := Apply(c, s, fetch);
    var s2 := Apply(c, s1, send);
    ServerAnswers(c, s2, batch, clock(2));
    var s3 := Apply(c, s2, deliver);
    var s4 := Apply(c, s3, receive);
    var failures := if NoClash(s.server, c.me, Metrics(batch)) then [] else FailureRun(|batch|, clock, 2);
    if NoClash(s.server, c.me, Metrics(batch)) {
      AcceptedEndsRound(c, s, s4, limit, ids, clock);
    } else {
      FailuresEndRound(c, s, s4, limit, ids, clock);
      FailuresKeepServer(c, s4, |batch|, clock, 2);
    }
    FirstThen(c, s3, receive, failures);
    FirstThen(c, s2, deliver, [receive] + failures);
    FirstThen(c, s1, send, [deliver] + ([receive] + failures));
    FirstThen(c, s, fetch, [send] + ([deliver] + ([receive] + failures)));
  }

  lemma AcceptedEndsRound(c: Config, s: State, s4: State, limit: nat, ids: seq<nat>, clock: nat -> int)
    requires IsBatch(s.t, clock(0), limit, ids)
    requires s4.t == MarkSent(A.WhileOut(s.t, ids, Resolve(s.t, ids), clock(1)), Ids(Resolve(s.t, ids)), clock(2))
    ensures CanRun(c, s4, []) && Execute(c, s4, []) == s4
    ensures var batch := Resolve(s.t, ids);
      && A.IsLoaded(s.t, ids, batch) && A.OrphansRemoved(s.t, ids, s4.t.queue)
      && A.OthersKept(s.t.queue, s4.t.queue, ids) && A.NoneSending(s4.t.queue, ids)
      && A.EachSent(s.t.queue, s4.t.queue, batch, clock(1), clock(2))
  {
    A.BatchEntries(s.t, clock(0), limit, ids);
    A.ResolveLoads(s.t, ids);
    A.RoundAccepted(s.t, ids, Resolve(s.t, ids), clock(1), clock(2));
  }

  lemma {:induction false} FailuresKeepServer(c: Config, s: State, n: nat, clock: nat -> int, from: nat)
    requires CanRun(c, s, FailureRun(n, clock, from))
    ensures Execute(c, s, FailureRun(n, clock, from)).server == s.server
    decreases n
  {
    if n > 0 {
      var later := FailureRun(n - 1, clock, from + 1);
      assert FailureRun(n, clock, from)[1..] == later;
      FailuresKeepServer(c, Apply(c, s, RecordFailure(clock(from))), n - 1, clock, from + 1);
    }
  }
}
