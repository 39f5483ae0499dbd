/** Where poison comes from, exactly, and what it does to the healthy entries of a batch. */
module DeliveryFaults {
  import opened Wrappers
  import opened AgentTables
  import opened ServerStore
  import opened Delivery
  import opened DeliveryTheorems

  // ---------- the causes of poison ----------

  /** The agent waits for this request, and the entry is in its batch. */
  predicate Awaited(s: State, r: nat, q: nat) {
    s.phase.Waiting? && s.phase.request == r && q in Ids(s.phase.batch)
  }

  predicate BringsKey(metrics: seq<Aggregate>, key: Key) {
    exists i | 0 <= i < |metrics| :: metrics[i].key == key
  }

  /** The server commits the key of an entry in a request in which the agent no longer waits for that entry. */
  ghost predicate CommitsUnawaited(c: Config, s: State, r: nat, rejected: bool, q: nat) {
    && r in s.requests && !rejected && InsertAll(s.server, c.me, s.requests[r]).Some?
    && q in s.h.enqueued && q !in s.h.sent && !Awaited(s, r, q)
    && BringsKey(s.requests[r], s.h.enqueued[q].metric.key)
  }

  /** An entry is made for a row whose key the server already has. */
  ghost predicate EnqueuesKnownKey(c: Config, s: State, q: nat) {
    && s.phase.Enqueueing? && s.phase.ref in s.h.stored && q == s.t.queueSeq + 1
    && HasKey(s.server, c.me, s.h.stored[s.phase.ref].key)
  }

  /**
   The four ways to poison an entry: forgetting an answer that is under way, by giving up or by
   a crash; enqueueing a known key; and the commit of a request the agent has given up.
   */
  ghost predicate Poisons(c: Config, s: State, e: Event, q: nat) {
    match e
    case GiveUp => Accepted(s, q)
    case CrashAndRestart(_) => Accepted(s, q)
    case Enqueue(_) => EnqueuesKnownKey(c, s, q)
    case Deliver(r, rejected) => CommitsUnawaited(c, s, r, rejected, q)
    case _ => false
  }

  ghost predicate SomeStepPoisons(c: Config, s: State, run: seq<Event>, q: nat)
    requires CanRun(c, s, run)
    decreases |run|
  {
    if run == [] then false
    else if Poisons(c, s, run[0], q) then true
    else SomeStepPoisons(c, Apply(c, s, run[0]), run[1..], q)
  }

  lemma KeysAfterCommit(s: ServerTables, agent: string, metrics: seq<Aggregate>, me: string, key: Key)
    requires ServerOk(s) && InsertAll(s, agent, metrics).Some? && (forall m | m in metrics :: m.key.kind != Unknown || agent != me)
    ensures HasKey(InsertAll(s, agent, metrics).value, me, key) <==>
      HasKey(s, me, key) || (agent == me && BringsKey(metrics, key))
  {
    hide InsertAll, ServerOk;
    CommittedBatch(s, agent, metrics);
    var s' := InsertAll(s, agent, metrics).value;
    if HasKey(s, me, key) {
      var i :| i in s.rows && s.rows[i].agent == me && s.rows[i].metric.key == key;
      assert i in s'.rows;
    } else if agent == me && BringsKey(metrics, key) {
      var k :| 0 <= k < |metrics| && metrics[k].key == key;
      assert metrics[k] in metrics && Known(metrics, k);
    } else {
      forall i | i in s'.rows
        ensures !(s'.rows[i].agent == me && s'.rows[i].metric.key == key)
      {
        if i in s.rows {
          assert s'.rows[i] == s.rows[i];
        } else if agent == me {
          var k :| 0 <= k < |metrics| && metrics[k] == s'.rows[i].metric;
          assert metrics[k].key != key;
        }
      }
    }
  }

  lemma ForgettingStep(c: Config, s: State, e: Event, q: nat)
    requires Inv(c, s) && CanStep(c, s, e) && s.committed == s.server.rows.Values && (e.GiveUp? || e.CrashAndRestart?)
    ensures Poisoned(c, Apply(c, s, e), q) <==> Poisoned(c, s, q) || Poisons(c, s, e, q)
  {
    hide Inv, HasKey;
    HistoryFrame(c, s, e);
    if Accepted(s, q) {
      AcceptedIsOnServer(c, s, q);
    }
  }

  lemma EnqueueingStep(c: Config, s: State, now: int, q: nat)
    requires Inv(c, s) && CanStep(c, s, Enqueue(now))
    ensures Poisoned(c, EnqueueStep(s, now), q) <==> Poisoned(c, s, q) || EnqueuesKnownKey(c, s, q)
  {
    hide Inv, HasKey;
    EnqueueFrame(c, s, now);
  }

  /** A key that is known already cannot be committed again. */
  lemma KnownKeyRefuses(s: ServerTables, agent: string, metrics: seq<Aggregate>, key: Key)
    requires ServerOk(s) && HasKey(s, agent, key) && BringsKey(metrics, key)
    requires forall m | m in metrics :: m.key.kind != Unknown
    ensures InsertAll(s, agent, metrics).None?
  {
    hide InsertAll, HasKey, ServerOk;
    CommitsIffNoClash(s, agent, metrics);
    var k :| 0 <= k < |metrics| && metrics[k].key == key;
    assert metrics[k] in metrics && Known(metrics, k);
  }

  lemma RefusingStep(c: Config, s: State, r: nat, rejected: bool, q: nat)
    requires RequestsOk(s) && CanStep(c, s, Deliver(r, rejected))
    requires rejected || InsertAll(s.server, c.me, s.requests[r]).None?
    ensures Poisoned(c, DeliverStep(c, s, r, rejected), q) <==> Poisoned(c, s, q)
  {
    hide HasKey, InsertAll;
  }

  lemma AwaitedIsInRequest(c: Config, s: State, r: nat, q: nat)
    requires Inv(c, s) && Awaited(s, r, q)
    ensures r in s.requests && q in s.h.enqueued && q !in s.h.sent && BringsKey(s.requests[r], s.h.enqueued[q].metric.key)
  {
    hide Inv, LocalOk, CountsOk, RequestsOk;
    InvParts(c, s);
    var i :| 0 <= i < |s.phase.batch| && Ids(s.phase.batch)[i] == q;
    assert s.phase.batch[i].queueId == q && Metrics(s.phase.batch)[i] == s.phase.batch[i].metric;
  }

  lemma CommittingStep(c: Config, s: State, r: nat, q: nat)
    requires Inv(c, s) && s.committed == s.server.rows.Values && CanStep(c, s, Deliver(r, false))
    requires InsertAll(s.server, c.me, s.requests[r]).Some?
    ensures Poisoned(c, DeliverStep(c, s, r, false), q) <==> Poisoned(c, s, q) || CommitsUnawaited(c, s, r, false, q)
  {
    hide Inv, LocalOk, CountsOk, HasKey, InsertAll, ServerOk, BringsKey;
    InvParts(c, s);
    if q in s.h.enqueued {
      var key := s.h.enqueued[q].metric.key;
      KeysAfterCommit(s.server, c.me, s.requests[r], c.me, key);
      if Awaited(s, r, q) {
        AwaitedIsInRequest(c, s, r, q);
      } else if Accepted(s, q) {
        AcceptedIsOnServer(c, s, q);
      }
      if HasKey(s.server, c.me, key) && BringsKey(s.requests[r], key) {
        KnownKeyRefuses(s.server, c.me, s.requests[r], key);
      }
    }
  }

  lemma DeliveringStep(c: Config, s: State, r: nat, rejected: bool, q: nat)
    requires Inv(c, s) && s.committed == s.server.rows.Values && CanStep(c, s, Deliver(r, rejected))
    ensures Poisoned(c, DeliverStep(c, s, r, rejected), q) <==> Poisoned(c, s, q) || CommitsUnawaited(c, s, r, rejected, q)
  {
    hide Inv, LocalOk, CountsOk, RequestsOk, InsertAll, Poisoned, DeliverStep;
    InvParts(c, s);
    if rejected || InsertAll(s.server, c.me, s.requests[r]).None? {
      RefusingStep(c, s, r, rejected, q);
    } else {
      CommittingStep(c, s, r, q);
    }
  }

  lemma OthersStep(c: Config, s: State, agent: string, metrics: seq<Aggregate>, q: nat)
    requires ServerOk(s.server) && agent != c.me
    ensures Poisoned(c, Apply(c, s, OtherAgent(agent, metrics)), q) <==> Poisoned(c, s, q)
  {
    hide HasKey, InsertAll, ServerOk;
    if InsertAll(s.server, agent, metrics).Some? && q in s.h.enqueued {
      KeysAfterCommit(s.server, agent, metrics, c.me, s.h.enqueued[q].metric.key);
    }
  }

  lemma HarmlessStep(c: Config, s: State, e: Event, q: nat)
    requires RequestsOk(s) && CanStep(c, s, e)
    requires !e.GiveUp? && !e.CrashAndRestart? && !e.Enqueue? && !e.Deliver? && !e.OtherAgent? && !e.ServerRetention?
    ensures Poisoned(c, Apply(c, s, e), q) <==> Poisoned(c, s, q)
  {
    hide HasKey;
    HistoryFrame(c, s, e);
  }

  lemma StepPoisonsIff(c: Config, s: State, e: Event, q: nat)
    requires Inv(c, s) && s.committed == s.server.rows.Values && CanStep(c, s, e) && !e.ServerRetention?
    ensures Poisoned(c, Apply(c, s, e), q) <==> Poisoned(c, s, q) || Poisons(c, s, e, q)
  {
    hide Inv, LocalOk, CountsOk, RequestsOk, Poisoned, Accepted, EnqueuesKnownKey, CommitsUnawaited, DeliverStep, EnqueueStep;
    InvParts(c, s);
    match e
    case GiveUp => ForgettingStep(c, s, e, q);
    case CrashAndRestart(_) => ForgettingStep(c, s, e, q);
    case Enqueue(now) => EnqueueingStep(c, s, now, q);
    case Deliver(r, rejected) => DeliveringStep(c, s, r, rejected, q);
    case OtherAgent(agent, metrics) => OthersStep(c, s, agent, metrics, q);
    case _ => HarmlessStep(c, s, e, q);
  }

  lemma {:induction false} RunPoisonsIff(c: Config, s: State, run: seq<Event>, q: nat)
    requires Inv(c, s) && s.committed == s.server.rows.Values && CanRun(c, s, run) && NoServerRetention(run)
    ensures Poisoned(c, Execute(c, s, run), q) <==> Poisoned(c, s, q) || SomeStepPoisons(c, s, run, q)
    decreases |run|
  {
    hide Inv, Poisoned, Poisons, Apply;
    if run != [] {
      assert run[0] in run;
      StepKeepsServerRows(c, s, run[0]);
      StepKeepsInv(c, s, run[0]);
      StepPoisonsIff(c, s, run[0], q);
      assert NoServerRetention(run[1..]);
      RunPoisonsIff(c, Apply(c, s, run[0]), run[1..], q);
    }
  }

  /**
   In every run, until the server's retention, an entry is poisoned if and only if one of the
   four causes happened to it: none of them can be undone, and nothing else poisons.
   */
  lemma PoisonedIff(c: Config, run: seq<Event>, q: nat)
    requires CanRun(c, Init(), run) && NoServerRetention(run)
    ensures Poisoned(c, Execute(c, Init(), run), q) <==> SomeStepPoisons(c, Init(), run, q)
  {
    hide Inv, Execute, CanRun, SomeStepPoisons;
    InitInv(c);
    RunPoisonsIff(c, Init(), run, q);
  }

  // ---------- healthy entries of a refused batch ----------

  /** The failures of a batch, recorded one entry at a time. */
  function RecordAll(times: seq<int>): seq<Event> {
    seq(|times|, i requires 0 <= i < |times| => RecordFailure(times[i]))
  }

  /** One more failed send, and permanent failure once that uses up the retries. */
  ghost predicate FailedOnceMore(c: Config, s: State, s': State, q: nat) {
    && q in s.t.queue
    && Count(s'.h.failures, q) == Count(s.h.failures, q) + 1
    && (q in s'.h.dead <==> s.t.queue[q].retryCount + 1 >= c.maxRetries)
  }

  ghost predicate Untouched(s: State, s': State, p: nat) {
    && Count(s'.h.failures, p) == Count(s.h.failures, p) && (p in s'.h.dead <==> p in s.h.dead)
    && (p in s.t.queue ==> p in s'.t.queue && s'.t.queue[p] == s.t.queue[p])
  }

  ghost predicate AllFailedOnceMore(c: Config, s: State, s': State, ids: seq<nat>) {
    && (forall q | q in ids :: FailedOnceMore(c, s, s', q))
    && (forall p | p !in ids :: Untouched(s, s', p))
  }

  lemma FailingEntry(c: Config, s: State)
    requires Inv(c, s) && s.phase.Failing?
    ensures Distinct(s.phase.rest)
    ensures forall q | q in s.phase.rest :: q in s.t.queue && q !in s.h.dead
  {
  }

  lemma OneRecorded(c: Config, s: State, now: int)
    requires s.phase.Failing? && s.phase.rest != [] && s.phase.rest[0] in s.t.queue && s.phase.rest[0] !in s.h.dead
    ensures var s', q := RecordFailureStep(c, s, now), s.phase.rest[0];
      && FailedOnceMore(c, s, s', q) && (forall p | p != q :: Untouched(s, s', p))
      && s'.phase == if |s.phase.rest| == 1 then Idle else Failing(s.phase.rest[1..])
  {
    hide BackoffMinutes;
  }

  lemma FirstThenRest(c: Config, s: State, mid: State, s': State, ids: seq<nat>)
    requires ids != [] && Distinct(ids) && (forall q | q in ids :: q in s.t.queue) && FailedOnceMore(c, s, mid, ids[0])
    requires forall p | p != ids[0] :: Untouched(s, mid, p)
    requires AllFailedOnceMore(c, mid, s', ids[1..])
    ensures AllFailedOnceMore(c, s, s', ids)
  {
    assert ids == [ids[0]] + ids[1..];
    assert ids[0] !in ids[1..];
    forall q | q in ids
      ensures FailedOnceMore(c, s, s', q)
    {
      if q == ids[0] {
        assert Untouched(mid, s', q);
      } else {
        assert q in ids[1..] && FailedOnceMore(c, mid, s', q) && Untouched(s, mid, q);
      }
    }
    forall p | p !in ids
      ensures Untouched(s, s', p)
    {
      assert Untouched(s, mid, p) && Untouched(mid, s', p);
    }
  }

  lemma NothingLeft(c: Config, s: State)
    ensures CanRun(c, s, []) && Execute(c, s, []) == s && AllFailedOnceMore(c, s, s, [])
  {
  }

  lemma {:induction false} AllRecorded(c: Config, s: State, times: seq<int>)
    requires Inv(c, s) && s.phase.Failing? && |times| == |s.phase.rest| > 0
    ensures CanRun(c, s, RecordAll(times))
    ensures var s' := Execute(c, s, RecordAll(times)); s'.phase.Idle? && AllFailedOnceMore(c, s, s', s.phase.rest)
    decreases |times|
  {
    hide Inv, RecordFailureStep, FailedOnceMore, Untouched, AllFailedOnceMore, Distinct;
    var run, rest := RecordAll(times), s.phase.rest;
    assert run[0] == RecordFailure(times[0]) && run[1..] == RecordAll(times[1..]);
    FailingEntry(c, s);
    assert rest[0] in rest;
    OneRecorded(c, s, times[0]);
    StepKeepsInv(c, s, run[0]);
    var mid := Apply(c, s, run[0]);
    if |rest| == 1 {
      NothingLeft(c, mid);
      assert rest[1..] == [] && run[1..] == [];
    } else {
      AllRecorded(c, mid, times[1..]);
    }
    FirstThenRest(c, s, mid, Execute(c, mid, run[1..]), rest);
  }

  lemma AnswerIsRefusal(c: Config, s: State, now: int)
    requires Inv(c, s) && s.phase.Waiting? && s.phase.request in s.transit && HasPoison(c, s, s.phase.batch)
    ensures var r := s.phase.request;
      && CanStep(c, s, Deliver(r, false))
      && var s1 := DeliverStep(c, s, r, false);
        && CanStep(c, s1, Receive(now))
        && ReceiveStep(s1, now) == s1.(phase := Failing(Ids(s.phase.batch)))
        && s1.t == s.t && s1.h == s.h && s1.server == s.server
  {
    hide Inv, LocalOk, CountsOk, Poisoned, InsertAll;
    InvParts(c, s);
    var i :| 0 <= i < |s.phase.batch| && Poisoned(c, s, s.phase.batch[i].queueId);
    assert Ids(s.phase.batch)[i] == s.phase.batch[i].queueId;
    PoisonedBatchIsRefused(c, s, s.phase.batch[i].queueId, false);
  }

  /** The answer to a batch arrives, and its failures are recorded. */
  function RefusedRound(r: nat, now: int, times: seq<int>): seq<Event> {
    [Deliver(r, false)] + [Receive(now)] + RecordAll(times)
  }

  lemma ThreeParts(c: Config, s: State, e1: Event, e2: Event, more: seq<Event>)
    requires CanStep(c, s, e1) && CanStep(c, Apply(c, s, e1), e2) && CanRun(c, Apply(c, Apply(c, s, e1), e2), more)
    ensures CanRun(c, s, [e1] + [e2] + more)
    ensures Execute(c, s, [e1] + [e2] + more) == Execute(c, Apply(c, Apply(c, s, e1), e2), more)
  {
    hide CanStep, Apply;
    var run := [e1] + [e2] + more;
    assert run[1..] == [e2] + more && run[1..][1..] == more;
  }

  /**
   One poisoned entry is enough: when its batch arrives, every entry of the batch, healthy ones
   included, counts one more failed send, and fails for good if that was its last retry.
   */
  lemma HealthyEntriesFailToo(c: Config, s: State, now: int, times: seq<int>)
    requires Inv(c, s) && s.phase.Waiting? && s.phase.request in s.transit && HasPoison(c, s, s.phase.batch)
    requires |times| == |s.phase.batch|
    ensures var run := RefusedRound(s.phase.request, now, times);
      && CanRun(c, s, run)
      && var s' := Execute(c, s, run);
        s'.phase.Idle? && s'.server == s.server && AllFailedOnceMore(c, s, s', Ids(s.phase.batch))
  {
    hide Inv, HasPoison, DeliverStep, ReceiveStep, FailedOnceMore, Untouched, CanRun, Execute;
    var r := s.phase.request;
    AnswerIsRefusal(c, s, now);
    BatchIsNotEmpty(c, s);
    var s1 := Apply(c, s, Deliver(r, false));
    var s2 := Apply(c, s1, Receive(now));
    StepKeepsInv(c, s, Deliver(r, false));
    StepKeepsInv(c, s1, Receive(now));
    AllRecorded(c, s2, times);
    RecordingKeepsServer(c, s2, times);
    ThreeParts(c, s, Deliver(r, false), Receive(now), RecordAll(times));
    SameTables(c, s, s2, Execute(c, s2, RecordAll(times)), Ids(s.phase.batch));
  }

  lemma BatchIsNotEmpty(c: Config, s: State)
    requires s.phase.Waiting? && HasPoison(c, s, s.phase.batch)
    ensures |Ids(s.phase.batch)| == |s.phase.batch| > 0
  {
  }

  lemma SameTables(c: Config, s: State, mid: State, s': State, ids: seq<nat>)
    requires s.t == mid.t && s.h == mid.h && AllFailedOnceMore(c, mid, s', ids)
    ensures AllFailedOnceMore(c, s, s', ids)
  {
    forall q | q in ids ensures FailedOnceMore(c, s, s', q) { assert FailedOnceMore(c, mid, s', q); }
    forall p | p !in ids ensures Untouched(s, s', p) { assert Untouched(mid, s', p); }
  }

  lemma {:induction false} RecordingKeepsServer(c: Config, s: State, times: seq<int>)
    requires CanRun(c, s, RecordAll(times))
    ensures Execute(c, s, RecordAll(times)).server == s.server
    decreases |times|
  {
    if times != [] {
      var run := RecordAll(times);
      assert run[0] == RecordFailure(times[0]) && run[1..] == RecordAll(times[1..]);
      RecordingKeepsServer(c, Apply(c, s, run[0]), times[1..]);
    }
  }
}
