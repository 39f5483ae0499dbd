/** What holds in every run of the delivery protocol, crashes, losses and clean-ups included. */
module DeliveryTheorems {
  import opened Wrappers
  import opened AgentTables
  import opened ServerStore
  import opened Delivery

  lemma InitInv(c: Config)
    ensures Inv(c, Init())
  {
  }

  /** The parts of the invariant that the theorems below rest on. */
  lemma InvParts(c: Config, s: State)
    requires Inv(c, s)
    ensures LocalOk(c, s.t, s.h) && CountsOk(c, s.t.queue, s.h) && RequestsOk(s) && ServerOk(s.server)
    ensures s.phase.Waiting? ==>
      && BatchOk(s.t.queue, s.h.enqueued, s.phase.batch, Sending)
      && s.phase.request in s.requests && s.requests[s.phase.request] == Metrics(s.phase.batch)
      && s.server.rows.Values <= s.committed
      && (forall i | 0 <= i < |s.phase.batch| :: s.phase.batch[i].queueId !in s.h.sent)
      && forall m | m in s.requests[s.phase.request] :: m.key.kind != Unknown
    ensures s.phase.Failing? ==> Distinct(s.phase.rest) && forall q | q in s.phase.rest ::
      q in s.t.queue && s.t.queue[q].status == Sending && q <= s.t.queueSeq
  {
  }

  lemma Reachable(c: Config, run: seq<Event>)
    requires CanRun(c, Init(), run)
    ensures Inv(c, Execute(c, Init(), run))
  {
    InitInv(c);
    RunKeepsInv(c, Init(), run);
  }

  // ---------- conservation ----------

  /** Still to be delivered: the entry is alive and resolves to exactly the aggregate that was enqueued. */
  ghost predicate IsUnsent(s: State, q: nat)
    requires q in s.h.enqueued
  {
    var x := s.h.enqueued[q];
    && !Settled(s.h, q)
    && q in s.t.queue && s.t.queue[q].status in {Pending, Sending} && s.t.queue[q].ref == x.ref
    && x.ref in s.t.rows && s.t.rows[x.ref] == x.metric
  }

  ghost predicate IsSuperseded(s: State, q: nat)
    requires q in s.h.enqueued
  {
    var x := s.h.enqueued[q];
    !Settled(s.h, q) && x.ref !in s.t.rows && Replaced(s.h.stored, x)
  }

  function Ones(a: bool, b: bool, c: bool, d: bool): nat {
    (if a then 1 else 0) + (if b then 1 else 0) + (if c then 1 else 0) + (if d then 1 else 0)
  }

  /** No aggregate is lost or counted twice: in every run, exactly one of the four fates holds of each. */
  lemma Conservation(c: Config, run: seq<Event>, q: nat)
    requires CanRun(c, Init(), run) && q in Execute(c, Init(), run).h.enqueued
    ensures var s := Execute(c, Init(), run);
      Ones(IsUnsent(s, q), q in s.h.sent, q in s.h.dead, IsSuperseded(s, q)) == 1
  {
    Reachable(c, run);
    var s := Execute(c, Init(), run);
    FateIsUnique(c, s, q);
  }

  lemma FateIsUnique(c: Config, s: State, q: nat)
    requires Inv(c, s) && q in s.h.enqueued
    ensures Ones(IsUnsent(s, q), q in s.h.sent, q in s.h.dead, IsSuperseded(s, q)) == 1
  {
    var x := s.h.enqueued[q];
    if !Settled(s.h, q) && Alive(s.t, q, x) {
      assert s.t.queue[q].ref == x.ref;
      assert s.t.rows[x.ref] == s.h.stored[x.ref] == x.metric;
    }
  }

  ghost predicate Extends(h: History, h': History) {
    && (forall q | q in h.enqueued :: q in h'.enqueued && h'.enqueued[q] == h.enqueued[q])
    && h.sent <= h'.sent && h.dead <= h'.dead
  }

  lemma HistoryFrame(c: Config, s: State, e: Event)
    requires CanStep(c, s, e)
    ensures var h' := Apply(c, s, e).h;
      && s.h.sent <= h'.sent && s.h.dead <= h'.dead
      && (!e.Enqueue? ==> h'.enqueued == s.h.enqueued)
      && (!e.Store? ==> h'.stored == s.h.stored)
      && (!e.Receive? ==> h'.sent == s.h.sent)
  {
  }

  lemma EnqueueFrame(c: Config, s: State, now: int)
    requires Inv(c, s) && CanStep(c, s, Enqueue(now))
    ensures var s' := EnqueueStep(s, now);
      var q' := s'.t.queueSeq;
      && q' == s.t.queueSeq + 1 && q' !in s.h.enqueued && s.phase.ref in s.h.stored
      && s'.h == s.h.(enqueued := s.h.enqueued[q' := Queued(s.phase.ref, s.h.stored[s.phase.ref])])
      && s'.t.rows == s.t.rows && q' !in s.h.sent
  {
    EnqueueKeepsLocal(c, s.t, s.h, s.phase.ref, now);
  }

  lemma StepExtendsHistory(c: Config, s: State, e: Event)
    requires Inv(c, s) && CanStep(c, s, e)
    ensures Extends(s.h, Apply(c, s, e).h)
  {
    HistoryFrame(c, s, e);
    if e.Enqueue? {
      EnqueueFrame(c, s, e.now);
    }
  }

  /** What was enqueued is never forgotten, and what is sent or failed stays so. */
  lemma {:induction false} RunExtendsHistory(c: Config, s: State, run: seq<Event>)
    requires Inv(c, s) && CanRun(c, s, run)
    ensures Extends(s.h, Execute(c, s, run).h)
    decreases |run|
  {
    if run != [] {
      StepKeepsInv(c, s, run[0]);
      StepExtendsHistory(c, s, run[0]);
      RunExtendsHistory(c, Apply(c, s, run[0]), run[1..]);
    }
  }

  // ---------- sent means committed ----------

  /** An entry is marked as sent only if the server committed a row with its exact key and content. */
  lemma SentWasCommitted(c: Config, run: seq<Event>, q: nat)
    requires CanRun(c, Init(), run)
    requires var h := Execute(c, Init(), run).h; q in h.sent && q in h.enqueued
    ensures var s := Execute(c, Init(), run); ServerRow(c.me, s.h.enqueued[q].metric) in s.committed
  {
    Reachable(c, run);
  }

  predicate NoServerRetention(run: seq<Event>) {
    forall e | e in run :: !e.ServerRetention?
  }

  lemma CommitKeepsServerRows(s: State, agent: string, metrics: seq<Aggregate>)
    requires ServerOk(s.server) && s.committed == s.server.rows.Values && Commit(s, agent, metrics).Some?
    ensures var s' := Commit(s, agent, metrics).value;
      s'.committed == s'.server.rows.Values && s.server.rows.Values <= s'.server.rows.Values
  {
    hide InsertAll, ServerOk;
    CommittedBatch(s.server, agent, metrics);
    ValuesGrow(s.server, Commit(s, agent, metrics).value.server);
  }

  lemma DeliveryKeepsServerRows(c: Config, s: State, r: nat, rejected: bool)
    requires ServerOk(s.server) && s.committed == s.server.rows.Values && r in s.requests
    ensures var s' := DeliverStep(c, s, r, rejected);
      s'.committed == s'.server.rows.Values && s.server.rows.Values <= s'.server.rows.Values
  {
    hide InsertAll, ServerOk, Commit;
    var arrived := s.(transit := s.transit - {r});
    if Commit(arrived, c.me, s.requests[r]).Some? {
      CommitKeepsServerRows(arrived, c.me, s.requests[r]);
    }
  }

  lemma StepKeepsServerRows(c: Config, s: State, e: Event)
    requires Inv(c, s) && CanStep(c, s, e) && !e.ServerRetention?
    requires s.committed == s.server.rows.Values
    ensures var s' := Apply(c, s, e);
      s'.committed == s'.server.rows.Values && s.server.rows.Values <= s'.server.rows.Values
  {
    hide Inv, LocalOk, CountsOk, RequestsOk, InsertAll, ServerOk, Commit, DeliverStep;
    InvParts(c, s);
    if e.Deliver? {
      DeliveryKeepsServerRows(c, s, e.r, e.rejected);
    } else if e.OtherAgent? && Commit(s, e.agent, e.metrics).Some? {
      CommitKeepsServerRows(s, e.agent, e.metrics);
    }
  }

  lemma ValuesGrow(a: ServerTables, b: ServerTables)
    requires forall i | i in a.rows :: i in b.rows && b.rows[i] == a.rows[i]
    ensures a.rows.Values <= b.rows.Values
  {
    forall row | row in a.rows.Values
      ensures row in b.rows.Values
    {
      var i :| i in a.rows && a.rows[i] == row;
      assert i in b.rows;
    }
  }

  lemma {:induction false} RunKeepsServerRows(c: Config, s: State, run: seq<Event>)
    requires Inv(c, s) && CanRun(c, s, run) && NoServerRetention(run)
    requires s.committed == s.server.rows.Values
    ensures var s' := Execute(c, s, run);
      s'.committed == s'.server.rows.Values && s.server.rows.Values <= s'.server.rows.Values
    decreases |run|
  {
    if run != [] {
      assert run[0] in run;
      StepKeepsInv(c, s, run[0]);
      StepKeepsServerRows(c, s, run[0]);
      RunKeepsServerRows(c, Apply(c, s, run[0]), run[1..]);
    }
  }

  /** In every run the server never holds two rows for one agent, task and period in a table. */
  lemma ServerKeysAreUnique(c: Config, run: seq<Event>, i: nat, j: nat)
    requires CanRun(c, Init(), run)
    requires var s := Execute(c, Init(), run); i in s.server.rows && j in s.server.rows
    requires var s := Execute(c, Init(), run);
      s.server.rows[i].agent == s.server.rows[j].agent && s.server.rows[i].metric.key == s.server.rows[j].metric.key
    ensures i == j
  {
    Reachable(c, run);
  }

  /** As long as the server's own retention has not run, every sent entry's row is still there, once. */
  lemma SentIsOnServer(c: Config, run: seq<Event>, q: nat)
    requires CanRun(c, Init(), run) && NoServerRetention(run)
    requires var h := Execute(c, Init(), run).h; q in h.sent && q in h.enqueued
    ensures var s := Execute(c, Init(), run);
      exists i :: i in s.server.rows && s.server.rows[i] == ServerRow(c.me, s.h.enqueued[q].metric)
    ensures var s := Execute(c, Init(), run);
      forall i, j | i in s.server.rows && j in s.server.rows ::
        s.server.rows[i].agent == s.server.rows[j].agent && s.server.rows[i].metric.key == s.server.rows[j].metric.key ==> i == j
  {
    InitInv(c);
    Reachable(c, run);
    RunKeepsServerRows(c, Init(), run);
    assert ServerRow(c.me, Execute(c, Init(), run).h.enqueued[q].metric) in Execute(c, Init(), run).server.rows.Values;
  }

  // ---------- row identity ----------

  /**
   What a reachable agent fetches is, entry by entry, what it once enqueued, and no two
   metrics of the batch share a server key.
   */
  lemma FetchedBatchIsFaithful(c: Config, run: seq<Event>, now: int, limit: nat, ids: seq<nat>)
    requires CanRun(c, Init(), run) && CanStep(c, Execute(c, Init(), run), Fetch(now, limit, ids))
    ensures var s := Execute(c, Init(), run);
      var batch := Resolve(s.t, ids);
      && (forall i | 0 <= i < |batch| :: batch[i].queueId in s.h.enqueued && batch[i].queueId in ids
            && batch[i].metric == s.h.enqueued[batch[i].queueId].metric
            && batch[i].metric.key == s.t.queue[batch[i].queueId].key)
      && (forall i, j | 0 <= i < j < |batch| :: batch[i].metric.key != batch[j].metric.key)
  {
    Reachable(c, run);
    var s := Execute(c, Init(), run);
    LocalImpliesTables(c, s.t, s.h);
    BatchKeysDistinct(s.t, ids);
    var batch := Resolve(s.t, ids);
    forall i | 0 <= i < |batch|
      ensures batch[i].queueId in s.h.enqueued && batch[i].queueId in ids
        && batch[i].metric == s.h.enqueued[batch[i].queueId].metric
        && batch[i].metric.key == s.t.queue[batch[i].queueId].key
    {
      ResolveItem(s.t, ids, i);
    }
  }

  /** A fetch removes an unsettled entry only if a newer row replaced its own. */
  lemma FetchDropsOnlySuperseded(c: Config, run: seq<Event>, now: int, limit: nat, ids: seq<nat>, q: nat)
    requires CanRun(c, Init(), run) && CanStep(c, Execute(c, Init(), run), Fetch(now, limit, ids))
    requires var s := Execute(c, Init(), run); q in s.t.queue && q !in FetchStep(s, ids).t.queue
    ensures var s := Execute(c, Init(), run); q in s.h.enqueued && IsSuperseded(s, q)
  {
    Reachable(c, run);
    var s := Execute(c, Init(), run);
    assert Eligible(s.t, q, now);
    FetchKeepsLocal(c, s.t, s.h, ids);
  }

  // ---------- retries ----------

  /** On every run: retries add up, and nobody fails more than max(1, max_retries) times. */
  lemma RetryAccounting(c: Config, run: seq<Event>, q: nat)
    requires CanRun(c, Init(), run)
    ensures var s := Execute(c, Init(), run);
      && Count(s.h.failures, q) <= Max(1, c.maxRetries)
      && (q in s.t.queue ==> s.t.queue[q].retryCount == Count(s.h.failures, q) + Count(s.h.recoveries, q))
      && (q in s.t.queue && Count(s.h.failures, q) >= Max(1, c.maxRetries) ==> s.t.queue[q].status in {Sent, Failed})
  {
    Reachable(c, run);
    var s := Execute(c, Init(), run);
    hide Inv, LocalOk, RequestsOk;
    InvParts(c, s);
    if q in s.t.queue {
      assert EntryCountOk(c, s.t.queue[q], Count(s.h.failures, q), Count(s.h.recoveries, q));
    }
  }

  predicate NotFetched(run: seq<Event>, q: nat) {
    forall e | e in run :: e.Fetch? ==> q !in e.ids
  }

  ghost predicate Resting(s: State, q: nat, until: int) {
    && (q in s.t.queue ==> s.t.queue[q].status == Pending && s.t.queue[q].nextRetryAt == until)
    && q <= s.t.queueSeq
    && match s.phase
       case Fetched(batch) => q !in Ids(batch)
       case Waiting(_, batch) => q !in Ids(batch)
       case Failing(rest) => q !in rest
       case _ => true
  }

  lemma FetchKeepsResting(c: Config, s: State, now: int, limit: nat, ids: seq<nat>, q: nat, until: int)
    requires CanStep(c, s, Fetch(now, limit, ids)) && Resting(s, q, until) && q !in ids
    ensures Resting(FetchStep(s, ids), q, until)
  {
    hide IsBatch;
    var batch := Resolve(s.t, ids);
    if q in Ids(batch) {
      var i :| 0 <= i < |batch| && Ids(batch)[i] == q;
      ResolveItem(s.t, ids, i);
    }
  }

  lemma FailureKeepsResting(c: Config, s: State, now: int, q: nat, until: int)
    requires CanStep(c, s, RecordFailure(now)) && Resting(s, q, until)
    ensures Resting(RecordFailureStep(c, s, now), q, until)
  {
    hide FailedEntry;
    assert s.phase.rest[0] in s.phase.rest;
  }

  lemma StepKeepsResting(c: Config, s: State, e: Event, q: nat, until: int)
    requires CanStep(c, s, e) && Resting(s, q, until) && (e.Fetch? ==> q !in e.ids)
    ensures Resting(Apply(c, s, e), q, until)
  {
    hide IsBatch, FetchStep, RecordFailureStep, Commit;
    match e
    case Fetch(now, limit, ids) => FetchKeepsResting(c, s, now, limit, ids, q, until);
    case RecordFailure(now) => FailureKeepsResting(c, s, now, q, until);
    case Deliver(r, _) => CommitKeepsAgent(s.(transit := s.transit - {r}), c.me, s.requests[r]);
    case OtherAgent(agent, metrics) => CommitKeepsAgent(s, agent, metrics);
    case _ =>
  }

  lemma CommitKeepsAgent(s: State, agent: string, metrics: seq<Aggregate>)
    ensures Commit(s, agent, metrics).Some? ==>
      var s' := Commit(s, agent, metrics).value; s'.t == s.t && s'.phase == s.phase && s'.h == s.h
  {
  }

  /**
   After a failed attempt, an entry that is to be retried is not fetched again before the backoff
   is over, in any run: the recovery after a crash leaves pending entries alone.
   */
  lemma {:induction false} NoRetryBeforeBackoff(c: Config, s: State, q: nat, until: int, run: seq<Event>, e: Event)
    requires Resting(s, q, until) && CanRun(c, s, run) && NotFetched(run, q)
    requires CanStep(c, Execute(c, s, run), e) && e.Fetch? && q in e.ids
    ensures until <= e.now
    decreases |run|
  {
    if run == [] {
      assert Eligible(s.t, q, e.now);
    } else {
      assert run[0] in run;
      StepKeepsResting(c, s, run[0], q, until);
      NoRetryBeforeBackoff(c, Apply(c, s, run[0]), q, until, run[1..], e);
    }
  }

  lemma FailureStartsBackoff(c: Config, s: State, now: int)
    requires Inv(c, s) && CanStep(c, s, RecordFailure(now))
    ensures var q := s.phase.rest[0];
      var n := s.t.queue[q].retryCount + 1;
      var s' := RecordFailureStep(c, s, now);
      if n >= c.maxRetries then q in s'.h.dead
      else Resting(s', q, now + BackoffMinutes(n) * 60)
  {
    hide Inv, LocalOk, CountsOk, RequestsOk, BackoffMinutes;
    InvParts(c, s);
    assert s.phase.rest[0] in s.phase.rest;
  }

  // ---------- runs without faults ----------

  /** No crash, no reload, and the agent gives up on a request only if the network lost it. */
  predicate FaultFree(s: State, e: Event) {
    && !e.CrashAndRestart? && !e.Reload?
    && (e.GiveUp? && s.phase.Waiting? ==> s.phase.request !in s.transit && s.phase.request !in s.answers)
  }

  predicate CleanRun(c: Config, s: State, run: seq<Event>)
    requires CanRun(c, s, run)
    decreases |run|
  {
    run == [] || (FaultFree(s, run[0]) && CleanRun(c, Apply(c, s, run[0]), run[1..]))
  }

  function CurrentWindowEnd(s: State): int {
    match s.phase
    case Aggregating(m) => m
    case Enqueueing(m, _) => m
    case _ => s.lastAggregation
  }

  /** Windows only move forward, and the server knows none of the current one. */
  ghost predicate WindowsOk(c: Config, s: State) {
    && (s.phase.Aggregating? || s.phase.Enqueueing? ==> s.lastAggregation < CurrentWindowEnd(s))
    && (s.phase.Enqueueing? ==> s.phase.ref in s.h.stored && s.h.stored[s.phase.ref].key.end == s.phase.minute)
    && (forall q | q in s.h.enqueued :: s.h.enqueued[q].metric.key.end <= CurrentWindowEnd(s))
    && (forall row | row in s.committed && row.agent == c.me :: row.metric.key.end <= s.lastAggregation)
  }

  ghost predicate Accepted(s: State, q: nat) {
    s.phase.Waiting? && s.phase.request in s.answers && s.answers[s.phase.request] && q in Ids(s.phase.batch)
  }

  /** Neither sent nor about to be: its row is there and nothing says the server has it. */
  ghost predicate Outstanding(s: State, q: nat) {
    q in s.h.enqueued && s.h.enqueued[q].ref in s.t.rows && q !in s.h.sent && !Accepted(s, q)
  }

  /** The server's keys and the outstanding keys are disjoint. */
  ghost predicate KeysDisjoint(c: Config, s: State) {
    forall q, row | Outstanding(s, q) && row in s.committed && row.agent == c.me ::
      row.metric.key != s.h.enqueued[q].metric.key
  }

  ghost predicate InFlightOk(s: State) {
    && s.transit <= (if s.phase.Waiting? then {s.phase.request} else {})
    && match s.phase
       case Fetched(batch) => forall q | q in Ids(batch) :: q in s.h.enqueued && s.h.enqueued[q].ref in s.t.rows
       case Waiting(_, batch) => forall q | q in Ids(batch) :: q in s.h.enqueued && s.h.enqueued[q].ref in s.t.rows
       case _ => true
  }

  ghost predicate CleanInv(c: Config, s: State) {
    WindowsOk(c, s) && KeysDisjoint(c, s) && InFlightOk(s)
  }

  lemma FetchKeepsInFlight(c: Config, s: State, now: int, limit: nat, ids: seq<nat>)
    requires Inv(c, s) && InFlightOk(s) && CanStep(c, s, Fetch(now, limit, ids))
    ensures InFlightOk(FetchStep(s, ids))
  {
    var batch := Resolve(s.t, ids);
    forall q | q in Ids(batch)
      ensures q in s.h.enqueued && s.h.enqueued[q].ref in s.t.rows
    {
      var i :| 0 <= i < |batch| && Ids(batch)[i] == q;
      ResolveItem(s.t, ids, i);
    }
  }

  lemma FetchKeepsClean(c: Config, s: State, now: int, limit: nat, ids: seq<nat>)
    requires Inv(c, s) && CleanInv(c, s) && CanStep(c, s, Fetch(now, limit, ids))
    ensures CleanInv(c, FetchStep(s, ids))
  {
    hide Inv;
    FetchKeepsInFlight(c, s, now, limit, ids);
    forall q | Outstanding(FetchStep(s, ids), q)
      ensures Outstanding(s, q)
    {
    }
  }

  /** In a clean run the batch in transit clashes with nothing. */
  lemma DeliveryCannotClash(c: Config, s: State, r: nat)
    requires Inv(c, s) && CleanInv(c, s) && r in s.transit
    ensures r in s.requests && s.phase.Waiting? && s.phase.request == r && s.requests[r] == Metrics(s.phase.batch)
    ensures InsertAll(s.server, c.me, s.requests[r]).Some?
  {
    hide Inv, LocalOk, CountsOk, InsertAll;
    InvParts(c, s);
    var batch := s.phase.batch;
    var metrics := Metrics(batch);
    IdsOfBatch(s.t.queue, s.h.enqueued, batch, Sending);
    forall k | 0 <= k < |metrics| && Known(metrics, k)
      ensures !HasKey(s.server, c.me, metrics[k].key)
    {
      var q := batch[k].queueId;
      assert q in Ids(batch);
      assert Outstanding(s, q);
      forall i | i in s.server.rows && s.server.rows[i].agent == c.me
        ensures s.server.rows[i].metric.key != metrics[k].key
      {
        assert s.server.rows[i] in s.committed;
      }
    }
    forall j, k | 0 <= j < k < |metrics| && Known(metrics, j) && Known(metrics, k)
      ensures metrics[j].key != metrics[k].key
    {
      BatchRowsDiffer(c, s, j, k);
    }
    CommitsIffNoClash(s.server, c.me, metrics);
  }

  lemma BatchRowsDiffer(c: Config, s: State, j: nat, k: nat)
    requires Inv(c, s) && InFlightOk(s) && s.phase.Waiting? && j < k < |s.phase.batch|
    ensures s.phase.batch[j].metric.key != s.phase.batch[k].metric.key
  {
    var batch := s.phase.batch;
    IdsOfBatch(s.t.queue, s.h.enqueued, batch, Sending);
    OutstandingKeysDiffer(c, s, batch[j].queueId, batch[k].queueId);
  }

  lemma OutstandingKeysDiffer(c: Config, s: State, p: nat, q: nat)
    requires Inv(c, s) && p != q && p in s.h.enqueued && q in s.h.enqueued
    requires s.h.enqueued[p].ref in s.t.rows && s.h.enqueued[q].ref in s.t.rows
    ensures s.h.enqueued[p].metric.key != s.h.enqueued[q].metric.key
  {
    assert s.t.rows[s.h.enqueued[p].ref] == s.h.enqueued[p].metric;
    assert s.t.rows[s.h.enqueued[q].ref] == s.h.enqueued[q].metric;
  }

  /** What a delivery adds for this agent is the batch it waits for. */
  lemma DeliveredRows(c: Config, s: State, r: nat, row: ServerRow)
    requires Inv(c, s) && CleanInv(c, s) && CanStep(c, s, Deliver(r, false))
    requires row in DeliverStep(c, s, r, false).committed && row !in s.committed
    ensures exists p :: p in Ids(s.phase.batch) && p in s.h.enqueued && s.h.enqueued[p].metric == row.metric
  {
    DeliveryCannotClash(c, s, r);
    var server' := InsertAll(s.server, c.me, s.requests[r]).value;
    CommittedBatch(s.server, c.me, s.requests[r]);
    IdsOfBatch(s.t.queue, s.h.enqueued, s.phase.batch, Sending);
    var i :| i in server'.rows && server'.rows[i] == row;
    assert i !in s.server.rows;
  }

  lemma DeliveredKeysDisjoint(c: Config, s: State, r: nat, q: nat, row: ServerRow)
    requires Inv(c, s) && CleanInv(c, s) && CanStep(c, s, Deliver(r, false))
    requires var s' := DeliverStep(c, s, r, false); Outstanding(s', q) && row in s'.committed && row.agent == c.me
    ensures row.metric.key != s.h.enqueued[q].metric.key
    ensures row.metric.key.end <= s.lastAggregation
  {
    hide Inv;
    DeliveryCannotClash(c, s, r);
    assert Outstanding(s, q);
    if row !in s.committed {
      DeliveredRows(c, s, r, row);
      var p :| p in Ids(s.phase.batch) && p in s.h.enqueued && s.h.enqueued[p].metric == row.metric;
      OutstandingKeysDiffer(c, s, p, q);
    }
  }

  lemma DeliveredWindows(c: Config, s: State, r: nat)
    requires Inv(c, s) && CleanInv(c, s) && CanStep(c, s, Deliver(r, false))
    ensures forall row | row in DeliverStep(c, s, r, false).committed && row.agent == c.me ::
      row.metric.key.end <= s.lastAggregation
  {
    forall row | row in DeliverStep(c, s, r, false).committed && row.agent == c.me && row !in s.committed
      ensures row.metric.key.end <= s.lastAggregation
    {
      DeliveryCannotClash(c, s, r);
      DeliveredRows(c, s, r, row);
    }
  }

  /** A refused delivery leaves everything but the answer as it was. */
  lemma RefusalKeepsClean(c: Config, s: State, r: nat)
    requires RequestsOk(s) && CleanInv(c, s) && CanStep(c, s, Deliver(r, true))
    ensures CleanInv(c, DeliverStep(c, s, r, true))
  {
    var s' := DeliverStep(c, s, r, true);
    forall q | Outstanding(s', q)
      ensures Outstanding(s, q)
    {
    }
  }

  lemma DeliverKeepsClean(c: Config, s: State, r: nat, rejected: bool)
    requires Inv(c, s) && CleanInv(c, s) && CanStep(c, s, Deliver(r, rejected))
    ensures CleanInv(c, DeliverStep(c, s, r, rejected))
  {
    hide Inv, LocalOk, CountsOk, RequestsOk;
    InvParts(c, s);
    if rejected {
      RefusalKeepsClean(c, s, r);
    } else {
      DeliveryCannotClash(c, s, r);
      DeliveredWindows(c, s, r);
      var s' := DeliverStep(c, s, r, false);
      forall q, row | Outstanding(s', q) && row in s'.committed && row.agent == c.me
        ensures row.metric.key != s.h.enqueued[q].metric.key
      {
        DeliveredKeysDisjoint(c, s, r, q, row);
      }
    }
  }

  lemma OtherAgentKeepsClean(c: Config, s: State, agent: string, metrics: seq<Aggregate>)
    requires Inv(c, s) && CleanInv(c, s) && agent != c.me
    ensures CleanInv(c, Apply(c, s, OtherAgent(agent, metrics)))
  {
    if InsertAll(s.server, agent, metrics).Some? {
      CommittedBatch(s.server, agent, metrics);
      var s' := Apply(c, s, OtherAgent(agent, metrics));
      forall row | row in s'.committed && row.agent == c.me
        ensures row in s.committed
      {
        if row in s'.server.rows.Values {
          var i :| i in s'.server.rows && s'.server.rows[i] == row;
          assert i in s.server.rows;
        }
      }
    }
  }

  lemma EnqueueKeepsClean(c: Config, s: State, now: int)
    requires Inv(c, s) && CleanInv(c, s) && CanStep(c, s, Enqueue(now))
    ensures CleanInv(c, EnqueueStep(s, now))
  {
    EnqueueFrame(c, s, now);
    NewEntryKeepsClean(c, s, EnqueueStep(s, now));
  }

  lemma NewEntryKeepsClean(c: Config, s: State, s': State)
    requires CleanInv(c, s) && s.phase.Enqueueing?
    requires s'.phase == Aggregating(s.phase.minute) && s'.lastAggregation == s.lastAggregation
    requires s'.committed == s.committed && s'.transit == s.transit && s'.t.rows == s.t.rows
    requires s.phase.ref in s.h.stored
    requires s'.h == s.h.(enqueued := s.h.enqueued[s'.t.queueSeq := Queued(s.phase.ref, s.h.stored[s.phase.ref])])
    requires s'.t.queueSeq !in s.h.enqueued
    ensures CleanInv(c, s')
  {
    forall q, row | Outstanding(s', q) && row in s'.committed && row.agent == c.me
      ensures row.metric.key != s'.h.enqueued[q].metric.key
    {
      if q in s.h.enqueued { assert Outstanding(s, q); }
    }
  }

  lemma StepKeepsClean(c: Config, s: State, e: Event)
    requires Inv(c, s) && CleanInv(c, s) && CanStep(c, s, e) && FaultFree(s, e)
    ensures CleanInv(c, Apply(c, s, e))
  {
    hide Inv, CleanInv, StoreStep, EnqueueStep, FetchStep, SendStep, ReceiveStep, RecordFailureStep, CrashStep, DeliverStep, Commit;
    match e
    case Enqueue(now) => EnqueueKeepsClean(c, s, now);
    case Fetch(now, limit, ids) => FetchKeepsClean(c, s, now, limit, ids);
    case Deliver(r, rejected) => DeliverKeepsClean(c, s, r, rejected);
    case OtherAgent(agent, metrics) => OtherAgentKeepsClean(c, s, agent, metrics);
    case _ => QuietStepKeepsClean(c, s, e);
  }

  predicate Quiet(e: Event) {
    !e.Enqueue? && !e.Fetch? && !e.Deliver? && !e.OtherAgent?
  }

  lemma StoreKeepsOutstanding(c: Config, s: State, m: Aggregate, q: nat)
    requires CanStep(c, s, Store(m)) && Outstanding(StoreStep(s, m), q)
    requires StoredOk(s.t.rows, s.t.rowSeq, s.h.stored) && EnqueuedOk(s.h.stored, s.h.enqueued, s.t.queueSeq)
    ensures Outstanding(s, q)
  {
    assert FreshRef(s.t, m.key.kind) !in s.h.stored;
  }

  lemma QuietStepKeepsOutstanding(c: Config, s: State, e: Event, q: nat)
    requires CanStep(c, s, e) && FaultFree(s, e) && Quiet(e) && !e.Store? && RequestsOk(s)
    requires Outstanding(Apply(c, s, e), q)
    ensures Outstanding(s, q)
  {
    HistoryFrame(c, s, e);
  }

  lemma QuietStepKeepsWindows(c: Config, s: State, e: Event)
    requires CanStep(c, s, e) && FaultFree(s, e) && Quiet(e) && WindowsOk(c, s)
    ensures WindowsOk(c, Apply(c, s, e)) && Apply(c, s, e).committed == s.committed
  {
    HistoryFrame(c, s, e);
  }

  lemma QuietStepKeepsInFlight(c: Config, s: State, e: Event)
    requires CanStep(c, s, e) && FaultFree(s, e) && Quiet(e) && InFlightOk(s) && RequestsOk(s)
    ensures InFlightOk(Apply(c, s, e))
  {
    HistoryFrame(c, s, e);
  }

  lemma QuietStepKeepsClean(c: Config, s: State, e: Event)
    requires Inv(c, s) && CleanInv(c, s) && CanStep(c, s, e) && FaultFree(s, e) && Quiet(e)
    ensures CleanInv(c, Apply(c, s, e))
  {
    QuietStepKeepsWindows(c, s, e);
    QuietStepKeepsInFlight(c, s, e);
    var s' := Apply(c, s, e);
    forall q, row | Outstanding(s', q) && row in s'.committed && row.agent == c.me
      ensures row.metric.key != s'.h.enqueued[q].metric.key
    {
      HistoryFrame(c, s, e);
      if e.Store? {
        StoreKeepsOutstanding(c, s, e.metric, q);
      } else {
        QuietStepKeepsOutstanding(c, s, e, q);
      }
    }
  }

  lemma {:induction false} RunKeepsClean(c: Config, s: State, run: seq<Event>)
    requires Inv(c, s) && CleanInv(c, s) && CanRun(c, s, run) && CleanRun(c, s, run)
    ensures Inv(c, Execute(c, s, run)) && CleanInv(c, Execute(c, s, run))
    decreases |run|
  {
    hide Inv, CleanInv, Apply;
    if run != [] {
      StepKeepsInv(c, s, run[0]);
      StepKeepsClean(c, s, run[0]);
      RunKeepsClean(c, Apply(c, s, run[0]), run[1..]);
    }
  }

  lemma CleanDelivery(c: Config, s: State, r: nat)
    requires Inv(c, s) && CleanInv(c, s) && CanStep(c, s, Deliver(r, false))
    ensures var s' := DeliverStep(c, s, r, false);
      r in s'.answers && s'.answers[r] && forall m | m in s.requests[r] :: ServerRow(c.me, m) in s'.server.rows.Values
  {
    DeliveryCannotClash(c, s, r);
    CommittedBatch(s.server, c.me, s.requests[r]);
    forall m | m in s.requests[r]
      ensures ServerRow(c.me, m) in InsertAll(s.server, c.me, s.requests[r]).value.rows.Values
    {
      var k :| 0 <= k < |s.requests[r]| && s.requests[r][k] == m;
      assert Known(s.requests[r], k);
    }
  }

  /**
   In every run with no lost response, no crash and no reload, a batch that reaches the server
   and is not turned away commits in full.
   */
  lemma CleanRunsCommitInFull(c: Config, run: seq<Event>, r: nat)
    requires CanRun(c, Init(), run) && CleanRun(c, Init(), run)
    requires CanStep(c, Execute(c, Init(), run), Deliver(r, false))
    ensures var s := Execute(c, Init(), run);
      var s' := Apply(c, s, Deliver(r, false));
      && r in s'.answers && s'.answers[r]
      && forall m | m in s.requests[r] :: ServerRow(c.me, m) in s'.server.rows.Values
  {
    InitInv(c);
    RunKeepsClean(c, Init(), run);
    CleanDelivery(c, Execute(c, Init(), run), r);
  }

  // ---------- what a fault does ----------

  /** The server holds the entry's key, but the agent does not know and will not be told. */
  ghost predicate Poisoned(c: Config, s: State, q: nat) {
    && q in s.h.enqueued && q !in s.h.sent && !Accepted(s, q)
    && HasKey(s.server, c.me, s.h.enqueued[q].metric.key)
  }

  /** Every batch with a poisoned entry is refused as a whole. */
  lemma PoisonedBatchIsRefused(c: Config, s: State, q: nat, rejected: bool)
    requires Inv(c, s) && Poisoned(c, s, q) && s.phase.Waiting? && q in Ids(s.phase.batch)
    requires CanStep(c, s, Deliver(s.phase.request, rejected))
    ensures var s' := DeliverStep(c, s, s.phase.request, rejected);
      && s.phase.request in s'.answers && !s'.answers[s.phase.request]
      && s'.server == s.server && s'.committed == s.committed
  {
    hide Inv, LocalOk, CountsOk, RequestsOk, InsertAll;
    InvParts(c, s);
    IdsOfBatch(s.t.queue, s.h.enqueued, s.phase.batch, Sending);
    var metrics := s.requests[s.phase.request];
    var k :| 0 <= k < |metrics| && metrics[k] == s.h.enqueued[q].metric;
    assert Known(metrics, k);
    CommitsIffNoClash(s.server, c.me, metrics);
  }

  lemma KeysSurviveCommit(s: ServerTables, agent: string, metrics: seq<Aggregate>, me: string, key: Key)
    requires ServerOk(s) && HasKey(s, me, key) && InsertAll(s, agent, metrics).Some?
    ensures HasKey(InsertAll(s, agent, metrics).value, me, key)
  {
    CommittedBatch(s, agent, metrics);
    var i :| i in s.rows && s.rows[i].agent == me && s.rows[i].metric.key == key;
    assert i in InsertAll(s, agent, metrics).value.rows;
  }

  lemma DeliveryKeepsPoison(c: Config, s: State, r: nat, rejected: bool, q: nat)
    requires Inv(c, s) && CanStep(c, s, Deliver(r, rejected)) && Poisoned(c, s, q)
    ensures Poisoned(c, DeliverStep(c, s, r, rejected), q)
  {
    hide Inv, LocalOk, CountsOk, RequestsOk, InsertAll;
    InvParts(c, s);
    if s.phase.Waiting? && q in Ids(s.phase.batch) && r == s.phase.request {
      PoisonedBatchIsRefused(c, s, q, rejected);
    } else if InsertAll(s.server, c.me, s.requests[r]).Some? {
      KeysSurviveCommit(s.server, c.me, s.requests[r], c.me, s.h.enqueued[q].metric.key);
    }
  }

  lemma OtherAgentKeepsPoison(c: Config, s: State, agent: string, metrics: seq<Aggregate>, q: nat)
    requires ServerOk(s.server) && Poisoned(c, s, q) && agent != c.me
    ensures Poisoned(c, Apply(c, s, OtherAgent(agent, metrics)), q)
  {
    if InsertAll(s.server, agent, metrics).Some? {
      KeysSurviveCommit(s.server, agent, metrics, c.me, s.h.enqueued[q].metric.key);
    }
  }

  lemma LocalStepKeepsPoison(c: Config, s: State, e: Event, q: nat)
    requires RequestsOk(s) && CanStep(c, s, e) && Poisoned(c, s, q)
    requires !e.ServerRetention? && !e.Deliver? && !e.OtherAgent? && !e.Enqueue?
    ensures Poisoned(c, Apply(c, s, e), q)
  {
  }

  lemma EnqueueKeepsPoison(c: Config, s: State, now: int, q: nat)
    requires Inv(c, s) && CanStep(c, s, Enqueue(now)) && Poisoned(c, s, q)
    ensures Poisoned(c, EnqueueStep(s, now), q)
  {
    EnqueueFrame(c, s, now);
  }

  lemma StepKeepsPoison(c: Config, s: State, e: Event, q: nat)
    requires Inv(c, s) && CanStep(c, s, e) && Poisoned(c, s, q) && !e.ServerRetention?
    ensures Poisoned(c, Apply(c, s, e), q)
  {
    match e
    case Deliver(r, rejected) => DeliveryKeepsPoison(c, s, r, rejected, q);
    case OtherAgent(agent, metrics) => OtherAgentKeepsPoison(c, s, agent, metrics, q);
    case Enqueue(now) => EnqueueKeepsPoison(c, s, now, q);
    case _ => LocalStepKeepsPoison(c, s, e, q);
  }

  /** While the server keeps its rows, a poisoned entry is never marked as sent, however long the run. */
  lemma {:induction false} PoisonedForever(c: Config, s: State, q: nat, run: seq<Event>)
    requires Inv(c, s) && Poisoned(c, s, q) && CanRun(c, s, run) && NoServerRetention(run)
    ensures Poisoned(c, Execute(c, s, run), q) && q !in Execute(c, s, run).h.sent
    decreases |run|
  {
    if run != [] {
      assert run[0] in run;
      StepKeepsInv(c, s, run[0]);
      StepKeepsPoison(c, s, run[0], q);
      PoisonedForever(c, Apply(c, s, run[0]), q, run[1..]);
    }
  }

  lemma AcceptedIsOnServer(c: Config, s: State, q: nat)
    requires Inv(c, s) && s.committed == s.server.rows.Values && Accepted(s, q)
    ensures q in s.h.enqueued && q !in s.h.sent && HasKey(s.server, c.me, s.h.enqueued[q].metric.key)
  {
    IdsOfBatch(s.t.queue, s.h.enqueued, s.phase.batch, Sending);
    assert ServerRow(c.me, s.h.enqueued[q].metric) in s.server.rows.Values;
  }

  lemma ForgettingPoisons(c: Config, s: State, q: nat, now: int)
    requires s.phase.Waiting? && q in s.h.enqueued && q !in s.h.sent && HasKey(s.server, c.me, s.h.enqueued[q].metric.key)
    ensures Poisoned(c, Apply(c, s, GiveUp), q) && Poisoned(c, Apply(c, s, CrashAndRestart(now)), q)
  {
  }

  /** Losing the response to a committed batch, or crashing before it, poisons every entry of it. */
  lemma LostResponsePoisons(c: Config, run: seq<Event>, q: nat, now: int)
    requires CanRun(c, Init(), run) && NoServerRetention(run)
    requires Accepted(Execute(c, Init(), run), q)
    ensures var s := Execute(c, Init(), run);
      Poisoned(c, Apply(c, s, GiveUp), q) && Poisoned(c, Apply(c, s, CrashAndRestart(now)), q)
  {
    InitInv(c);
    var s := Execute(c, Init(), run);
    Reachable(c, run);
    RunKeepsServerRows(c, Init(), run);
    AcceptedIsOnServer(c, s, q);
    ForgettingPoisons(c, s, q, now);
  }

  lemma FirstStep(c: Config, s: State, e: Event)
    requires CanStep(c, s, e)
    ensures CanRun(c, s, [e]) && Execute(c, s, [e]) == Apply(c, s, e)
  {
  }

  lemma {:induction false} OneMoreStep(c: Config, s: State, run: seq<Event>, e: Event)
    requires CanRun(c, s, run) && CanStep(c, Execute(c, s, run), e)
    ensures CanRun(c, s, run + [e]) && Execute(c, s, run + [e]) == Apply(c, Execute(c, s, run), e)
    decreases |run|
  {
    if run == [] {
      assert run + [e] == [e];
    } else {
      assert (run + [e])[1..] == run[1..] + [e];
      OneMoreStep(c, Apply(c, s, run[0]), run[1..], e);
    }
  }

  /** A run up to a committed batch whose answer is on its way. */
  function AnswerOnItsWay(m: Aggregate): seq<Event> {
    [BeginPass(120), Store(m), Enqueue(121), EndPass, Fetch(122, 10, [1]), Send(122), Deliver(0, false)]
  }

  lemma OneRowIsFetched(c: Config, m: Aggregate)
    requires m.key.kind in c.enabled - {Unknown} && m.key.start == 60 && m.key.end == 120
    ensures var run := [BeginPass(120), Store(m), Enqueue(121), EndPass, Fetch(122, 10, [1])];
      && CanRun(c, Init(), run)
      && var s := Execute(c, Init(), run);
        && s == Init().(t := s.t, lastAggregation := 120, h := s.h, phase := Fetched([QueuedMetric(1, m)]))
        && s.t.queue.Keys == {1} && 1 in s.h.enqueued && s.h.enqueued[1].metric == m
  {
    hide CanRun, Execute;
    var s0 := Init();
    FirstStep(c, s0, BeginPass(120));
    OneMoreStep(c, s0, [BeginPass(120)], Store(m));
    var r2 := [BeginPass(120)] + [Store(m)];
    OneMoreStep(c, s0, r2, Enqueue(121));
    var r3 := r2 + [Enqueue(121)];
    OneMoreStep(c, s0, r3, EndPass);
    var r4 := r3 + [EndPass];
    var s4 := Execute(c, s0, r4);
    assert s4.t.queue == map[1 := Entry(RowRef(m.key.kind, 1), m.key, Pending, 121, None, 0, None, 121)];
    assert s4.t.rows == map[RowRef(m.key.kind, 1) := m];
    assert IsBatch(s4.t, 122, 10, [1]);
    assert Resolve(s4.t, [1]) == [QueuedMetric(1, m)];
    OneMoreStep(c, s0, r4, Fetch(122, 10, [1]));
    assert r4 + [Fetch(122, 10, [1])] == [BeginPass(120), Store(m), Enqueue(121), EndPass, Fetch(122, 10, [1])];
  }

  /** Such a run is possible, so the fault described next can happen to any window. */
  lemma AnswerCanBeOnItsWay(c: Config, m: Aggregate)
    requires m.key.kind in c.enabled - {Unknown} && m.key.start == 60 && m.key.end == 120
    ensures CanRun(c, Init(), AnswerOnItsWay(m)) && Accepted(Execute(c, Init(), AnswerOnItsWay(m)), 1)
    ensures var s := Execute(c, Init(), AnswerOnItsWay(m)); 1 in s.h.enqueued && s.h.enqueued[1].metric == m
  {
    hide CanRun, Execute;
    OneRowIsFetched(c, m);
    var r5 := [BeginPass(120), Store(m), Enqueue(121), EndPass, Fetch(122, 10, [1])];
    OneMoreStep(c, Init(), r5, Send(122));
    var r6 := r5 + [Send(122)];
    assert Metrics([QueuedMetric(1, m)]) == [m];
    CommitsIffNoClash(Init().server, c.me, [m]);
    OneMoreStep(c, Init(), r6, Deliver(0, false));
    assert r6 + [Deliver(0, false)] == AnswerOnItsWay(m);
    assert Ids([QueuedMetric(1, m)])[0] == 1;
  }

  lemma KnownKeyPoisons(c: Config, s: State, now: int)
    requires Inv(c, s) && CanStep(c, s, Enqueue(now))
    requires s.phase.ref in s.h.stored && HasKey(s.server, c.me, s.h.stored[s.phase.ref].key)
    ensures var s' := Apply(c, s, Enqueue(now)); Poisoned(c, s', s'.t.queueSeq)
  {
    hide Inv;
    EnqueueFrame(c, s, now);
  }

  lemma SentKeyIsKnown(c: Config, run: seq<Event>, q: nat)
    requires CanRun(c, Init(), run) && NoServerRetention(run)
    requires var h := Execute(c, Init(), run).h; q in h.sent && q in h.enqueued
    ensures var s := Execute(c, Init(), run); HasKey(s.server, c.me, s.h.enqueued[q].metric.key)
  {
    hide CanRun, Execute;
    SentIsOnServer(c, run, q);
  }

  /**
   In every run, aggregating a window again whose row was already sent, as happens after a
   restart or a reload, enqueues an entry that is poisoned from the start.
   */
  lemma RepeatedWindowPoisons(c: Config, run: seq<Event>, q: nat, now: int)
    requires CanRun(c, Init(), run) && NoServerRetention(run)
    requires CanStep(c, Execute(c, Init(), run), Enqueue(now))
    requires var s := Execute(c, Init(), run);
      && q in s.h.sent && q in s.h.enqueued && s.phase.ref in s.h.stored
      && s.h.enqueued[q].metric.key == s.h.stored[s.phase.ref].key
    ensures var s' := Apply(c, Execute(c, Init(), run), Enqueue(now)); Poisoned(c, s', s'.t.queueSeq)
  {
    hide CanRun, Execute, Inv, HasKey, Poisoned, NoServerRetention, Apply;
    Reachable(c, run);
    SentKeyIsKnown(c, run, q);
    KnownKeyPoisons(c, Execute(c, Init(), run), now);
  }

  /** The first window once more, after it was delivered and the scheduler lost its last aggregation. */
  function WindowOnceMore(m: Aggregate, again: Aggregate, restart: Event): seq<Event> {
    AnswerOnItsWay(m) + [Receive(123)] + [restart] + [BeginPass(125)] + [Store(again)]
  }

  lemma AfterReceive(c: Config, m: Aggregate)
    requires m.key.kind in c.enabled - {Unknown} && m.key.start == 60 && m.key.end == 120
    ensures var run := AnswerOnItsWay(m) + [Receive(123)];
      && CanRun(c, Init(), run)
      && var s := Execute(c, Init(), run);
        s.phase.Idle? && 1 in s.h.sent && 1 in s.h.enqueued && s.h.enqueued[1].metric == m
  {
    hide CanRun, Execute, AnswerOnItsWay;
    AnswerCanBeOnItsWay(c, m);
    OneMoreStep(c, Init(), AnswerOnItsWay(m), Receive(123));
  }

  lemma StoreOnceMore(c: Config, s: State, restart: Event, again: Aggregate)
    requires restart.Reload? || restart.CrashAndRestart?
    requires s.phase.Idle? && again.key.kind in c.enabled - {Unknown} && again.key.start == 60 && again.key.end == 120
    ensures CanStep(c, s, restart) && CanStep(c, Apply(c, s, restart), BeginPass(125))
    ensures var s2 := Apply(c, Apply(c, s, restart), BeginPass(125));
      && CanStep(c, s2, Store(again))
      && var s3 := Apply(c, s2, Store(again));
        && s3.phase.Enqueueing? && s3.phase.ref in s3.h.stored && s3.h.stored[s3.phase.ref] == again
        && s3.h.sent == s.h.sent && s3.h.enqueued == s.h.enqueued
  {
  }

  /** Such a run is possible, with a reload as well as with a restart. */
  lemma WindowCanBeRepeated(c: Config, m: Aggregate, again: Aggregate, restart: Event, now: int)
    requires m.key.kind in c.enabled - {Unknown} && m.key.start == 60 && m.key.end == 120
    requires again.key == m.key && (restart.Reload? || restart.CrashAndRestart?)
    ensures var run := WindowOnceMore(m, again, restart);
      && CanRun(c, Init(), run) && CanStep(c, Execute(c, Init(), run), Enqueue(now))
      && var s' := Apply(c, Execute(c, Init(), run), Enqueue(now)); Poisoned(c, s', s'.t.queueSeq)
  {
    hide CanRun, Execute, AnswerOnItsWay, Apply, Poisoned;
    AfterReceive(c, m);
    var r1 := AnswerOnItsWay(m) + [Receive(123)];
    StoreOnceMore(c, Execute(c, Init(), r1), restart, again);
    OneMoreStep(c, Init(), r1, restart);
    OneMoreStep(c, Init(), r1 + [restart], BeginPass(125));
    OneMoreStep(c, Init(), r1 + [restart] + [BeginPass(125)], Store(again));
    NoRetentionIn(m, again, restart);
    RepeatedWindowPoisons(c, WindowOnceMore(m, again, restart), 1, now);
  }

  lemma NoRetentionIn(m: Aggregate, again: Aggregate, restart: Event)
    requires restart.Reload? || restart.CrashAndRestart?
    ensures NoServerRetention(WindowOnceMore(m, again, restart))
  {
  }

  // ---------- exactly when a batch commits ----------

  ghost predicate DifferentKeys(batch: seq<QueuedMetric>) {
    forall i, j | 0 <= i < j < |batch| :: batch[i].metric.key != batch[j].metric.key
  }

  ghost predicate NoKeyTwice(metrics: seq<Aggregate>) {
    forall i, j | 0 <= i < j < |metrics| :: metrics[i].key != metrics[j].key
  }

  /** Neither the batch that was fetched nor any request ever sent repeats a key. */
  ghost predicate NothingRepeats(s: State) {
    && (s.phase.Fetched? ==> DifferentKeys(s.phase.fetched))
    && (forall r | r in s.requests :: NoKeyTwice(s.requests[r]))
  }

  lemma SendRepeatsNothing(s: State, now: int)
    requires s.phase.Fetched? && NothingRepeats(s)
    ensures NothingRepeats(SendStep(s, now))
  {
    var metrics := Metrics(s.phase.fetched);
    forall i, j | 0 <= i < j < |metrics|
      ensures metrics[i].key != metrics[j].key
    {
      assert metrics[i] == s.phase.fetched[i].metric && metrics[j] == s.phase.fetched[j].metric;
    }
    assert NoKeyTwice(metrics);
  }

  lemma OtherStepRepeatsNothing(c: Config, s: State, e: Event)
    requires CanStep(c, s, e) && NothingRepeats(s) && !e.Fetch? && !e.Send?
    ensures NothingRepeats(Apply(c, s, e))
  {
    hide NoKeyTwice, DifferentKeys;
  }

  lemma StepRepeatsNothing(c: Config, s: State, e: Event)
    requires TablesOk(s.t) && CanStep(c, s, e) && NothingRepeats(s)
    ensures NothingRepeats(Apply(c, s, e))
  {
    hide TablesOk, NoKeyTwice;
    match e
    case Fetch(_, _, ids) =>
      BatchKeysDistinct(s.t, ids);
      assert DifferentKeys(Resolve(s.t, ids));
    case Send(now) => SendRepeatsNothing(s, now);
    case _ => OtherStepRepeatsNothing(c, s, e);
  }

  lemma {:induction false} RunRepeatsNothing(c: Config, s: State, run: seq<Event>)
    requires Inv(c, s) && CanRun(c, s, run) && NothingRepeats(s)
    ensures NothingRepeats(Execute(c, s, run))
    decreases |run|
  {
    hide Inv, Apply, NothingRepeats, LocalOk, TablesOk;
    if run != [] {
      InvParts(c, s);
      LocalImpliesTables(c, s.t, s.h);
      StepRepeatsNothing(c, s, run[0]);
      StepKeepsInv(c, s, run[0]);
      RunRepeatsNothing(c, Apply(c, s, run[0]), run[1..]);
    }
  }

  ghost predicate NoneKnown(c: Config, s: State, metrics: seq<Aggregate>) {
    forall m | m in metrics :: !HasKey(s.server, c.me, m.key)
  }

  lemma ClashIffKnown(c: Config, s: State, r: nat)
    requires RequestsOk(s) && NothingRepeats(s) && r in s.requests
    ensures NoClash(s.server, c.me, s.requests[r]) <==> NoneKnown(c, s, s.requests[r])
  {
    hide HasKey;
    var metrics := s.requests[r];
    assert NoKeyTwice(metrics);
    forall k | 0 <= k < |metrics|
      ensures Known(metrics, k) && metrics[k] in metrics
    {
    }
  }

  /**
   In every run, crashes, reloads and losses included, a request that reaches the server and is
   not turned away, whether the agent still waits for it or not, commits if and only if the
   server has none of its keys yet.
   */
  lemma RequestCommitsIff(c: Config, run: seq<Event>, r: nat)
    requires CanRun(c, Init(), run) && CanStep(c, Execute(c, Init(), run), Deliver(r, false))
    ensures var s := Execute(c, Init(), run);
      var s' := DeliverStep(c, s, r, false);
      && r in s.requests && r in s'.answers
      && (s'.answers[r] <==> NoneKnown(c, s, s.requests[r]))
  {
    hide CanRun, Execute, Inv, LocalOk, CountsOk, RequestsOk, NoneKnown, NoClash, NothingRepeats, InsertAll;
    assert Inv(c, Init()) && NothingRepeats(Init()) by { InitRepeatsNothing(c); }
    Reachable(c, run);
    RunRepeatsNothing(c, Init(), run);
    var s := Execute(c, Init(), run);
    InvParts(c, s);
    ClashIffKnown(c, s, r);
    CommitsIffNoClash(s.server, c.me, s.requests[r]);
  }

  lemma InitRepeatsNothing(c: Config)
    ensures Inv(c, Init()) && NothingRepeats(Init())
  {
    InitInv(c);
  }

  ghost predicate HasPoison(c: Config, s: State, batch: seq<QueuedMetric>) {
    exists i :: 0 <= i < |batch| && Poisoned(c, s, batch[i].queueId)
  }

  lemma KnownIsPoison(c: Config, s: State)
    requires Inv(c, s) && s.phase.Waiting? && s.phase.request in s.transit
    ensures s.phase.request in s.requests
    ensures NoneKnown(c, s, s.requests[s.phase.request]) <==> !HasPoison(c, s, s.phase.batch)
  {
    hide Inv, LocalOk, CountsOk;
    InvParts(c, s);
    var batch, metrics := s.phase.batch, Metrics(s.phase.batch);
    forall i | 0 <= i < |batch|
      ensures metrics[i] in metrics && (Poisoned(c, s, batch[i].queueId) <==> HasKey(s.server, c.me, metrics[i].key))
    {
      assert metrics[i] == batch[i].metric;
    }
  }

  /** For the batch the agent waits for, that is: if and only if none of its entries is poisoned. */
  lemma BatchCommitsIffNoPoison(c: Config, run: seq<Event>)
    requires CanRun(c, Init(), run)
    requires var s := Execute(c, Init(), run); s.phase.Waiting? && CanStep(c, s, Deliver(s.phase.request, false))
    ensures var s := Execute(c, Init(), run);
      var s' := DeliverStep(c, s, s.phase.request, false);
      && s.phase.request in s'.answers
      && (s'.answers[s.phase.request] <==> !HasPoison(c, s, s.phase.batch))
  {
    hide CanRun, Execute, Inv, HasPoison, NoneKnown, DeliverStep;
    Reachable(c, run);
    RequestCommitsIff(c, run, Execute(c, Init(), run).phase.request);
    KnownIsPoison(c, Execute(c, Init(), run));
  }

  // ---------- rows that are never enqueued ----------

  /** No entry points at the row, and the step that would enqueue it is gone. */
  ghost predicate Orphaned(s: State, ref: RowRef) {
    && ref in s.h.stored
    && (forall q | q in s.h.enqueued :: s.h.enqueued[q].ref != ref)
    && !(s.phase.Enqueueing? && s.phase.ref == ref)
  }

  lemma StepKeepsOrphan(c: Config, s: State, e: Event, ref: RowRef)
    requires StoredOk(s.t.rows, s.t.rowSeq, s.h.stored) && CanStep(c, s, e) && Orphaned(s, ref)
    ensures Orphaned(Apply(c, s, e), ref)
  {
    if e.Store? {
      assert FreshRef(s.t, e.metric.key.kind) !in s.h.stored;
    } else {
      OtherStepKeepsOrphan(c, s, e, ref);
    }
  }

  lemma OtherStepKeepsOrphan(c: Config, s: State, e: Event, ref: RowRef)
    requires CanStep(c, s, e) && Orphaned(s, ref) && !e.Store?
    ensures Orphaned(Apply(c, s, e), ref)
  {
    HistoryFrame(c, s, e);
  }

  lemma {:induction false} OrphanStaysOrphan(c: Config, s: State, ref: RowRef, run: seq<Event>)
    requires Inv(c, s) && Orphaned(s, ref) && CanRun(c, s, run)
    ensures Orphaned(Execute(c, s, run), ref)
    decreases |run|
  {
    if run != [] {
      StepKeepsInv(c, s, run[0]);
      StepKeepsOrphan(c, s, run[0], ref);
      OrphanStaysOrphan(c, Apply(c, s, run[0]), ref, run[1..]);
    }
  }

  /** Somewhere in the run, a crash hit the agent between storing this row and enqueueing it. */
  predicate CrashedBeforeEnqueue(c: Config, s: State, run: seq<Event>, ref: RowRef)
    requires CanRun(c, s, run)
    decreases |run|
  {
    if run == [] then false
    else if run[0].CrashAndRestart? && s.phase.Enqueueing? && s.phase.ref == ref then true
    else CrashedBeforeEnqueue(c, Apply(c, s, run[0]), run[1..], ref)
  }

  lemma CrashOrphans(c: Config, s: State, now: int)
    requires PhaseOk(s.t, s.h, s.phase) && s.phase.Enqueueing? && s.phase.ref in s.h.stored
    ensures Orphaned(CrashStep(s, now), s.phase.ref)
  {
  }

  lemma EnqueueOrphansNothing(c: Config, s: State, now: int, ref: RowRef)
    requires Inv(c, s) && CanStep(c, s, Enqueue(now)) && Orphaned(EnqueueStep(s, now), ref)
    ensures Orphaned(s, ref)
  {
    hide Inv;
    EnqueueFrame(c, s, now);
    var h' := EnqueueStep(s, now).h;
    assert h'.enqueued[EnqueueStep(s, now).t.queueSeq].ref == s.phase.ref;
    forall q | q in s.h.enqueued
      ensures s.h.enqueued[q].ref != ref
    {
      assert h'.enqueued[q] == s.h.enqueued[q];
    }
  }

  lemma OtherStepOrphansNothing(c: Config, s: State, e: Event, ref: RowRef)
    requires CanStep(c, s, e) && !e.Enqueue? && Orphaned(Apply(c, s, e), ref)
    requires !(e.CrashAndRestart? && s.phase.Enqueueing? && s.phase.ref == ref)
    ensures Orphaned(s, ref)
  {
    HistoryFrame(c, s, e);
  }

  lemma StepOrphans(c: Config, s: State, e: Event, ref: RowRef)
    requires Inv(c, s) && CanStep(c, s, e)
    ensures Orphaned(Apply(c, s, e), ref) <==>
      Orphaned(s, ref) || (e.CrashAndRestart? && s.phase.Enqueueing? && s.phase.ref == ref)
  {
    hide Inv, LocalOk, CountsOk, RequestsOk, Orphaned, PhaseOk, EnqueueStep, CrashStep;
    InvParts(c, s);
    LocalPart(c, s);
    StoredPart(c, s);
    if Orphaned(s, ref) {
      StepKeepsOrphan(c, s, e, ref);
    } else if e.CrashAndRestart? && s.phase.Enqueueing? && s.phase.ref == ref {
      EnqueueingRow(c, s);
      CrashOrphans(c, s, e.now);
    } else if Orphaned(Apply(c, s, e), ref) {
      if e.Enqueue? {
        EnqueueOrphansNothing(c, s, e.now, ref);
      } else {
        OtherStepOrphansNothing(c, s, e, ref);
      }
    }
  }

  lemma StoredPart(c: Config, s: State)
    requires LocalOk(c, s.t, s.h)
    ensures StoredOk(s.t.rows, s.t.rowSeq, s.h.stored)
  {
  }

  lemma {:induction false} OrphansComeFromCrashes(c: Config, s: State, run: seq<Event>, ref: RowRef)
    requires Inv(c, s) && CanRun(c, s, run)
    ensures Orphaned(Execute(c, s, run), ref) <==> Orphaned(s, ref) || CrashedBeforeEnqueue(c, s, run, ref)
    decreases |run|
  {
    hide Inv, Orphaned, Apply;
    if run != [] {
      StepKeepsInv(c, s, run[0]);
      StepOrphans(c, s, run[0], ref);
      OrphansComeFromCrashes(c, Apply(c, s, run[0]), run[1..], ref);
    }
  }

  /**
   In every run, a stored row is left without an entry, and without a step to come that would
   enqueue it, if and only if a crash hit the agent between storing and enqueueing it.
   */
  lemma RowIsOrphanedIff(c: Config, run: seq<Event>, ref: RowRef)
    requires CanRun(c, Init(), run)
    ensures Orphaned(Execute(c, Init(), run), ref) <==> CrashedBeforeEnqueue(c, Init(), run, ref)
  {
    hide Inv, Execute, CanRun, CrashedBeforeEnqueue;
    InitInv(c);
    OrphansComeFromCrashes(c, Init(), run, ref);
  }

  /** A crash between storing a row and enqueueing it leaves a row that no run ever enqueues. */
  lemma CrashBeforeEnqueueLosesRow(c: Config, s: State, now: int, run: seq<Event>)
    requires Inv(c, s) && s.phase.Enqueueing?
    requires CanRun(c, s, [CrashAndRestart(now)] + run)
    ensures Orphaned(Execute(c, s, [CrashAndRestart(now)] + run), s.phase.ref)
  {
    var events := [CrashAndRestart(now)] + run;
    assert events[1..] == run;
    StepKeepsInv(c, s, events[0]);
    OrphanStaysOrphan(c, Apply(c, s, events[0]), s.phase.ref, run);
  }
}
