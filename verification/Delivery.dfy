/**
 Store-and-forward delivery as a state machine: one agent with its scheduler, send loop and
 local tables, an unreliable network, and the server. Every step is one atomic action of the
 source (one SQL statement, one transaction, one message), so a crash may come between any two.

 The network keeps a request for as long as it likes, also after the agent gave up on it or
 restarted, and delivers it at most once. An answer reaches the agent only while the agent is
 waiting for it. Other agents are an environment that commits any batch under its own id.
 `History` records what happened; no step reads it.
 */
module Delivery {
  import opened Wrappers
  import opened AgentTables
  import opened ServerStore

  datatype Config = Config(me: string, maxRetries: int, enabled: set<MetricType>)

  datatype Queued = Queued(ref: RowRef, metric: Aggregate)

  datatype History = History(
    stored: map<RowRef, Aggregate>,
    enqueued: map<nat, Queued>,
    sent: set<nat>,
    dead: set<nat>,
    failures: map<nat, nat>,
    recoveries: map<nat, nat>
  )

  datatype Phase =
    | Idle
    | Aggregating(minute: int)
    | Enqueueing(minute: int, ref: RowRef)
    | Fetched(fetched: seq<QueuedMetric>)
    | Waiting(request: nat, batch: seq<QueuedMetric>)
    | Failing(rest: seq<nat>)

  datatype State = State(
    t: Tables,
    phase: Phase,
    lastAggregation: int,
    h: History,
    requests: map<nat, seq<Aggregate>>,
    nextRequest: nat,
    transit: set<nat>,
    answers: map<nat, bool>,
    server: ServerTables,
    committed: set<ServerRow>
  )

  datatype Event =
    // the agent's main loop
    | BeginPass(now: int)
    | Store(metric: Aggregate)
    | Enqueue(now: int)
    | EndPass
    | Fetch(now: int, limit: nat, ids: seq<nat>)
    | Send(now: int)
    | Receive(now: int)
    | GiveUp
    | RecordFailure(now: int)
    | DropRows(cutoff: int)
    | DropSent(cutoff: int)
    | DropFailed(cutoff: int)
    | Reload
    | CrashAndRestart(now: int)
    // the network and the server
    | LoseRequest(r: nat)
    | Deliver(r: nat, rejected: bool)
    | OtherAgent(agent: string, metrics: seq<Aggregate>)
    | ServerRetention(cutoff: int)

  function MinuteOf(now: int): int {
    now / 60 * 60
  }

  function Count(m: map<nat, nat>, q: nat): nat {
    if q in m then m[q] else 0
  }

  function Init(): State {
    State(Tables(map[], map[], map[], 0), Idle, 0, History(map[], map[], {}, {}, map[], map[]),
          map[], 0, {}, map[], ServerTables(map[], 0), {})
  }

  predicate CanStep(c: Config, s: State, e: Event) {
    match e
    case BeginPass(now) => s.phase.Idle? && now >= 0 && MinuteOf(now) > s.lastAggregation
    case Store(m) =>
      && s.phase.Aggregating? && m.key.kind in c.enabled - {Unknown}
      && m.key.start == s.phase.minute - 60 && m.key.end == s.phase.minute
    case Enqueue(_) => s.phase.Enqueueing?
    case EndPass => s.phase.Aggregating?
    case Fetch(now, limit, ids) => s.phase.Idle? && IsBatch(s.t, now, limit, ids)
    case Send(_) => s.phase.Fetched?
    case Receive(_) => s.phase.Waiting? && s.phase.request in s.answers
    case GiveUp => s.phase.Waiting?
    case RecordFailure(_) => s.phase.Failing? && s.phase.rest != []
    case DropRows(_) => s.phase.Idle?
    case DropSent(_) => s.phase.Idle?
    case DropFailed(_) => s.phase.Idle?
    case Reload => s.phase.Idle?
    case CrashAndRestart(_) => true
    case LoseRequest(r) => r in s.transit
    case Deliver(r, _) => r in s.transit && r in s.requests
    case OtherAgent(agent, _) => agent != c.me
    case ServerRetention(_) => true
  }

  function StoreStep(s: State, m: Aggregate): State
    requires s.phase.Aggregating?
  {
    var ref := FreshRef(s.t, m.key.kind);
    s.(t := StoreRow(s.t, m), h := s.h.(stored := s.h.stored[ref := m]),
       phase := Enqueueing(s.phase.minute, ref))
  }

  function EnqueueStep(s: State, now: int): State
    requires s.phase.Enqueueing?
  {
    var ref := s.phase.ref;
    var resumed := s.(phase := Aggregating(s.phase.minute));
    if ref !in s.h.stored then resumed
    else
      var t := EnqueueRow(s.t, s.h.stored[ref].key, ref, now);
      if t.queueSeq == s.t.queueSeq then resumed
      else resumed.(t := t, h := s.h.(enqueued := s.h.enqueued[t.queueSeq := Queued(ref, s.h.stored[ref])]))
  }

  function FetchStep(s: State, ids: seq<nat>): State {
    var batch := Resolve(s.t, ids);
    s.(t := Purge(s.t, ids), phase := if batch == [] then Idle else Fetched(batch))
  }

  function SendStep(s: State, now: int): State
    requires s.phase.Fetched?
  {
    var batch := s.phase.fetched;
    s.(t := MarkSending(s.t, Ids(batch), now),
       phase := Waiting(s.nextRequest, batch),
       requests := s.requests[s.nextRequest := Metrics(batch)],
       transit := s.transit + {s.nextRequest},
       nextRequest := s.nextRequest + 1)
  }

  function SentHistory(h: History, ids: seq<nat>): History {
    h.(sent := h.sent + set q | q in ids)
  }

  function ReceiveStep(s: State, now: int): State
    requires s.phase.Waiting? && s.phase.request in s.answers
  {
    var ids := Ids(s.phase.batch);
    if s.answers[s.phase.request] then
      s.(t := MarkSent(s.t, ids, now), h := SentHistory(s.h, ids), phase := Idle)
    else s.(phase := Failing(ids))
  }

  function FailedHistory(c: Config, t: Tables, h: History, q: nat, now: int): History
    requires q in t.queue
  {
    h.(failures := h.failures[q := Count(h.failures, q) + 1],
       dead := if FailedEntry(t.queue[q], c.maxRetries, now).status == Failed then h.dead + {q} else h.dead)
  }

  function Recovered(t: Tables, h: History): History {
    var stuck := set q | q in t.queue && t.queue[q].status == Sending;
    h.(recoveries := map q | q in h.recoveries.Keys + stuck :: Count(h.recoveries, q) + if q in stuck then 1 else 0)
  }

  function RecordFailureStep(c: Config, s: State, now: int): State
    requires s.phase.Failing? && s.phase.rest != []
  {
    var q := s.phase.rest[0];
    s.(t := MarkFailed(s.t, q, c.maxRetries, now),
       h := if q in s.t.queue then FailedHistory(c, s.t, s.h, q, now) else s.h,
       phase := if |s.phase.rest| == 1 then Idle else Failing(s.phase.rest[1..]))
  }

  function CrashStep(s: State, now: int): State {
    s.(t := Recover(s.t, now), phase := Idle, lastAggregation := 0, h := Recovered(s.t, s.h))
  }

  function Commit(s: State, agent: string, metrics: seq<Aggregate>): Option<State> {
    match InsertAll(s.server, agent, metrics)
    case None => None
    case Some(server) => Some(s.(server := server, committed := s.committed + server.rows.Values))
  }

  function DeliverStep(c: Config, s: State, r: nat, rejected: bool): State
    requires r in s.requests
  {
    var arrived := s.(transit := s.transit - {r});
    var refused := arrived.(answers := s.answers[r := false]);
    if rejected then refused
    else match Commit(arrived, c.me, s.requests[r])
      case None => refused
      case Some(s') => s'.(answers := s.answers[r := true])
  }

  function Apply(c: Config, s: State, e: Event): State
    requires CanStep(c, s, e)
  {
    match e
    case BeginPass(now) => s.(phase := Aggregating(MinuteOf(now)))
    case Store(m) => StoreStep(s, m)
    case Enqueue(now) => EnqueueStep(s, now)
    case EndPass => s.(phase := Idle, lastAggregation := s.phase.minute)
    case Fetch(_, _, ids) => FetchStep(s, ids)
    case Send(now) => SendStep(s, now)
    case Receive(now) => ReceiveStep(s, now)
    case GiveUp => s.(phase := Failing(Ids(s.phase.batch)))
    case RecordFailure(now) => RecordFailureStep(c, s, now)
    case DropRows(cutoff) => s.(t := CleanRows(s.t, cutoff))
    case DropSent(cutoff) => s.(t := CleanSent(s.t, cutoff))
    case DropFailed(cutoff) => s.(t := CleanFailed(s.t, cutoff))
    case Reload => s.(lastAggregation := 0)
    case CrashAndRestart(now) => CrashStep(s, now)
    case LoseRequest(r) => s.(transit := s.transit - {r})
    case Deliver(r, rejected) => DeliverStep(c, s, r, rejected)
    case OtherAgent(agent, metrics) =>
      (match Commit(s, agent, metrics) case None => s case Some(s') => s')
    case ServerRetention(cutoff) => s.(server := CleanServer(s.server, cutoff))
  }

  /** A run is a sequence of events, each possible where it happens. */
  predicate CanRun(c: Config, s: State, run: seq<Event>)
    decreases |run|
  {
    run == [] || (CanStep(c, s, run[0]) && CanRun(c, Apply(c, s, run[0]), run[1..]))
  }

  function Execute(c: Config, s: State, run: seq<Event>): State
    requires CanRun(c, s, run)
    decreases |run|
  {
    if run == [] then s else Execute(c, Apply(c, s, run[0]), run[1..])
  }

  // ---------- invariants ----------

  /** `stored` remembers every row that ever was in a table. */
  ghost predicate StoredOk(rows: map<RowRef, Aggregate>, rowSeq: map<MetricType, nat>, stored: map<RowRef, Aggregate>) {
    && (forall r | r in rows :: r in stored && stored[r] == rows[r])
    && (forall r | r in stored :: r.id <= LastRowId(rowSeq, r.kind) && stored[r].key.kind == r.kind && r.kind != Unknown)
  }

  ghost predicate EnqueuedOk(stored: map<RowRef, Aggregate>, enqueued: map<nat, Queued>, queueSeq: nat) {
    && (forall q | q in enqueued ::
          q <= queueSeq && enqueued[q].ref in stored && stored[enqueued[q].ref] == enqueued[q].metric)
    && (forall p, q | p in enqueued && q in enqueued :: enqueued[p].ref == enqueued[q].ref ==> p == q)
  }

  ghost predicate LinkedOk(queue: map<nat, Entry>, enqueued: map<nat, Queued>) {
    forall q | q in queue ::
      q in enqueued && enqueued[q].ref == queue[q].ref && enqueued[q].metric.key == queue[q].key
  }

  /** A newer row for the same task and period was stored after this one. */
  ghost predicate Newer(stored: map<RowRef, Aggregate>, r: RowRef, q: Queued) {
    r in stored && r.kind == q.ref.kind && r.id > q.ref.id && stored[r].key == q.metric.key
  }

  ghost predicate Replaced(stored: map<RowRef, Aggregate>, q: Queued) {
    exists r :: Newer(stored, r, q)
  }

  ghost predicate Settled(h: History, q: nat) {
    q in h.sent || q in h.dead
  }

  ghost predicate StatusOk(queue: map<nat, Entry>, h: History) {
    && h.sent !! h.dead
    && h.sent + h.dead <= h.enqueued.Keys
    && forall q | q in queue :: (queue[q].status == Sent <==> q in h.sent) && (queue[q].status == Failed <==> q in h.dead)
  }

  /** The entry is in the queue and its row in its table. */
  ghost predicate Alive(t: Tables, q: nat, x: Queued) {
    q in t.queue && x.ref in t.rows
  }

  ghost predicate FateOk(t: Tables, h: History) {
    forall q | q in h.enqueued :: !Settled(h, q) && !Alive(t, q, h.enqueued[q]) ==>
      h.enqueued[q].ref !in t.rows && Replaced(h.stored, h.enqueued[q])
  }

  ghost predicate BatchOk(queue: map<nat, Entry>, enqueued: map<nat, Queued>, batch: seq<QueuedMetric>, status: Status) {
    && (forall i, j | 0 <= i < j < |batch| :: batch[i].queueId != batch[j].queueId)
    && (forall i | 0 <= i < |batch| :: var q := batch[i].queueId;
          q in queue && queue[q].status == status && q in enqueued && enqueued[q].metric == batch[i].metric)
  }

  ghost predicate PhaseOk(t: Tables, h: History, phase: Phase) {
    match phase
    case Enqueueing(_, ref) => ref in t.rows && forall q | q in h.enqueued :: h.enqueued[q].ref != ref
    case Fetched(batch) => BatchOk(t.queue, h.enqueued, batch, Pending)
    case Waiting(_, batch) => BatchOk(t.queue, h.enqueued, batch, Sending)
    case Failing(rest) => Distinct(rest) && forall q | q in rest :: q in t.queue && t.queue[q].status == Sending
    case _ => true
  }

  ghost predicate RequestsOk(s: State) {
    && (forall r | r in s.requests :: r < s.nextRequest && forall m | m in s.requests[r] :: m.key.kind != Unknown)
    && s.transit <= s.requests.Keys && s.answers.Keys <= s.requests.Keys && s.transit !! s.answers.Keys
    && (s.phase.Waiting? ==> s.phase.request in s.requests && s.requests[s.phase.request] == Metrics(s.phase.batch))
  }

  /** An accepted batch was committed in full, and so was every entry marked as sent. */
  ghost predicate CommittedOk(c: Config, s: State) {
    && s.server.rows.Values <= s.committed
    && (forall r | r in s.answers && r in s.requests && s.answers[r] ::
          forall m | m in s.requests[r] :: ServerRow(c.me, m) in s.committed)
    && (forall q | q in s.h.sent && q in s.h.enqueued :: ServerRow(c.me, s.h.enqueued[q].metric) in s.committed)
  }

  function Max(a: int, b: int): int {
    if a < b then b else a
  }

  ghost predicate EntryCountOk(c: Config, e: Entry, failed: nat, recovered: nat) {
    && e.retryCount == failed + recovered
    && (e.status in {Pending, Sending} ==> failed == 0 || failed < c.maxRetries)
  }

  ghost predicate CountsOk(c: Config, queue: map<nat, Entry>, h: History) {
    && h.failures.Keys <= h.enqueued.Keys && h.recoveries.Keys <= h.enqueued.Keys
    && (forall q | q in queue :: EntryCountOk(c, queue[q], Count(h.failures, q), Count(h.recoveries, q)))
    && (forall q | q in h.failures :: h.failures[q] <= Max(1, c.maxRetries))
  }

  ghost predicate LocalOk(c: Config, t: Tables, h: History) {
    && RowsOk(t.rows, t.rowSeq)
    && QueueOk(t.queue, t.rowSeq, t.queueSeq)
    && StoredOk(t.rows, t.rowSeq, h.stored)
    && EnqueuedOk(h.stored, h.enqueued, t.queueSeq)
    && LinkedOk(t.queue, h.enqueued)
    && StatusOk(t.queue, h)
    && FateOk(t, h)
    && CountsOk(c, t.queue, h)
  }

  ghost predicate Inv(c: Config, s: State) {
    && LocalOk(c, s.t, s.h)
    && PhaseOk(s.t, s.h, s.phase)
    && RequestsOk(s)
    && ServerOk(s.server)
    && CommittedOk(c, s)
  }

  lemma LocalImpliesTables(c: Config, t: Tables, h: History)
    requires LocalOk(c, t, h)
    ensures TablesOk(t)
  {
    forall q | q in t.queue && t.queue[q].ref in t.rows
      ensures t.rows[t.queue[q].ref].key == t.queue[q].key
    {
      assert h.enqueued[q].ref == t.queue[q].ref;
    }
  }

  // ---------- what the steps have in common ----------

  /** Entries may go or change their status; none is added or redirected. */
  ghost predicate SubQueue(queue: map<nat, Entry>, queue': map<nat, Entry>) {
    forall q | q in queue' :: q in queue && queue'[q].ref == queue[q].ref && queue'[q].key == queue[q].key
  }

  ghost predicate SubRows(rows: map<RowRef, Aggregate>, rows': map<RowRef, Aggregate>) {
    forall r | r in rows' :: r in rows && rows'[r] == rows[r]
  }

  lemma SubQueueOk(queue: map<nat, Entry>, queue': map<nat, Entry>, rowSeq: map<MetricType, nat>, queueSeq: nat, enqueued: map<nat, Queued>)
    requires QueueOk(queue, rowSeq, queueSeq) && LinkedOk(queue, enqueued) && SubQueue(queue, queue')
    ensures QueueOk(queue', rowSeq, queueSeq) && LinkedOk(queue', enqueued)
  {
  }

  /** Fates stay decided as long as no live unsettled entry, nor its row, goes. */
  lemma ShrinkKeepsFate(t: Tables, h: History, t': Tables, h': History)
    requires FateOk(t, h) && SubQueue(t.queue, t'.queue) && SubRows(t.rows, t'.rows)
    requires h'.stored == h.stored && h'.enqueued == h.enqueued && h.sent <= h'.sent && h.dead <= h'.dead
    requires forall q | q in h.enqueued && !Settled(h', q) && Alive(t, q, h.enqueued[q]) :: Alive(t', q, h.enqueued[q])
    ensures FateOk(t', h')
  {
    forall q | q in h'.enqueued && !Settled(h', q) && !Alive(t', q, h'.enqueued[q])
      ensures h'.enqueued[q].ref !in t'.rows && Replaced(h'.stored, h'.enqueued[q])
    {
      assert !Settled(h, q) && !Alive(t, q, h.enqueued[q]);
    }
  }

  /** A step that only relabels entries: the rows and the set of entries stay. */
  lemma RelabelKeepsLocal(c: Config, t: Tables, h: History, t': Tables, h': History)
    requires LocalOk(c, t, h)
    requires t' == t.(queue := t'.queue) && SubQueue(t.queue, t'.queue) && t'.queue.Keys == t.queue.Keys
    requires h'.stored == h.stored && h'.enqueued == h.enqueued && h.sent <= h'.sent && h.dead <= h'.dead
    requires StatusOk(t'.queue, h') && CountsOk(c, t'.queue, h')
    ensures LocalOk(c, t', h')
  {
    SubQueueOk(t.queue, t'.queue, t.rowSeq, t.queueSeq, h.enqueued);
    ShrinkKeepsFate(t, h, t', h');
  }

  /** The ids of a batch, as the list the queue steps work on. */
  lemma IdsOfBatch(queue: map<nat, Entry>, enqueued: map<nat, Queued>, batch: seq<QueuedMetric>, status: Status)
    requires BatchOk(queue, enqueued, batch, status)
    ensures Distinct(Ids(batch))
    ensures forall q | q in Ids(batch) ::
      q in queue && queue[q].status == status && q in enqueued && enqueued[q].metric in Metrics(batch)
    ensures forall i | 0 <= i < |batch| :: batch[i].queueId in Ids(batch)
    ensures forall m | m in Metrics(batch) :: exists q :: q in Ids(batch) && q in enqueued && enqueued[q].metric == m
  {
    forall i | 0 <= i < |batch|
      ensures batch[i].queueId in Ids(batch) && batch[i].metric in Metrics(batch)
    {
      assert Ids(batch)[i] == batch[i].queueId && Metrics(batch)[i] == batch[i].metric;
    }
    forall q | q in Ids(batch)
      ensures q in queue && queue[q].status == status && q in enqueued && enqueued[q].metric in Metrics(batch)
    {
      var i :| 0 <= i < |batch| && Ids(batch)[i] == q;
      assert batch[i].queueId == q;
    }
    forall m | m in Metrics(batch)
      ensures exists q :: q in Ids(batch) && q in enqueued && enqueued[q].metric == m
    {
      var i :| 0 <= i < |batch| && Metrics(batch)[i] == m;
      assert batch[i].queueId in Ids(batch);
    }
  }

  /** A local step leaves the network's and the server's part alone. */
  lemma LocalUpdateKeepsInv(c: Config, s: State, t': Tables, h': History, phase': Phase)
    requires Inv(c, s) && LocalOk(c, t', h') && PhaseOk(t', h', phase') && !phase'.Waiting?
    requires h'.sent == s.h.sent
    requires forall q | q in s.h.sent :: q in s.h.enqueued && q in h'.enqueued && h'.enqueued[q] == s.h.enqueued[q]
    ensures Inv(c, s.(t := t', h := h', phase := phase'))
  {
  }

  lemma LocalPart(c: Config, s: State)
    requires Inv(c, s)
    ensures LocalOk(c, s.t, s.h) && PhaseOk(s.t, s.h, s.phase)
    ensures forall q | q in s.h.sent :: q in s.h.enqueued
  {
  }

  // ---------- every step keeps the invariant ----------

  lemma StoreKeepsStored(t: Tables, stored: map<RowRef, Aggregate>, m: Aggregate)
    requires StoredOk(t.rows, t.rowSeq, stored) && m.key.kind != Unknown
    ensures var t' := StoreRow(t, m);
      var ref := FreshRef(t, m.key.kind);
      ref in t'.rows && ref !in stored && StoredOk(t'.rows, t'.rowSeq, stored[ref := m])
  {
  }

  lemma LargerSequences(t: Tables, rowSeq: map<MetricType, nat>, h: History, ref: RowRef, m: Aggregate)
    requires QueueOk(t.queue, t.rowSeq, t.queueSeq) && EnqueuedOk(h.stored, h.enqueued, t.queueSeq)
    requires forall kind :: LastRowId(t.rowSeq, kind) <= LastRowId(rowSeq, kind)
    requires ref !in h.stored
    ensures QueueOk(t.queue, rowSeq, t.queueSeq) && EnqueuedOk(h.stored[ref := m], h.enqueued, t.queueSeq)
    ensures forall q | q in h.enqueued :: h.enqueued[q].ref != ref
  {
  }

  /** Replacing a row supersedes the entries that point at it. */
  lemma StoreKeepsFate(t: Tables, h: History, m: Aggregate)
    requires StoredOk(t.rows, t.rowSeq, h.stored) && EnqueuedOk(h.stored, h.enqueued, t.queueSeq) && FateOk(t, h)
    ensures FateOk(StoreRow(t, m), h.(stored := h.stored[FreshRef(t, m.key.kind) := m]))
  {
    var ref := FreshRef(t, m.key.kind);
    var t' := StoreRow(t, m);
    var h' := h.(stored := h.stored[ref := m]);
    forall q | q in h'.enqueued && !Settled(h', q) && !Alive(t', q, h'.enqueued[q])
      ensures h'.enqueued[q].ref !in t'.rows && Replaced(h'.stored, h'.enqueued[q])
    {
      var x := h.enqueued[q];
      assert x.ref != ref && !Settled(h, q);
      if Alive(t, q, x) {
        assert Newer(h'.stored, ref, x);
      } else {
        var r :| Newer(h.stored, r, x);
        assert Newer(h'.stored, r, x);
      }
    }
  }

  /** Of the entries that were alive, exactly those of the replaced row are superseded. */
  lemma StoreSupersedesItsKey(t: Tables, h: History, m: Aggregate, q: nat)
    requires StoredOk(t.rows, t.rowSeq, h.stored) && EnqueuedOk(h.stored, h.enqueued, t.queueSeq)
    requires q in h.enqueued && Alive(t, q, h.enqueued[q])
    ensures Alive(StoreRow(t, m), q, h.enqueued[q]) <==> h.enqueued[q].metric.key != m.key
    ensures h.enqueued[q].metric.key == m.key ==>
      Replaced(h.stored[FreshRef(t, m.key.kind) := m], h.enqueued[q])
  {
    var ref := FreshRef(t, m.key.kind);
    assert h.enqueued[q].ref != ref;
    if h.enqueued[q].metric.key == m.key {
      assert Newer(h.stored[ref := m], ref, h.enqueued[q]);
    }
  }

  lemma StoreKeepsLocal(c: Config, t: Tables, h: History, m: Aggregate)
    requires LocalOk(c, t, h) && m.key.kind != Unknown
    ensures LocalOk(c, StoreRow(t, m), h.(stored := h.stored[FreshRef(t, m.key.kind) := m]))
    ensures forall q | q in h.enqueued :: h.enqueued[q].ref != FreshRef(t, m.key.kind)
    ensures FreshRef(t, m.key.kind) in StoreRow(t, m).rows
  {
    StoreKeepsRows(t, m);
    StoreKeepsStored(t, h.stored, m);
    StoreKeepsFate(t, h, m);
    LargerSequences(t, StoreRow(t, m).rowSeq, h, FreshRef(t, m.key.kind), m);
  }

  lemma StoreKeepsInv(c: Config, s: State, m: Aggregate)
    requires Inv(c, s) && CanStep(c, s, Store(m))
    ensures Inv(c, StoreStep(s, m))
  {
    StoreKeepsLocal(c, s.t, s.h, m);
  }

  /** The row just stored has no entry yet, so INSERT OR IGNORE inserts. */
  lemma EnqueueNeverIgnores(t: Tables, h: History, ref: RowRef, now: int)
    requires EnqueuedOk(h.stored, h.enqueued, t.queueSeq) && LinkedOk(t.queue, h.enqueued) && ref in h.stored
    requires forall q | q in h.enqueued :: h.enqueued[q].ref != ref
    ensures var q' := t.queueSeq + 1;
      && q' !in h.enqueued && q' !in t.queue
      && EnqueueRow(t, h.stored[ref].key, ref, now) ==
           t.(queue := t.queue[q' := Entry(ref, h.stored[ref].key, Pending, now, None, 0, None, now)], queueSeq := q')
  {
    assert forall q | q in t.queue :: t.queue[q].ref != ref;
  }

  lemma NewEntryOk(t: Tables, h: History, e: Entry, x: Queued)
    requires QueueOk(t.queue, t.rowSeq, t.queueSeq) && StoredOk(t.rows, t.rowSeq, h.stored)
    requires EnqueuedOk(h.stored, h.enqueued, t.queueSeq) && LinkedOk(t.queue, h.enqueued)
    requires e.ref == x.ref && e.ref in h.stored && h.stored[e.ref] == x.metric && e.key == x.metric.key
    requires forall q | q in h.enqueued :: h.enqueued[q].ref != e.ref
    ensures var q' := t.queueSeq + 1;
      && QueueOk(t.queue[q' := e], t.rowSeq, q')
      && EnqueuedOk(h.stored, h.enqueued[q' := x], q')
      && LinkedOk(t.queue[q' := e], h.enqueued[q' := x])
  {
    assert forall q | q in t.queue :: t.queue[q].ref != e.ref;
  }

  lemma NewEntryFate(c: Config, t: Tables, h: History, e: Entry, x: Queued, q': nat)
    requires StatusOk(t.queue, h) && FateOk(t, h) && CountsOk(c, t.queue, h)
    requires q' !in h.enqueued && q' !in t.queue && e.status == Pending && e.retryCount == 0 && x.ref in t.rows
    ensures var t' := t.(queue := t.queue[q' := e], queueSeq := q');
      var h' := h.(enqueued := h.enqueued[q' := x]);
      StatusOk(t'.queue, h') && FateOk(t', h') && CountsOk(c, t'.queue, h')
  {
    var t' := t.(queue := t.queue[q' := e], queueSeq := q');
    var h' := h.(enqueued := h.enqueued[q' := x]);
    forall q | q in h'.enqueued && !Settled(h', q) && !Alive(t', q, h'.enqueued[q])
      ensures h'.enqueued[q].ref !in t'.rows && Replaced(h'.stored, h'.enqueued[q])
    {
      assert q != q' && !Settled(h, q) && !Alive(t, q, h.enqueued[q]);
    }
  }

  lemma EnqueueKeepsLocal(c: Config, t: Tables, h: History, ref: RowRef, now: int)
    requires LocalOk(c, t, h) && ref in t.rows && forall q | q in h.enqueued :: h.enqueued[q].ref != ref
    ensures var t' := EnqueueRow(t, h.stored[ref].key, ref, now);
      var h' := h.(enqueued := h.enqueued[t'.queueSeq := Queued(ref, h.stored[ref])]);
      && LocalOk(c, t', h') && t'.queueSeq == t.queueSeq + 1 && t'.queueSeq !in h.enqueued
      && t'.queueSeq in t'.queue && t'.rows == t.rows
  {
    var x := Queued(ref, h.stored[ref]);
    var e := Entry(ref, x.metric.key, Pending, now, None, 0, None, now);
    EnqueueNeverIgnores(t, h, ref, now);
    NewEntryOk(t, h, e, x);
    NewEntryFate(c, t, h, e, x, t.queueSeq + 1);
  }

  lemma EnqueueingRow(c: Config, s: State)
    requires LocalOk(c, s.t, s.h) && PhaseOk(s.t, s.h, s.phase) && s.phase.Enqueueing?
    ensures s.phase.ref in s.t.rows && s.phase.ref in s.h.stored
    ensures forall q | q in s.h.enqueued :: s.h.enqueued[q].ref != s.phase.ref
  {
  }

  lemma EnqueueStepKeepsLocal(c: Config, s: State, now: int)
    requires LocalOk(c, s.t, s.h) && PhaseOk(s.t, s.h, s.phase) && CanStep(c, s, Enqueue(now))
    ensures var s' := EnqueueStep(s, now);
      && LocalOk(c, s'.t, s'.h) && s'.phase == Aggregating(s.phase.minute) && s'.h.sent == s.h.sent
      && (forall q | q in s.h.enqueued :: q in s'.h.enqueued && s'.h.enqueued[q] == s.h.enqueued[q])
  {
    hide LocalOk, PhaseOk, EnqueueRow;
    EnqueueingRow(c, s);
    EnqueueKeepsLocal(c, s.t, s.h, s.phase.ref, now);
  }

  lemma EnqueueKeepsInv(c: Config, s: State, now: int)
    requires Inv(c, s) && CanStep(c, s, Enqueue(now))
    ensures Inv(c, EnqueueStep(s, now))
  {
    hide Inv, LocalOk, EnqueueRow;
    LocalPart(c, s);
    EnqueueStepKeepsLocal(c, s, now);
    var s' := EnqueueStep(s, now);
    LocalUpdateKeepsInv(c, s, s'.t, s'.h, s'.phase);
  }

  /** Fetching drops an entry only when a newer row has replaced its own. */
  lemma FetchKeepsLocal(c: Config, t: Tables, h: History, ids: seq<nat>)
    requires LocalOk(c, t, h)
    ensures LocalOk(c, Purge(t, ids), h)
    ensures forall q | q in t.queue && q !in Purge(t, ids).queue ::
      q in h.enqueued && (Settled(h, q) || Replaced(h.stored, h.enqueued[q]))
  {
    var t' := Purge(t, ids);
    SubQueueOk(t.queue, t'.queue, t.rowSeq, t.queueSeq, h.enqueued);
    ShrinkKeepsFate(t, h, t', h);
  }

  lemma FetchedBatchOk(t: Tables, h: History, now: int, ids: seq<nat>)
    requires StoredOk(t.rows, t.rowSeq, h.stored) && EnqueuedOk(h.stored, h.enqueued, t.queueSeq) && LinkedOk(t.queue, h.enqueued)
    requires Distinct(ids) && forall q | q in ids :: Eligible(t, q, now)
    ensures BatchOk(Purge(t, ids).queue, h.enqueued, Resolve(t, ids), Pending)
  {
    var batch := Resolve(t, ids);
    ResolveDistinct(t, ids);
    forall i | 0 <= i < |batch|
      ensures var q := batch[i].queueId;
        q in Purge(t, ids).queue && t.queue[q].status == Pending && q in h.enqueued && h.enqueued[q].metric == batch[i].metric
    {
      ResolveItem(t, ids, i);
      assert Eligible(t, batch[i].queueId, now);
    }
  }

  lemma FetchKeepsInv(c: Config, s: State, now: int, limit: nat, ids: seq<nat>)
    requires Inv(c, s) && CanStep(c, s, Fetch(now, limit, ids))
    ensures Inv(c, FetchStep(s, ids))
  {
    FetchKeepsLocal(c, s.t, s.h, ids);
    FetchedBatchOk(s.t, s.h, now, ids);
  }

  lemma SendRelabels(c: Config, t: Tables, h: History, ids: seq<nat>, now: int)
    requires StatusOk(t.queue, h) && CountsOk(c, t.queue, h)
    requires forall q | q in ids :: q in t.queue && t.queue[q].status == Pending
    ensures var t' := MarkSending(t, ids, now);
      && StatusOk(t'.queue, h) && CountsOk(c, t'.queue, h)
      && SubQueue(t.queue, t'.queue) && t'.queue.Keys == t.queue.Keys
  {
  }

  lemma SendKeepsLocal(c: Config, t: Tables, h: History, ids: seq<nat>, now: int)
    requires LocalOk(c, t, h)
    requires forall q | q in ids :: q in t.queue && t.queue[q].status == Pending
    ensures LocalOk(c, MarkSending(t, ids, now), h)
  {
    SendRelabels(c, t, h, ids, now);
    RelabelKeepsLocal(c, t, h, MarkSending(t, ids, now), h);
  }

  lemma SendKeepsBatch(t: Tables, h: History, batch: seq<QueuedMetric>, now: int)
    requires BatchOk(t.queue, h.enqueued, batch, Pending)
    ensures BatchOk(MarkSending(t, Ids(batch), now).queue, h.enqueued, batch, Sending)
  {
    IdsOfBatch(t.queue, h.enqueued, batch, Pending);
  }

  lemma BatchMetricsKnown(t: Tables, h: History, batch: seq<QueuedMetric>, status: Status)
    requires BatchOk(t.queue, h.enqueued, batch, status)
    requires StoredOk(t.rows, t.rowSeq, h.stored) && EnqueuedOk(h.stored, h.enqueued, t.queueSeq)
    ensures forall m | m in Metrics(batch) :: m.key.kind != Unknown
  {
    IdsOfBatch(t.queue, h.enqueued, batch, status);
    forall m | m in Metrics(batch)
      ensures m.key.kind != Unknown
    {
      var q :| q in h.enqueued && h.enqueued[q].metric == m;
      assert h.enqueued[q].ref in h.stored;
    }
  }

  lemma SendKeepsNetwork(c: Config, s: State, now: int)
    requires RequestsOk(s) && CommittedOk(c, s) && s.phase.Fetched?
    requires forall m | m in Metrics(s.phase.fetched) :: m.key.kind != Unknown
    ensures RequestsOk(SendStep(s, now)) && CommittedOk(c, SendStep(s, now))
  {
    assert s.nextRequest !in s.requests;
  }

  lemma SendKeepsInv(c: Config, s: State, now: int)
    requires Inv(c, s) && CanStep(c, s, Send(now))
    ensures Inv(c, SendStep(s, now))
  {
    IdsOfBatch(s.t.queue, s.h.enqueued, s.phase.fetched, Pending);
    SendKeepsLocal(c, s.t, s.h, Ids(s.phase.fetched), now);
    SendKeepsBatch(s.t, s.h, s.phase.fetched, now);
    BatchMetricsKnown(s.t, s.h, s.phase.fetched, Pending);
    SendKeepsNetwork(c, s, now);
  }

  lemma ReceiveRelabels(c: Config, t: Tables, h: History, ids: seq<nat>, now: int)
    requires StatusOk(t.queue, h) && CountsOk(c, t.queue, h) && LinkedOk(t.queue, h.enqueued)
    requires forall q | q in ids :: q in t.queue && t.queue[q].status == Sending
    ensures var t' := MarkSent(t, ids, now);
      && StatusOk(t'.queue, SentHistory(h, ids)) && CountsOk(c, t'.queue, SentHistory(h, ids))
      && SubQueue(t.queue, t'.queue) && t'.queue.Keys == t.queue.Keys
  {
  }

  lemma ReceiveKeepsLocal(c: Config, t: Tables, h: History, ids: seq<nat>, now: int)
    requires LocalOk(c, t, h)
    requires forall q | q in ids :: q in t.queue && t.queue[q].status == Sending
    ensures LocalOk(c, MarkSent(t, ids, now), SentHistory(h, ids))
  {
    ReceiveRelabels(c, t, h, ids, now);
    RelabelKeepsLocal(c, t, h, MarkSent(t, ids, now), SentHistory(h, ids));
  }

  lemma ReceiveKeepsInv(c: Config, s: State, now: int)
    requires Inv(c, s) && CanStep(c, s, Receive(now))
    ensures Inv(c, ReceiveStep(s, now))
  {
    hide LocalOk;
    IdsOfBatch(s.t.queue, s.h.enqueued, s.phase.batch, Sending);
    ReceiveKeepsLocal(c, s.t, s.h, Ids(s.phase.batch), now);
  }

  lemma FailureKeepsStatus(c: Config, t: Tables, h: History, q: nat, now: int)
    requires StatusOk(t.queue, h) && LinkedOk(t.queue, h.enqueued)
    requires q in t.queue && t.queue[q].status == Sending
    ensures var t' := MarkFailed(t, q, c.maxRetries, now);
      && StatusOk(t'.queue, FailedHistory(c, t, h, q, now))
      && SubQueue(t.queue, t'.queue) && t'.queue.Keys == t.queue.Keys
  {
  }

  lemma FailureKeepsCounts(c: Config, t: Tables, h: History, q: nat, now: int)
    requires CountsOk(c, t.queue, h) && LinkedOk(t.queue, h.enqueued)
    requires q in t.queue && t.queue[q].status == Sending
    ensures CountsOk(c, MarkFailed(t, q, c.maxRetries, now).queue, FailedHistory(c, t, h, q, now))
  {
    var h' := FailedHistory(c, t, h, q, now);
    var t' := MarkFailed(t, q, c.maxRetries, now);
    assert EntryCountOk(c, t.queue[q], Count(h.failures, q), Count(h.recoveries, q));
    assert EntryCountOk(c, t'.queue[q], Count(h'.failures, q), Count(h'.recoveries, q));
    assert forall p | p in t'.queue && p != q :: Count(h'.failures, p) == Count(h.failures, p);
  }

  lemma FailureKeepsLocal(c: Config, t: Tables, h: History, q: nat, now: int)
    requires LocalOk(c, t, h)
    requires q in t.queue && t.queue[q].status == Sending
    ensures LocalOk(c, MarkFailed(t, q, c.maxRetries, now), FailedHistory(c, t, h, q, now))
  {
    FailureKeepsStatus(c, t, h, q, now);
    FailureKeepsCounts(c, t, h, q, now);
    RelabelKeepsLocal(c, t, h, MarkFailed(t, q, c.maxRetries, now), FailedHistory(c, t, h, q, now));
  }

  lemma FailureKeepsRest(t: Tables, rest: seq<nat>, maxRetries: int, now: int)
    requires rest != [] && Distinct(rest) && forall q | q in rest :: q in t.queue && t.queue[q].status == Sending
    ensures Distinct(rest[1..])
    ensures forall q | q in rest[1..] ::
      q in MarkFailed(t, rest[0], maxRetries, now).queue && MarkFailed(t, rest[0], maxRetries, now).queue[q].status == Sending
  {
  }

  lemma FailureStepKeepsLocal(c: Config, s: State, now: int)
    requires LocalOk(c, s.t, s.h) && PhaseOk(s.t, s.h, s.phase) && CanStep(c, s, RecordFailure(now))
    ensures var s' := RecordFailureStep(c, s, now);
      LocalOk(c, s'.t, s'.h) && PhaseOk(s'.t, s'.h, s'.phase)
  {
    var q := s.phase.rest[0];
    assert q in s.phase.rest;
    FailureKeepsLocal(c, s.t, s.h, q, now);
    FailureKeepsRest(s.t, s.phase.rest, c.maxRetries, now);
  }

  lemma RecordFailureKeepsInv(c: Config, s: State, now: int)
    requires Inv(c, s) && CanStep(c, s, RecordFailure(now))
    ensures Inv(c, RecordFailureStep(c, s, now))
  {
    hide Inv, LocalOk, PhaseOk, MarkFailed;
    LocalPart(c, s);
    FailureStepKeepsLocal(c, s, now);
    var s' := RecordFailureStep(c, s, now);
    LocalUpdateKeepsInv(c, s, s'.t, s'.h, s'.phase);
  }

  lemma CrashRelabels(c: Config, t: Tables, h: History, now: int)
    requires StatusOk(t.queue, h) && CountsOk(c, t.queue, h) && LinkedOk(t.queue, h.enqueued)
    ensures var t' := Recover(t, now);
      && StatusOk(t'.queue, Recovered(t, h)) && CountsOk(c, t'.queue, Recovered(t, h))
      && SubQueue(t.queue, t'.queue) && t'.queue.Keys == t.queue.Keys
  {
    var t' := Recover(t, now);
    var h' := Recovered(t, h);
    forall q | q in t'.queue
      ensures EntryCountOk(c, t'.queue[q], Count(h'.failures, q), Count(h'.recoveries, q))
    {
      assert EntryCountOk(c, t.queue[q], Count(h.failures, q), Count(h.recoveries, q));
    }
  }

  lemma CrashKeepsLocal(c: Config, t: Tables, h: History, now: int)
    requires LocalOk(c, t, h)
    ensures LocalOk(c, Recover(t, now), Recovered(t, h))
  {
    CrashRelabels(c, t, h, now);
    RelabelKeepsLocal(c, t, h, Recover(t, now), Recovered(t, h));
  }

  lemma CrashKeepsInv(c: Config, s: State, now: int)
    requires Inv(c, s)
    ensures Inv(c, CrashStep(s, now))
  {
    CrashKeepsLocal(c, s.t, s.h, now);
  }

  /** Retention never deletes a row that an unsettled entry points to. */
  lemma RetentionKeepsLocal(c: Config, t: Tables, h: History, cutoff: int)
    requires LocalOk(c, t, h)
    ensures LocalOk(c, CleanRows(t, cutoff), h)
    ensures forall q | q in h.enqueued && !Settled(h, q) && Alive(t, q, h.enqueued[q]) ::
      Alive(CleanRows(t, cutoff), q, h.enqueued[q])
  {
    var t' := CleanRows(t, cutoff);
    forall q | q in h.enqueued && !Settled(h, q) && Alive(t, q, h.enqueued[q])
      ensures Alive(t', q, h.enqueued[q])
    {
      assert t.queue[q].status != Sent;
      assert Guarded(t, h.enqueued[q].ref);
    }
    ShrinkKeepsFate(t, h, t', h);
  }

  lemma QueueCleanupKeepsLocal(c: Config, t: Tables, h: History, t': Tables)
    requires LocalOk(c, t, h)
    requires t' == t.(queue := t'.queue)
    requires forall q | q in t'.queue :: q in t.queue && t'.queue[q] == t.queue[q]
    requires forall q | q in t.queue && t.queue[q].status !in {Sent, Failed} :: q in t'.queue
    ensures LocalOk(c, t', h)
  {
    SubQueueOk(t.queue, t'.queue, t.rowSeq, t.queueSeq, h.enqueued);
    ShrinkKeepsFate(t, h, t', h);
  }

  lemma CleanupKeepsInv(c: Config, s: State, cutoff: int)
    requires Inv(c, s) && s.phase.Idle?
    ensures Inv(c, s.(t := CleanRows(s.t, cutoff)))
    ensures Inv(c, s.(t := CleanSent(s.t, cutoff)))
    ensures Inv(c, s.(t := CleanFailed(s.t, cutoff)))
  {
    RetentionKeepsLocal(c, s.t, s.h, cutoff);
    QueueCleanupKeepsLocal(c, s.t, s.h, CleanSent(s.t, cutoff));
    QueueCleanupKeepsLocal(c, s.t, s.h, CleanFailed(s.t, cutoff));
  }

  lemma CommitKeepsInv(c: Config, s: State, agent: string, metrics: seq<Aggregate>)
    requires Inv(c, s) && Commit(s, agent, metrics).Some?
    ensures Inv(c, Commit(s, agent, metrics).value)
    ensures forall m | m in metrics && m.key.kind != Unknown :: ServerRow(agent, m) in Commit(s, agent, metrics).value.committed
  {
    CommittedBatch(s.server, agent, metrics);
    var s' := Commit(s, agent, metrics).value;
    forall m | m in metrics && m.key.kind != Unknown
      ensures ServerRow(agent, m) in s'.committed
    {
      var k :| 0 <= k < |metrics| && metrics[k] == m;
      assert Known(metrics, k);
    }
  }

  lemma DeliverKeepsInv(c: Config, s: State, r: nat, rejected: bool)
    requires Inv(c, s) && CanStep(c, s, Deliver(r, rejected))
    ensures Inv(c, DeliverStep(c, s, r, rejected))
  {
    var arrived := s.(transit := s.transit - {r});
    assert Inv(c, arrived);
    if !rejected && Commit(arrived, c.me, s.requests[r]).Some? {
      CommitKeepsInv(c, arrived, c.me, s.requests[r]);
    }
  }

  lemma OtherAgentKeepsInv(c: Config, s: State, agent: string, metrics: seq<Aggregate>)
    requires Inv(c, s) && CanStep(c, s, OtherAgent(agent, metrics))
    ensures Inv(c, Apply(c, s, OtherAgent(agent, metrics)))
  {
    if Commit(s, agent, metrics).Some? {
      CommitKeepsInv(c, s, agent, metrics);
    }
  }

  lemma QuietStepKeepsInv(c: Config, s: State, e: Event)
    requires Inv(c, s) && CanStep(c, s, e)
    requires e.BeginPass? || e.EndPass? || e.GiveUp? || e.Reload? || e.LoseRequest? || e.ServerRetention?
    ensures Inv(c, Apply(c, s, e))
  {
    if e.GiveUp? {
      IdsOfBatch(s.t.queue, s.h.enqueued, s.phase.batch, Sending);
    }
  }

  lemma StepKeepsInv(c: Config, s: State, e: Event)
    requires Inv(c, s) && CanStep(c, s, e)
    ensures Inv(c, Apply(c, s, e))
  {
    hide Inv, StoreStep, EnqueueStep, FetchStep, SendStep, ReceiveStep, RecordFailureStep, CrashStep, DeliverStep, Commit;
    match e
    case Store(m) => StoreKeepsInv(c, s, m);
    case Enqueue(now) => EnqueueKeepsInv(c, s, now);
    case Fetch(now, limit, ids) => FetchKeepsInv(c, s, now, limit, ids);
    case Send(now) => SendKeepsInv(c, s, now);
    case Receive(now) => ReceiveKeepsInv(c, s, now);
    case RecordFailure(now) => RecordFailureKeepsInv(c, s, now);
    case DropRows(cutoff) => CleanupKeepsInv(c, s, cutoff);
    case DropSent(cutoff) => CleanupKeepsInv(c, s, cutoff);
    case DropFailed(cutoff) => CleanupKeepsInv(c, s, cutoff);
    case CrashAndRestart(now) => CrashKeepsInv(c, s, now);
    case Deliver(r, rejected) => DeliverKeepsInv(c, s, r, rejected);
    case OtherAgent(agent, metrics) => OtherAgentKeepsInv(c, s, agent, metrics);
    case _ => QuietStepKeepsInv(c, s, e);
  }

  lemma {:induction false} RunKeepsInv(c: Config, s: State, run: seq<Event>)
    requires Inv(c, s) && CanRun(c, s, run)
    ensures Inv(c, Execute(c, s, run))
    decreases |run|
  {
    hide Inv, Apply;
    if run != [] {
      StepKeepsInv(c, s, run[0]);
      RunKeepsInv(c, Apply(c, s, run[0]), run[1..]);
    }
  }
}
