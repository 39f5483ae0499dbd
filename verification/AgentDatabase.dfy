/**
 The agent's database object. Each method runs the statements of one call of the source;
 its contract ties the new tables to the specification in `AgentTables`. Clock readings and
 the server's answer are parameters; local statements succeed.
 */
module AgentDatabase {
  import opened Wrappers
  import opened AgentTables

  datatype Answer = Accepted | Refused

  predicate Supported(t: Tables, enabled: set<MetricType>, ids: seq<nat>) {
    forall q | q in ids :: q in t.queue ==> t.queue[q].ref.kind in enabled
  }

  /** Everything of an entry but its status and its times. */
  predicate SameRow(e: Entry, e': Entry) {
    e.ref == e'.ref && e.key == e'.key && e.createdAt == e'.createdAt
  }

  predicate SameAttempt(e: Entry, e': Entry) {
    SameRow(e, e') && e.retryCount == e'.retryCount && e.nextRetryAt == e'.nextRetryAt
  }

  /** One more failed attempt at `now`: given up at the limit, otherwise pending until its backoff has passed. */
  predicate FailedOnce(e: Entry, e': Entry, maxRetries: int, now: int) {
    && SameRow(e, e') && e'.sentAt == e.sentAt
    && e'.retryCount == e.retryCount + 1 && e'.lastRetryAt == Some(now)
    && e'.status == (if e'.retryCount >= maxRetries then Failed else Pending)
    && e'.nextRetryAt == (if e'.retryCount >= maxRetries then e.nextRetryAt else now + BackoffMinutes(e'.retryCount) * 60)
  }

  /** Sent at `now`; `sendingSince` is when the round marked it as sending. */
  predicate SentOnce(e: Entry, e': Entry, sendingSince: int, now: int) {
    SameAttempt(e, e') && e'.status == Sent && e'.sentAt == Some(now) && e'.lastRetryAt == Some(sendingSince)
  }

  /** Exactly the listed entries without a row are gone; the other listed ones have theirs. */
  predicate OrphansRemoved(t: Tables, ids: seq<nat>, queue: map<nat, Entry>) {
    && queue.Keys <= t.queue.Keys
    && forall q | q in t.queue :: q !in queue <==> q in ids && t.queue[q].ref !in t.rows
  }

  /** Entries that were not listed are left alone. */
  predicate OthersKept(before: map<nat, Entry>, after: map<nat, Entry>, ids: seq<nat>) {
    forall q | q in after && q !in ids :: q in before && after[q] == before[q]
  }

  predicate NoneSending(queue: map<nat, Entry>, ids: seq<nat>) {
    forall q | q in queue && q in ids :: queue[q].status != Sending
  }

  /** Every entry of the batch was sent. */
  predicate EachSent(before: map<nat, Entry>, after: map<nat, Entry>, batch: seq<QueuedMetric>, since: int, now: int) {
    forall i | 0 <= i < |batch| ::
      && batch[i].queueId in before && batch[i].queueId in after
      && SentOnce(before[batch[i].queueId], after[batch[i].queueId], since, now)
  }

  /** Every entry of the batch failed once more, the `i`-th at `clock(i + 2)`. */
  predicate EachFailed(before: map<nat, Entry>, after: map<nat, Entry>, batch: seq<QueuedMetric>,
                       maxRetries: int, clock: nat -> int) {
    forall i | 0 <= i < |batch| ::
      && batch[i].queueId in before && batch[i].queueId in after
      && FailedOnce(before[batch[i].queueId], after[batch[i].queueId], maxRetries, clock(i + 2))
  }

  /** The batch holds the listed entries that have a row, each once and with that row, oldest first. */
  ghost predicate IsLoaded(t: Tables, ids: seq<nat>, batch: seq<QueuedMetric>) {
    && (forall i | 0 <= i < |batch| ::
          && batch[i].queueId in ids && batch[i].queueId in t.queue
          && t.queue[batch[i].queueId].ref in t.rows && batch[i].metric == t.rows[t.queue[batch[i].queueId].ref])
    && (forall i, j | 0 <= i < j < |batch| ::
          && batch[i].queueId != batch[j].queueId
          && t.queue[batch[i].queueId].createdAt <= t.queue[batch[j].queueId].createdAt)
    && (forall q | q in ids && q in t.queue && t.queue[q].ref in t.rows ::
          exists i :: 0 <= i < |batch| && batch[i].queueId == q)
  }

  lemma ResolveLoads(t: Tables, ids: seq<nat>)
    requires Distinct(ids) && (forall q :: q in ids ==> q in t.queue) && OldestFirst(t, ids)
    ensures IsLoaded(t, ids, Resolve(t, ids))
  {
    var batch := Resolve(t, ids);
    ResolveDistinct(t, ids);
    ResolveOldestFirst(t, ids);
    forall i | 0 <= i < |batch|
      ensures HasRow(t, batch[i].queueId) && batch[i].queueId in ids
      ensures batch[i].metric == t.rows[t.queue[batch[i].queueId].ref]
    {
      ResolveItem(t, ids, i);
    }
    forall q | q in ids && HasRow(t, q)
      ensures exists i :: 0 <= i < |batch| && batch[i].queueId == q
    {
      ResolveComplete(t, ids, q);
    }
  }

  lemma PurgeRemovesOrphans(t: Tables, ids: seq<nat>)
    ensures OrphansRemoved(t, ids, Purge(t, ids).queue)
    ensures forall q | q in Purge(t, ids).queue :: q in t.queue && Purge(t, ids).queue[q] == t.queue[q]
  {
  }

  /** The queue while a batch is out. */
  function WhileOut(t: Tables, ids: seq<nat>, batch: seq<QueuedMetric>, since: int): Tables {
    MarkSending(Purge(t, ids), Ids(batch), since)
  }

  lemma IdsOfBatch(t: Tables, ids: seq<nat>, batch: seq<QueuedMetric>, since: int)
    requires IsLoaded(t, ids, batch)
    ensures |Ids(batch)| == |batch| && forall i | 0 <= i < |batch| :: Ids(batch)[i] == batch[i].queueId
    ensures Distinct(Ids(batch)) && forall q | q in Ids(batch) :: q in WhileOut(t, ids, batch, since).queue && q in ids
    ensures forall q | q in ids && q in WhileOut(t, ids, batch, since).queue :: q in Ids(batch)
    ensures Metrics(batch) == seq(|batch|, i requires 0 <= i < |batch| => batch[i].metric)
  {
    forall q | q in ids && q in WhileOut(t, ids, batch, since).queue
      ensures q in Ids(batch)
    {
      var i :| 0 <= i < |batch| && batch[i].queueId == q;
      assert Ids(batch)[i] == q;
    }
  }

  lemma RoundFindsNothing(t: Tables, ids: seq<nat>)
    requires IsLoaded(t, ids, [])
    ensures OthersKept(t.queue, Purge(t, ids).queue, ids) && NoneSending(Purge(t, ids).queue, ids)
  {
  }

  lemma RoundAccepted(t: Tables, ids: seq<nat>, batch: seq<QueuedMetric>, since: int, now: int)
    requires IsLoaded(t, ids, batch)
    ensures var after := MarkSent(WhileOut(t, ids, batch, since), Ids(batch), now).queue;
      && OrphansRemoved(t, ids, after) && OthersKept(t.queue, after, ids) && NoneSending(after, ids)
      && EachSent(t.queue, after, batch, since, now)
  {
    IdsOfBatch(t, ids, batch, since);
    PurgeRemovesOrphans(t, ids);
    hide IsLoaded, Purge, Ids;
  }

  lemma RoundRefused(t: Tables, ids: seq<nat>, batch: seq<QueuedMetric>, since: int, after: map<nat, Entry>,
                     maxRetries: int, clock: nat -> int)
    requires IsLoaded(t, ids, batch)
    requires after.Keys == WhileOut(t, ids, batch, since).queue.Keys
    requires EachFailed(WhileOut(t, ids, batch, since).queue, after, batch, maxRetries, clock)
    requires OthersKept(WhileOut(t, ids, batch, since).queue, after, Ids(batch))
    ensures OrphansRemoved(t, ids, after) && OthersKept(t.queue, after, ids) && NoneSending(after, ids)
    ensures EachFailed(t.queue, after, batch, maxRetries, clock)
  {
    IdsOfBatch(t, ids, batch, since);
    PurgeRemovesOrphans(t, ids);
    hide IsLoaded, Purge, Ids, BackoffMinutes;
    forall q | q in after && q in ids
      ensures after[q].status != Sending
    {
      var i :| 0 <= i < |batch| && Ids(batch)[i] == q;
      assert batch[i].queueId == q;
    }
  }

  lemma BatchEntries(t: Tables, now: int, limit: nat, ids: seq<nat>)
    requires IsBatch(t, now, limit, ids)
    ensures Distinct(ids) && (forall q :: q in ids ==> q in t.queue) && OldestFirst(t, ids)
  {
  }

  /** What a store and its enqueue do to the tables, clause by clause. */
  lemma StoredAndEnqueued(t: Tables, metric: Aggregate, now: int)
    requires TablesOk(t)
    ensures var ref := FreshRef(t, metric.key.kind);
      var t' := EnqueueRow(StoreRow(t, metric), metric.key, ref, now);
      && ref !in t.rows && t'.rows[ref := metric] == t'.rows
      && t'.queueSeq == t.queueSeq + 1 && t'.queueSeq !in t.queue
      && t'.queue == t.queue[t'.queueSeq := Entry(ref, metric.key, Pending, now, None, 0, None, now)]
      && (forall r | r in t.rows :: r in t'.rows <==> t.rows[r].key != metric.key)
      && (forall r | r in t'.rows && r != ref :: r in t.rows && t'.rows[r] == t.rows[r])
  {
    hide EnqueueRow;
    EnqueueAfterStore(t, metric, now);
    StoreAndEnqueueKeepsTables(t, metric, now);
  }

  lemma NothingListed(t: Tables)
    ensures Purge(t, []) == t && Resolve(t, []) == []
  {
  }

  class Database {
    var rows: map<RowRef, Aggregate>
    var rowSeq: map<MetricType, nat>
    var queue: map<nat, Entry>
    var queueSeq: nat
    /** Metric types this build stores and loads (feature flags); never `Unknown`. */
    const enabled: set<MetricType>

    function Contents(): Tables
      reads this
    {
      Tables(rows, rowSeq, queue, queueSeq)
    }

    constructor (enabled: set<MetricType>)
      ensures Contents() == Tables(map[], map[], map[], 0) && TablesOk(Contents())
      ensures this.enabled == enabled - {Unknown}
    {
      this.enabled := enabled - {Unknown};
      rows, rowSeq, queue, queueSeq := map[], map[], map[], 0;
    }

    /** INSERT OR REPLACE into the metric's table; answers `last_insert_rowid()`. */
    method StoreAggregatedMetric(metric: Aggregate) returns (ref: RowRef)
      modifies this`rows, this`rowSeq
      ensures Contents() == StoreRow(old(Contents()), metric)
      ensures ref == FreshRef(old(Contents()), metric.key.kind)
    {
      var kind := metric.key.kind;
      ref := RowRef(kind, LastRowId(rowSeq, kind) + 1);
      rows := (map r | r in rows && rows[r].key != metric.key :: rows[r])[ref := metric];
      rowSeq := rowSeq[kind := ref.id];
    }

    /** An unknown type is refused; a row that has an entry keeps it, any other gets a new one that is due at once. */
    method EnqueueMetricForSend(metric: Aggregate, ref: RowRef, now: int) returns (r: Result<()>)
      modifies this`queue, this`queueSeq
      ensures r.Err? <==> metric.key.kind == Unknown
      ensures Contents() == if r.Ok? then EnqueueRow(old(Contents()), metric.key, ref, now) else old(Contents())
      ensures r.Ok? ==> exists q :: q in queue && queue[q].ref == ref
      ensures forall q | q in old(queue) && q <= old(queueSeq) :: q in queue && queue[q] == old(queue)[q]
      ensures forall q | q in queue && q !in old(queue) ::
        q == old(queueSeq) + 1 && queue[q].ref == ref && queue[q].key == metric.key && Eligible(Contents(), q, now)
    {
      if metric.key.kind == Unknown {
        return Err("Cannot enqueue unknown metric type");
      }
      r := Ok(());
      if exists q :: q in queue && queue[q].ref == ref {
        return;
      } else {
        queueSeq := queueSeq + 1;
        queue := queue[queueSeq := Entry(ref, metric.key, Pending, now, None, 0, None, now)];
        assert queue[queueSeq].ref == ref;
      }
    }

    /** Unsupported and unknown metrics are refused before anything is written. */
    method StoreAndEnqueue(metric: Aggregate, now: int) returns (r: Result<RowRef>)
      requires TablesOk(Contents()) && Unknown !in enabled
      modifies this`rows, this`rowSeq, this`queue, this`queueSeq
      ensures TablesOk(Contents())
      ensures r.Ok? <==> metric.key.kind in enabled
      ensures r.Err? ==> Contents() == old(Contents())
      ensures r.Ok? ==>
        && r.value !in old(rows) && rows[r.value := metric] == rows
        && queueSeq == old(queueSeq) + 1 && queueSeq !in old(queue)
        && queue == old(queue)[queueSeq := Entry(r.value, metric.key, Pending, now, None, 0, None, now)]
        && (forall ref | ref in old(rows) :: ref in rows <==> old(rows)[ref].key != metric.key)
        && (forall ref | ref in rows && ref != r.value :: ref in old(rows) && rows[ref] == old(rows)[ref])
    {
      if metric.key.kind !in enabled {
        return Err("metric type cannot be stored");
      }
      hide TablesOk, StoreRow, EnqueueRow, Eligible;
      ghost var t := Contents();
      StoredAndEnqueued(t, metric, now);
      StoreAndEnqueueKeepsTables(t, metric, now);
      var ref := StoreAggregatedMetric(metric);
      var _ := EnqueueMetricForSend(metric, ref, now);
      assert Contents() == EnqueueRow(StoreRow(t, metric), metric.key, ref, now);
      assert rows == Contents().rows && queue == Contents().queue && queueSeq == Contents().queueSeq;
      return Ok(ref);
    }

    /** The oldest eligible entries, at most `limit` of them. */
    method GetPendingQueueEntries(now: int, limit: nat) returns (ids: seq<nat>)
      ensures IsBatch(Contents(), now, limit, ids)
    {
      ids := [];
      var left := set q | q in queue && queue[q].status == Pending && queue[q].nextRetryAt <= now;
      while left != {} && |ids| < limit
        invariant left == set q | q in queue && Eligible(Contents(), q, now) && q !in ids
        invariant |ids| <= limit && Distinct(ids)
        invariant forall q | q in ids :: Eligible(Contents(), q, now)
        invariant OldestFirst(Contents(), ids)
        invariant forall p, q | p in ids && q in left :: queue[p].createdAt <= queue[q].createdAt
        decreases left
      {
        var next := EarliestOf(left);
        ids := ids + [next];
        left := left - {next};
      }
      forall q | q in queue && Eligible(Contents(), q, now) && q !in ids
        ensures |ids| == limit && forall p | p in ids :: queue[p].createdAt <= queue[q].createdAt
      {
        assert q in left;
      }
    }

    method EarliestOf(candidates: set<nat>) returns (first: nat)
      requires candidates != {} && candidates <= queue.Keys
      ensures first in candidates
      ensures forall q | q in candidates :: queue[first].createdAt <= queue[q].createdAt
    {
      first :| first in candidates;
      var rest := candidates - {first};
      while rest != {}
        invariant first in candidates && rest <= candidates
        invariant forall q | q in candidates - rest :: queue[first].createdAt <= queue[q].createdAt
        decreases rest
      {
        var q :| q in rest;
        if queue[q].createdAt < queue[first].createdAt {
          first := q;
        }
        rest := rest - {q};
      }
    }

    method RemoveFromQueue(q: nat)
      modifies this`queue
      ensures queue == old(queue) - {q}
    {
      queue := queue - {q};
    }

    /**
     Fetches the rows of the next batch; entries whose row is gone leave the queue. A metric
     type this build cannot load fails the whole fetch, part of the way through.
     */
    method GetQueuedMetrics(now: int, limit: nat) returns (r: Result<seq<QueuedMetric>>, ghost ids: seq<nat>)
      modifies this`queue
      ensures IsBatch(old(Contents()), now, limit, ids)
      ensures r.Ok? <==> Supported(old(Contents()), enabled, ids)
      ensures r.Ok? ==> r.value == Resolve(old(Contents()), ids) && Contents() == Purge(old(Contents()), ids)
      ensures r.Ok? ==> IsLoaded(old(Contents()), ids, r.value) && OrphansRemoved(old(Contents()), ids, queue)
      ensures r.Err? ==> exists k: nat | k < |ids| ::
        && ids[k] in old(queue) && old(queue)[ids[k]].ref.kind !in enabled
        && Supported(old(Contents()), enabled, ids[..k]) && OrphansRemoved(old(Contents()), ids[..k], queue)
      ensures forall q | q in queue :: q in old(queue) && queue[q] == old(queue)[q]
    {
      hide IsBatch, Purge, Resolve, OldestFirst, IsLoaded, OrphansRemoved;
      var entries := GetPendingQueueEntries(now, limit);
      ids := entries;
      ghost var t := Contents();
      BatchEntries(t, now, limit, ids);
      NothingListed(t);
      var metrics: seq<QueuedMetric> := [];
      var i := 0;
      while i < |entries|
        invariant 0 <= i <= |entries| && ids == entries
        invariant rows == t.rows && rowSeq == t.rowSeq && queueSeq == t.queueSeq
        invariant Contents() == Purge(t, ids[..i])
        invariant forall k | 0 <= k < i :: ids[k] in t.queue && t.queue[ids[k]].ref.kind in enabled
        invariant Resolve(t, ids) == metrics + Resolve(t, ids[i..])
      {
        var q := entries[i];
        assert q in ids;
        PurgeOneMore(t, ids, i);
        ResolveOneMore(t, ids, i);
        var ref := queue[q].ref;
        if ref.kind !in enabled {
          PurgeRemovesOrphans(t, ids[..i]);
          return Err("Unknown metric type"), ids;
        }
        if ref in rows {
          metrics := metrics + [QueuedMetric(q, rows[ref])];
        } else {
          RemoveFromQueue(q);
        }
        i := i + 1;
      }
      assert ids[..i] == ids && ids[i..] == [];
      PurgeRemovesOrphans(t, ids);
      ResolveLoads(t, ids);
      r := Ok(metrics);
    }

    /** The listed entries become sending, so no fetch finds them again; nothing else changes. */
    method MarkAsSending(ids: seq<nat>, now: int)
      modifies this`queue
      ensures Contents() == MarkSending(old(Contents()), ids, now)
      ensures queue.Keys == old(queue).Keys
      ensures forall q | q in queue && q in ids ::
        queue[q].status == Sending && queue[q].lastRetryAt == Some(now) && SameAttempt(queue[q], old(queue)[q])
          && queue[q].sentAt == old(queue)[q].sentAt
      ensures forall q | q in queue && q !in ids :: queue[q] == old(queue)[q]
      ensures forall q, time | q in ids :: !Eligible(Contents(), q, time)
    {
      if ids == [] { return; }
      queue := map q | q in queue ::
        if q in ids then queue[q].(status := Sending, lastRetryAt := Some(now)) else queue[q];
    }

    /**
     The listed entries become sent: no fetch finds them again, and retention may take their
     rows. Nothing else changes.
     */
    method MarkAsSent(ids: seq<nat>, now: int)
      modifies this`queue
      ensures Contents() == MarkSent(old(Contents()), ids, now)
      ensures queue.Keys == old(queue).Keys
      ensures forall q | q in queue && q in ids ::
        queue[q].status == Sent && queue[q].sentAt == Some(now) && SameAttempt(queue[q], old(queue)[q])
          && queue[q].lastRetryAt == old(queue)[q].lastRetryAt
      ensures forall q | q in queue && q !in ids :: queue[q] == old(queue)[q]
      ensures forall q, time | q in ids :: !Eligible(Contents(), q, time)
      ensures QueueOk(queue, rowSeq, queueSeq) ==> forall q | q in queue && q in ids :: !Guarded(Contents(), queue[q].ref)
    {
      if ids == [] { return; }
      queue := map q | q in queue ::
        if q in ids then queue[q].(status := Sent, sentAt := Some(now)) else queue[q];
    }

    /** One failed attempt: back to pending with a backoff, or permanently failed. */
    method MarkAsFailed(q: nat, maxRetries: int, now: int) returns (ok: bool)
      modifies this`queue
      ensures ok <==> q in old(queue)
      ensures Contents() == MarkFailed(old(Contents()), q, maxRetries, now)
      ensures queue.Keys == old(queue).Keys
      ensures ok ==> FailedOnce(old(queue)[q], queue[q], maxRetries, now)
      ensures forall p | p in queue && p != q :: queue[p] == old(queue)[p]
    {
      if q !in queue { return false; }
      var count := queue[q].retryCount + 1;
      if count >= maxRetries {
        queue := queue[q := queue[q].(status := Failed, retryCount := count, lastRetryAt := Some(now))];
      } else {
        var next := now + BackoffMinutes(count) * 60;
        queue := queue[q := queue[q].(status := Pending, retryCount := count,
                                      lastRetryAt := Some(now), nextRetryAt := next)];
      }
      ok := true;
    }

    /**
     After a restart nothing is left in sending: what was is due at once and counts one more
     attempt. All other entries, also those that wait for a retry, stay as they are.
     */
    method RecoverSendingEntries(now: int)
      modifies this`queue
      ensures Contents() == Recover(old(Contents()), now)
      ensures queue.Keys == old(queue).Keys
      ensures forall q | q in queue :: queue[q].status != Sending
      ensures forall q | q in queue && old(queue)[q].status == Sending ::
        && queue[q].retryCount == old(queue)[q].retryCount + 1 && SameRow(queue[q], old(queue)[q])
        && forall time | now <= time :: Eligible(Contents(), q, time)
      ensures forall q | q in queue && old(queue)[q].status != Sending :: queue[q] == old(queue)[q]
    {
      queue := map q | q in queue ::
        if queue[q].status == Sending
        then queue[q].(status := Pending, nextRetryAt := now, retryCount := queue[q].retryCount + 1)
        else queue[q];
    }

    /** The old sent entries go, and that changes neither what can be fetched nor what retention must keep. */
    method CleanupSentQueueEntries(now: int, hours: nat)
      modifies this`queue
      ensures Contents() == CleanSent(old(Contents()), now - hours * 3600)
      ensures forall q | q in old(queue) :: q !in queue <==>
        old(queue)[q].status == Sent && old(queue)[q].sentAt.Some? && old(queue)[q].sentAt.value < now - hours * 3600
      ensures forall q | q in queue :: q in old(queue) && queue[q] == old(queue)[q]
      ensures forall q, time :: Eligible(Contents(), q, time) <==> Eligible(old(Contents()), q, time)
      ensures forall r :: Guarded(Contents(), r) <==> Guarded(old(Contents()), r)
    {
      var cutoff := now - hours * 3600;
      queue := map q | q in queue && !(queue[q].status == Sent && Before(queue[q].sentAt, cutoff)) :: queue[q];
    }

    /** The old failed entries go; what can be fetched stays, and only their rows lose the queue's protection. */
    method CleanupFailedQueueEntries(now: int, days: nat)
      modifies this`queue
      ensures Contents() == CleanFailed(old(Contents()), now - days * 24 * 3600)
      ensures forall q | q in old(queue) :: q !in queue <==>
        old(queue)[q].status == Failed && old(queue)[q].lastRetryAt.Some?
          && old(queue)[q].lastRetryAt.value < now - days * 24 * 3600
      ensures forall q | q in queue :: q in old(queue) && queue[q] == old(queue)[q]
      ensures forall q, time :: Eligible(Contents(), q, time) <==> Eligible(old(Contents()), q, time)
      ensures forall r :: Guarded(old(Contents()), r) && !Guarded(Contents(), r) ==>
        exists q :: q in old(queue) && old(queue)[q].ref == r && old(queue)[q].status == Failed && q !in queue
    {
      var cutoff := now - days * 24 * 3600;
      queue := map q | q in queue && !(queue[q].status == Failed && Before(queue[q].lastRetryAt, cutoff)) :: queue[q];
    }

    /** Retention of aggregate rows; the cutoff saturates at the epoch. */
    method CleanupOldData(now: nat, days: nat)
      modifies this`rows
      ensures Contents() == CleanRows(old(Contents()), if now < days * 86400 then 0 else now - days * 86400)
      ensures forall ref | ref in old(rows) :: ref !in rows <==>
        && old(rows)[ref].key.end < (if now < days * 86400 then 0 else now - days * 86400)
        && forall q | q in queue && queue[q].ref == ref :: queue[q].status == Sent
      ensures forall ref | ref in rows :: ref in old(rows) && rows[ref] == old(rows)[ref]
    {
      var retention := days * 24 * 60 * 60;
      var cutoff := if now < retention then 0 else now - retention;
      rows := map r | r in rows && (rows[r].key.end < cutoff ==> Guarded(Contents(), r)) :: rows[r];
    }

    /** The failure branch of a round: every entry of the batch in turn, each with its own clock reading. */
    method RecordFailures(queueIds: seq<nat>, maxRetries: int, clock: nat -> int)
      requires Distinct(queueIds) && forall q | q in queueIds :: q in queue
      modifies this`queue
      ensures queue.Keys == old(queue).Keys && OthersKept(old(queue), queue, queueIds)
      ensures forall k | 0 <= k < |queueIds| ::
        FailedOnce(old(queue)[queueIds[k]], queue[queueIds[k]], maxRetries, clock(k + 2))
    {
      hide FailedOnce, MarkFailed;
      var i := 0;
      while i < |queueIds|
        invariant 0 <= i <= |queueIds|
        invariant queue.Keys == old(queue).Keys
        invariant forall k | 0 <= k < i ::
          FailedOnce(old(queue)[queueIds[k]], queue[queueIds[k]], maxRetries, clock(k + 2))
        invariant forall q | q in queue && q !in queueIds[..i] :: queue[q] == old(queue)[q]
      {
        var _ := MarkAsFailed(queueIds[i], maxRetries, clock(i + 2));
        i := i + 1;
      }
    }

    /**
     One round of the send loop: fetch, mark as sending, post, and record the outcome.
     `post` is the server's answer to a batch, as the agent sees it. The clock is read for the
     fetch, for the marking, and again for each record of the outcome. `batch` is what was fetched.
     */
    method SendQueuedMetrics(limit: nat, maxRetries: int, post: seq<Aggregate> -> Answer, clock: nat -> int)
      returns (sent: bool, ghost ids: seq<nat>, ghost batch: seq<QueuedMetric>)
      modifies this`queue
      ensures IsBatch(old(Contents()), clock(0), limit, ids)
      // A metric type this build cannot load: the entries before it were fetched, nothing is sent.
      ensures !Supported(old(Contents()), enabled, ids) ==>
        && !sent && OthersKept(old(queue), queue, [])
        && exists k: nat | k < |ids| ::
             && ids[k] in old(queue) && old(queue)[ids[k]].ref.kind !in enabled
             && Supported(old(Contents()), enabled, ids[..k]) && OrphansRemoved(old(Contents()), ids[..k], queue)
      // Otherwise the batch is the fetched one, and it counts as sent exactly if the server accepts it.
      ensures Supported(old(Contents()), enabled, ids) ==>
        && IsLoaded(old(Contents()), ids, batch) && OrphansRemoved(old(Contents()), ids, queue)
        && OthersKept(old(queue), queue, ids) && NoneSending(queue, ids)
        && (sent <==> batch != [] && post(seq(|batch|, i requires 0 <= i < |batch| => batch[i].metric)) == Accepted)
        && (sent ==> EachSent(old(queue), queue, batch, clock(1), clock(2)))
        && (!sent ==> EachFailed(old(queue), queue, batch, maxRetries, clock))
    {
      hide IsBatch, IsLoaded, OrphansRemoved, Purge, Resolve, MarkSending, FailedOnce, MarkFailed, Metrics, NoneSending, EachSent, SameAttempt, Eligible, MarkSent;
      ghost var t := Contents();
      var fetched;
      fetched, ids := GetQueuedMetrics(clock(0), limit);
      if fetched.Err? { return false, ids, []; }
      var metrics := fetched.value;
      batch := metrics;
      IdsOfBatch(t, ids, batch, clock(1));
      if metrics == [] {
        RoundFindsNothing(t, ids);
        return false, ids, batch;
      }
      var queueIds := Ids(metrics);
      MarkAsSending(queueIds, clock(1));
      ghost var out := WhileOut(t, ids, batch, clock(1)).queue;
      assert Contents().queue == out;
      if post(Metrics(metrics)) == Accepted {
        MarkAsSent(queueIds, clock(2));
        assert Contents().queue == queue;
        RoundAccepted(t, ids, batch, clock(1), clock(2));
        return true, ids, batch;
      }
      RecordFailures(queueIds, maxRetries, clock);
      RoundRefused(t, ids, batch, clock(1), queue, maxRetries, clock);
      sent := false;
    }
  }
}
