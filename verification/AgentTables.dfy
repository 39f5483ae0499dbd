/**
 The agent's local database as a value: the aggregate tables (`agg_metric_*`) and the
 send queue (`metric_send_queue`), and what each SQL statement of the agent does to them.

 All `agg_metric_*` tables have the same shape, so they are one map whose keys carry the
 table; `rowSeq` is the AUTOINCREMENT counter of each table. Everything that is not part of
 a key is one opaque string.
 */
module AgentTables {
  import opened Wrappers

  datatype MetricType =
    | Ping | Tcp | Http | Tls | HttpContent | Dns | Bandwidth | Snmp | SqlQuery | Unknown

  /** The columns under the tables' UNIQUE constraint, and the table. */
  datatype Key = Key(kind: MetricType, task: string, start: int, end: int)

  datatype Aggregate = Aggregate(key: Key, columns: string)

  datatype RowRef = RowRef(kind: MetricType, id: nat)

  datatype Status = Pending | Sending | Sent | Failed

  datatype Entry = Entry(
    ref: RowRef,
    key: Key,
    status: Status,
    createdAt: int,
    sentAt: Option<int>,
    retryCount: nat,
    lastRetryAt: Option<int>,
    nextRetryAt: int
  )

  datatype Tables = Tables(
    rows: map<RowRef, Aggregate>,
    rowSeq: map<MetricType, nat>,
    queue: map<nat, Entry>,
    queueSeq: nat
  )

  datatype QueuedMetric = QueuedMetric(queueId: nat, metric: Aggregate)

  // ---------- store and enqueue ----------

  function LastRowId(rowSeq: map<MetricType, nat>, kind: MetricType): nat {
    if kind in rowSeq then rowSeq[kind] else 0
  }

  /** The id AUTOINCREMENT gives to the next row of a table. */
  function FreshRef(t: Tables, kind: MetricType): RowRef {
    RowRef(kind, LastRowId(t.rowSeq, kind) + 1)
  }

  /** INSERT OR REPLACE: rows with the same unique key go away, the new row gets a fresh id. */
  function StoreRow(t: Tables, metric: Aggregate): Tables {
    var ref := FreshRef(t, metric.key.kind);
    t.(rows := (map r | r in t.rows && t.rows[r].key != metric.key :: t.rows[r])[ref := metric],
       rowSeq := t.rowSeq[metric.key.kind := ref.id])
  }

  /** INSERT OR IGNORE under UNIQUE(metric_type, metric_row_id). */
  function EnqueueRow(t: Tables, key: Key, ref: RowRef, now: int): Tables {
    if exists q :: q in t.queue && t.queue[q].ref == ref then t
    else t.(queue := t.queue[t.queueSeq + 1 := Entry(ref, key, Pending, now, None, 0, None, now)],
            queueSeq := t.queueSeq + 1)
  }

  // ---------- the send loop ----------

  predicate Eligible(t: Tables, q: nat, now: int) {
    q in t.queue && t.queue[q].status == Pending && t.queue[q].nextRetryAt <= now
  }

  predicate Distinct<T(==)>(s: seq<T>) {
    forall i, j :: 0 <= i < j < |s| ==> s[i] != s[j]
  }

  predicate OldestFirst(t: Tables, ids: seq<nat>)
    requires forall q :: q in ids ==> q in t.queue
  {
    forall i, j :: 0 <= i < j < |ids| ==> t.queue[ids[i]].createdAt <= t.queue[ids[j]].createdAt
  }

  /**
   What `SELECT .. WHERE status = 'pending' AND next_retry_at <= now ORDER BY created_at LIMIT n`
   may answer. Rows with equal `created_at` come in any order.
   */
  predicate IsBatch(t: Tables, now: int, limit: nat, ids: seq<nat>) {
    && |ids| <= limit
    && Distinct(ids)
    && (forall q :: q in ids ==> Eligible(t, q, now))
    && OldestFirst(t, ids)
    && (forall q | q in t.queue :: Eligible(t, q, now) && q !in ids ==>
          |ids| == limit && forall p :: p in ids ==> t.queue[p].createdAt <= t.queue[q].createdAt)
  }

  predicate HasRow(t: Tables, q: nat) {
    q in t.queue && t.queue[q].ref in t.rows
  }

  /** The batch that goes out: the listed entries whose row still exists, with that row. */
  function Resolve(t: Tables, ids: seq<nat>): seq<QueuedMetric> {
    if ids == [] then []
    else if HasRow(t, ids[0]) then
      [QueuedMetric(ids[0], t.rows[t.queue[ids[0]].ref])] + Resolve(t, ids[1..])
    else Resolve(t, ids[1..])
  }

  function Ids(batch: seq<QueuedMetric>): seq<nat> {
    seq(|batch|, i requires 0 <= i < |batch| => batch[i].queueId)
  }

  function Metrics(batch: seq<QueuedMetric>): seq<Aggregate> {
    seq(|batch|, i requires 0 <= i < |batch| => batch[i].metric)
  }

  /** Entries among `ids` whose row is gone are deleted from the queue. */
  function Purge(t: Tables, ids: seq<nat>): Tables {
    t.(queue := map q | q in t.queue && (q in ids ==> HasRow(t, q)) :: t.queue[q])
  }

  function MarkSending(t: Tables, ids: seq<nat>, now: int): Tables {
    t.(queue := map q | q in t.queue ::
         if q in ids then t.queue[q].(status := Sending, lastRetryAt := Some(now)) else t.queue[q])
  }

  function MarkSent(t: Tables, ids: seq<nat>, now: int): Tables {
    t.(queue := map q | q in t.queue ::
         if q in ids then t.queue[q].(status := Sent, sentAt := Some(now)) else t.queue[q])
  }

  // ---------- retries ----------

  function Pow2(n: nat): nat {
    if n == 0 then 1 else 2 * Pow2(n - 1)
  }

  /** A 32-bit signed integer after wrap-around. */
  function WrapI32(x: int): int {
    (x + 0x8000_0000) % 0x1_0000_0000 - 0x8000_0000
  }

  /** Minutes to wait before attempt `n + 1`, in i32 arithmetic. */
  function BackoffMinutes(n: nat): int {
    var p := WrapI32(Pow2(n));
    if p < 60 then p else 60
  }

  function FailedEntry(e: Entry, maxRetries: int, now: int): Entry {
    if e.retryCount + 1 >= maxRetries then
      e.(status := Failed, retryCount := e.retryCount + 1, lastRetryAt := Some(now))
    else
      e.(status := Pending, retryCount := e.retryCount + 1, lastRetryAt := Some(now),
         nextRetryAt := now + BackoffMinutes(e.retryCount + 1) * 60)
  }

  function MarkFailed(t: Tables, q: nat, maxRetries: int, now: int): Tables {
    if q in t.queue then t.(queue := t.queue[q := FailedEntry(t.queue[q], maxRetries, now)]) else t
  }

  /** What start-up does with entries a crash left in `sending`. */
  function Recover(t: Tables, now: int): Tables {
    t.(queue := map q | q in t.queue ::
         if t.queue[q].status == Sending
         then t.queue[q].(status := Pending, nextRetryAt := now, retryCount := t.queue[q].retryCount + 1)
         else t.queue[q])
  }

  // ---------- clean-up ----------

  predicate Before(t: Option<int>, cutoff: int) {
    t.Some? && t.value < cutoff
  }

  function CleanSent(t: Tables, cutoff: int): Tables {
    t.(queue := map q | q in t.queue && !(t.queue[q].status == Sent && Before(t.queue[q].sentAt, cutoff))
                    :: t.queue[q])
  }

  function CleanFailed(t: Tables, cutoff: int): Tables {
    t.(queue := map q | q in t.queue && !(t.queue[q].status == Failed && Before(t.queue[q].lastRetryAt, cutoff))
                    :: t.queue[q])
  }

  /** The queue guard of retention: `id NOT IN (SELECT metric_row_id .. WHERE status != 'sent')`. */
  predicate Guarded(t: Tables, r: RowRef) {
    exists q :: q in t.queue && t.queue[q].ref == r && t.queue[q].status != Sent
  }

  function CleanRows(t: Tables, cutoff: int): Tables {
    t.(rows := map r | r in t.rows && (t.rows[r].key.end < cutoff ==> Guarded(t, r)) :: t.rows[r])
  }

  // ---------- what always holds of the tables ----------

  ghost predicate RowsOk(rows: map<RowRef, Aggregate>, rowSeq: map<MetricType, nat>) {
    && (forall r | r in rows :: rows[r].key.kind == r.kind && r.id <= LastRowId(rowSeq, r.kind))
    && (forall r1, r2 | r1 in rows && r2 in rows :: rows[r1].key == rows[r2].key ==> r1 == r2)
  }

  ghost predicate QueueOk(queue: map<nat, Entry>, rowSeq: map<MetricType, nat>, queueSeq: nat) {
    && (forall q | q in queue :: q <= queueSeq && queue[q].ref.id <= LastRowId(rowSeq, queue[q].ref.kind))
    && (forall q1, q2 | q1 in queue && q2 in queue :: queue[q1].ref == queue[q2].ref ==> q1 == q2)
  }

  /** An entry never resolves to a row of another task or period. */
  ghost predicate EntriesMatchRows(rows: map<RowRef, Aggregate>, queue: map<nat, Entry>) {
    forall q | q in queue && queue[q].ref in rows :: rows[queue[q].ref].key == queue[q].key
  }

  ghost predicate TablesOk(t: Tables) {
    RowsOk(t.rows, t.rowSeq) && QueueOk(t.queue, t.rowSeq, t.queueSeq) && EntriesMatchRows(t.rows, t.queue)
  }

  // ---------- storing a row ----------

  lemma StoreKeepsRows(t: Tables, m: Aggregate)
    requires RowsOk(t.rows, t.rowSeq)
    ensures var t' := StoreRow(t, m);
      RowsOk(t'.rows, t'.rowSeq) && forall kind :: LastRowId(t.rowSeq, kind) <= LastRowId(t'.rowSeq, kind)
  {
  }

  /** A fresh row id is not in the queue yet, so INSERT OR IGNORE never ignores the entry of a row just stored. */
  lemma EnqueueAfterStore(t: Tables, m: Aggregate, now: int)
    requires QueueOk(t.queue, t.rowSeq, t.queueSeq)
    ensures var ref := FreshRef(t, m.key.kind);
      EnqueueRow(StoreRow(t, m), m.key, ref, now) ==
        StoreRow(t, m).(queue := t.queue[t.queueSeq + 1 := Entry(ref, m.key, Pending, now, None, 0, None, now)],
                        queueSeq := t.queueSeq + 1)
  {
  }

  lemma StoreAndEnqueueKeepsTables(t: Tables, m: Aggregate, now: int)
    requires TablesOk(t)
    ensures TablesOk(EnqueueRow(StoreRow(t, m), m.key, FreshRef(t, m.key.kind), now))
    ensures FreshRef(t, m.key.kind) !in t.rows && t.queueSeq + 1 !in t.queue
  {
    StoreKeepsRows(t, m);
    EnqueueAfterStore(t, m, now);
  }

  // ---------- lemmas about batches ----------

  lemma {:induction false} ResolveItem(t: Tables, ids: seq<nat>, k: nat)
    requires k < |Resolve(t, ids)|
    ensures var m := Resolve(t, ids)[k];
      m.queueId in ids && HasRow(t, m.queueId) && m.metric == t.rows[t.queue[m.queueId].ref]
  {
    if HasRow(t, ids[0]) {
      if k > 0 {
        ResolveItem(t, ids[1..], k - 1);
      }
    } else {
      ResolveItem(t, ids[1..], k);
    }
  }

  lemma {:induction false} ResolveDistinct(t: Tables, ids: seq<nat>)
    requires Distinct(ids)
    ensures forall i, j :: 0 <= i < j < |Resolve(t, ids)| ==> Resolve(t, ids)[i].queueId != Resolve(t, ids)[j].queueId
  {
    if ids != [] {
      ResolveDistinct(t, ids[1..]);
      var rest := Resolve(t, ids[1..]);
      forall k | 0 <= k < |rest|
        ensures rest[k].queueId != ids[0]
      {
        ResolveItem(t, ids[1..], k);
      }
    }
  }

  lemma {:induction false} ResolveOldestFirst(t: Tables, ids: seq<nat>)
    requires (forall q :: q in ids ==> q in t.queue) && OldestFirst(t, ids)
    ensures forall k | 0 <= k < |Resolve(t, ids)| :: Resolve(t, ids)[k].queueId in t.queue
    ensures forall i, j | 0 <= i < j < |Resolve(t, ids)| ::
      t.queue[Resolve(t, ids)[i].queueId].createdAt <= t.queue[Resolve(t, ids)[j].queueId].createdAt
  {
    if ids != [] {
      ResolveOldestFirst(t, ids[1..]);
      var rest := Resolve(t, ids[1..]);
      forall k | 0 <= k < |rest|
        ensures t.queue[ids[0]].createdAt <= t.queue[rest[k].queueId].createdAt
      {
        ResolveItem(t, ids[1..], k);
      }
    }
  }

  /** The batch holds every listed entry that still has its row. */
  lemma {:induction false} ResolveComplete(t: Tables, ids: seq<nat>, q: nat)
    requires q in ids && HasRow(t, q)
    ensures QueuedMetric(q, t.rows[t.queue[q].ref]) in Resolve(t, ids)
  {
    if q != ids[0] {
      ResolveComplete(t, ids[1..], q);
    }
  }

  lemma PurgeOneMore(t: Tables, ids: seq<nat>, i: nat)
    requires i < |ids| && Distinct(ids) && ids[i] in t.queue
    ensures ids[i] in Purge(t, ids[..i]).queue && Purge(t, ids[..i]).queue[ids[i]] == t.queue[ids[i]]
    ensures Purge(t, ids[..i + 1]) ==
      if HasRow(t, ids[i]) then Purge(t, ids[..i])
      else Purge(t, ids[..i]).(queue := Purge(t, ids[..i]).queue - {ids[i]})
  {
    assert ids[..i + 1] == ids[..i] + [ids[i]];
    assert ids[i] !in ids[..i];
  }

  lemma ResolveOneMore(t: Tables, ids: seq<nat>, i: nat)
    requires i < |ids|
    ensures Resolve(t, ids[i..]) ==
      (if HasRow(t, ids[i]) then [QueuedMetric(ids[i], t.rows[t.queue[ids[i]].ref])] else []) + Resolve(t, ids[i + 1..])
  {
    assert ids[i..][1..] == ids[i + 1..];
  }

  /** A fetched batch never conflicts with itself: its UNIQUE keys are pairwise distinct. */
  lemma BatchKeysDistinct(t: Tables, ids: seq<nat>)
    requires TablesOk(t) && Distinct(ids)
    ensures var b := Resolve(t, ids);
      forall i, j :: 0 <= i < j < |b| ==> b[i].metric.key != b[j].metric.key
  {
    var b := Resolve(t, ids);
    ResolveDistinct(t, ids);
    forall i, j | 0 <= i < j < |b|
      ensures b[i].metric.key != b[j].metric.key
    {
      ResolveItem(t, ids, i);
      ResolveItem(t, ids, j);
      assert t.queue[b[i].queueId].ref != t.queue[b[j].queueId].ref;
    }
  }

  // ---------- lemmas about retries ----------

  lemma {:induction false} Pow2Grows(a: nat, b: nat)
    requires a <= b
    ensures 0 < Pow2(a) <= Pow2(b)
  {
    if b > 0 {
      if a == b { Pow2Grows(a - 1, b - 1); } else { Pow2Grows(a, b - 1); }
    }
  }

  lemma {:induction false} Pow2Splits(a: nat, b: nat)
    ensures Pow2(a + b) == Pow2(a) * Pow2(b)
  {
    if a > 0 {
      Pow2Splits(a - 1, b);
    }
  }

  lemma Pow2At31()
    ensures Pow2(30) == 0x4000_0000 && Pow2(31) == 0x8000_0000 && Pow2(32) == 0x1_0000_0000
  {
    assert Pow2(10) == 1024;
    Pow2Splits(10, 10);
    Pow2Splits(20, 10);
  }

  lemma WrapOfMultiple(k: nat)
    ensures WrapI32(0x1_0000_0000 * k) == 0
  {
    assert 0x1_0000_0000 * k + 0x8000_0000 == 0x8000_0000 + k * 0x1_0000_0000;
  }

  lemma WrappedPower(n: nat)
    ensures n <= 30 ==> WrapI32(Pow2(n)) == Pow2(n)
    ensures n == 31 ==> WrapI32(Pow2(n)) == -0x8000_0000
    ensures n >= 32 ==> WrapI32(Pow2(n)) == 0
  {
    Pow2At31();
    if n <= 30 {
      Pow2Grows(n, 30);
    } else if n >= 32 {
      Pow2Splits(32, n - 32);
      WrapOfMultiple(Pow2(n - 32));
    }
  }

  /** Backoff is min(2^n, 60) minutes exactly while 2^n fits an i32; beyond that it is not even positive. */
  lemma BackoffIsCappedPower(n: nat)
    ensures n <= 30 <==> BackoffMinutes(n) == if Pow2(n) < 60 then Pow2(n) else 60
    ensures n == 31 ==> BackoffMinutes(n) == -0x8000_0000
    ensures n >= 32 ==> BackoffMinutes(n) == 0
  {
    WrappedPower(n);
    Pow2Grows(0, n);
  }

  /** The wait never shrinks from one attempt to the next, as long as it is the intended one. */
  lemma BackoffNeverShrinks(a: nat, b: nat)
    requires a <= b <= 30
    ensures 1 <= BackoffMinutes(a) <= BackoffMinutes(b) <= 60
  {
    BackoffIsCappedPower(a);
    BackoffIsCappedPower(b);
    Pow2Grows(a, b);
  }

  /** Every backoff a configuration can ask for is the intended one exactly when max_retries <= 31. */
  lemma BackoffSafeForConfig(maxRetries: int)
    ensures maxRetries <= 31 <==>
      forall n: nat | 1 <= n < maxRetries :: BackoffMinutes(n) == if Pow2(n) < 60 then Pow2(n) else 60
  {
    forall n: nat {
      BackoffIsCappedPower(n);
    }
    if maxRetries > 31 {
      assert BackoffMinutes(31) <= 0;
      Pow2Grows(0, 31);
    }
  }
}
