/**
 The server's health check: which windows its period holds, how many rows it can find there,
 and how many it expects. All times are seconds, a period is half-open.
 */
module Health {
  import opened AgentTables
  import opened ServerStore
  import D = Delivery
  import T = DeliveryTheorems

  const WINDOW := 60

  // ---------- the period ----------

  /** The current minute and the one before it are left out. */
  function PeriodEnd(now: nat): int {
    now / WINDOW * WINDOW - WINDOW
  }

  /** The period ends on a minute, with one whole minute and the current one after it. */
  lemma PeriodEndsAMinuteAgo(now: nat)
    ensures PeriodEnd(now) % 60 == 0 && PeriodEnd(now) + 60 <= now < PeriodEnd(now) + 120
  {
  }

  /** The minutes that begin in a period. */
  function AlignedStarts(start: int, end: int): set<int> {
    set m | start <= m < end && m % WINDOW == 0
  }

  lemma OneMinuteEarlier(start: int, end: int)
    requires start % WINDOW == 0 && start <= end
    ensures AlignedStarts(start - WINDOW, end) == {start - WINDOW} + AlignedStarts(start, end)
  {
    forall m
      ensures m in AlignedStarts(start - WINDOW, end) <==> m == start - WINDOW || m in AlignedStarts(start, end)
    {
    }
  }

  lemma {:induction false} WholeMinutes(end: int, n: nat)
    requires end % WINDOW == 0
    ensures |AlignedStarts(end - n * WINDOW, end)| == n
  {
    if n == 0 {
      assert AlignedStarts(end, end) == {};
    } else {
      var start := end - (n - 1) * WINDOW;
      WholeMinutes(end, n - 1);
      OneMinuteEarlier(start, end);
      assert start - WINDOW !in AlignedStarts(start, end);
    }
  }

  lemma SameMinutes(end: int, duration: nat)
    requires end % WINDOW == 0
    ensures AlignedStarts(end - duration, end) == AlignedStarts(end - duration / WINDOW * WINDOW, end)
  {
  }

  /** Whatever the check interval, the period holds exactly as many minute starts as whole minutes. */
  lemma PeriodHoldsWholeMinutes(now: nat, duration: nat)
    ensures |AlignedStarts(PeriodEnd(now) - duration, PeriodEnd(now))| == duration / WINDOW
  {
    SameMinutes(PeriodEnd(now), duration);
    WholeMinutes(PeriodEnd(now), duration / WINDOW);
  }

  // ---------- received rows ----------

  predicate Aligned(key: Key) {
    key.start % WINDOW == 0 && key.end == key.start + WINDOW
  }

  ghost predicate AlignedRows(s: ServerTables, agent: string) {
    forall i | i in s.rows && s.rows[i].agent == agent :: Aligned(s.rows[i].metric.key)
  }

  function Received(s: ServerTables, agent: string, kind: MetricType, task: string, start: int, end: int): set<nat> {
    set i | i in s.rows && s.rows[i].agent == agent && s.rows[i].metric.key.kind == kind
      && s.rows[i].metric.key.task == task && start <= s.rows[i].metric.key.start < end
  }

  lemma {:induction false} SubsetSize<X>(a: set<X>, b: set<X>)
    requires a <= b
    ensures |a| <= |b|
    decreases a
  {
    if a != {} {
      var x :| x in a;
      SubsetSize(a - {x}, b - {x});
    }
  }

  /** Ids with different values are no more than the values allowed. */
  lemma {:induction false} ImageSize(ids: set<nat>, value: map<nat, int>, allowed: set<int>)
    requires ids <= value.Keys
    requires forall i, j | i in ids && j in ids && value[i] == value[j] :: i == j
    requires forall i | i in ids :: value[i] in allowed
    ensures |ids| <= |allowed|
    decreases ids
  {
    if ids != {} {
      var x :| x in ids;
      ImageSize(ids - {x}, value, allowed - {value[x]});
    }
  }

  /** The UNIQUE key caps the rows of one task in one table at the number of whole minutes. */
  lemma ReceivedIsCapped(s: ServerTables, agent: string, kind: MetricType, task: string, now: nat, duration: nat)
    requires ServerOk(s) && AlignedRows(s, agent)
    ensures |Received(s, agent, kind, task, PeriodEnd(now) - duration, PeriodEnd(now))| <= duration / WINDOW
  {
    var end := PeriodEnd(now);
    var ids := Received(s, agent, kind, task, end - duration, end);
    var starts := map i | i in s.rows :: s.rows[i].metric.key.start;
    forall i, j | i in ids && j in ids && starts[i] == starts[j]
      ensures i == j
    {
      assert s.rows[i].metric.key == s.rows[j].metric.key;
    }
    ImageSize(ids, starts, AlignedStarts(end - duration, end));
    PeriodHoldsWholeMinutes(now, duration);
  }

  // ---------- received rows over whole runs ----------

  ghost predicate AlignedMetrics(metrics: seq<Aggregate>) {
    forall m | m in metrics :: Aligned(m.key)
  }

  /** Everything the agent ever stored, sent or committed covers one whole minute. */
  ghost predicate AlignedState(c: D.Config, s: D.State) {
    && (forall r | r in s.h.stored :: Aligned(s.h.stored[r].key))
    && (s.phase.Aggregating? || s.phase.Enqueueing? ==> s.phase.minute % WINDOW == 0)
    && (forall r | r in s.requests :: AlignedMetrics(s.requests[r]))
    && AlignedRows(s.server, c.me)
  }

  lemma BatchIsAligned(queue: map<nat, Entry>, h: D.History, queueSeq: nat, batch: seq<QueuedMetric>)
    requires D.BatchOk(queue, h.enqueued, batch, Pending) && D.EnqueuedOk(h.stored, h.enqueued, queueSeq)
    requires forall r | r in h.stored :: Aligned(h.stored[r].key)
    ensures AlignedMetrics(Metrics(batch))
  {
    forall m | m in Metrics(batch)
      ensures Aligned(m.key)
    {
      var i :| 0 <= i < |batch| && Metrics(batch)[i] == m;
      assert batch[i].queueId in h.enqueued;
    }
  }

  lemma CommitKeepsAligned(c: D.Config, s: D.State, agent: string, metrics: seq<Aggregate>)
    requires ServerOk(s.server) && AlignedRows(s.server, c.me) && (agent == c.me ==> AlignedMetrics(metrics))
    ensures D.Commit(s, agent, metrics).Some? ==> AlignedRows(D.Commit(s, agent, metrics).value.server, c.me)
  {
    if D.Commit(s, agent, metrics).Some? {
      CommittedBatch(s.server, agent, metrics);
    }
  }

  lemma SendKeepsAligned(c: D.Config, s: D.State, now: int)
    requires s.phase.Fetched? && AlignedState(c, s) && AlignedMetrics(Metrics(s.phase.fetched))
    ensures AlignedState(c, D.SendStep(s, now))
  {
  }

  lemma DeliverKeepsAligned(c: D.Config, s: D.State, r: nat, rejected: bool)
    requires r in s.requests && AlignedState(c, s) && ServerOk(s.server)
    ensures AlignedState(c, D.DeliverStep(c, s, r, rejected))
  {
    CommitKeepsAligned(c, s.(transit := s.transit - {r}), c.me, s.requests[r]);
  }

  lemma OtherAgentKeepsAligned(c: D.Config, s: D.State, agent: string, metrics: seq<Aggregate>)
    requires agent != c.me && AlignedState(c, s) && ServerOk(s.server)
    ensures AlignedState(c, D.Apply(c, s, D.OtherAgent(agent, metrics)))
  {
    CommitKeepsAligned(c, s, agent, metrics);
  }

  lemma LocalStepKeepsAligned(c: D.Config, s: D.State, e: D.Event)
    requires D.CanStep(c, s, e) && AlignedState(c, s) && !e.Send? && !e.Deliver? && !e.OtherAgent?
    ensures AlignedState(c, D.Apply(c, s, e))
  {
  }

  lemma StepKeepsAligned(c: D.Config, s: D.State, e: D.Event)
    requires D.Inv(c, s) && D.CanStep(c, s, e) && AlignedState(c, s)
    ensures AlignedState(c, D.Apply(c, s, e))
  {
    hide AlignedState;
    match e
    case Send(now) =>
      assert AlignedMetrics(Metrics(s.phase.fetched)) by {
        assert forall r | r in s.h.stored :: Aligned(s.h.stored[r].key) by { StoredIsAligned(c, s); }
        BatchIsAligned(s.t.queue, s.h, s.t.queueSeq, s.phase.fetched);
      }
      SendKeepsAligned(c, s, now);
    case Deliver(r, rejected) => DeliverKeepsAligned(c, s, r, rejected);
    case OtherAgent(agent, metrics) => OtherAgentKeepsAligned(c, s, agent, metrics);
    case _ => LocalStepKeepsAligned(c, s, e);
  }

  lemma StoredIsAligned(c: D.Config, s: D.State)
    requires AlignedState(c, s)
    ensures forall r | r in s.h.stored :: Aligned(s.h.stored[r].key)
  {
  }

  lemma {:induction false} RunKeepsAligned(c: D.Config, s: D.State, run: seq<D.Event>)
    requires D.Inv(c, s) && D.CanRun(c, s, run) && AlignedState(c, s)
    ensures D.Inv(c, D.Execute(c, s, run)) && AlignedState(c, D.Execute(c, s, run))
    decreases |run|
  {
    hide AlignedState, D.Inv;
    if run != [] {
      StepKeepsAligned(c, s, run[0]);
      D.StepKeepsInv(c, s, run[0]);
      RunKeepsAligned(c, D.Apply(c, s, run[0]), run[1..]);
    }
  }

  /**
   In every run of the delivery protocol, with any losses, repeats and crashes, the health
   check never counts more rows of a task than its period has whole minutes.
   */
  lemma HealthNeverOvercounts(c: D.Config, run: seq<D.Event>, kind: MetricType, task: string, now: nat, duration: nat)
    requires D.CanRun(c, D.Init(), run)
    ensures |Received(D.Execute(c, D.Init(), run).server, c.me, kind, task, PeriodEnd(now) - duration, PeriodEnd(now))|
      <= duration / WINDOW
  {
    T.InitInv(c);
    RunKeepsAligned(c, D.Init(), run);
    ReceivedIsCapped(D.Execute(c, D.Init(), run).server, c.me, kind, task, now, duration);
  }

  // ---------- all tables ----------

  /** The rows of one table, as one of the nine counting queries finds them. */
  function InTable(s: ServerTables, agent: string, kind: MetricType, start: int, end: int): set<nat> {
    set i | i in s.rows && s.rows[i].agent == agent && s.rows[i].metric.key.kind == kind
      && start <= s.rows[i].metric.key.start < end
  }

  function Kinds(): seq<MetricType> {
    [Ping, Tcp, Http, Tls, HttpContent, Dns, Bandwidth, SqlQuery, Snmp]
  }

  function SumOfTables(s: ServerTables, agent: string, kinds: seq<MetricType>, start: int, end: int): nat {
    if kinds == [] then 0
    else SumOfTables(s, agent, kinds[..|kinds| - 1], start, end) + |InTable(s, agent, kinds[|kinds| - 1], start, end)|
  }

  function TotalReceived(s: ServerTables, agent: string, start: int, end: int): nat {
    SumOfTables(s, agent, Kinds(), start, end)
  }

  /** The rows of a set of tasks. */
  function OfTasks(s: ServerTables, agent: string, tasks: set<(MetricType, string)>, start: int, end: int): set<nat> {
    set i | i in s.rows && s.rows[i].agent == agent && (s.rows[i].metric.key.kind, s.rows[i].metric.key.task) in tasks
      && start <= s.rows[i].metric.key.start < end
  }

  lemma OneTaskMore(s: ServerTables, agent: string, tasks: set<(MetricType, string)>, t: (MetricType, string), start: int, end: int)
    requires t in tasks
    ensures |OfTasks(s, agent, tasks, start, end)| <=
      |OfTasks(s, agent, tasks - {t}, start, end)| + |Received(s, agent, t.0, t.1, start, end)|
  {
    var rest := OfTasks(s, agent, tasks - {t}, start, end);
    var one := Received(s, agent, t.0, t.1, start, end);
    SubsetSize(OfTasks(s, agent, tasks, start, end), rest + one);
    assert |rest + one| <= |rest| + |one|;
  }

  lemma {:induction false} TasksAreCapped(s: ServerTables, agent: string, tasks: set<(MetricType, string)>, now: nat, duration: nat)
    requires ServerOk(s) && AlignedRows(s, agent)
    ensures |OfTasks(s, agent, tasks, PeriodEnd(now) - duration, PeriodEnd(now))| <= |tasks| * (duration / WINDOW)
    decreases tasks
  {
    hide AlignedRows, ServerOk;
    var start, end := PeriodEnd(now) - duration, PeriodEnd(now);
    if tasks == {} {
      assert OfTasks(s, agent, tasks, start, end) == {};
    } else {
      var t :| t in tasks;
      TasksAreCapped(s, agent, tasks - {t}, now, duration);
      ReceivedIsCapped(s, agent, t.0, t.1, now, duration);
      OneTaskMore(s, agent, tasks, t, start, end);
      OneMoreTimes(|tasks - {t}|, duration / WINDOW);
    }
  }

  lemma OneMoreTimes(n: nat, d: nat)
    ensures (n + 1) * d == n * d + d
  {
  }

  /** The nine counts add up to the rows of known types: no row is counted twice or missed. */
  lemma CountsAddUp(s: ServerTables, agent: string, start: int, end: int)
    ensures TotalReceived(s, agent, start, end) == |AllRows(s, agent, start, end)|
  {
    hide SumOfTables;
    AddTables(s, agent, Kinds(), start, end);
    forall kind: MetricType
      ensures kind in Kinds() <==> kind != Unknown
    {
      assert Kinds()[0] == Ping && Kinds()[1] == Tcp && Kinds()[2] == Http && Kinds()[3] == Tls && Kinds()[4] == HttpContent;
      assert Kinds()[5] == Dns && Kinds()[6] == Bandwidth && Kinds()[7] == SqlQuery && Kinds()[8] == Snmp;
    }
    assert AllRows(s, agent, start, end) == InTables(s, agent, Kinds(), start, end);
  }

  function AllRows(s: ServerTables, agent: string, start: int, end: int): set<nat> {
    set i | i in s.rows && s.rows[i].agent == agent && s.rows[i].metric.key.kind != Unknown
      && start <= s.rows[i].metric.key.start < end
  }

  function InTables(s: ServerTables, agent: string, kinds: seq<MetricType>, start: int, end: int): set<nat> {
    set i | i in s.rows && s.rows[i].agent == agent && s.rows[i].metric.key.kind in kinds
      && start <= s.rows[i].metric.key.start < end
  }

  predicate Different(kinds: seq<MetricType>) {
    forall i, j | 0 <= i < j < |kinds| :: kinds[i] != kinds[j]
  }

  lemma {:induction false} AddTables(s: ServerTables, agent: string, kinds: seq<MetricType>, start: int, end: int)
    requires Different(kinds)
    ensures SumOfTables(s, agent, kinds, start, end) == |InTables(s, agent, kinds, start, end)|
  {
    if kinds == [] {
      assert InTables(s, agent, kinds, start, end) == {};
    } else {
      var init, last := kinds[..|kinds| - 1], kinds[|kinds| - 1];
      AddTables(s, agent, init, start, end);
      assert kinds == init + [last];
      assert InTables(s, agent, kinds, start, end) == InTables(s, agent, init, start, end) + InTable(s, agent, last, start, end);
      assert InTables(s, agent, init, start, end) !! InTable(s, agent, last, start, end);
    }
  }

  // ---------- expected rows ----------

  function Expected(schedule: nat, duration: nat): nat {
    if schedule == 0 then 0
    else if schedule < WINDOW then duration / WINDOW
    else duration / schedule
  }

  function TotalExpected(schedules: seq<nat>, duration: nat): nat {
    if schedules == [] then 0
    else TotalExpected(schedules[..|schedules| - 1], duration) + Expected(schedules[|schedules| - 1], duration)
  }

  method CalculateExpectedEntries(schedules: seq<nat>, start: nat, end: nat) returns (total: nat)
    requires start <= end
    ensures total == TotalExpected(schedules, end - start)
  {
    var duration := end - start;
    var windows := duration / WINDOW;
    total := 0;
    var i := 0;
    while i < |schedules|
      invariant 0 <= i <= |schedules|
      invariant total == TotalExpected(schedules[..i], duration)
    {
      var schedule := schedules[i];
      assert schedules[..i + 1][..i] == schedules[..i];
      if schedule != 0 {
        var expected := if schedule < WINDOW then windows else duration / schedule;
        total := total + expected;
      }
      i := i + 1;
    }
    assert schedules[..i] == schedules;
  }

  /** The tasks' expectations add up. */
  lemma {:induction false} ExpectationsAddUp(a: seq<nat>, b: seq<nat>, duration: nat)
    ensures TotalExpected(a + b, duration) == TotalExpected(a, duration) + TotalExpected(b, duration)
    decreases |b|
  {
    if b == [] {
      assert a + b == a;
    } else {
      var init := b[..|b| - 1];
      assert (a + b)[..|a + b| - 1] == a + init;
      ExpectationsAddUp(a, init, duration);
    }
  }

  /** One task is expected once a minute or once per schedule, whichever is rarer; without a schedule never. */
  lemma OneExpectation(schedule: nat, duration: nat)
    ensures TotalExpected([schedule], duration) ==
      if schedule == 0 then 0 else if duration / schedule <= duration / 60 then duration / schedule else duration / 60
  {
    assert [schedule][..0] == [];
    if 0 < schedule < WINDOW {
      QuotientShrinks(duration, schedule, WINDOW);
    } else if schedule >= WINDOW {
      QuotientShrinks(duration, WINDOW, schedule);
    }
  }

  lemma ScaledOrder(a: int, b: int, s: nat)
    ensures a <= b ==> a * s <= b * s
    ensures s > 0 && a * s < b * s ==> a < b
  {
    if a <= b {
      assert b * s - a * s == (b - a) * s >= 0;
    } else {
      assert a * s - b * s == (a - b) * s;
      assert s > 0 ==> (a - b) * s >= 0;
    }
  }

  lemma QuotientShrinks(a: nat, b: nat, c: nat)
    requires 0 < b <= c
    ensures a / c <= a / b
  {
    var x, y := a / c, a / b;
    assert x * c <= a < (y + 1) * b;
    ScaledOrder(b, c, y + 1);
    ScaledOrder(x, y + 1, c);
  }

  /** A task is never expected to yield more rows than there are whole minutes. */
  lemma {:induction false} ExpectedIsCapped(schedules: seq<nat>, duration: nat)
    ensures TotalExpected(schedules, duration) <= |schedules| * (duration / WINDOW)
  {
    if schedules != [] {
      var init, last := schedules[..|schedules| - 1], schedules[|schedules| - 1];
      ExpectedIsCapped(init, duration);
      if last >= WINDOW {
        QuotientShrinks(duration, WINDOW, last);
      }
      assert |schedules| * (duration / WINDOW) == |init| * (duration / WINDOW) + duration / WINDOW;
    }
  }

  // ---------- what an agent that is always on time yields ----------

  /** The k-th run of a task with this schedule. */
  function Run(first: int, schedule: nat, k: int): int {
    first + k * schedule
  }

  function Minute(t: int): int {
    t / WINDOW * WINDOW
  }

  /** The task ran in the minute that starts at `m`. */
  ghost predicate RanIn(first: int, schedule: nat, m: int) {
    exists k :: m <= Run(first, schedule, k) < m + WINDOW
  }

  /** The rows of a period: one for every minute in which the task ran. */
  ghost function OnTime(first: int, schedule: nat, start: int, end: int): set<int> {
    set m | m in AlignedStarts(start, end) && RanIn(first, schedule, m)
  }

  lemma NextRun(first: int, schedule: nat, t: int) returns (k: int)
    requires schedule > 0
    ensures t <= Run(first, schedule, k) < t + schedule
  {
    var x := t - first + schedule - 1;
    k := x / schedule;
    assert x == k * schedule + x % schedule;
  }

  /** A fast task that is always on time yields exactly what is expected. */
  lemma FastTaskMeetsExpectation(first: int, schedule: nat, now: nat, duration: nat)
    requires 0 < schedule < WINDOW
    ensures |OnTime(first, schedule, PeriodEnd(now) - duration, PeriodEnd(now))| == Expected(schedule, duration)
  {
    var start, end := PeriodEnd(now) - duration, PeriodEnd(now);
    forall m | m in AlignedStarts(start, end)
      ensures RanIn(first, schedule, m)
    {
      var k := NextRun(first, schedule, m);
    }
    assert OnTime(first, schedule, start, end) == AlignedStarts(start, end);
    PeriodHoldsWholeMinutes(now, duration);
  }

  /** The minutes of `q` runs from the k-th on. */
  ghost function Minutes(first: int, schedule: nat, k: int, q: nat): set<int> {
    if q == 0 then {} else Minutes(first, schedule, k, q - 1) + {Minute(Run(first, schedule, k + q - 1))}
  }

  lemma NextMinute(first: int, schedule: nat, k: int)
    requires schedule >= WINDOW
    ensures Minute(Run(first, schedule, k)) < Minute(Run(first, schedule, k + 1))
  {
    assert Run(first, schedule, k + 1) == Run(first, schedule, k) + schedule;
  }

  lemma {:induction false} MinutesDiffer(first: int, schedule: nat, k: int, q: nat)
    requires schedule >= WINDOW
    ensures |Minutes(first, schedule, k, q)| == q
    ensures forall m | m in Minutes(first, schedule, k, q) :: m < Minute(Run(first, schedule, k + q))
  {
    if q > 0 {
      MinutesDiffer(first, schedule, k, q - 1);
      NextMinute(first, schedule, k + q - 1);
    }
  }

  lemma {:induction false} MinutesMember(first: int, schedule: nat, k: int, q: nat, m: int)
    ensures m in Minutes(first, schedule, k, q) <==> exists j :: k <= j < k + q && m == Minute(Run(first, schedule, j))
  {
    if q > 0 {
      MinutesMember(first, schedule, k, q - 1, m);
    }
  }

  lemma RunIsInside(first: int, schedule: nat, start: int, length: nat, k: int, j: int)
    requires schedule > 0 && start <= Run(first, schedule, k) < start + schedule
    requires k <= j < k + length / schedule
    ensures start <= Run(first, schedule, j) < start + length
  {
    var q := length / schedule;
    ScaledOrder(k, j, schedule);
    ScaledOrder(j, k + q - 1, schedule);
    assert (k + q - 1) * schedule == k * schedule + q * schedule - schedule;
    assert q * schedule <= length;
  }

  lemma MinuteIsInside(start: int, end: int, t: int)
    requires start % WINDOW == 0 && end % WINDOW == 0 && start <= t < end
    ensures Minute(t) in AlignedStarts(start, end) && Minute(t) <= t < Minute(t) + WINDOW
  {
  }

  /** A slow task that is always on time yields at least one row per schedule in the whole minutes. */
  lemma SlowTaskAtLeast(first: int, schedule: nat, end: int, n: nat)
    requires schedule >= WINDOW && end % WINDOW == 0
    ensures n * WINDOW / schedule <= |OnTime(first, schedule, end - n * WINDOW, end)|
  {
    hide Run, Minute, AlignedStarts;
    var start := end - n * WINDOW;
    var q := n * WINDOW / schedule;
    var k := NextRun(first, schedule, start);
    forall m | m in Minutes(first, schedule, k, q)
      ensures m in OnTime(first, schedule, start, end)
    {
      MinutesMember(first, schedule, k, q, m);
      var j :| k <= j < k + q && m == Minute(Run(first, schedule, j));
      RunIsInside(first, schedule, start, n * WINDOW, k, j);
      MinuteIsInside(start, end, Run(first, schedule, j));
    }
    MinutesDiffer(first, schedule, k, q);
    SubsetSize(Minutes(first, schedule, k, q), OnTime(first, schedule, start, end));
  }

  lemma RunIsCounted(start: int, schedule: nat, length: nat, k: int)
    requires schedule > 0 && start <= Run(start + schedule - 1, schedule, k) < start + length
    ensures 0 <= k < length / schedule
  {
    var q := length / schedule;
    assert (k + 1) * schedule == k * schedule + schedule;
    ScaledOrder(0, k + 1, schedule);
    assert length < (q + 1) * schedule;
    ScaledOrder(k + 1, q + 1, schedule);
  }

  lemma MinuteIsUnique(m: int, t: int)
    requires m % WINDOW == 0 && m <= t < m + WINDOW
    ensures m == Minute(t)
  {
  }

  lemma MinuteEndsInside(start: int, end: int, m: int)
    requires end % WINDOW == 0 && m in AlignedStarts(start, end)
    ensures m % WINDOW == 0 && start <= m && m + WINDOW <= end
  {
  }

  /** No more than that is certain: a task may have run just before the period. */
  lemma SlowTaskAtMost(schedule: nat, end: int, n: nat)
    requires schedule >= WINDOW && end % WINDOW == 0
    ensures |OnTime(end - n * WINDOW + schedule - 1, schedule, end - n * WINDOW, end)| <= n * WINDOW / schedule
  {
    hide Run, Minute, AlignedStarts;
    var start := end - n * WINDOW;
    var first := start + schedule - 1;
    var q := n * WINDOW / schedule;
    forall m | m in OnTime(first, schedule, start, end)
      ensures m in Minutes(first, schedule, 0, q)
    {
      var k :| m <= Run(first, schedule, k) < m + WINDOW;
      MinuteEndsInside(start, end, m);
      RunIsCounted(start, schedule, n * WINDOW, k);
      MinuteIsUnique(m, Run(first, schedule, k));
      MinutesMember(first, schedule, 0, q, m);
    }
    MinutesDiffer(first, schedule, 0, q);
    SubsetSize(OnTime(first, schedule, start, end), Minutes(first, schedule, 0, q));
  }

  ghost predicate IsMet(first: int, schedule: nat, end: int, duration: nat) {
    Expected(schedule, duration) <= |OnTime(first, schedule, end - duration, end)|
  }

  ghost predicate AlwaysMet(schedule: nat, end: int, duration: nat) {
    forall first :: IsMet(first, schedule, end, duration)
  }

  /**
   A slow task that never misses a run always meets its expectation exactly when the seconds
   beyond the last whole minute of the period make no difference to the quotient.
   */
  lemma SlowTaskMeetsExpectationIff(schedule: nat, now: nat, duration: nat)
    requires schedule >= WINDOW
    ensures AlwaysMet(schedule, PeriodEnd(now), duration) <==> duration / schedule == duration / WINDOW * WINDOW / schedule
  {
    var end := PeriodEnd(now);
    var n := duration / WINDOW;
    WholeMinutesQuotient(duration, schedule);
    if duration / schedule == n * WINDOW / schedule {
      forall first: int
        ensures IsMet(first, schedule, end, duration)
      {
        SameRows(first, schedule, end, duration);
        SlowTaskAtLeast(first, schedule, end, n);
      }
    } else {
      var worst := end - n * WINDOW + schedule - 1;
      SameRows(worst, schedule, end, duration);
      SlowTaskAtMost(schedule, end, n);
      assert !IsMet(worst, schedule, end, duration);
    }
  }

  lemma SameRows(first: int, schedule: nat, end: int, duration: nat)
    requires end % WINDOW == 0
    ensures OnTime(first, schedule, end - duration, end) == OnTime(first, schedule, end - duration / WINDOW * WINDOW, end)
  {
    SameMinutes(end, duration);
  }

  lemma WholeMinutesQuotient(duration: nat, schedule: nat)
    requires schedule > 0
    ensures duration / WINDOW * WINDOW / schedule <= duration / schedule
  {
    var a, b := duration / WINDOW * WINDOW, duration;
    var x, y := a / schedule, b / schedule;
    assert x * schedule <= a <= b < (y + 1) * schedule;
    ScaledOrder(x, y + 1, schedule);
  }

  /** With a period of 90 seconds, a task that runs every 90 seconds can look silent while it is on time. */
  lemma NinetySecondsMislead(now: nat)
    ensures !AlwaysMet(90, PeriodEnd(now), 90)
  {
    SlowTaskMeetsExpectationIff(90, now, 90);
  }
}
