/**
 The agent's task scheduler: the overrun guard, the metrics buffer and its flushes. Whether
 the n-th write to the local database fails is decided by the environment (`fails`).
 */
module Scheduler {
  import opened Wrappers

  type Metric = string

  datatype TaskResult = TaskResult(task: string, metric: Option<Metric>)

  /** The buffer, what reached the database (in order), how many writes were tried, and what was dropped. */
  datatype Buffer = Buffer(pending: seq<Metric>, stored: seq<Metric>, writes: nat, lost: seq<Metric>)

  datatype Limits = Limits(maxBuffer: nat, flushInterval: nat, fails: nat -> bool)

  /** How many of `n` writes succeed before the first failure, starting with write number `first`. */
  function Successes(fails: nat -> bool, first: nat, n: nat): (k: nat)
    ensures k <= n
    decreases n
  {
    if n == 0 || fails(first) then 0 else 1 + Successes(fails, first + 1, n - 1)
  }

  /** Those writes do not fail, and the next one does unless there is none. */
  lemma {:induction false} SuccessesStopAtFailure(fails: nat -> bool, first: nat, n: nat)
    ensures var k := Successes(fails, first, n);
      (forall w: nat | first <= w < first + k :: !fails(w)) && (k < n ==> fails(first + k))
    decreases n
  {
    if n > 0 && !fails(first) {
      SuccessesStopAtFailure(fails, first + 1, n - 1);
    }
  }

  /** The first `k` metrics of a batch were written, none of them failing, and write `k` failed unless that was all. */
  ghost predicate Flushed(l: Limits, b: Buffer, batch: seq<Metric>, b': Buffer, k: nat) {
    && k <= |batch|
    && (forall w: nat | b.writes <= w < b.writes + k :: !l.fails(w))
    && (k < |batch| ==> l.fails(b.writes + k))
    && b'.pending == [] && b'.stored == b.stored + batch[..k] && b'.lost == b.lost + batch[k..]
    && b'.writes == b.writes + (if k == |batch| then k else k + 1)
  }

  predicate FlushSucceeds(l: Limits, b: Buffer) {
    Successes(l.fails, b.writes, |b.pending|) == |b.pending|
  }

  /** The buffer is taken as a whole; writing stops at the first failure and drops the rest. */
  function Flush(l: Limits, b: Buffer): Buffer {
    var k := Successes(l.fails, b.writes, |b.pending|);
    Buffer([], b.stored + b.pending[..k], b.writes + (if k == |b.pending| then k else k + 1), b.lost + b.pending[k..])
  }

  lemma FlushIs(l: Limits, b: Buffer)
    ensures Flushed(l, b, b.pending, Flush(l, b), Successes(l.fails, b.writes, |b.pending|))
  {
    SuccessesStopAtFailure(l.fails, b.writes, |b.pending|);
  }

  function Push(l: Limits, b: Buffer, metric: Option<Metric>): Buffer {
    if metric.None? then b
    else
      var pushed := b.(pending := b.pending + [metric.value]);
      if |pushed.pending| >= l.maxBuffer then Flush(l, pushed) else pushed
  }

  function FinishTask(running: map<string, bool>, task: string): map<string, bool> {
    if task in running then running[task := false] else running
  }

  class TaskScheduler {
    /** Handles of the scheduled tasks: is this task executing? */
    var running: map<string, bool>
    var buffer: seq<Metric>
    var stored: seq<Metric>
    var writes: nat
    var lastDbWrite: int
    var stopped: bool
    /** Executions handed to the runtime and not yet finished. */
    var spawned: multiset<string>
    ghost var lost: seq<Metric>
    const limits: Limits

    ghost function Buf(): Buffer
      reads this
    {
      Buffer(buffer, stored, writes, lost)
    }

    constructor (limits: Limits)
      ensures this.limits == limits && running == map[] && Buf() == Buffer([], [], 0, []) && stopped
      ensures lastDbWrite == 0 && spawned == multiset{}
    {
      this.limits := limits;
      running, buffer, stored, writes, lost := map[], [], [], 0, [];
      lastDbWrite, stopped, spawned := 0, true, multiset{};
    }

    /** The handle of each task is registered once its ticker is spawned. */
    method Start(tasks: seq<string>)
      modifies this`running, this`stopped
      ensures !stopped && running.Keys == old(running).Keys + set t | t in tasks
      ensures forall t | t in running :: running[t] == if t in tasks then false else old(running)[t]
    {
      var i := 0;
      while i < |tasks|
        invariant 0 <= i <= |tasks|
        invariant running.Keys == old(running).Keys + set t | t in tasks[..i]
        invariant forall t | t in running :: running[t] == if t in tasks[..i] then false else old(running)[t]
      {
        running := running[tasks[i] := false];
        i := i + 1;
      }
      assert tasks[..i] == tasks;
      stopped := false;
    }

    /** A task that is still executing is skipped; an unknown name does nothing. */
    method ExecuteSingleTask(task: string) returns (spawns: bool)
      modifies this`running, this`spawned
      ensures spawns <==> task in old(running) && !old(running)[task]
      ensures running == if spawns then old(running)[task := true] else old(running)
      ensures spawned == if spawns then old(spawned) + multiset{task} else old(spawned)
    {
      spawns := false;
      if task in running {
        if running[task] { return; }
        running := running[task := true];
        spawned := spawned + multiset{task};
        spawns := true;
      }
    }

    /** Takes the whole buffer and writes it metric by metric; the first error is returned at once. */
    method FlushMetricsNow(now: int) returns (ok: bool, ghost written: nat)
      modifies this`buffer, this`stored, this`writes, this`lastDbWrite, this`lost
      ensures Buf() == Flush(limits, old(Buf()))
      ensures ok <==> FlushSucceeds(limits, old(Buf()))
      ensures Flushed(limits, old(Buf()), old(buffer), Buf(), written) && (ok <==> written == |old(buffer)|)
      ensures ok ==> stored == old(stored) + old(buffer) && lost == old(lost)
      ensures lastDbWrite == if ok && old(buffer) != [] then now else old(lastDbWrite)
    {
      hide Flushed;
      FlushIs(limits, Buf());
      written := Successes(limits.fails, writes, |buffer|);
      if buffer == [] {
        return true, written;
      }
      var taken := buffer;
      buffer := [];
      var i := 0;
      while i < |taken|
        invariant 0 <= i <= |taken| && buffer == []
        invariant stored == old(stored) + taken[..i] && writes == old(writes) + i && lost == old(lost)
        invariant lastDbWrite == old(lastDbWrite)
        invariant Successes(limits.fails, old(writes), |taken|) == i + Successes(limits.fails, writes, |taken| - i)
      {
        if limits.fails(writes) {
          writes := writes + 1;
          lost := lost + taken[i..];
          return false, written;
        }
        stored := stored + [taken[i]];
        writes := writes + 1;
        i := i + 1;
      }
      lastDbWrite := now;
      ok := true;
    }

    method FlushMetricsIfNeeded(now: int) returns (ok: bool)
      modifies this`buffer, this`stored, this`writes, this`lastDbWrite, this`lost
      ensures var due := now >= old(lastDbWrite) + limits.flushInterval && old(buffer) != [];
        && Buf() == (if due then Flush(limits, old(Buf())) else old(Buf()))
        && (ok <==> !due || FlushSucceeds(limits, old(Buf())))
        && lastDbWrite == (if due && ok then now else old(lastDbWrite))
    {
      ok := true;
      if now >= lastDbWrite + limits.flushInterval && buffer != [] {
        ghost var written;
        ok, written := FlushMetricsNow(now);
      }
    }

    /**
     Clears the running flag and buffers the metric; a full buffer is flushed at once. The
     emergency drain after a failed flush never finds anything to drain.
     */
    method HandleTaskResult(result: TaskResult, now: int)
      requires |buffer| < limits.maxBuffer
      modifies this`running, this`buffer, this`stored, this`writes, this`lastDbWrite, this`lost
      ensures running == FinishTask(old(running), result.task)
      ensures Buf() == Push(limits, old(Buf()), result.metric)
      ensures |buffer| < limits.maxBuffer
      ensures running.Keys == old(running).Keys
      ensures forall t | t in running :: running[t] <==> old(running)[t] && t != result.task
      ensures result.metric.None? ==> Buf() == old(Buf())
      ensures result.metric.Some? && |old(buffer)| + 1 < limits.maxBuffer ==>
        Buf() == old(Buf()).(pending := old(buffer) + [result.metric.value])
      ensures result.metric.Some? && |old(buffer)| + 1 >= limits.maxBuffer ==>
        exists k :: Flushed(limits, old(Buf()), old(buffer) + [result.metric.value], Buf(), k)
    {
      if result.task in running {
        running := running[result.task := false];
      }
      if result.metric.Some? {
        buffer := buffer + [result.metric.value];
        if |buffer| >= limits.maxBuffer {
          var flushed, written := FlushMetricsNow(now);
          assert Flushed(limits, old(Buf()), old(buffer) + [result.metric.value], Buf(), written);
          if !flushed {
            var keep := limits.maxBuffer / 2;
            if |buffer| > keep {
              assert false;
            }
          }
        }
      }
    }

    function InFlight(): nat
      reads this`running
    {
      Busy(running)
    }

    /** Every result that waits in the channel, in order. */
    method HandlePending(results: seq<TaskResult>, now: int)
      requires |buffer| < limits.maxBuffer
      modifies this`running, this`buffer, this`stored, this`writes, this`lastDbWrite, this`lost
      ensures |buffer| < limits.maxBuffer
      ensures Buf() == PushAll(limits, old(Buf()), results) && running == FinishAll(old(running), results)
    {
      hide Push, FinishTask;
      var i := 0;
      while i < |results|
        invariant 0 <= i <= |results| && |buffer| < limits.maxBuffer
        invariant Buf() == PushAll(limits, old(Buf()), results[..i]) && running == FinishAll(old(running), results[..i])
      {
        HandleTaskResult(results[i], now);
        assert results[..i + 1][..i] == results[..i];
        i := i + 1;
      }
      assert results[..i] == results;
    }

    /**
     Graceful shutdown: handle the results that arrive at each tick until no task is in flight
     or the deadline is reached, flush, and drop all handles. A failed flush is only logged.
     */
    method Stop(arrivals: seq<seq<TaskResult>>, deadline: nat, now: int) returns (ghost ticks: nat)
      requires |buffer| < limits.maxBuffer
      modifies this`running, this`buffer, this`stored, this`writes, this`lastDbWrite, this`lost, this`stopped
      ensures stopped && running == map[] && buffer == []
      ensures StopsAfter(old(running), arrivals, deadline, ticks)
      ensures Buf() == AfterStop(limits, old(Buf()), arrivals, ticks)
    {
      hide PushAll, FinishAll, Busy;
      stopped := true;
      ticks := 0;
      NothingArrived(limits, Buf(), running, arrivals);
      if InFlight() > 0 {
        var tick := 0;
        while true
          invariant |buffer| < limits.maxBuffer && stopped && 0 <= tick <= deadline && ticks == tick
          invariant Buf() == PushAll(limits, old(Buf()), Arrived(arrivals, tick))
          invariant running == FinishAll(old(running), Arrived(arrivals, tick))
          invariant forall n: nat | n <= tick :: BusyAfter(old(running), arrivals, n)
          decreases deadline - tick
        {
          HandlePending(if tick < |arrivals| then arrivals[tick] else [], now);
          OneMoreTick(limits, old(Buf()), old(running), arrivals, tick);
          ticks := tick + 1;
          if InFlight() == 0 || tick >= deadline { break; }
          tick := tick + 1;
        }
      }
      if buffer != [] {
        var _, _ := FlushMetricsNow(now);
      }
      running := map[];
    }
  }

  function Busy(running: map<string, bool>): nat {
    |set t | t in running && running[t]|
  }

  function PushAll(l: Limits, b: Buffer, results: seq<TaskResult>): Buffer {
    if results == [] then b
    else Push(l, PushAll(l, b, results[..|results| - 1]), results[|results| - 1].metric)
  }

  function FinishAll(running: map<string, bool>, results: seq<TaskResult>): map<string, bool> {
    if results == [] then running
    else FinishTask(FinishAll(running, results[..|results| - 1]), results[|results| - 1].task)
  }

  /** What arrived in the first `n` ticks. */
  function Arrived(arrivals: seq<seq<TaskResult>>, n: nat): seq<TaskResult> {
    if n == 0 then [] else Arrived(arrivals, n - 1) + (if n - 1 < |arrivals| then arrivals[n - 1] else [])
  }

  /** Some task is in flight after the first `n` ticks. */
  predicate BusyAfter(running: map<string, bool>, arrivals: seq<seq<TaskResult>>, n: nat) {
    Busy(FinishAll(running, Arrived(arrivals, n))) > 0
  }

  /** The shutdown waits for the first quiet tick, at most until the tick of the deadline. */
  ghost predicate StopsAfter(running: map<string, bool>, arrivals: seq<seq<TaskResult>>, deadline: nat, ticks: nat) {
    && ticks <= deadline + 1
    && (ticks == deadline + 1 || !BusyAfter(running, arrivals, ticks))
    && (forall n: nat | n < ticks :: BusyAfter(running, arrivals, n))
  }

  lemma NothingArrived(l: Limits, b: Buffer, running: map<string, bool>, arrivals: seq<seq<TaskResult>>)
    ensures PushAll(l, b, Arrived(arrivals, 0)) == b && FinishAll(running, Arrived(arrivals, 0)) == running
  {
  }

  lemma {:induction false} HandleInTwo(l: Limits, b: Buffer, running: map<string, bool>, first: seq<TaskResult>, second: seq<TaskResult>)
    ensures PushAll(l, b, first + second) == PushAll(l, PushAll(l, b, first), second)
    ensures FinishAll(running, first + second) == FinishAll(FinishAll(running, first), second)
    decreases |second|
  {
    hide Push, FinishTask;
    if second == [] {
      assert first + second == first;
    } else {
      var init := second[..|second| - 1];
      assert (first + second)[..|first + second| - 1] == first + init;
      HandleInTwo(l, b, running, first, init);
    }
  }

  /** A single result is pushed and finished; with `HandleInTwo` this says what a list of them does. */
  lemma HandleOne(l: Limits, b: Buffer, running: map<string, bool>, r: TaskResult)
    ensures PushAll(l, b, [r]) == Push(l, b, r.metric) && FinishAll(running, [r]) == FinishTask(running, r.task)
  {
    assert [r][..0] == [];
  }

  /** What arrives in the ticks of two stretches arrives in the one and then in the other. */
  lemma {:induction false} ArrivedInTwo(a: seq<seq<TaskResult>>, b: seq<seq<TaskResult>>, n: nat)
    ensures Arrived(a + b, |a| + n) == Arrived(a, |a|) + Arrived(b, n)
  {
    if n == 0 {
      ArrivedPrefix(a, b, |a|);
      assert Arrived(a, |a|) + [] == Arrived(a, |a|);
    } else {
      ArrivedInTwo(a, b, n - 1);
      var batch := if n - 1 < |b| then b[n - 1] else [];
      assert Arrived(a + b, |a| + n) == Arrived(a + b, |a| + n - 1) + batch;
      assert Arrived(a, |a|) + Arrived(b, n - 1) + batch == Arrived(a, |a|) + Arrived(b, n);
    }
  }

  lemma {:induction false} ArrivedPrefix(a: seq<seq<TaskResult>>, b: seq<seq<TaskResult>>, n: nat)
    requires n <= |a|
    ensures Arrived(a + b, n) == Arrived(a, n)
  {
    if n > 0 {
      ArrivedPrefix(a, b, n - 1);
    }
  }

  lemma ArrivedAtOnce(batch: seq<TaskResult>, n: nat)
    requires n > 0
    ensures Arrived([batch], n) == batch
  {
    if n > 1 {
      ArrivedAtOnce(batch, n - 1);
    } else {
      assert Arrived([batch], 0) == [];
    }
  }

  lemma OneMoreTick(l: Limits, b: Buffer, running: map<string, bool>, arrivals: seq<seq<TaskResult>>, n: nat)
    ensures var batch := if n < |arrivals| then arrivals[n] else [];
      && PushAll(l, b, Arrived(arrivals, n + 1)) == PushAll(l, PushAll(l, b, Arrived(arrivals, n)), batch)
      && FinishAll(running, Arrived(arrivals, n + 1)) == FinishAll(FinishAll(running, Arrived(arrivals, n)), batch)
  {
    hide PushAll, FinishAll;
    HandleInTwo(l, b, running, Arrived(arrivals, n), if n < |arrivals| then arrivals[n] else []);
  }

  // ---------- runs of one scheduler ----------

  datatype Sched = Sched(
    running: map<string, bool>,
    executing: multiset<string>,
    channel: seq<TaskResult>,
    buffer: Buffer,
    arrived: seq<Metric>
  )

  datatype Event =
    | Ready(task: string)
    // an execution ends and sends its one result
    | Finishes(task: string, metric: Option<Metric>)
    // the main loop receives the oldest result
    | Receive
    // a due periodic flush, or the flush before an aggregation
    | FlushNow

  predicate CanHappen(s: Sched, e: Event) {
    match e
    case Ready(_) => true
    case Finishes(t, _) => t in s.executing
    case Receive => s.channel != []
    case FlushNow => true
  }

  function Next(l: Limits, s: Sched, e: Event): Sched
    requires CanHappen(s, e)
  {
    match e
    case Ready(t) =>
      if t in s.running && !s.running[t]
      then s.(running := s.running[t := true], executing := s.executing + multiset{t})
      else s
    case Finishes(t, m) => s.(executing := s.executing - multiset{t}, channel := s.channel + [TaskResult(t, m)])
    case Receive =>
      var r := s.channel[0];
      s.(running := FinishTask(s.running, r.task), channel := s.channel[1..],
         buffer := Push(l, s.buffer, r.metric),
         arrived := s.arrived + if r.metric.Some? then [r.metric.value] else [])
    case FlushNow => s.(buffer := Flush(l, s.buffer))
  }

  predicate CanRun(l: Limits, s: Sched, run: seq<Event>)
    decreases |run|
  {
    run == [] || (CanHappen(s, run[0]) && CanRun(l, Next(l, s, run[0]), run[1..]))
  }

  function Execute(l: Limits, s: Sched, run: seq<Event>): Sched
    requires CanRun(l, s, run)
    decreases |run|
  {
    if run == [] then s else Execute(l, Next(l, s, run[0]), run[1..])
  }

  function Started(tasks: set<string>): Sched {
    Sched(map t | t in tasks :: false, multiset{}, [], Buffer([], [], 0, []), [])
  }

  function ResultsOf(channel: seq<TaskResult>, task: string): nat {
    if channel == [] then 0 else (if channel[0].task == task then 1 else 0) + ResultsOf(channel[1..], task)
  }

  function OneIfRunning(running: map<string, bool>, task: string): nat {
    if task in running && running[task] then 1 else 0
  }

  /** Executions under way plus results on their way are one while the task is marked as running, else none. */
  ghost predicate NoOverrun(s: Sched) {
    forall t :: NoOverrunOf(s, t)
  }

  lemma {:induction false} ResultsOfAppend(channel: seq<TaskResult>, r: TaskResult, task: string)
    ensures ResultsOf(channel + [r], task) == ResultsOf(channel, task) + if r.task == task then 1 else 0
  {
    if channel == [] {
      assert channel + [r] == [r];
      assert ResultsOf([r][1..], task) == 0;
    } else {
      assert (channel + [r])[1..] == channel[1..] + [r];
      ResultsOfAppend(channel[1..], r, task);
    }
  }

  ghost predicate NoOverrunOf(s: Sched, t: string) {
    s.executing[t] + ResultsOf(s.channel, t) == OneIfRunning(s.running, t)
  }

  lemma StepKeepsNoOverrunOf(l: Limits, s: Sched, e: Event, t: string)
    requires NoOverrunOf(s, t) && CanHappen(s, e) && (e.Finishes? ==> NoOverrunOf(s, e.task))
    ensures NoOverrunOf(Next(l, s, e), t)
  {
    hide Push, Flush;
    match e
    case Finishes(x, m) => ResultsOfAppend(s.channel, TaskResult(x, m), t);
    case _ =>
  }

  lemma StepKeepsNoOverrun(l: Limits, s: Sched, e: Event)
    requires NoOverrun(s) && CanHappen(s, e)
    ensures NoOverrun(Next(l, s, e))
  {
    hide Next, ResultsOf, OneIfRunning;
    forall t
      ensures NoOverrunOf(Next(l, s, e), t)
    {
      assert NoOverrunOf(s, t) && (e.Finishes? ==> NoOverrunOf(s, e.task));
      StepKeepsNoOverrunOf(l, s, e, t);
    }
  }

  /** In every reachable state, a task executes at most once at a time. */
  lemma {:induction false} NeverOverruns(l: Limits, s: Sched, run: seq<Event>)
    requires NoOverrun(s) && CanRun(l, s, run)
    ensures NoOverrun(Execute(l, s, run))
    decreases |run|
  {
    if run != [] {
      StepKeepsNoOverrun(l, s, run[0]);
      NeverOverruns(l, Next(l, s, run[0]), run[1..]);
    }
  }

  lemma StartedTasksNeverOverrun(l: Limits, tasks: set<string>, run: seq<Event>, t: string)
    requires CanRun(l, Started(tasks), run)
    ensures var s := Execute(l, Started(tasks), run);
      s.executing[t] + ResultsOf(s.channel, t) == OneIfRunning(s.running, t)
  {
    NeverOverruns(l, Started(tasks), run);
    assert NoOverrunOf(Execute(l, Started(tasks), run), t);
  }

  lemma StepKeepsHandles(l: Limits, s: Sched, e: Event)
    requires CanHappen(s, e)
    ensures Next(l, s, e).running.Keys == s.running.Keys
  {
  }

  lemma {:induction false} RunKeepsHandles(l: Limits, s: Sched, run: seq<Event>)
    requires CanRun(l, s, run)
    ensures Execute(l, s, run).running.Keys == s.running.Keys
    decreases |run|
  {
    hide Next;
    if run != [] {
      StepKeepsHandles(l, s, run[0]);
      RunKeepsHandles(l, Next(l, s, run[0]), run[1..]);
    }
  }

  /**
   In every reachable state a tick starts an execution of a task exactly when the task is
   configured, does not execute and has no result on its way; it starts no other task.
   */
  lemma TickStartsExactlyIdle(l: Limits, tasks: set<string>, run: seq<Event>, t: string, other: string)
    requires CanRun(l, Started(tasks), run)
    ensures var s := Execute(l, Started(tasks), run);
      Next(l, s, Ready(t)).executing[other] == s.executing[other] +
        if other == t && t in tasks && s.executing[t] == 0 && ResultsOf(s.channel, t) == 0 then 1 else 0
  {
    RunKeepsHandles(l, Started(tasks), run);
    StartedTasksNeverOverrun(l, tasks, run, t);
  }

  // ---------- what becomes of the metrics ----------

  lemma SplitMultiset(s: seq<Metric>, k: nat)
    requires k <= |s|
    ensures multiset(s) == multiset(s[..k]) + multiset(s[k..])
  {
    assert s == s[..k] + s[k..];
  }

  /** Every metric that arrived is buffered, stored or lost; none twice. */
  ghost predicate Conserved(b: Buffer, arrived: seq<Metric>) {
    multiset(arrived) == multiset(b.stored) + multiset(b.pending) + multiset(b.lost)
  }

  /** Until something is lost, database plus buffer is the arrival sequence. */
  ghost predicate InOrder(b: Buffer, arrived: seq<Metric>) {
    b.lost == [] ==> b.stored + b.pending == arrived
  }

  /** A flush adds exactly a prefix of the buffer, in order; the whole of it iff it succeeds. */
  lemma FlushAddsPrefix(l: Limits, b: Buffer)
    ensures var b' := Flush(l, b);
      && b'.pending == [] && b.stored <= b'.stored <= b.stored + b.pending
      && (FlushSucceeds(l, b) <==> b'.stored == b.stored + b.pending)
      && (FlushSucceeds(l, b) <==> b'.lost == b.lost)
      && b'.stored + b'.lost[|b.lost|..] == b.stored + b.pending
  {
    hide Successes;
    var k := Successes(l.fails, b.writes, |b.pending|);
    SplitBetween(b.stored, b.pending, k);
    SplitRest(b.lost, b.pending, k);
    var rest := b.pending[k..];
    assert b.stored + b.pending[..k] + rest == b.stored + b.pending;
  }

  lemma SplitBetween(stored: seq<Metric>, pending: seq<Metric>, k: nat)
    requires k <= |pending|
    ensures stored <= stored + pending[..k] <= stored + pending
    ensures k == |pending| <==> stored + pending[..k] == stored + pending
  {
    assert pending[..k] + pending[k..] == pending;
    assert |stored + pending[..k]| == |stored| + k;
  }

  lemma SplitRest(lost: seq<Metric>, pending: seq<Metric>, k: nat)
    requires k <= |pending|
    ensures k == |pending| <==> lost + pending[k..] == lost
    ensures (lost + pending[k..])[|lost|..] == pending[k..]
  {
    assert |lost + pending[k..]| == |lost| + |pending| - k;
  }

  lemma FlushConserves(l: Limits, b: Buffer, arrived: seq<Metric>)
    requires Conserved(b, arrived) && InOrder(b, arrived)
    ensures Conserved(Flush(l, b), arrived) && InOrder(Flush(l, b), arrived)
  {
    FlushAddsPrefix(l, b);
    SplitMultiset(b.pending, Successes(l.fails, b.writes, |b.pending|));
  }

  lemma PushConserves(l: Limits, b: Buffer, arrived: seq<Metric>, m: Metric)
    requires Conserved(b, arrived) && InOrder(b, arrived)
    ensures Conserved(Push(l, b, Some(m)), arrived + [m]) && InOrder(Push(l, b, Some(m)), arrived + [m])
  {
    var pushed := b.(pending := b.pending + [m]);
    assert InOrder(pushed, arrived + [m]) by {
      assert b.stored + (b.pending + [m]) == (b.stored + b.pending) + [m];
    }
    FlushConserves(l, pushed, arrived + [m]);
  }

  /** The metrics of some results, in order. */
  function MetricsOf(results: seq<TaskResult>): seq<Metric> {
    if results == [] then []
    else
      MetricsOf(results[..|results| - 1]) +
        if results[|results| - 1].metric.Some? then [results[|results| - 1].metric.value] else []
  }

  lemma {:induction false} MetricsOfTwo(a: seq<TaskResult>, b: seq<TaskResult>)
    ensures MetricsOf(a + b) == MetricsOf(a) + MetricsOf(b)
    decreases |b|
  {
    if b == [] {
      assert a + b == a && MetricsOf(a) + [] == MetricsOf(a);
    } else {
      var init := b[..|b| - 1];
      assert (a + b)[..|a + b| - 1] == a + init;
      MetricsOfTwo(a, init);
    }
  }

  lemma MetricOfOne(r: TaskResult)
    ensures MetricsOf([r]) == if r.metric.Some? then [r.metric.value] else []
  {
    assert [r][..0] == [];
  }

  lemma {:induction false} PushAllConserves(l: Limits, b: Buffer, arrived: seq<Metric>, results: seq<TaskResult>)
    requires Conserved(b, arrived) && InOrder(b, arrived)
    ensures Conserved(PushAll(l, b, results), arrived + MetricsOf(results))
    ensures InOrder(PushAll(l, b, results), arrived + MetricsOf(results))
  {
    hide Push;
    if results == [] {
      assert arrived + [] == arrived;
    } else {
      var init, last := results[..|results| - 1], results[|results| - 1];
      var before := arrived + MetricsOf(init);
      PushAllConserves(l, b, arrived, init);
      if last.metric.Some? {
        PushConserves(l, PushAll(l, b, init), before, last.metric.value);
        assert before + [last.metric.value] == arrived + MetricsOf(results);
      } else {
        NothingPushed(l, PushAll(l, b, init));
        assert MetricsOf(init) + [] == MetricsOf(init);
      }
    }
  }

  lemma NothingPushed(l: Limits, b: Buffer)
    ensures Push(l, b, None) == b
  {
  }

  /** What the buffer holds after a shutdown of that many ticks. */
  function AfterStop(l: Limits, b: Buffer, arrivals: seq<seq<TaskResult>>, ticks: nat): Buffer {
    var handled := PushAll(l, b, Arrived(arrivals, ticks));
    if handled.pending == [] then handled else Flush(l, handled)
  }

  /**
   A shutdown loses no metric but those a failed write drops: what was buffered before and what
   arrived while it waited is in the database or counted as lost, and in order if nothing is lost.
   */
  lemma StopConserves(l: Limits, b: Buffer, arrived: seq<Metric>, arrivals: seq<seq<TaskResult>>, ticks: nat)
    requires Conserved(b, arrived) && InOrder(b, arrived)
    ensures var b' := AfterStop(l, b, arrivals, ticks);
      var all := arrived + MetricsOf(Arrived(arrivals, ticks));
      && b'.pending == [] && multiset(all) == multiset(b'.stored) + multiset(b'.lost)
      && (b'.lost == [] ==> b'.stored == all)
  {
    hide Push, Flush;
    var handled := PushAll(l, b, Arrived(arrivals, ticks));
    var all := arrived + MetricsOf(Arrived(arrivals, ticks));
    PushAllConserves(l, b, arrived, Arrived(arrivals, ticks));
    FlushConserves(l, handled, all);
    FlushAddsPrefix(l, handled);
    var b' := AfterStop(l, b, arrivals, ticks);
    assert b'.stored + [] == b'.stored;
  }

  ghost predicate BufferOk(l: Limits, s: Sched) {
    |s.buffer.pending| < l.maxBuffer && Conserved(s.buffer, s.arrived) && InOrder(s.buffer, s.arrived)
  }

  /** On every run the buffer stays below its limit, and nothing disappears except what failed flushes dropped. */
  lemma {:induction false} MetricsAreConserved(l: Limits, s: Sched, run: seq<Event>)
    requires BufferOk(l, s) && CanRun(l, s, run)
    ensures BufferOk(l, Execute(l, s, run))
    decreases |run|
  {
    if run != [] {
      match run[0] {
        case Receive =>
          var m := s.channel[0].metric;
          if m.Some? {
            PushConserves(l, s.buffer, s.arrived, m.value);
          } else {
            assert s.arrived + [] == s.arrived;
          }
        case FlushNow => FlushConserves(l, s.buffer, s.arrived);
        case _ =>
      }
      MetricsAreConserved(l, Next(l, s, run[0]), run[1..]);
    }
  }

  /** Losses come from failed writes only. */
  lemma {:induction false} NoFailureNoLoss(l: Limits, s: Sched, run: seq<Event>)
    requires CanRun(l, s, run) && s.buffer.lost == [] && forall n: nat :: !l.fails(n)
    ensures Execute(l, s, run).buffer.lost == []
    decreases |run|
  {
    if run != [] {
      AllSucceed(l, s.buffer.writes, |s.buffer.pending|);
      AllSucceed(l, s.buffer.writes, |s.buffer.pending| + 1);
      NoFailureNoLoss(l, Next(l, s, run[0]), run[1..]);
    }
  }

  lemma {:induction false} AllSucceed(l: Limits, first: nat, n: nat)
    requires forall k: nat :: !l.fails(k)
    ensures Successes(l.fails, first, n) == n
    decreases n
  {
    if n > 0 { AllSucceed(l, first + 1, n - 1); }
  }

  /** Without write failures, database plus buffer is the arrival sequence, at every moment. */
  lemma WithoutFailuresNothingIsLost(l: Limits, tasks: set<string>, run: seq<Event>)
    requires l.maxBuffer > 0 && CanRun(l, Started(tasks), run) && forall n: nat :: !l.fails(n)
    ensures var s := Execute(l, Started(tasks), run); s.buffer.stored + s.buffer.pending == s.arrived
  {
    MetricsAreConserved(l, Started(tasks), run);
    NoFailureNoLoss(l, Started(tasks), run);
  }

  /** One failed write loses the rest of the buffer: the retry that the drain suggests never happens. */
  lemma FailedWriteDropsRest()
    ensures var l := Limits(10, 5, (n: nat) => n == 1);
      Flush(l, Buffer(["a", "b", "c"], [], 0, [])) == Buffer([], ["a"], 2, ["b", "c"])
  {
    var l := Limits(10, 5, (n: nat) => n == 1);
    assert Successes(l.fails, 1, 2) == 0;
    assert ["a", "b", "c"][..1] == ["a"] && ["a", "b", "c"][1..] == ["b", "c"];
  }
}
