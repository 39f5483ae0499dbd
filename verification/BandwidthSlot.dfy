/**
 The server's bandwidth-test coordinator: one slot, a waiting queue, and a suggested delay.
 Times are readings of one monotonic clock in ticks, `TICKS` to the second. Each call holds
 the write lock; it reads the clock up to three times.
 */
module BandwidthSlot {
  import opened Wrappers

  const TICKS: int := 1_000_000_000

  datatype Holder = Holder(agent: string, since: int)

  datatype Settings = Settings(
    testTimeout: nat,
    maxDelay: nat,
    baseDelay: nat,
    currentTestDelay: nat,
    positionMultiplier: nat
  )

  datatype Slot = Slot(current: Option<Holder>, queue: seq<Holder>)

  datatype Answer = Proceed | Delay(seconds: int)

  /** The readings of one call: for the test timeout, for the queue cutoff, and for the new entry. */
  datatype Clock = Clock(check: int, cutoff: int, stamp: int)

  predicate Ordered(c: Clock) {
    c.check <= c.cutoff <= c.stamp
  }

  // ---------- what each call does ----------

  predicate TimedOut(s: Slot, cfg: Settings, now: int) {
    s.current.Some? && now - s.current.value.since > cfg.testTimeout * TICKS
  }

  /** `retain`: the entries younger than the cutoff, in order. */
  function Fresh(queue: seq<Holder>, cutoff: int): seq<Holder> {
    if queue == [] then []
    else (if queue[0].since > cutoff then [queue[0]] else []) + Fresh(queue[1..], cutoff)
  }

  function Without(queue: seq<Holder>, agent: string): seq<Holder> {
    if queue == [] then []
    else (if queue[0].agent != agent then [queue[0]] else []) + Without(queue[1..], agent)
  }

  function Expire(s: Slot, cfg: Settings, c: Clock): Slot {
    Slot(if TimedOut(s, cfg, c.check) then None else s.current,
         Fresh(s.queue, c.cutoff - cfg.maxDelay * TICKS))
  }

  function AsU32(n: nat): nat {
    n % 0x1_0000_0000
  }

  /** The suggested delay in u32 arithmetic. */
  function SuggestedDelay(s: Slot, cfg: Settings): nat {
    var base := if s.current.Some? then AsU32(cfg.currentTestDelay) else AsU32(cfg.baseDelay);
    var queued := AsU32(AsU32(|s.queue|) * AsU32(cfg.positionMultiplier));
    var total := AsU32(base + queued);
    if total < AsU32(cfg.maxDelay) then total else AsU32(cfg.maxDelay)
  }

  function Request(s: Slot, cfg: Settings, agent: string, c: Clock): (Slot, Answer) {
    var e := Expire(s, cfg, c);
    if e.current.Some? && e.current.value.agent == agent then (e, Proceed)
    else
      var rest := e.(queue := Without(e.queue, agent));
      if rest.current.None? then (rest.(current := Some(Holder(agent, c.stamp))), Proceed)
      else (rest.(queue := rest.queue + [Holder(agent, c.stamp)]), Delay(SuggestedDelay(rest, cfg)))
  }

  function Complete(s: Slot, agent: string, now: int): Slot {
    if s.current.None? || s.current.value.agent != agent then s
    else if s.queue == [] then s.(current := None)
    else Slot(Some(Holder(s.queue[0].agent, now)), s.queue[1..])
  }

  class BandwidthTestManager {
    var current: Option<Holder>
    var queue: seq<Holder>
    const cfg: Settings

    function State(): Slot
      reads this
    {
      Slot(current, queue)
    }

    constructor (cfg: Settings)
      ensures this.cfg == cfg && State() == Slot(None, []) && SlotOk(State(), 0)
    {
      this.cfg, current, queue := cfg, None, [];
    }

    method RetainYounger(cutoff: int)
      modifies this`queue
      ensures queue == Fresh(old(queue), cutoff)
    {
      hide Fresh;
      var kept: seq<Holder> := [];
      var i := 0;
      while i < |queue|
        invariant 0 <= i <= |queue| && queue == old(queue)
        invariant Fresh(queue, cutoff) == kept + Fresh(queue[i..], cutoff)
      {
        FreshOneMore(queue, i, cutoff);
        if queue[i].since > cutoff { kept := kept + [queue[i]]; }
        i := i + 1;
      }
      NobodyLeft(queue[i..], cutoff, "");
      queue := kept;
    }

    method RetainOthers(agent: string)
      modifies this`queue
      ensures queue == Without(old(queue), agent)
    {
      hide Without;
      var kept: seq<Holder> := [];
      var i := 0;
      while i < |queue|
        invariant 0 <= i <= |queue| && queue == old(queue)
        invariant Without(queue, agent) == kept + Without(queue[i..], agent)
      {
        WithoutOneMore(queue, i, agent);
        if queue[i].agent != agent { kept := kept + [queue[i]]; }
        i := i + 1;
      }
      NobodyLeft(queue[i..], 0, agent);
      queue := kept;
    }

    method CleanupExpiredTests(c: Clock)
      modifies this`current, this`queue
      ensures State() == Expire(old(State()), cfg, c)
      ensures current == if old(current).Some? && c.check - old(current).value.since > cfg.testTimeout * TICKS
                         then None else old(current)
      ensures forall x :: x in queue <==> x in old(queue) && x.since > c.cutoff - cfg.maxDelay * TICKS
      ensures OldestFirst(old(queue)) ==> exists k: nat ::
        SplitAt(old(queue), c.cutoff - cfg.maxDelay * TICKS, k) && queue == old(queue)[k..]
    {
      ghost var before := queue;
      FreshIs(before, c.cutoff - cfg.maxDelay * TICKS);
      if OldestFirst(before) {
        ghost var k := ExpiryDropsPrefix(before, c.cutoff - cfg.maxDelay * TICKS);
      }
      if current.Some? && c.check - current.value.since > cfg.testTimeout * TICKS {
        current := None;
      }
      RetainYounger(c.cutoff - cfg.maxDelay * TICKS);
    }

    method RequestTest(agent: string, c: Clock) returns (answer: Answer)
      requires SlotOk(State(), c.check) && Ordered(c)
      modifies this`current, this`queue
      ensures SlotOk(State(), c.stamp)
      ensures (State(), answer) == Request(old(State()), cfg, agent, c)
      ensures answer == Proceed <==> current.Some? && current.value.agent == agent
      // A holder in time keeps the slot; a free slot or an overdue holder's goes to the agent that asks.
      ensures current == if old(current).None? || c.check - old(current).value.since > cfg.testTimeout * TICKS
                         then Some(Holder(agent, c.stamp)) else old(current)
      // A waiting agent stays exactly as long as the maximum delay allows; the agent that has to wait goes last.
      ensures forall x | x in old(queue) && x.agent != agent :: x in queue <==> x.since > c.cutoff - cfg.maxDelay * TICKS
      ensures forall x | x in queue && x.agent != agent :: x in old(queue)
      ensures if answer == Proceed then forall x | x in queue :: x.agent != agent
              else queue != [] && queue[|queue| - 1] == Holder(agent, c.stamp)
      ensures answer.Delay? ==> |queue| > 0 && DelayIsAnswered(answer.seconds, |queue| - 1, cfg)
    {
      hide SlotOk, Fresh, Without, Expire, SuggestedDelay, DelayIsAnswered, OldestFirst, SplitAt, Waits;
      RequestKeepsSlot(State(), cfg, agent, c);
      RequestGrants(State(), cfg, agent, c);
      RequestServes(State(), cfg, agent, c);
      if Request(State(), cfg, agent, c).1.Delay? {
        DelayIsDocumented(State(), cfg, agent, c);
      }
      CleanupExpiredTests(c);
      if current.Some? && current.value.agent == agent {
        return Proceed;
      }
      RetainOthers(agent);
      if current.None? {
        current := Some(Holder(agent, c.stamp));
        answer := Proceed;
      } else {
        var delay := SuggestedDelay(State(), cfg);
        queue := queue + [Holder(agent, c.stamp)];
        answer := Delay(delay);
      }
    }

    method CompleteTest(agent: string, now: int)
      requires SlotOk(State(), now)
      modifies this`current, this`queue
      ensures SlotOk(State(), now)
      ensures State() == Complete(old(State()), agent, now)
      ensures old(current).Some? && old(current).value.agent == agent ==>
        if old(queue) == [] then current == None && queue == []
        else current == Some(Holder(old(queue)[0].agent, now)) && queue == old(queue)[1..]
      ensures !(old(current).Some? && old(current).value.agent == agent) ==> State() == old(State())
    {
      CompleteKeepsSlot(State(), agent, now, now);
      if current.Some? && current.value.agent == agent {
        current := None;
        if queue != [] {
          current, queue := Some(Holder(queue[0].agent, now)), queue[1..];
        }
      }
    }
  }

  lemma WithoutOneMore(queue: seq<Holder>, i: nat, agent: string)
    requires i < |queue|
    ensures Without(queue[i..], agent) ==
      (if queue[i].agent != agent then [queue[i]] else []) + Without(queue[i + 1..], agent)
  {
    assert queue[i..][1..] == queue[i + 1..];
  }

  lemma FreshOneMore(queue: seq<Holder>, i: nat, cutoff: int)
    requires i < |queue|
    ensures Fresh(queue[i..], cutoff) ==
      (if queue[i].since > cutoff then [queue[i]] else []) + Fresh(queue[i + 1..], cutoff)
  {
    assert queue[i..][1..] == queue[i + 1..];
  }

  lemma NobodyLeft(queue: seq<Holder>, cutoff: int, agent: string)
    requires queue == []
    ensures Fresh(queue, cutoff) == [] && Without(queue, agent) == []
  {
  }

  // ---------- the queue invariant ----------

  ghost predicate DistinctAgents(queue: seq<Holder>) {
    forall i, j :: 0 <= i < j < |queue| ==> queue[i].agent != queue[j].agent
  }

  ghost predicate OldestFirst(queue: seq<Holder>) {
    forall i, j :: 0 <= i < j < |queue| ==> queue[i].since <= queue[j].since
  }

  ghost predicate Waits(queue: seq<Holder>, agent: string) {
    exists i :: 0 <= i < |queue| && queue[i].agent == agent
  }

  /**
   Waiting agents are distinct and do not hold the slot, requests are in the order of their
   times, and nobody waits for a free slot. `now` is a bound on all readings so far.
   */
  ghost predicate SlotOk(s: Slot, now: int) {
    && DistinctAgents(s.queue)
    && OldestFirst(s.queue)
    && (forall i | 0 <= i < |s.queue| :: s.queue[i].since <= now)
    && (s.current.Some? ==> !Waits(s.queue, s.current.value.agent))
    && (s.current.None? ==> s.queue == [])
  }

  lemma {:induction false} YoungAreKept(queue: seq<Holder>, cutoff: int)
    requires forall i | 0 <= i < |queue| :: queue[i].since > cutoff
    ensures Fresh(queue, cutoff) == queue
  {
    if queue != [] {
      YoungAreKept(queue[1..], cutoff);
    }
  }

  /** The entries up to the cutoff are exactly the first `k`. */
  ghost predicate SplitAt(queue: seq<Holder>, cutoff: int, k: nat) {
    k <= |queue| && forall i | 0 <= i < |queue| :: queue[i].since <= cutoff <==> i < k
  }

  lemma TailIsOldestFirst(queue: seq<Holder>)
    requires OldestFirst(queue) && queue != []
    ensures OldestFirst(queue[1..])
  {
    var tail := queue[1..];
    forall i, j | 0 <= i < j < |tail|
      ensures tail[i].since <= tail[j].since
    {
      assert queue[i + 1].since <= queue[j + 1].since;
    }
  }

  /** Since requests are in the order of their times, expiry drops exactly a prefix. */
  lemma {:induction false} ExpiryDropsPrefix(queue: seq<Holder>, cutoff: int) returns (k: nat)
    requires OldestFirst(queue)
    ensures SplitAt(queue, cutoff, k) && Fresh(queue, cutoff) == queue[k..]
  {
    k := 0;
    if queue != [] {
      if queue[0].since > cutoff {
        forall i | 0 <= i < |queue|
          ensures queue[i].since > cutoff
        {
          assert queue[0].since <= queue[i].since;
        }
        YoungAreKept(queue, cutoff);
      } else {
        TailIsOldestFirst(queue);
        var rest := ExpiryDropsPrefix(queue[1..], cutoff);
        k := rest + 1;
        forall i | 0 <= i < |queue|
          ensures queue[i].since <= cutoff <==> i < k
        {
          if i > 0 { assert queue[1..][i - 1] == queue[i]; }
        }
        assert queue[1..][rest..] == queue[k..];
      }
    }
  }

  lemma {:induction false} FreshIs(queue: seq<Holder>, cutoff: int)
    ensures forall x :: x in Fresh(queue, cutoff) <==> x in queue && x.since > cutoff
  {
    if queue != [] {
      FreshIs(queue[1..], cutoff);
      assert queue == [queue[0]] + queue[1..];
    }
  }

  lemma {:induction false} WithoutIsSubset(queue: seq<Holder>, agent: string)
    ensures forall x | x in Without(queue, agent) :: x in queue && x.agent != agent
  {
    if queue != [] {
      WithoutIsSubset(queue[1..], agent);
      assert forall x | x in queue[1..] :: x in queue;
    }
  }

  lemma {:induction false} WithoutKeepsOthers(queue: seq<Holder>, agent: string, x: Holder)
    requires x in queue && x.agent != agent
    ensures x in Without(queue, agent)
  {
    if x != queue[0] {
      WithoutKeepsOthers(queue[1..], agent, x);
    }
  }

  lemma {:induction false} WithoutIsOldestFirst(queue: seq<Holder>, agent: string)
    requires OldestFirst(queue)
    ensures OldestFirst(Without(queue, agent))
  {
    if queue != [] {
      var rest := Without(queue[1..], agent);
      TailIsOldestFirst(queue);
      WithoutIsOldestFirst(queue[1..], agent);
      WithoutIsSubset(queue[1..], agent);
      forall i | 0 <= i < |rest|
        ensures queue[0].since <= rest[i].since
      {
        assert rest[i] in queue[1..];
        var n :| 0 <= n < |queue[1..]| && queue[1..][n] == rest[i];
        assert queue[0].since <= queue[n + 1].since;
      }
    }
  }

  lemma {:induction false} WithoutIsDistinct(queue: seq<Holder>, agent: string)
    requires DistinctAgents(queue)
    ensures DistinctAgents(Without(queue, agent))
  {
    if queue != [] {
      var rest := Without(queue[1..], agent);
      forall i, j | 0 <= i < j < |queue[1..]|
        ensures queue[1..][i].agent != queue[1..][j].agent
      {
        assert queue[i + 1].agent != queue[j + 1].agent;
      }
      WithoutIsDistinct(queue[1..], agent);
      WithoutIsSubset(queue[1..], agent);
      forall i | 0 <= i < |rest|
        ensures queue[0].agent != rest[i].agent
      {
        assert rest[i] in queue[1..];
        var n :| 0 <= n < |queue[1..]| && queue[1..][n] == rest[i];
        assert queue[0].agent != queue[n + 1].agent;
      }
    }
  }

  /** Removing an agent keeps everybody else, in order. */
  lemma WithoutKeepsOrder(queue: seq<Holder>, agent: string)
    requires DistinctAgents(queue) && OldestFirst(queue)
    ensures var q := Without(queue, agent);
      && DistinctAgents(q) && OldestFirst(q) && !Waits(q, agent)
      && (forall x :: x in q <==> x in queue && x.agent != agent)
  {
    WithoutIsDistinct(queue, agent);
    WithoutIsOldestFirst(queue, agent);
    WithoutIsSubset(queue, agent);
    var q := Without(queue, agent);
    forall x | x in queue && x.agent != agent
      ensures x in q
    {
      WithoutKeepsOthers(queue, agent, x);
    }
    forall i | 0 <= i < |q|
      ensures q[i].agent != agent
    {
      assert q[i] in q;
    }
  }

  lemma ExpireKeepsQueue(s: Slot, cfg: Settings, c: Clock, now: int)
    requires SlotOk(s, now)
    ensures var e := Expire(s, cfg, c);
      && DistinctAgents(e.queue) && OldestFirst(e.queue)
      && (forall i | 0 <= i < |e.queue| :: e.queue[i].since <= now)
      && (e.current.Some? ==> !Waits(e.queue, e.current.value.agent))
      && (forall x | x in e.queue :: x in s.queue)
  {
    var k := ExpiryDropsPrefix(s.queue, c.cutoff - cfg.maxDelay * TICKS);
    var e := Expire(s, cfg, c);
    assert forall i | 0 <= i < |e.queue| :: e.queue[i] == s.queue[i + k];
  }

  lemma AppendKeepsQueue(queue: seq<Holder>, x: Holder)
    requires DistinctAgents(queue) && OldestFirst(queue) && !Waits(queue, x.agent)
    requires forall y | y in queue :: y.since <= x.since
    ensures DistinctAgents(queue + [x]) && OldestFirst(queue + [x])
  {
  }

  lemma RequestKeepsSlot(s: Slot, cfg: Settings, agent: string, c: Clock)
    requires SlotOk(s, c.check) && Ordered(c)
    ensures SlotOk(Request(s, cfg, agent, c).0, c.stamp)
    ensures Request(s, cfg, agent, c).0.current.Some?
  {
    var e := Expire(s, cfg, c);
    ExpireKeepsQueue(s, cfg, c, c.check);
    if !(e.current.Some? && e.current.value.agent == agent) {
      WithoutKeepsOrder(e.queue, agent);
      var q := Without(e.queue, agent);
      forall x | x in q
        ensures x.since <= c.stamp
      {
        assert x in e.queue;
      }
      forall i | 0 <= i < |q|
        ensures q[i] in q && q[i].since <= c.stamp
      {
      }
      if e.current.Some? {
        AppendKeepsQueue(q, Holder(agent, c.stamp));
        forall i | 0 <= i < |q|
          ensures q[i].agent != e.current.value.agent
        {
          assert q[i] in e.queue;
        }
      }
    }
  }

  lemma CompleteKeepsSlot(s: Slot, agent: string, now: int, later: int)
    requires SlotOk(s, now) && now <= later
    ensures SlotOk(Complete(s, agent, later), later)
  {
    if s.current.Some? && s.current.value.agent == agent && s.queue != [] {
      var rest := s.queue[1..];
      assert forall i | 0 <= i < |rest| :: rest[i] == s.queue[i + 1];
    }
  }

  // ---------- who gets the slot ----------

  /**
   Proceed is answered exactly to the agent that holds the slot afterwards: one that already
   held it in time, or one that finds the slot free or its holder timed out.
   */
  lemma RequestGrants(s: Slot, cfg: Settings, agent: string, c: Clock)
    ensures var (s', answer) := Request(s, cfg, agent, c);
      && (answer == Proceed <==> s'.current.Some? && s'.current.value.agent == agent)
      && (answer == Proceed <==> s.current.None? || TimedOut(s, cfg, c.check) || s.current.value.agent == agent)
  {
  }

  /** What a request does, entry by entry, without reference to how it is computed. */
  lemma RequestServes(s: Slot, cfg: Settings, agent: string, c: Clock)
    requires SlotOk(s, c.check) && Ordered(c)
    ensures var (s', answer) := Request(s, cfg, agent, c);
      && s'.current == (if s.current.None? || c.check - s.current.value.since > cfg.testTimeout * TICKS then Some(Holder(agent, c.stamp)) else s.current)
      && (forall x | x in s.queue && x.agent != agent :: x in s'.queue <==> x.since > c.cutoff - cfg.maxDelay * TICKS)
      && (forall x | x in s'.queue && x.agent != agent :: x in s.queue)
      && (if answer == Proceed then forall x | x in s'.queue :: x.agent != agent
          else s'.queue != [] && s'.queue[|s'.queue| - 1] == Holder(agent, c.stamp))
  {
    hide SlotOk, Fresh, Without, SuggestedDelay, DistinctAgents, OldestFirst;
    var e := Expire(s, cfg, c);
    FreshIs(s.queue, c.cutoff - cfg.maxDelay * TICKS);
    ExpireKeepsQueue(s, cfg, c, c.check);
    WithoutKeepsOrder(e.queue, agent);
    if e.current.Some? && e.current.value.agent == agent {
      forall x | x in e.queue ensures x.agent != agent {}
    }
  }

  /** The documentation says the first queued agent starts after a timeout; the code gives the slot to whoever asks. */
  lemma TimeoutServesRequester(s: Slot, cfg: Settings, agent: string, c: Clock)
    requires SlotOk(s, c.check) && Ordered(c) && TimedOut(s, cfg, c.check)
    ensures Request(s, cfg, agent, c).0.current == Some(Holder(agent, c.stamp))
    ensures var waiting := Fresh(s.queue, c.cutoff - cfg.maxDelay * TICKS);
      waiting != [] ==>
        (Request(s, cfg, agent, c).0.current.value.agent == waiting[0].agent <==> agent == waiting[0].agent)
  {
  }

  lemma QueueJumpAfterTimeout()
    ensures var s := Slot(Some(Holder("a", 0)), [Holder("b", 1)]);
      var cfg := Settings(1, 300, 30, 60, 30);
      var now := 2 * TICKS;
      && SlotOk(s, now)
      && Request(s, cfg, "c", Clock(now, now, now)) == (Slot(Some(Holder("c", now)), [Holder("b", 1)]), Proceed)
  {
    var s := Slot(Some(Holder("a", 0)), [Holder("b", 1)]);
    var now := 2 * TICKS;
    assert Fresh(s.queue[1..], now - 300 * TICKS) == [] && Without(s.queue[1..], "c") == [];
    assert Fresh(s.queue, now - 300 * TICKS) == s.queue && Without(s.queue, "c") == s.queue;
  }

  /** Completion hands the slot to the longest-waiting agent; from anybody else it changes nothing. */
  lemma CompletionHandsOver(s: Slot, agent: string, now: int, clock: int)
    requires SlotOk(s, clock)
    ensures var s' := Complete(s, agent, now);
      s.current.Some? && s.current.value.agent == agent ==>
        && (s.queue == [] ==> s' == Slot(None, []))
        && (s.queue != [] ==>
              && s' == Slot(Some(Holder(s.queue[0].agent, now)), s.queue[1..])
              && forall i | 0 <= i < |s.queue| :: s.queue[0].since <= s.queue[i].since)
    ensures !(s.current.Some? && s.current.value.agent == agent) ==> Complete(s, agent, now) == s
  {
  }

  // ---------- runs ----------

  datatype Event =
    | Asks(agent: string, clock: Clock)
    | Completes(agent: string, now: int)
    // a download checks the slot under one lock and completes the test under another
    | DownloadStarts(agent: string)
    | DownloadEnds(agent: string, now: int)
    // the data is streamed only after that
    | StreamEnds(agent: string)

  /** `downloads` passed the check and did not complete yet; `streams` are sending their data. */
  datatype Server = Server(slot: Slot, downloads: multiset<string>, streams: multiset<string>, now: int)

  predicate CanHappen(v: Server, e: Event) {
    match e
    case Asks(_, c) => v.now <= c.check && Ordered(c)
    case Completes(_, t) => v.now <= t
    case DownloadStarts(a) => v.slot.current.Some? && v.slot.current.value.agent == a
    case DownloadEnds(a, t) => v.now <= t && a in v.downloads
    case StreamEnds(a) => a in v.streams
  }

  function Next(v: Server, cfg: Settings, e: Event): Server {
    match e
    case Asks(a, c) => v.(slot := Request(v.slot, cfg, a, c).0, now := c.stamp)
    case Completes(a, t) => v.(slot := Complete(v.slot, a, t), now := t)
    case DownloadStarts(a) => v.(downloads := v.downloads + multiset{a})
    case DownloadEnds(a, t) =>
      v.(slot := Complete(v.slot, a, t), downloads := v.downloads - multiset{a}, streams := v.streams + multiset{a}, now := t)
    case StreamEnds(a) => v.(streams := v.streams - multiset{a})
  }

  predicate CanRun(v: Server, cfg: Settings, run: seq<Event>)
    decreases |run|
  {
    run == [] || (CanHappen(v, run[0]) && CanRun(Next(v, cfg, run[0]), cfg, run[1..]))
  }

  function Execute(v: Server, cfg: Settings, run: seq<Event>): Server
    decreases |run|
  {
    if run == [] then v else Execute(Next(v, cfg, run[0]), cfg, run[1..])
  }

  lemma StepKeepsSlot(v: Server, cfg: Settings, e: Event)
    requires SlotOk(v.slot, v.now) && CanHappen(v, e)
    ensures SlotOk(Next(v, cfg, e).slot, Next(v, cfg, e).now)
  {
    match e
    case Asks(a, c) => RequestKeepsSlot(v.slot, cfg, a, c);
    case Completes(a, t) => CompleteKeepsSlot(v.slot, a, v.now, t);
    case DownloadStarts(_) =>
    case StreamEnds(_) =>
    case DownloadEnds(a, t) => CompleteKeepsSlot(v.slot, a, v.now, t);
  }

  lemma {:induction false} RunKeepsSlot(v: Server, cfg: Settings, run: seq<Event>)
    requires SlotOk(v.slot, v.now) && CanRun(v, cfg, run)
    ensures SlotOk(Execute(v, cfg, run).slot, Execute(v, cfg, run).now)
    decreases |run|
  {
    if run != [] {
      StepKeepsSlot(v, cfg, run[0]);
      RunKeepsSlot(Next(v, cfg, run[0]), cfg, run[1..]);
    }
  }

  /** The only events that may take the slot from `h`: its own completion, or a request after its time is up. */
  predicate MayRelease(e: Event, h: Holder, cfg: Settings) {
    match e
    case Asks(_, c) => c.check - h.since > cfg.testTimeout * TICKS
    case Completes(a, _) => a == h.agent
    case DownloadStarts(_) => false
    case StreamEnds(_) => false
    case DownloadEnds(a, _) => a == h.agent
  }

  /**
   Slot exclusivity over every interleaving: as long as no such event happens, `h` keeps the
   slot, whoever asks, completes or finishes a late download in the meantime.
   */
  lemma {:induction false} SlotIsExclusive(v: Server, cfg: Settings, h: Holder, run: seq<Event>)
    requires v.slot.current == Some(h) && CanRun(v, cfg, run)
    requires forall e | e in run :: !MayRelease(e, h, cfg)
    ensures Execute(v, cfg, run).slot.current == Some(h)
    decreases |run|
  {
    if run != [] {
      assert run[0] in run;
      SlotIsExclusive(Next(v, cfg, run[0]), cfg, h, run[1..]);
    }
  }

  /** If the slot is no longer held by `h`, some event of the run was entitled to take it. */
  lemma LostSlotWasReleased(v: Server, cfg: Settings, h: Holder, run: seq<Event>)
    requires v.slot.current == Some(h) && CanRun(v, cfg, run)
    requires Execute(v, cfg, run).slot.current != Some(h)
    ensures exists e :: e in run && MayRelease(e, h, cfg)
  {
    if forall e | e in run :: !MayRelease(e, h, cfg) {
      SlotIsExclusive(v, cfg, h, run);
    }
  }

  // ---------- streaming ----------

  ghost predicate NeverTwoStreams(v: Server, cfg: Settings, run: seq<Event>)
    decreases |run|
  {
    |v.streams| <= 1 && (run != [] ==> NeverTwoStreams(Next(v, cfg, run[0]), cfg, run[1..]))
  }

  /** No download completes while another one is still streaming. */
  ghost predicate EachStreamsAlone(v: Server, cfg: Settings, run: seq<Event>)
    decreases |run|
  {
    run != [] ==>
      (run[0].DownloadEnds? ==> v.streams == multiset{}) && EachStreamsAlone(Next(v, cfg, run[0]), cfg, run[1..])
  }

  lemma StepStreams(v: Server, cfg: Settings, e: Event)
    requires |v.streams| <= 1 && CanHappen(v, e)
    ensures |Next(v, cfg, e).streams| <= 1 <==> (e.DownloadEnds? ==> v.streams == multiset{})
  {
    hide Request, Complete;
    if e.DownloadEnds? {
      assert |v.streams + multiset{e.agent}| == |v.streams| + 1;
    }
    if e.StreamEnds? {
      assert |v.streams - multiset{e.agent}| == |v.streams| - 1;
    }
  }

  /**
   Only one agent streams at a time if and only if no download completes during another one's
   stream. The slot does not see to that: it is free again before the stream starts.
   */
  lemma {:induction false} OneStreamIff(v: Server, cfg: Settings, run: seq<Event>)
    requires |v.streams| <= 1 && CanRun(v, cfg, run)
    ensures NeverTwoStreams(v, cfg, run) <==> EachStreamsAlone(v, cfg, run)
    decreases |run|
  {
    hide Next, CanHappen;
    if run != [] {
      StepStreams(v, cfg, run[0]);
      if |Next(v, cfg, run[0]).streams| <= 1 {
        OneStreamIff(Next(v, cfg, run[0]), cfg, run[1..]);
      }
    }
  }

  /** One download, from an empty queue: asked, granted, checked and completed, and now streaming. */
  function OneDownload(agent: string, now: int): seq<Event> {
    [Asks(agent, Clock(now, now, now)), DownloadStarts(agent), DownloadEnds(agent, now)]
  }

  lemma FirstThen(v: Server, cfg: Settings, e: Event, rest: seq<Event>)
    requires CanHappen(v, e) && CanRun(Next(v, cfg, e), cfg, rest)
    ensures CanRun(v, cfg, [e] + rest) && Execute(v, cfg, [e] + rest) == Execute(Next(v, cfg, e), cfg, rest)
  {
    hide Next, CanHappen;
    assert ([e] + rest)[1..] == rest;
  }

  lemma GrantedAtOnce(s: Slot, cfg: Settings, agent: string, now: int)
    requires s == Slot(None, [])
    ensures Request(s, cfg, agent, Clock(now, now, now)) == (Slot(Some(Holder(agent, now)), []), Proceed)
  {
  }

  lemma DownloadFreesSlot(v: Server, cfg: Settings, agent: string, now: int)
    requires v.slot == Slot(None, []) && v.now <= now
    ensures CanRun(v, cfg, OneDownload(agent, now))
    ensures Request(v.slot, cfg, agent, Clock(now, now, now)).1 == Proceed
    ensures Execute(v, cfg, OneDownload(agent, now)) == v.(streams := v.streams + multiset{agent}, now := now)
  {
    hide CanRun, Execute, Request;
    var e1, e2, e3 := Asks(agent, Clock(now, now, now)), DownloadStarts(agent), DownloadEnds(agent, now);
    GrantedAtOnce(v.slot, cfg, agent, now);
    var v1 := Next(v, cfg, e1);
    var v2 := Next(v1, cfg, e2);
    var v3 := Next(v2, cfg, e3);
    assert v2.downloads - multiset{agent} == v.downloads;
    NothingMore(v3, cfg);
    FirstThen(v2, cfg, e3, []);
    FirstThen(v1, cfg, e2, [e3] + []);
    FirstThen(v, cfg, e1, [e2] + ([e3] + []));
    assert [e1] + ([e2] + ([e3] + [])) == OneDownload(agent, now);
  }

  lemma NothingMore(v: Server, cfg: Settings)
    ensures CanRun(v, cfg, []) && Execute(v, cfg, []) == v
  {
  }

  lemma {:induction false} RunOn(v: Server, cfg: Settings, run: seq<Event>, more: seq<Event>)
    requires CanRun(v, cfg, run) && CanRun(Execute(v, cfg, run), cfg, more)
    ensures CanRun(v, cfg, run + more) && Execute(v, cfg, run + more) == Execute(Execute(v, cfg, run), cfg, more)
    decreases |run|
  {
    hide Next, CanHappen;
    if run == [] {
      assert run + more == more;
    } else {
      assert (run + more)[1..] == run[1..] + more;
      RunOn(Next(v, cfg, run[0]), cfg, run[1..], more);
    }
  }

  /** Two agents, each granted the slot, stream at once. */
  lemma TwoAgentsStream(cfg: Settings, a: string, b: string, now: int, later: int)
    requires a != b && now <= later
    ensures var v := Server(Slot(None, []), multiset{}, multiset{}, now);
      var run := OneDownload(a, now) + OneDownload(b, later);
      CanRun(v, cfg, run) && Execute(v, cfg, run).streams == multiset{a, b}
  {
    hide CanRun, Execute, OneDownload;
    var v := Server(Slot(None, []), multiset{}, multiset{}, now);
    DownloadFreesSlot(v, cfg, a, now);
    DownloadFreesSlot(Execute(v, cfg, OneDownload(a, now)), cfg, b, later);
    RunOn(v, cfg, OneDownload(a, now), OneDownload(b, later));
  }

  // ---------- waiting order ----------

  ghost predicate Precedes(queue: seq<Holder>, a: string, b: string) {
    forall i, j | 0 <= i < |queue| && 0 <= j < |queue| :: queue[i].agent == a && queue[j].agent == b ==> i < j
  }

  lemma {:induction false} WithoutKeepsPrecedence(queue: seq<Holder>, agent: string, a: string, b: string)
    requires Precedes(queue, a, b)
    ensures Precedes(Without(queue, agent), a, b)
  {
    if queue != [] {
      var tail := queue[1..];
      assert forall i | 0 <= i < |tail| :: tail[i] == queue[i + 1];
      WithoutKeepsPrecedence(tail, agent, a, b);
      var rest := Without(tail, agent);
      WithoutIsSubset(tail, agent);
      forall k | 0 <= k < |rest|
        ensures !(rest[k].agent == a && queue[0].agent == b)
      {
        assert rest[k] in tail;
        var n :| 0 <= n < |tail| && tail[n] == rest[k];
        assert queue[n + 1] == rest[k];
      }
    }
  }

  lemma TailKeepsPrecedence(queue: seq<Holder>, k: nat, a: string, b: string)
    requires Precedes(queue, a, b) && k <= |queue|
    ensures Precedes(queue[k..], a, b)
  {
    var q := queue[k..];
    forall i, j | 0 <= i < |q| && 0 <= j < |q| && q[i].agent == a && q[j].agent == b
      ensures i < j
    {
      assert queue[i + k].agent == a && queue[j + k].agent == b;
    }
  }

  lemma RequestKeepsPrecedence(s: Slot, cfg: Settings, agent: string, c: Clock, a: string, b: string)
    requires OldestFirst(s.queue) && Precedes(s.queue, a, b) && agent != a
    ensures Precedes(Request(s, cfg, agent, c).0.queue, a, b)
  {
    hide Precedes, Fresh, Without, OldestFirst;
    var k := ExpiryDropsPrefix(s.queue, c.cutoff - cfg.maxDelay * TICKS);
    var q := Expire(s, cfg, c).queue;
    TailKeepsPrecedence(s.queue, k, a, b);
    WithoutKeepsPrecedence(q, agent, a, b);
    AppendKeepsPrecedence(Without(q, agent), Holder(agent, c.stamp), a, b);
  }

  lemma CompletionKeepsPrecedence(s: Slot, agent: string, now: int, a: string, b: string)
    requires Precedes(s.queue, a, b)
    ensures Precedes(Complete(s, agent, now).queue, a, b)
  {
    if s.queue != [] {
      TailKeepsPrecedence(s.queue, 1, a, b);
    }
  }

  lemma StepKeepsPrecedence(v: Server, cfg: Settings, e: Event, a: string, b: string)
    requires SlotOk(v.slot, v.now) && CanHappen(v, e)
    requires Precedes(v.slot.queue, a, b) && !(e.Asks? && e.agent == a)
    ensures Precedes(Next(v, cfg, e).slot.queue, a, b)
  {
    hide Precedes, Request, Complete;
    match e
    case Asks(x, c) => RequestKeepsPrecedence(v.slot, cfg, x, c, a, b);
    case Completes(x, t) => CompletionKeepsPrecedence(v.slot, x, t, a, b);
    case DownloadStarts(_) =>
    case StreamEnds(_) =>
    case DownloadEnds(x, t) => CompletionKeepsPrecedence(v.slot, x, t, a, b);
  }

  lemma AppendKeepsPrecedence(queue: seq<Holder>, x: Holder, a: string, b: string)
    requires Precedes(queue, a, b) && x.agent != a
    ensures Precedes(queue + [x], a, b)
  {
  }

  /** Two waiting agents keep their order in every run in which the first one does not ask again. */
  lemma {:induction false} WaitingOrderIsKept(v: Server, cfg: Settings, a: string, b: string, run: seq<Event>)
    requires SlotOk(v.slot, v.now) && CanRun(v, cfg, run) && a != b && Precedes(v.slot.queue, a, b)
    requires forall e | e in run :: !(e.Asks? && e.agent == a)
    ensures Precedes(Execute(v, cfg, run).slot.queue, a, b)
    decreases |run|
  {
    if run != [] {
      assert run[0] in run;
      StepKeepsSlot(v, cfg, run[0]);
      StepKeepsPrecedence(v, cfg, run[0], a, b);
      WaitingOrderIsKept(Next(v, cfg, run[0]), cfg, a, b, run[1..]);
    }
  }

  /** An agent that asks again while it waits goes to the end of the queue. */
  lemma AskingAgainMovesToTail(s: Slot, cfg: Settings, agent: string, c: Clock)
    requires SlotOk(s, c.check) && Ordered(c) && Request(s, cfg, agent, c).1.Delay?
    ensures var q := Request(s, cfg, agent, c).0.queue;
      && q != [] && q[|q| - 1] == Holder(agent, c.stamp)
      && forall other: string | other != agent && Waits(q, other) :: Precedes(q, other, agent)
  {
    var e := Expire(s, cfg, c);
    var rest := Without(e.queue, agent);
    WithoutIsSubset(e.queue, agent);
    forall i | 0 <= i < |rest|
      ensures rest[i].agent != agent
    {
      assert rest[i] in rest;
    }
  }

  // ---------- the suggested delay ----------

  function IdealDelay(waiting: nat, cfg: Settings): nat {
    var total := cfg.currentTestDelay + waiting * cfg.positionMultiplier;
    if total < cfg.maxDelay then total else cfg.maxDelay
  }

  ghost predicate FitsU32(waiting: nat, cfg: Settings) {
    cfg.currentTestDelay + waiting * cfg.positionMultiplier < 0x1_0000_0000
  }

  lemma AddMultiple(x: int, k: int)
    ensures (x + k * 0x1_0000_0000) % 0x1_0000_0000 == x % 0x1_0000_0000
  {
  }

  /** Truncating the operands first does not change the truncated product. */
  lemma ProductMod(a: nat, b: nat)
    ensures AsU32(AsU32(a) * AsU32(b)) == AsU32(a * b)
  {
    var (q, r) := (a / 0x1_0000_0000, AsU32(a));
    var (p, t) := (b / 0x1_0000_0000, AsU32(b));
    assert a * b == (q * 0x1_0000_0000 + r) * b == q * b * 0x1_0000_0000 + r * b;
    assert r * b == r * (p * 0x1_0000_0000 + t) == r * p * 0x1_0000_0000 + r * t;
    AddMultiple(r * t, q * b + r * p);
  }

  /** All the truncations together are one truncation of the documented sum, and one of the maximum. */
  lemma DelayIsTruncatedSum(s: Slot, cfg: Settings)
    requires s.current.Some?
    ensures var sum := AsU32(cfg.currentTestDelay + |s.queue| * cfg.positionMultiplier);
      SuggestedDelay(s, cfg) == if sum < AsU32(cfg.maxDelay) then sum else AsU32(cfg.maxDelay)
  {
    var product := |s.queue| * cfg.positionMultiplier;
    ProductMod(|s.queue|, cfg.positionMultiplier);
    var k := cfg.currentTestDelay / 0x1_0000_0000 + product / 0x1_0000_0000;
    AddMultiple(AsU32(cfg.currentTestDelay) + AsU32(product), k);
  }

  /** The smaller of the two fits u32, and truncation does not push the other below it. */
  predicate TruncationIsHarmless(sum: nat, maxDelay: nat) {
    if sum <= maxDelay then sum < 0x1_0000_0000 && AsU32(maxDelay) >= sum
    else maxDelay < 0x1_0000_0000 && AsU32(sum) >= maxDelay
  }

  /** At most the maximum delay, and the documented formula exactly when truncation to u32 is harmless. */
  predicate DelayIsAnswered(seconds: int, waiting: nat, cfg: Settings) {
    var sum := cfg.currentTestDelay + waiting * cfg.positionMultiplier;
    && 0 <= seconds <= cfg.maxDelay
    && (seconds == (if sum < cfg.maxDelay then sum else cfg.maxDelay) <==> TruncationIsHarmless(sum, cfg.maxDelay))
  }

  lemma TruncatedMinimum(sum: nat, maxDelay: nat)
    ensures var seconds := if AsU32(sum) < AsU32(maxDelay) then AsU32(sum) else AsU32(maxDelay);
      && seconds <= maxDelay
      && (seconds == (if sum < maxDelay then sum else maxDelay) <==> TruncationIsHarmless(sum, maxDelay))
      && (sum < 0x1_0000_0000 && maxDelay < 0x1_0000_0000 ==> TruncationIsHarmless(sum, maxDelay))
  {
  }

  /**
   A Delay answer never uses the base delay and never exceeds the maximum; it is the documented
   formula exactly when truncation to u32 is harmless, as it is whenever both sides fit.
   */
  lemma DelayIsDocumented(s: Slot, cfg: Settings, agent: string, c: Clock)
    requires SlotOk(s, c.check) && Ordered(c) && Request(s, cfg, agent, c).1.Delay?
    ensures var waiting := |Request(s, cfg, agent, c).0.queue| - 1;
      var seconds := Request(s, cfg, agent, c).1.seconds;
      && waiting >= 0 && DelayIsAnswered(seconds, waiting, cfg)
      && (FitsU32(waiting, cfg) && cfg.maxDelay < 0x1_0000_0000 ==> seconds == IdealDelay(waiting, cfg))
  {
    var rest := Expire(s, cfg, c).(queue := Without(Expire(s, cfg, c).queue, agent));
    hide AsU32, SuggestedDelay, Without, Expire, TruncationIsHarmless;
    DelayIsTruncatedSum(rest, cfg);
    TruncatedMinimum(cfg.currentTestDelay + |rest.queue| * cfg.positionMultiplier, cfg.maxDelay);
  }

  lemma IdealDelayIsMonotone(shorter: nat, longer: nat, cfg: Settings)
    requires shorter <= longer
    ensures IdealDelay(shorter, cfg) <= IdealDelay(longer, cfg) <= cfg.maxDelay
  {
    assert shorter * cfg.positionMultiplier <= longer * cfg.positionMultiplier;
  }

  /** As long as the sum fits u32, a longer queue never gets a shorter delay. */
  lemma DelayIsMonotone(shorter: Slot, longer: Slot, cfg: Settings)
    requires shorter.current.Some? && longer.current.Some? && |shorter.queue| <= |longer.queue|
    requires FitsU32(|longer.queue|, cfg)
    ensures SuggestedDelay(shorter, cfg) <= SuggestedDelay(longer, cfg) <= cfg.maxDelay
  {
    hide SuggestedDelay;
    DelayIsTruncatedSum(shorter, cfg);
    DelayIsTruncatedSum(longer, cfg);
    assert |shorter.queue| * cfg.positionMultiplier <= |longer.queue| * cfg.positionMultiplier;
  }

  /** Beyond u32 the sum wraps: a longer queue can be told to come back at once. */
  lemma WrappedDelayShrinks()
    ensures var cfg := Settings(120, 300, 30, 60, 0x8000_0000);
      var one := Slot(Some(Holder("a", 0)), [Holder("b", 0)]);
      var two := Slot(Some(Holder("a", 0)), [Holder("b", 0), Holder("c", 0)]);
      !FitsU32(2, cfg) && SuggestedDelay(one, cfg) == 300 && SuggestedDelay(two, cfg) == 60
  {
  }
}
