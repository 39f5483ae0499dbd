/**
 The server's per-agent sliding-window rate limiter. Times are clock readings; a run is the
 sequence of calls in the order in which they take the lock.
 */
module RateLimiter {

  type Limits = map<string, seq<int>>

  /** `duration_since`, which saturates at zero. */
  function Elapsed(now: int, time: int): int {
    if now < time then 0 else now - time
  }

  /** The timestamps still inside the window. */
  function Recent(times: seq<int>, now: int, window: int): seq<int> {
    if times == [] then []
    else (if Elapsed(now, times[0]) < window then [times[0]] else []) + Recent(times[1..], now, window)
  }

  function Tracked(limits: Limits, agent: string): seq<int> {
    if agent in limits then limits[agent] else []
  }

  predicate Allows(limits: Limits, window: int, max: nat, agent: string, now: int) {
    |Recent(Tracked(limits, agent), now, window)| < max
  }

  function AfterCheck(limits: Limits, window: int, max: nat, agent: string, now: int): Limits {
    var kept := Recent(Tracked(limits, agent), now, window);
    limits[agent := if |kept| < max then kept + [now] else kept]
  }

  function AfterCleanup(limits: Limits, window: int, now: int): Limits {
    map a | a in limits && Recent(limits[a], now, window) != [] :: Recent(limits[a], now, window)
  }

  lemma NoneRecent(now: int, window: int)
    ensures Recent([], now, window) == []
  {
  }

  lemma RecentOneMore(times: seq<int>, i: nat, now: int, window: int)
    requires i < |times|
    ensures Recent(times[i..], now, window) ==
      (if Elapsed(now, times[i]) < window then [times[i]] else []) + Recent(times[i + 1..], now, window)
  {
    assert times[i..][1..] == times[i + 1..];
  }

  /** `kept` are the requests younger than the window, as often as they were made. */
  ghost predicate KeepsWindow(times: seq<int>, kept: seq<int>, now: int, window: int) {
    forall t :: multiset(kept)[t] == if window > 0 && now - t < window then multiset(times)[t] else 0
  }

  lemma {:induction false} RecentKeepsWindow(times: seq<int>, now: int, window: int)
    ensures KeepsWindow(times, Recent(times, now, window), now, window)
  {
    if times != [] {
      RecentKeepsWindow(times[1..], now, window);
      assert times == [times[0]] + times[1..];
    }
  }

  lemma RecentIsNotEmpty(times: seq<int>, now: int, window: int)
    ensures Recent(times, now, window) != [] <==> exists i :: 0 <= i < |times| && window > 0 && now - times[i] < window
  {
    hide Recent;
    var kept := Recent(times, now, window);
    RecentKeepsWindow(times, now, window);
    if kept != [] {
      var t := kept[0];
      assert multiset(kept)[t] > 0;
      assert multiset(kept)[t] == if window > 0 && now - t < window then multiset(times)[t] else 0;
      assert t in times;
    }
    forall i | 0 <= i < |times| && window > 0 && now - times[i] < window
      ensures kept != []
    {
      assert times[i] in multiset(times);
      assert multiset(kept)[times[i]] > 0;
    }
  }

  lemma CleanupKeepsWindow(before: Limits, window: int, now: int)
    ensures forall a | a in AfterCleanup(before, window, now) ::
      a in before && KeepsWindow(before[a], AfterCleanup(before, window, now)[a], now, window)
    ensures forall a | a in before :: a in AfterCleanup(before, window, now) <==>
      exists i :: 0 <= i < |before[a]| && window > 0 && now - before[a][i] < window
  {
    hide Recent, KeepsWindow;
    forall a | a in before
      ensures KeepsWindow(before[a], Recent(before[a], now, window), now, window)
      ensures Recent(before[a], now, window) != [] <==>
        exists i :: 0 <= i < |before[a]| && window > 0 && now - before[a][i] < window
    {
      RecentKeepsWindow(before[a], now, window);
      RecentIsNotEmpty(before[a], now, window);
    }
  }

  class AgentRateLimiter {
    var limits: Limits
    const window: int
    const maxRequests: nat

    constructor (window: int, maxRequests: nat)
      ensures this.window == window && this.maxRequests == maxRequests && limits == map[]
    {
      this.window, this.maxRequests, limits := window, maxRequests, map[];
    }

    /** `Vec::retain` with the window test. */
    method Retain(times: seq<int>, now: int) returns (kept: seq<int>)
      ensures kept == Recent(times, now, window)
    {
      hide Recent;
      kept := [];
      var i := 0;
      NoneRecent(now, window);
      while i < |times|
        invariant 0 <= i <= |times|
        invariant Recent(times, now, window) == kept + Recent(times[i..], now, window)
      {
        RecentOneMore(times, i, now, window);
        if Elapsed(now, times[i]) < window {
          kept := kept + [times[i]];
        }
        i := i + 1;
      }
      assert times[i..] == [];
    }

    method CheckRateLimit(agent: string, now: int) returns (allowed: bool)
      modifies this`limits
      ensures allowed <==> Allows(old(limits), window, maxRequests, agent, now)
      ensures limits == AfterCheck(old(limits), window, maxRequests, agent, now)
      // No other list changes; the agent's own keeps what is inside the window and gets the accepted request.
      ensures limits.Keys == old(limits).Keys + {agent}
      ensures forall a | a in old(limits) && a != agent :: limits[a] == old(limits)[a]
      ensures allowed ==> limits[agent] != [] && limits[agent][|limits[agent]| - 1] == now
      ensures var kept := if allowed then limits[agent][..|limits[agent]| - 1] else limits[agent];
        KeepsWindow(if agent in old(limits) then old(limits)[agent] else [], kept, now, window)
          && (allowed <==> |kept| < maxRequests)
    {
      RecentKeepsWindow(Tracked(limits, agent), now, window);
      var requests := if agent in limits then limits[agent] else [];
      requests := Retain(requests, now);
      if |requests| >= maxRequests {
        limits := limits[agent := requests];
        return false;
      }
      requests := requests + [now];
      limits := limits[agent := requests];
      allowed := true;
    }

    method CleanupStaleEntries(now: int)
      modifies this`limits
      ensures limits == AfterCleanup(old(limits), window, now)
      // An agent stays exactly if one of its requests is inside the window, and keeps just those.
      ensures forall a | a in limits :: a in old(limits) && KeepsWindow(old(limits)[a], limits[a], now, window)
      ensures forall a | a in old(limits) :: a in limits <==>
        exists i :: 0 <= i < |old(limits)[a]| && window > 0 && now - old(limits)[a][i] < window
    {
      hide Recent, KeepsWindow;
      CleanupKeepsWindow(limits, window, now);
      var todo := limits.Keys;
      var cleaned: Limits := map[];
      while todo != {}
        invariant todo <= limits.Keys && limits == old(limits)
        invariant cleaned == map a | a in limits.Keys - todo && Recent(limits[a], now, window) != [] :: Recent(limits[a], now, window)
        decreases todo
      {
        var agent :| agent in todo;
        var kept := Retain(limits[agent], now);
        if kept != [] {
          cleaned := cleaned[agent := kept];
        }
        todo := todo - {agent};
      }
      limits := cleaned;
    }
  }

  // ---------- runs ----------

  datatype Call = Check(agent: string, now: int) | Cleanup(now: int)

  /** The calls that touch the list of an agent: its own checks, and every clean-up. */
  predicate Concerns(call: Call, agent: string) {
    call.Cleanup? || call.agent == agent
  }

  /** The readings that filter the list of an agent are in lock order; other agents may race. */
  predicate InClockOrder(calls: seq<Call>, agent: string) {
    forall i, j :: 0 <= i < j < |calls| && Concerns(calls[i], agent) && Concerns(calls[j], agent) ==>
      calls[i].now <= calls[j].now
  }

  predicate NoneAfter(calls: seq<Call>, agent: string, now: int) {
    forall i | 0 <= i < |calls| && Concerns(calls[i], agent) :: calls[i].now <= now
  }

  /** The limiter's map after a run. */
  function Run(window: int, max: nat, calls: seq<Call>): Limits {
    if calls == [] then map[]
    else
      var before := Run(window, max, calls[..|calls| - 1]);
      match calls[|calls| - 1]
      case Check(agent, now) => AfterCheck(before, window, max, agent, now)
      case Cleanup(now) => AfterCleanup(before, window, now)
  }

  /** The times at which the limiter accepted a request of `agent`, oldest first. */
  function AcceptedTimes(window: int, max: nat, calls: seq<Call>, agent: string): seq<int> {
    if calls == [] then []
    else
      var earlier := calls[..|calls| - 1];
      var last := calls[|calls| - 1];
      AcceptedTimes(window, max, earlier, agent) +
      if last.Check? && last.agent == agent && Allows(Run(window, max, earlier), window, max, agent, last.now)
      then [last.now] else []
  }

  lemma {:induction false} RecentOfConcat(a: seq<int>, b: seq<int>, now: int, window: int)
    ensures Recent(a + b, now, window) == Recent(a, now, window) + Recent(b, now, window)
  {
    if a == [] {
      assert a + b == b;
    } else {
      assert (a + b)[1..] == a[1..] + b;
      RecentOfConcat(a[1..], b, now, window);
    }
  }

  lemma LastInOrder(calls: seq<Call>, agent: string)
    requires InClockOrder(calls, agent) && calls != []
    ensures var earlier, last := calls[..|calls| - 1], calls[|calls| - 1];
      InClockOrder(earlier, agent) && (Concerns(last, agent) ==> NoneAfter(earlier, agent, last.now))
  {
    var n := |calls| - 1;
    var earlier := calls[..n];
    forall i, j | 0 <= i < j < n && Concerns(earlier[i], agent) && Concerns(earlier[j], agent)
      ensures earlier[i].now <= earlier[j].now
    {
      assert calls[i].now <= calls[j].now;
    }
    forall i | 0 <= i < n && Concerns(earlier[i], agent) && Concerns(calls[n], agent)
      ensures earlier[i].now <= calls[n].now
    {
      assert calls[i].now <= calls[n].now;
    }
  }

  /** Filtering early loses nothing that a later reading would keep. */
  lemma {:induction false} RecentOfRecent(times: seq<int>, earlier: int, now: int, window: int)
    requires earlier <= now
    ensures Recent(Recent(times, earlier, window), now, window) == Recent(times, now, window)
  {
    if times != [] {
      RecentOfRecent(times[1..], earlier, now, window);
      var head := if Elapsed(earlier, times[0]) < window then [times[0]] else [];
      RecentOfConcat(head, Recent(times[1..], earlier, window), now, window);
    }
  }

  ghost predicate SortedUpTo(times: seq<int>, now: int) {
    && (forall i, j :: 0 <= i < j < |times| ==> times[i] <= times[j])
    && (forall i | 0 <= i < |times| :: times[i] <= now)
  }

  lemma {:induction false} AcceptedInClockOrder(window: int, max: nat, calls: seq<Call>, agent: string, now: int)
    requires InClockOrder(calls, agent) && NoneAfter(calls, agent, now)
    ensures SortedUpTo(AcceptedTimes(window, max, calls, agent), now)
  {
    hide Run, Allows;
    if calls != [] {
      var last := calls[|calls| - 1];
      LastInOrder(calls, agent);
      AcceptedInClockOrder(window, max, calls[..|calls| - 1], agent, if Concerns(last, agent) then last.now else now);
    }
  }

  lemma OneMoreCall(window: int, max: nat, calls: seq<Call>, last: Call, agent: string)
    ensures Run(window, max, calls + [last]) ==
      match last
      case Check(a, now) => AfterCheck(Run(window, max, calls), window, max, a, now)
      case Cleanup(now) => AfterCleanup(Run(window, max, calls), window, now)
    ensures AcceptedTimes(window, max, calls + [last], agent) ==
      AcceptedTimes(window, max, calls, agent) +
      if last.Check? && last.agent == agent && Allows(Run(window, max, calls), window, max, agent, last.now)
      then [last.now] else []
  {
    assert (calls + [last])[..|calls|] == calls;
  }

  lemma UntrackedCall(window: int, max: nat, before: Limits, last: Call, agent: string)
    requires !Concerns(last, agent)
    ensures Tracked(AfterCheck(before, window, max, last.agent, last.now), agent) == Tracked(before, agent)
  {
  }

  lemma CheckKeepsHistory(window: int, max: nat, before: Limits, times: seq<int>, agent: string, at: int, now: int)
    requires at <= now && Recent(Tracked(before, agent), now, window) == Recent(times, now, window)
    ensures Recent(Tracked(AfterCheck(before, window, max, agent, at), agent), now, window)
      == Recent(if Allows(before, window, max, agent, at) then times + [at] else times, now, window)
  {
    hide Recent;
    var kept := Recent(Tracked(before, agent), at, window);
    RecentOfRecent(Tracked(before, agent), at, now, window);
    RecentOfConcat(kept, [at], now, window);
    RecentOfConcat(times, [at], now, window);
  }

  lemma CleanupKeepsHistory(window: int, before: Limits, agent: string, at: int, now: int)
    requires at <= now
    ensures Recent(Tracked(AfterCleanup(before, window, at), agent), now, window) == Recent(Tracked(before, agent), now, window)
  {
    RecentOfRecent(Tracked(before, agent), at, now, window);
  }

  /** The map never forgets an acceptance that still matters: seen from now on, it is the whole history. */
  lemma {:induction false} MapRemembersHistory(window: int, max: nat, calls: seq<Call>, agent: string, now: int)
    requires InClockOrder(calls, agent) && NoneAfter(calls, agent, now)
    ensures Recent(Tracked(Run(window, max, calls), agent), now, window)
         == Recent(AcceptedTimes(window, max, calls, agent), now, window)
  {
    hide Recent, AfterCheck, AfterCleanup, Allows, Tracked;
    if calls == [] {
      assert Tracked(map[], agent) == [] by { NothingTracked(agent); }
    } else {
      var earlier, last := calls[..|calls| - 1], calls[|calls| - 1];
      var before := Run(window, max, earlier);
      var times := AcceptedTimes(window, max, earlier, agent);
      LastInOrder(calls, agent);
      MapRemembersHistory(window, max, earlier, agent, now);
      assert times + [] == times;
      if !Concerns(last, agent) {
        UntrackedCall(window, max, before, last, agent);
      } else if last.Check? {
        CheckKeepsHistory(window, max, before, times, agent, last.now, now);
      } else {
        CleanupKeepsHistory(window, before, agent, last.now, now);
      }
    }
  }

  lemma NothingTracked(agent: string)
    ensures Tracked(map[], agent) == []
  {
  }

  /**
   In every run, a request is accepted exactly when fewer than `max` requests of that agent
   were accepted within the last `window`.
   */
  lemma AcceptedIffBelowLimit(window: int, max: nat, calls: seq<Call>, agent: string, now: int)
    requires InClockOrder(calls + [Check(agent, now)], agent)
    ensures Allows(Run(window, max, calls), window, max, agent, now)
       <==> |Recent(AcceptedTimes(window, max, calls, agent), now, window)| < max
  {
    hide Recent, Run, AcceptedTimes, Tracked;
    var all := calls + [Check(agent, now)];
    LastInOrder(all, agent);
    assert all[..|all| - 1] == calls;
    MapRemembersHistory(window, max, calls, agent, now);
  }

  /** In a sorted history everything up to a request outside the window is dropped. */
  lemma {:induction false} RecentDropsHead(times: seq<int>, k: nat, now: int, window: int)
    requires k < |times| && SortedUpTo(times, now) && now - times[k] >= window
    ensures |Recent(times, now, window)| < |times| - k
  {
    assert times[0] <= times[k] && times[0] <= now;
    if k > 0 {
      assert SortedUpTo(times[1..], now);
      RecentDropsHead(times[1..], k - 1, now, window);
    } else {
      RecentIsShorter(times[1..], now, window);
    }
  }

  lemma {:induction false} RecentIsShorter(times: seq<int>, now: int, window: int)
    ensures |Recent(times, now, window)| <= |times|
  {
    if times != [] {
      RecentIsShorter(times[1..], now, window);
    }
  }

  /** The last `n` of a sorted history are all kept once the oldest of them is. */
  lemma {:induction false} RecentKeepsTail(times: seq<int>, k: nat, now: int, window: int)
    requires k < |times| && forall i, j :: 0 <= i < j < |times| ==> times[i] <= times[j]
    requires forall i | 0 <= i < |times| :: times[i] <= now
    requires now - times[k] < window
    ensures |Recent(times, now, window)| >= |times| - k
  {
    if k > 0 {
      RecentKeepsTail(times[1..], k - 1, now, window);
    } else if |times| > 1 {
      RecentKeepsTail(times[1..], 0, now, window);
    }
  }

  /**
   The law of the sliding window, by plain subtraction: a request is accepted exactly if the
   agent has had fewer than `max` acceptances, or the `max`-th last of them is at least the
   window ago. So a refused agent is served again as soon as the window has passed.
   */
  lemma AcceptedIffWindowPassed(window: int, max: nat, calls: seq<Call>, agent: string, now: int)
    requires InClockOrder(calls + [Check(agent, now)], agent)
    ensures var t := AcceptedTimes(window, max, calls, agent);
      Allows(Run(window, max, calls), window, max, agent, now) <==>
        max > 0 && (|t| < max || now - t[|t| - max] >= window)
  {
    hide Recent, Run, AcceptedTimes, Tracked;
    var all := calls + [Check(agent, now)];
    var t := AcceptedTimes(window, max, calls, agent);
    LastInOrder(all, agent);
    assert all[..|all| - 1] == calls;
    AcceptedIffBelowLimit(window, max, calls, agent, now);
    AcceptedInClockOrder(window, max, calls, agent, now);
    RecentIsShorter(t, now, window);
    if max > 0 && |t| >= max {
      var k := |t| - max;
      if now - t[k] >= window {
        RecentDropsHead(t, k, now, window);
      } else {
        RecentKeepsTail(t, k, now, window);
      }
    }
  }

  /** Any max + 1 consecutive acceptances of an agent span at least the window. */
  lemma {:induction false} AcceptancesAreSpread(window: int, max: nat, calls: seq<Call>, agent: string, i: nat)
    requires InClockOrder(calls, agent)
    requires i + max < |AcceptedTimes(window, max, calls, agent)|
    ensures var t := AcceptedTimes(window, max, calls, agent); t[i + max] - t[i] >= window
  {
    hide Recent, Run, Allows;
    var earlier, last := calls[..|calls| - 1], calls[|calls| - 1];
    var before := AcceptedTimes(window, max, earlier, agent);
    LastInOrder(calls, agent);
    if i + max < |before| {
      AcceptancesAreSpread(window, max, earlier, agent, i);
    } else if max == 0 {
      NothingAllowed(Run(window, max, earlier), window, agent, last.now);
    } else {
      assert calls == earlier + [last];
      AcceptanceIsLate(window, max, earlier, agent, last.now, i);
    }
  }

  lemma NothingAllowed(limits: Limits, window: int, agent: string, now: int)
    ensures !Allows(limits, window, 0, agent, now)
  {
  }

  lemma AcceptanceIsLate(window: int, max: nat, calls: seq<Call>, agent: string, now: int, i: nat)
    requires max > 0 && InClockOrder(calls + [Check(agent, now)], agent)
    requires Allows(Run(window, max, calls), window, max, agent, now)
    requires i + max == |AcceptedTimes(window, max, calls, agent)|
    ensures now - AcceptedTimes(window, max, calls, agent)[i] >= window
  {
    hide Recent, Run, Allows, AcceptedTimes;
    var all := calls + [Check(agent, now)];
    var before := AcceptedTimes(window, max, calls, agent);
    LastInOrder(all, agent);
    assert all[..|all| - 1] == calls;
    AcceptedIffBelowLimit(window, max, calls, agent, now);
    AcceptedInClockOrder(window, max, calls, agent, now);
    if now - before[i] < window {
      RecentKeepsTail(before, i, now, window);
    }
  }

  // ---------- clean-up changes no decision ----------

  function WithoutCleanups(calls: seq<Call>): seq<Call> {
    if calls == [] then []
    else WithoutCleanups(calls[..|calls| - 1]) + (if calls[|calls| - 1].Check? then [calls[|calls| - 1]] else [])
  }

  /** Exactly the clean-ups are taken out, and the checks keep their order. */
  lemma {:induction false} OnlyCleanupsGo(a: seq<Call>, b: seq<Call>, call: Call)
    ensures WithoutCleanups(a + b) == WithoutCleanups(a) + WithoutCleanups(b)
    ensures WithoutCleanups([call]) == if call.Check? then [call] else []
    decreases |b|
  {
    assert [call][..0] == [];
    if b == [] {
      assert a + b == a && WithoutCleanups(a) + [] == WithoutCleanups(a);
    } else {
      var init := b[..|b| - 1];
      assert (a + b)[..|a + b| - 1] == a + init;
      OnlyCleanupsGo(a, init, call);
    }
  }

  lemma {:induction false} WithoutCleanupsInOrder(calls: seq<Call>, agent: string, now: int)
    requires InClockOrder(calls, agent) && NoneAfter(calls, agent, now)
    ensures InClockOrder(WithoutCleanups(calls), agent) && NoneAfter(WithoutCleanups(calls), agent, now)
  {
    if calls != [] {
      var last := calls[|calls| - 1];
      LastInOrder(calls, agent);
      var bound := if Concerns(last, agent) then last.now else now;
      assert NoneAfter(calls[..|calls| - 1], agent, bound);
      assert Concerns(last, agent) ==> calls[|calls| - 1].now <= now;
      WithoutCleanupsInOrder(calls[..|calls| - 1], agent, bound);
    }
  }

  lemma AppendInOrder(calls: seq<Call>, agent: string, now: int)
    requires InClockOrder(calls, agent) && NoneAfter(calls, agent, now)
    ensures InClockOrder(calls + [Check(agent, now)], agent)
  {
  }

  lemma SameDecision(window: int, max: nat, calls: seq<Call>, agent: string, now: int)
    requires InClockOrder(calls + [Check(agent, now)], agent)
    requires AcceptedTimes(window, max, calls, agent) == AcceptedTimes(window, max, WithoutCleanups(calls), agent)
    ensures Allows(Run(window, max, calls), window, max, agent, now)
       <==> Allows(Run(window, max, WithoutCleanups(calls)), window, max, agent, now)
  {
    hide Recent, Run, Allows, AcceptedTimes, WithoutCleanups;
    var all := calls + [Check(agent, now)];
    LastInOrder(all, agent);
    assert all[..|all| - 1] == calls;
    WithoutCleanupsInOrder(calls, agent, now);
    AppendInOrder(WithoutCleanups(calls), agent, now);
    AcceptedIffBelowLimit(window, max, calls, agent, now);
    AcceptedIffBelowLimit(window, max, WithoutCleanups(calls), agent, now);
  }

  /** Interleaving clean-ups anywhere changes no decision: the accepted requests are the same. */
  lemma {:induction false} CleanupsChangeNothing(window: int, max: nat, calls: seq<Call>, agent: string)
    requires InClockOrder(calls, agent)
    ensures AcceptedTimes(window, max, calls, agent) == AcceptedTimes(window, max, WithoutCleanups(calls), agent)
  {
    hide Recent, Run, Allows;
    if calls != [] {
      var earlier, last := calls[..|calls| - 1], calls[|calls| - 1];
      var checks := WithoutCleanups(earlier);
      LastInOrder(calls, agent);
      CleanupsChangeNothing(window, max, earlier, agent);
      assert calls == earlier + [last];
      OneMoreCall(window, max, checks, last, agent);
      if last.Check? && last.agent == agent {
        SameDecision(window, max, earlier, agent, last.now);
      } else if last.Cleanup? {
        assert WithoutCleanups(calls) == checks;
      }
    }
  }

  /**
   The clock order matters. The source reads the clock before it takes the lock; if a clean-up
   with a later reading gets the lock first, one acceptance too many falls into a window.
   */
  lemma OutOfOrderReadingOverruns()
    ensures var calls := [Check("a", 0), Cleanup(10), Check("a", 9)];
      !InClockOrder(calls, "a") && AcceptedTimes(10, 1, calls, "a") == [0, 9]
  {
    var first, second, third := Check("a", 0), Cleanup(10), Check("a", 9);
    CleanupForgets(first, second);
    assert [first, second, third][1].now > [first, second, third][2].now;
    assert [first, second] + [third] == [first, second, third];
    OneMoreCall(10, 1, [first, second], third, "a");
  }

  // ---------- decisions for readings in any order ----------

  /** The positions of the accepted requests of an agent, in order. */
  function AcceptedAt(window: int, max: nat, calls: seq<Call>, agent: string): seq<nat> {
    if calls == [] then []
    else
      var earlier, last := calls[..|calls| - 1], calls[|calls| - 1];
      AcceptedAt(window, max, earlier, agent) +
      if last.Check? && last.agent == agent && Allows(Run(window, max, earlier), window, max, agent, last.now)
      then [|calls| - 1] else []
  }

  /** No later reading that touches the agent's list found this request out of the window. */
  predicate Survives(window: int, calls: seq<Call>, agent: string, i: nat)
    requires i < |calls|
  {
    forall j | i < j < |calls| && Concerns(calls[j], agent) :: Elapsed(calls[j].now, calls[i].now) < window
  }

  function SurvivorsAmong(window: int, calls: seq<Call>, agent: string, at: seq<nat>): seq<int>
    requires forall k | 0 <= k < |at| :: at[k] < |calls|
  {
    if at == [] then []
    else
      SurvivorsAmong(window, calls, agent, at[..|at| - 1]) +
      if Survives(window, calls, agent, at[|at| - 1]) then [calls[at[|at| - 1]].now] else []
  }

  lemma {:induction false} AcceptedAtFits(window: int, max: nat, calls: seq<Call>, agent: string)
    ensures forall k | 0 <= k < |AcceptedAt(window, max, calls, agent)| :: AcceptedAt(window, max, calls, agent)[k] < |calls|
    ensures |AcceptedAt(window, max, calls, agent)| == |AcceptedTimes(window, max, calls, agent)|
  {
    hide Run, Allows;
    if calls != [] {
      AcceptedAtFits(window, max, calls[..|calls| - 1], agent);
    }
  }

  /** The times of the accepted requests that no reading since has dropped. */
  function Survivors(window: int, max: nat, calls: seq<Call>, agent: string): seq<int> {
    AcceptedAtFits(window, max, calls, agent);
    SurvivorsAmong(window, calls, agent, AcceptedAt(window, max, calls, agent))
  }

  lemma SurvivesOneMore(window: int, calls: seq<Call>, agent: string, i: nat)
    requires i + 1 < |calls|
    ensures var earlier, last := calls[..|calls| - 1], calls[|calls| - 1];
      Survives(window, calls, agent, i) <==>
        Survives(window, earlier, agent, i) && (Concerns(last, agent) ==> Elapsed(last.now, calls[i].now) < window)
  {
    var n := |calls| - 1;
    var earlier := calls[..n];
    if Survives(window, calls, agent, i) {
      forall j | i < j < n && Concerns(earlier[j], agent)
        ensures Elapsed(earlier[j].now, earlier[i].now) < window
      {
        assert calls[j] == earlier[j];
      }
    }
    if Survives(window, earlier, agent, i) && (Concerns(calls[n], agent) ==> Elapsed(calls[n].now, calls[i].now) < window) {
      forall j | i < j < |calls| && Concerns(calls[j], agent)
        ensures Elapsed(calls[j].now, calls[i].now) < window
      {
        if j < n { assert calls[j] == earlier[j]; }
      }
    }
  }

  lemma RecentOfOne(times: seq<int>, t: int, now: int, window: int)
    ensures Recent(times + [t], now, window) == Recent(times, now, window) + (if Elapsed(now, t) < window then [t] else [])
  {
    RecentOfConcat(times, [t], now, window);
    assert [t][1..] == [];
  }

  lemma {:induction false} SurvivorsOneMore(window: int, calls: seq<Call>, agent: string, at: seq<nat>)
    requires calls != [] && forall k | 0 <= k < |at| :: at[k] + 1 < |calls|
    ensures var earlier, last := calls[..|calls| - 1], calls[|calls| - 1];
      SurvivorsAmong(window, calls, agent, at) ==
        if Concerns(last, agent) then Recent(SurvivorsAmong(window, earlier, agent, at), last.now, window)
        else SurvivorsAmong(window, earlier, agent, at)
  {
    hide Survives, Recent;
    var earlier, last := calls[..|calls| - 1], calls[|calls| - 1];
    if at == [] {
      NoneRecent(last.now, window);
    } else {
      var init, i := at[..|at| - 1], at[|at| - 1];
      SurvivorsOneMore(window, calls, agent, init);
      SurvivesOneMore(window, calls, agent, i);
      RecentOfOne(SurvivorsAmong(window, earlier, agent, init), calls[i].now, last.now, window);
      assert earlier[i] == calls[i];
      var before := SurvivorsAmong(window, earlier, agent, init);
      assert before + [] == before;
      assert Recent(before, last.now, window) + [] == Recent(before, last.now, window);
    }
  }

  lemma NewestSurvives(window: int, calls: seq<Call>, agent: string)
    requires calls != []
    ensures Survives(window, calls, agent, |calls| - 1)
  {
  }

  lemma AfterCleanupOf(before: Limits, window: int, now: int, agent: string)
    ensures Tracked(AfterCleanup(before, window, now), agent) == Recent(Tracked(before, agent), now, window)
  {
  }

  /** In every run, in whatever order the clock was read, the map holds exactly the survivors. */
  lemma {:induction false} MapHoldsSurvivors(window: int, max: nat, calls: seq<Call>, agent: string)
    ensures Tracked(Run(window, max, calls), agent) == Survivors(window, max, calls, agent)
  {
    hide Recent, Survives, AfterCleanup;
    if calls != [] {
      var earlier, last := calls[..|calls| - 1], calls[|calls| - 1];
      var before, at := Run(window, max, earlier), AcceptedAt(window, max, earlier, agent);
      MapHoldsSurvivors(window, max, earlier, agent);
      AcceptedAtFits(window, max, earlier, agent);
      SurvivorsOneMore(window, calls, agent, at);
      NewestSurvives(window, calls, agent);
      assert (at + [|calls| - 1])[..|at|] == at && at + [] == at;
      if last.Cleanup? {
        AfterCleanupOf(before, window, last.now, agent);
      } else if last.agent != agent {
        UntrackedCall(window, max, before, last, agent);
      }
    }
  }

  lemma {:induction false} SurvivorsAreAccepted(window: int, max: nat, calls: seq<Call>, agent: string, now: int)
    ensures |Recent(Survivors(window, max, calls, agent), now, window)| <=
      |Recent(AcceptedTimes(window, max, calls, agent), now, window)|
  {
    hide Recent, Survives, Run, Allows;
    if calls != [] {
      var earlier, last := calls[..|calls| - 1], calls[|calls| - 1];
      var at := AcceptedAt(window, max, earlier, agent);
      SurvivorsAreAccepted(window, max, earlier, agent, now);
      AcceptedAtFits(window, max, earlier, agent);
      SurvivorsOneMore(window, calls, agent, at);
      NewestSurvives(window, calls, agent);
      assert (at + [|calls| - 1])[..|at|] == at && at + [] == at;
      var before := SurvivorsAmong(window, earlier, agent, at);
      RecentShrinks(before, last.now, now, window);
      RecentOfOne(SurvivorsAmong(window, calls, agent, at), last.now, now, window);
      RecentOfOne(AcceptedTimes(window, max, earlier, agent), last.now, now, window);
      assert AcceptedTimes(window, max, earlier, agent) + [] == AcceptedTimes(window, max, earlier, agent);
    }
  }

  lemma {:induction false} RecentShrinks(times: seq<int>, at: int, now: int, window: int)
    ensures |Recent(Recent(times, at, window), now, window)| <= |Recent(times, now, window)|
  {
    if times != [] {
      RecentShrinks(times[1..], at, now, window);
      var head := if Elapsed(at, times[0]) < window then [times[0]] else [];
      RecentOfConcat(head, Recent(times[1..], at, window), now, window);
    }
  }

  /**
   For readings in any order, a decision is the right one, acceptance if and only if fewer than
   `max` requests were accepted in the last window, exactly if either that is so, or the survivors
   of the earlier readings alone reach the limit. A reading only matters that came first to the
   lock and dropped a request which the present reading would still count.
   */
  lemma DecisionIsRightIff(window: int, max: nat, calls: seq<Call>, agent: string, now: int)
    ensures
      (Allows(Run(window, max, calls), window, max, agent, now) <==>
        |Recent(AcceptedTimes(window, max, calls, agent), now, window)| < max)
      <==>
      |Recent(AcceptedTimes(window, max, calls, agent), now, window)| < max ||
        |Recent(Survivors(window, max, calls, agent), now, window)| >= max
  {
    hide Recent, Run, AcceptedTimes, Survivors, Tracked;
    MapHoldsSurvivors(window, max, calls, agent);
    SurvivorsAreAccepted(window, max, calls, agent, now);
  }

  lemma CleanupForgets(first: Call, second: Call)
    requires first == Check("a", 0) && second == Cleanup(10)
    ensures Run(10, 1, [first, second]) == map[] && AcceptedTimes(10, 1, [first, second], "a") == [0]
  {
    assert [] + [first] == [first] && [first] + [second] == [first, second];
    OneMoreCall(10, 1, [], first, "a");
    OneMoreCall(10, 1, [first], second, "a");
    assert Run(10, 1, []) == map[] && Tracked(map[], "a") == [] && Recent([], 0, 10) + [0] == [0];
    assert Run(10, 1, [first]) == map["a" := [0]];
    assert [0][1..] == [] && Recent([0], 10, 10) == [];
  }
}
