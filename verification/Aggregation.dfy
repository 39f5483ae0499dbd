/**
 When the scheduler aggregates, and what a ping aggregate says about the raw rows of its
 window. Latencies are reals: rounding is not the point here.
 */
module Aggregation {
  import opened Wrappers

  datatype Window = Window(start: int, end: int)

  function MinuteOf(now: nat): nat {
    now / 60 * 60
  }

  /** One check at clock reading `now`: a window, if the minute moved past the last aggregation. */
  function Check(last: nat, now: nat): Option<Window> {
    if MinuteOf(now) > last then Some(Window(if MinuteOf(now) < 60 then 0 else MinuteOf(now) - 60, MinuteOf(now))) else None
  }

  function After(last: nat, now: nat): nat {
    if MinuteOf(now) > last then MinuteOf(now) else last
  }

  class Aggregator {
    var lastAggregation: nat

    /** The last aggregation is the end of a minute, or none happened yet. */
    predicate Valid()
      reads this
    {
      lastAggregation % 60 == 0
    }

    constructor ()
      ensures Valid() && lastAggregation == 0
    {
      lastAggregation := 0;
    }

    /**
     A window comes back exactly when a whole minute has passed since the last aggregation. It
     is the minute before the one the clock is in, and no part of it was aggregated before.
     */
    method CheckAndPerform(now: nat) returns (window: Option<Window>)
      requires Valid()
      modifies this
      ensures Valid()
      ensures window == Check(old(lastAggregation), now) && lastAggregation == After(old(lastAggregation), now)
      ensures window.Some? <==> now >= old(lastAggregation) + 60
      ensures window.Some? ==>
        && window.value.end == window.value.start + 60 && window.value.end <= now < window.value.end + 60
        && old(lastAggregation) <= window.value.start && lastAggregation == window.value.end
      ensures window.None? ==> lastAggregation == old(lastAggregation)
    {
      var minute := now / 60 * 60;
      window := None;
      if minute > lastAggregation {
        var end := minute;
        var start := if end < 60 then 0 else end - 60;
        window := Some(Window(start, end));
        lastAggregation := minute;
      }
    }
  }

  /** The windows of one scheduler, for any sequence of clock readings. A pass that fails ends the agent. */
  function Windows(last: nat, readings: seq<nat>): seq<Window>
    decreases |readings|
  {
    if readings == [] then []
    else FirstWindow(last, readings[0]) + Windows(After(last, readings[0]), readings[1..])
  }

  function FirstWindow(last: nat, now: nat): seq<Window> {
    match Check(last, now)
    case None => []
    case Some(w) => [w]
  }

  /** Whole minutes after `last`, each ending later than the one before. */
  ghost predicate AlignedAfter(last: nat, ws: seq<Window>) {
    && (forall i | 0 <= i < |ws| :: ws[i].end % 60 == 0 && ws[i].start == ws[i].end - 60 && ws[i].end > last)
    && (forall i, j | 0 <= i < j < |ws| :: ws[i].end < ws[j].end)
  }

  /** Every window is one aligned minute, and windows only move forward. */
  lemma {:induction false} WindowsAreAlignedMinutes(last: nat, readings: seq<nat>)
    ensures AlignedAfter(last, Windows(last, readings))
    decreases |readings|
  {
    if readings != [] {
      WindowsAreAlignedMinutes(After(last, readings[0]), readings[1..]);
    }
  }

  /** The minute of wake-up `i` is after `last` and after that of every earlier wake-up. */
  predicate ReachesNewMinute(last: nat, readings: seq<nat>, i: nat)
    requires i < |readings|
  {
    readings[i] / 60 * 60 > last && forall j | 0 <= j < i :: readings[j] / 60 * 60 < readings[i] / 60 * 60
  }

  /** A window is cut exactly by each wake-up that reaches a new minute: the minute before that one. */
  lemma {:induction false} WindowIsCutIff(last: nat, readings: seq<nat>, w: Window)
    ensures w in Windows(last, readings) <==>
      exists i :: 0 <= i < |readings| && ReachesNewMinute(last, readings, i)
        && w == Window(readings[i] / 60 * 60 - 60, readings[i] / 60 * 60)
    decreases |readings|
  {
    if readings != [] {
      var rest, next := readings[1..], After(last, readings[0]);
      WindowIsCutIff(next, rest, w);
      forall i | 0 <= i < |rest|
        ensures ReachesNewMinute(next, rest, i) <==> ReachesNewMinute(last, readings, i + 1)
      {
        LaterMinute(last, readings, i);
      }
      assert ReachesNewMinute(last, readings, 0) <==> Check(last, readings[0]).Some?;
      forall i | 0 <= i < |readings| && ReachesNewMinute(last, readings, i) && i > 0
        ensures ReachesNewMinute(next, rest, i - 1) && rest[i - 1] == readings[i]
      {
        LaterMinute(last, readings, i - 1);
      }
    }
  }

  lemma LaterMinute(last: nat, readings: seq<nat>, i: nat)
    requires i + 1 < |readings|
    ensures ReachesNewMinute(After(last, readings[0]), readings[1..], i) <==> ReachesNewMinute(last, readings, i + 1)
  {
    var rest := readings[1..];
    assert forall j | 0 <= j < |rest| :: rest[j] == readings[j + 1];
    assert forall j | 0 < j < |readings| :: readings[j] == rest[j - 1];
  }

  /** No instant is aggregated twice, even if the clock steps back. */
  lemma WindowsAreDisjoint(last: nat, readings: seq<nat>, i: nat, j: nat, t: int)
    requires i < j < |Windows(last, readings)|
    ensures var ws := Windows(last, readings);
      !(ws[i].start <= t < ws[i].end && ws[j].start <= t < ws[j].end)
  {
    WindowsAreAlignedMinutes(last, readings);
    var ws := Windows(last, readings);
    assert ws[i].end < ws[j].end;
  }

  /** Where the window at `i` has to start so that no time is left out. */
  function PreviousEnd(last: nat, ws: seq<Window>, i: nat): int
    requires i < |ws|
  {
    if i == 0 then last else ws[i - 1].end
  }

  /** Each window starts where the one before it, or the last aggregation, ended. */
  ghost predicate Gapless(last: nat, ws: seq<Window>) {
    forall i | 0 <= i < |ws| :: ws[i].start == PreviousEnd(last, ws, i)
  }

  lemma GaplessStep(last: nat, w: Window, rest: seq<Window>)
    requires w.end >= 0
    ensures Gapless(last, [w] + rest) <==> w.start == last && Gapless(w.end, rest)
  {
    var ws := [w] + rest;
    if Gapless(last, ws) {
      assert ws[0].start == PreviousEnd(last, ws, 0);
      forall i | 0 <= i < |rest|
        ensures rest[i].start == PreviousEnd(w.end, rest, i)
      {
        assert ws[i + 1].start == PreviousEnd(last, ws, i + 1);
      }
    }
    if w.start == last && Gapless(w.end, rest) {
      forall i | 0 <= i < |ws|
        ensures ws[i].start == PreviousEnd(last, ws, i)
      {
        if i > 0 { assert rest[i - 1].start == PreviousEnd(w.end, rest, i - 1); }
      }
    }
  }

  /** The loop never sleeps through a whole minute: no reading is a minute or more past the next boundary. */
  predicate NoMinuteMissed(last: nat, readings: seq<nat>)
    decreases |readings|
  {
    readings == [] || (MinuteOf(readings[0]) <= last + 60 && NoMinuteMissed(After(last, readings[0]), readings[1..]))
  }

  /** The windows tile time from `last` on without gaps exactly when the loop wakes in every minute. */
  lemma {:induction false} TilesIffAwake(last: nat, readings: seq<nat>)
    requires last % 60 == 0
    ensures Gapless(last, Windows(last, readings)) <==> NoMinuteMissed(last, readings)
    decreases |readings|
  {
    if readings != [] {
      var next := After(last, readings[0]);
      TilesIffAwake(next, readings[1..]);
      var rest := Windows(next, readings[1..]);
      match Check(last, readings[0])
      case None => assert [] + rest == rest;
      case Some(w) => GaplessStep(last, w, rest);
    }
  }

  // ---------- ping aggregates ----------

  datatype RawPing = RawPing(task: string, timestamp: int, rtt: Option<real>, success: bool)

  datatype PingAggregate = PingAggregate(
    sampleCount: nat, avg: real, max: real, min: real, lossPercent: real, successful: nat, failed: nat
  )

  predicate InWindow(r: RawPing, task: string, start: int, end: int) {
    r.task == task && start <= r.timestamp < end
  }

  predicate Timed(r: RawPing) {
    r.success && r.rtt.Some?
  }

  function InPeriod(rows: seq<RawPing>, task: string, start: int, end: int): seq<RawPing> {
    if rows == [] then []
    else
      InPeriod(rows[..|rows| - 1], task, start, end) +
        if InWindow(rows[|rows| - 1], task, start, end) then [rows[|rows| - 1]] else []
  }

  function Latencies(rows: seq<RawPing>): seq<real> {
    if rows == [] then []
    else Latencies(rows[..|rows| - 1]) + if Timed(rows[|rows| - 1]) then [rows[|rows| - 1].rtt.value] else []
  }

  function Sum(xs: seq<real>): real {
    if xs == [] then 0.0 else Sum(xs[..|xs| - 1]) + xs[|xs| - 1]
  }

  function Successful(rows: seq<RawPing>): nat {
    if rows == [] then 0 else Successful(rows[..|rows| - 1]) + if rows[|rows| - 1].success then 1 else 0
  }

  /** What the rows of two stretches give together: counts and sums add up, latencies follow one another. */
  lemma {:induction false} TotalsAddUp(a: seq<RawPing>, b: seq<RawPing>)
    ensures Successful(a + b) == Successful(a) + Successful(b)
    ensures Latencies(a + b) == Latencies(a) + Latencies(b)
    decreases |b|
  {
    if b == [] {
      assert a + b == a && Latencies(a) + [] == Latencies(a);
    } else {
      var init := b[..|b| - 1];
      assert (a + b)[..|a + b| - 1] == a + init;
      TotalsAddUp(a, init);
    }
  }

  lemma {:induction false} SumsAddUp(a: seq<real>, b: seq<real>)
    ensures Sum(a + b) == Sum(a) + Sum(b)
    decreases |b|
  {
    if b == [] {
      assert a + b == a;
    } else {
      var init := b[..|b| - 1];
      assert (a + b)[..|a + b| - 1] == a + init;
      SumsAddUp(a, init);
    }
  }

  /** What a single row gives: it has a latency only if it succeeded and was timed. */
  lemma TotalsOfOne(r: RawPing, x: real)
    ensures Successful([r]) == if r.success then 1 else 0
    ensures Latencies([r]) == if r.success && r.rtt.Some? then [r.rtt.value] else []
    ensures Sum([x]) == x
  {
    assert [r][..0] == [] && [x][..0] == [];
  }

  ghost predicate Within(xs: seq<real>, low: real, high: real) {
    forall i | 0 <= i < |xs| :: low <= xs[i] <= high
  }

  lemma {:induction false} SumIsBounded(xs: seq<real>, low: real, high: real)
    requires Within(xs, low, high)
    ensures low * (|xs| as real) <= Sum(xs) <= high * (|xs| as real)
  {
    if xs != [] {
      var init := xs[..|xs| - 1];
      SumIsBounded(init, low, high);
      assert (|xs| as real) == (|init| as real) + 1.0;
      assert low * (|xs| as real) == low * (|init| as real) + low;
      assert high * (|xs| as real) == high * (|init| as real) + high;
    }
  }

  lemma QuotientIsBetween(sum: real, n: real, low: real, high: real)
    requires n > 0.0 && low * n <= sum <= high * n
    ensures low <= sum / n <= high
  {
  }

  lemma AverageIsBetween(xs: seq<real>, low: real, high: real)
    requires xs != [] && Within(xs, low, high)
    ensures low <= Sum(xs) / (|xs| as real) <= high
  {
    SumIsBounded(xs, low, high);
    QuotientIsBetween(Sum(xs), |xs| as real, low, high);
  }

  lemma OneMoreSample(window: seq<RawPing>, row: RawPing)
    ensures Successful(window + [row]) == Successful(window) + if row.success then 1 else 0
    ensures Latencies(window + [row]) == if Timed(row) then Latencies(window) + [row.rtt.value] else Latencies(window)
    ensures Timed(row) ==> Sum(Latencies(window + [row])) == Sum(Latencies(window)) + row.rtt.value
  {
    assert (window + [row])[..|window|] == window;
    if Timed(row) {
      var xs := Latencies(window);
      assert (xs + [row.rtt.value])[..|xs|] == xs;
    }
  }

  /** What the pass knows of the successful timed rows it has seen. */
  ghost predicate Summary(xs: seq<real>, timed: nat, sum: real, min: real, max: real) {
    && timed == |xs| && sum == Sum(xs)
    && (timed == 0 ==> max == min == 0.0)
    && (timed > 0 ==> min in xs && max in xs)
    && Within(xs, min, max)
  }

  lemma SummaryStep(xs: seq<real>, timed: nat, sum: real, min: real, max: real, x: real)
    requires Summary(xs, timed, sum, min, max)
    ensures Summary(xs + [x], timed + 1, sum + x,
                    if timed == 0 || x < min then x else min, if timed == 0 || x > max then x else max)
  {
    var ys := xs + [x];
    assert ys[..|xs|] == xs && ys[|xs|] == x;
  }

  ghost predicate Counted(window: seq<RawPing>, total: nat, successful: nat) {
    total == |window| && successful == Successful(window) && successful <= total
  }

  /** What an aggregate says about the raw rows of its window. */
  ghost predicate Describes(a: PingAggregate, window: seq<RawPing>) {
    var xs := Latencies(window);
    && a.sampleCount == |window| > 0
    && a.successful == Successful(window) && a.failed == |window| - Successful(window)
    && a.lossPercent == (a.failed as real) / (|window| as real) * 100.0
    && (xs == [] ==> a.avg == a.max == a.min == 0.0)
    && (xs != [] ==>
          && a.avg == Sum(xs) / (|xs| as real)
          && a.min in xs && a.max in xs && Within(xs, a.min, a.max)
          && a.min <= a.avg <= a.max)
  }

  lemma Finish(window: seq<RawPing>, total: nat, successful: nat, timed: nat, sum: real, min: real, max: real)
    requires Counted(window, total, successful) && Summary(Latencies(window), timed, sum, min, max) && total > 0
    ensures Describes(
      PingAggregate(total, if timed == 0 then 0.0 else sum / (timed as real), max, min,
                    ((total - successful) as real) / (total as real) * 100.0, successful, total - successful), window)
  {
    if timed > 0 {
      AverageIsBetween(Latencies(window), min, max);
    }
  }

  /** The aggregate functions of the query after some rows. */
  datatype Totals = Totals(total: nat, successful: nat, timed: nat, sum: real, min: real, max: real)

  function Absorb(a: Totals, row: RawPing): Totals {
    var counted := a.(total := a.total + 1, successful := a.successful + if row.success then 1 else 0);
    if !Timed(row) then counted
    else
      var x := row.rtt.value;
      counted.(timed := a.timed + 1, sum := a.sum + x,
               min := if a.timed == 0 || x < a.min then x else a.min,
               max := if a.timed == 0 || x > a.max then x else a.max)
  }

  function Scan(rows: seq<RawPing>, task: string, start: int, end: int): Totals {
    if rows == [] then Totals(0, 0, 0, 0.0, 0.0, 0.0)
    else
      var before := Scan(rows[..|rows| - 1], task, start, end);
      if InWindow(rows[|rows| - 1], task, start, end) then Absorb(before, rows[|rows| - 1]) else before
  }

  ghost predicate Reflects(a: Totals, window: seq<RawPing>) {
    Counted(window, a.total, a.successful) && Summary(Latencies(window), a.timed, a.sum, a.min, a.max)
  }

  lemma AbsorbReflects(a: Totals, window: seq<RawPing>, row: RawPing)
    requires Reflects(a, window)
    ensures Reflects(Absorb(a, row), window + [row])
  {
    OneMoreSample(window, row);
    if Timed(row) {
      SummaryStep(Latencies(window), a.timed, a.sum, a.min, a.max, row.rtt.value);
    }
  }

  lemma {:induction false} ScanReflects(rows: seq<RawPing>, task: string, start: int, end: int)
    ensures Reflects(Scan(rows, task, start, end), InPeriod(rows, task, start, end))
  {
    if rows != [] {
      var init := rows[..|rows| - 1];
      ScanReflects(init, task, start, end);
      if InWindow(rows[|rows| - 1], task, start, end) {
        AbsorbReflects(Scan(init, task, start, end), InPeriod(init, task, start, end), rows[|rows| - 1]);
      } else {
        assert InPeriod(rows, task, start, end) == InPeriod(init, task, start, end);
      }
    }
  }

  lemma {:induction false} NothingInPeriod(rows: seq<RawPing>, task: string, start: int, end: int)
    ensures InPeriod(rows, task, start, end) == [] <==>
      forall i | 0 <= i < |rows| :: !(rows[i].task == task && start <= rows[i].timestamp < end)
  {
    if rows != [] {
      var init := rows[..|rows| - 1];
      NothingInPeriod(init, task, start, end);
      assert forall i | 0 <= i < |init| :: init[i] == rows[i];
    }
  }

  /**
   The aggregation query as one pass over the table. The sample count is the number of raw
   rows in the window; average, maximum and minimum are those of its successful timed rows,
   or zero when there is none.
   */
  method GenerateAggregated(rows: seq<RawPing>, task: string, start: int, end: int) returns (r: Option<PingAggregate>)
    ensures r.None? <==> InPeriod(rows, task, start, end) == []
    ensures r.None? <==> forall i | 0 <= i < |rows| :: !(rows[i].task == task && start <= rows[i].timestamp < end)
    ensures r.Some? ==> Describes(r.value, InPeriod(rows, task, start, end))
  {
    var total, successful, timed := 0, 0, 0;
    var sum, max, min := 0.0, 0.0, 0.0;
    var i := 0;
    while i < |rows|
      invariant 0 <= i <= |rows| && total >= 0 && successful >= 0 && timed >= 0
      invariant Totals(total, successful, timed, sum, min, max) == Scan(rows[..i], task, start, end)
    {
      var row := rows[i];
      assert rows[..i + 1][..i] == rows[..i];
      if InWindow(row, task, start, end) {
        total := total + 1;
        if row.success {
          successful := successful + 1;
          if row.rtt.Some? {
            var x := row.rtt.value;
            if timed == 0 || x > max { max := x; }
            if timed == 0 || x < min { min := x; }
            sum := sum + x;
            timed := timed + 1;
          }
        }
      }
      i := i + 1;
    }
    assert rows[..i] == rows;
    ScanReflects(rows, task, start, end);
    NothingInPeriod(rows, task, start, end);
    if total == 0 {
      return None;
    }
    var avg := if timed == 0 then 0.0 else sum / (timed as real);
    var failed := total - successful;
    Finish(InPeriod(rows, task, start, end), total, successful, timed, sum, min, max);
    r := Some(PingAggregate(total, avg, max, min, (failed as real) / (total as real) * 100.0, successful, failed));
  }

  /** A raw row counts, as often as it is in the table, for its own task in a window that holds its timestamp, and nowhere else. */
  lemma {:induction false} RowIsInPeriod(rows: seq<RawPing>, task: string, start: int, end: int, r: RawPing)
    ensures multiset(InPeriod(rows, task, start, end))[r] ==
      if r.task == task && start <= r.timestamp < end then multiset(rows)[r] else 0
  {
    if rows != [] {
      var init := rows[..|rows| - 1];
      RowIsInPeriod(init, task, start, end, r);
      assert rows == init + [rows[|rows| - 1]];
      assert InPeriod(init, task, start, end) + [] == InPeriod(init, task, start, end);
    }
  }

  /** Over a whole run of one scheduler, each raw row is aggregated at most once. */
  lemma RowIsAggregatedOnce(rows: seq<RawPing>, task: string, last: nat, readings: seq<nat>, i: nat, j: nat, r: RawPing)
    requires i < j < |Windows(last, readings)|
    ensures var ws := Windows(last, readings);
      !(r in InPeriod(rows, task, ws[i].start, ws[i].end) && r in InPeriod(rows, task, ws[j].start, ws[j].end))
  {
    var ws := Windows(last, readings);
    var a, b := InPeriod(rows, task, ws[i].start, ws[i].end), InPeriod(rows, task, ws[j].start, ws[j].end);
    RowIsInPeriod(rows, task, ws[i].start, ws[i].end, r);
    RowIsInPeriod(rows, task, ws[j].start, ws[j].end, r);
    assert r in a <==> multiset(a)[r] > 0;
    assert r in b <==> multiset(b)[r] > 0;
    WindowsAreDisjoint(last, readings, i, j, r.timestamp);
  }
}
