/**
 Buffer and windows together: when a raw row is aggregated. A result is handled into the
 buffer; a flush moves the buffer to the table; a pass flushes first and then aggregates the
 table. A flush that fails is not part of this machine.
 */
module RawRows {
  import opened Wrappers
  import opened Aggregation

  datatype Step = Handle(row: RawPing) | Flush | Wake(now: nat)

  datatype Store = Store(last: nat, buffer: seq<RawPing>, table: seq<RawPing>)

  function Next(s: Store, e: Step): Store {
    match e
    case Handle(row) => s.(buffer := s.buffer + [row])
    case Flush => Store(s.last, [], s.table + s.buffer)
    case Wake(now) => if MinuteOf(now) > s.last then Store(MinuteOf(now), [], s.table + s.buffer) else s
  }

  /** The rows of a task that one step aggregates. */
  function Aggregated(s: Store, e: Step, task: string): seq<RawPing> {
    if e.Wake? && MinuteOf(e.now) > s.last
    then InPeriod(s.table + s.buffer, task, MinuteOf(e.now) - 60, MinuteOf(e.now))
    else []
  }

  function Copies(rows: seq<RawPing>, r: RawPing): nat {
    multiset(rows)[r]
  }

  /** How often the passes of a run count this row. */
  function TimesCounted(s: Store, run: seq<Step>, r: RawPing): nat
    decreases |run|
  {
    if run == [] then 0
    else Copies(Aggregated(s, run[0], r.task), r) + TimesCounted(Next(s, run[0]), run[1..], r)
  }

  /** The end of the minute in which the row was measured. */
  function MinuteEnd(r: RawPing): int {
    r.timestamp / 60 * 60 + 60
  }

  /** The pass of a minute: the first wake-up at or after its end, if that is not too late already. */
  function PassOf(run: seq<Step>, end: int): Option<nat>
    ensures PassOf(run, end).Some? ==> PassOf(run, end).value < |run|
    decreases |run|
  {
    if run == [] then None
    else if run[0].Wake? && MinuteOf(run[0].now) >= end then
      (if MinuteOf(run[0].now) == end then Some(0) else None)
    else
      match PassOf(run[1..], end)
      case None => None
      case Some(j) => Some(j + 1)
  }

  /** How often the row is handled in a run. */
  function Handled(run: seq<Step>, r: RawPing): nat {
    multiset(run)[Handle(r)]
  }

  /** The pass of a minute is at `j` exactly if that wake-up is in the next minute and all earlier ones were before it. */
  lemma {:induction false} PassIsFirstWake(run: seq<Step>, end: int, j: nat)
    requires j < |run|
    ensures PassOf(run, end) == Some(j) <==>
      && run[j].Wake? && run[j].now / 60 * 60 == end
      && forall i | 0 <= i < j :: run[i].Wake? ==> run[i].now / 60 * 60 < end
    decreases |run|
  {
    if j > 0 {
      PassIsFirstWake(run[1..], end, j - 1);
      assert forall i | 0 <= i < j - 1 :: run[1..][i] == run[i + 1];
      assert forall i | 0 < i < j :: run[i] == run[1..][i - 1];
    }
  }

  /** A step counts the copies in the store if it is the pass of the row's minute, and none otherwise. */
  lemma StepCounts(s: Store, e: Step, r: RawPing)
    ensures Copies(Aggregated(s, e, r.task), r) ==
      if e.Wake? && MinuteOf(e.now) > s.last && MinuteOf(e.now) == MinuteEnd(r) then Copies(s.table + s.buffer, r) else 0
  {
    if e.Wake? && MinuteOf(e.now) > s.last {
      RowIsInPeriod(s.table + s.buffer, r.task, MinuteOf(e.now) - 60, MinuteOf(e.now), r);
    }
  }

  lemma StepStores(s: Store, e: Step, r: RawPing)
    ensures Copies(Next(s, e).table + Next(s, e).buffer, r) ==
      Copies(s.table + s.buffer, r) + if e == Handle(r) then 1 else 0
  {
    if e.Handle? {
      assert s.table + (s.buffer + [e.row]) == (s.table + s.buffer) + [e.row];
    } else {
      assert (s.table + s.buffer) + [] == s.table + s.buffer;
    }
  }

  lemma {:induction false} NeverAfterItsMinute(s: Store, run: seq<Step>, r: RawPing)
    requires s.last >= MinuteEnd(r)
    ensures TimesCounted(s, run, r) == 0
    decreases |run|
  {
    if run != [] {
      StepCounts(s, run[0], r);
      NeverAfterItsMinute(Next(s, run[0]), run[1..], r);
    }
  }

  /** From any store: the pass of the minute counts what is there by then, and no other pass counts any of it. */
  lemma {:induction false} PassCountsWhatIsThere(s: Store, run: seq<Step>, r: RawPing)
    requires s.last < MinuteEnd(r)
    ensures TimesCounted(s, run, r) ==
      match PassOf(run, MinuteEnd(r))
      case None => 0
      case Some(j) => Copies(s.table + s.buffer, r) + Handled(run[..j], r)
    decreases |run|
  {
    hide Copies, Aggregated, Handled;
    if run != [] {
      var e, rest := run[0], run[1..];
      StepCounts(s, e, r);
      StepStores(s, e, r);
      if e.Wake? && MinuteOf(e.now) >= MinuteEnd(r) {
        NothingHandled(run, r);
        NeverAfterItsMinute(Next(s, e), rest, r);
      } else {
        PassCountsWhatIsThere(Next(s, e), rest, r);
        if PassOf(rest, MinuteEnd(r)).Some? {
          HandledFromFirst(run, PassOf(rest, MinuteEnd(r)).value, r);
        }
      }
    }
  }

  lemma NothingHandled(run: seq<Step>, r: RawPing)
    ensures Handled(run[..0], r) == 0
  {
  }

  lemma HandledFromFirst(run: seq<Step>, j: nat, r: RawPing)
    requires j < |run|
    ensures Handled(run[..j + 1], r) == (if run[0] == Handle(r) then 1 else 0) + Handled(run[1..][..j], r)
  {
    assert run[..j + 1] == [run[0]] + run[1..][..j];
  }

  /**
   In every run of one scheduler, each time a row is handled before the pass of its minute it is
   aggregated exactly once, and each time it is handled later, never: a result that is still on
   its way when its minute is aggregated reaches the table but no aggregate.
   */
  lemma RowsAreCountedIffInTime(run: seq<Step>, r: RawPing)
    requires r.timestamp >= 0
    ensures TimesCounted(Store(0, [], []), run, r) ==
      match PassOf(run, MinuteEnd(r))
      case None => 0
      case Some(j) => Handled(run[..j], r)
  {
    PassCountsWhatIsThere(Store(0, [], []), run, r);
  }

  /** A row handled too late: after the pass of its minute, never counted. */
  lemma LateRowIsNeverCounted(r: RawPing)
    requires r.timestamp == 70
    ensures TimesCounted(Store(0, [], []), [Wake(125), Handle(r), Flush, Wake(185)], r) == 0
  {
    var run := [Wake(125), Handle(r), Flush, Wake(185)];
    RowsAreCountedIffInTime(run, r);
    assert PassOf(run, 120) == Some(0);
    NothingHandled(run, r);
  }
}
