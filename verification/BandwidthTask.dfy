/**
 The agent's side of a bandwidth test: ask for the slot, wait as told, ask again. The server's
 answers and the clock are the environment; times are whole seconds since the task started.
 */
module BandwidthTask {
  import opened Wrappers
  import S = BandwidthSlot

  datatype Reply = RequestFailed | Proceed | Delay(seconds: Option<nat>)

  datatype Outcome = TimedOut | TooManyRetries | Rejected | CannotWait | Granted(remaining: nat)

  /** A Delay without a number means a minute. */
  function Seconds(r: Reply): nat
    requires r.Delay?
  {
    if r.seconds.Some? then r.seconds.value else 60
  }

  /**
   `top(i)` is the clock at the head of round i, `after(i)` once its answer is in. A sleep of
   d seconds takes at least d seconds; the clock never goes back.
   */
  ghost predicate ClockOk(reply: nat -> Reply, top: nat -> nat, after: nat -> nat) {
    forall i: nat :: RoundOk(reply, top, after, i)
  }

  ghost predicate RoundOk(reply: nat -> Reply, top: nat -> nat, after: nat -> nat, i: nat) {
    top(i) <= after(i) && (reply(i).Delay? ==> after(i) + Seconds(reply(i)) <= top(i + 1))
  }

  function TotalSleep(reply: nat -> Reply, rounds: nat): nat {
    if rounds == 0 then 0
    else TotalSleep(reply, rounds - 1) + if reply(rounds - 1).Delay? then Seconds(reply(rounds - 1)) else 0
  }

  /** The sleep of consecutive rounds adds up; a single round sleeps as long as its Delay says, and otherwise not. */
  lemma {:induction false} SleepAddsUp(reply: nat -> Reply, m: nat, n: nat)
    ensures TotalSleep(reply, m + n) == TotalSleep(reply, m) + TotalSleep((i: nat) => reply(m + i), n)
    ensures reply(m) == Delay(None) ==> TotalSleep((i: nat) => reply(m + i), 1) == 60
    ensures reply(m).Delay? && reply(m).seconds.Some? ==> TotalSleep((i: nat) => reply(m + i), 1) == reply(m).seconds.value
    ensures !reply(m).Delay? ==> TotalSleep((i: nat) => reply(m + i), 1) == 0
  {
    var later := (i: nat) => reply(m + i);
    assert TotalSleep(later, 0) == 0 && later(0) == reply(m);
    if n > 0 {
      SleepAddsUp(reply, m, n - 1);
      assert later(n - 1) == reply(m + n - 1);
    }
  }

  /** The clock, the answers and the settings of one run of the loop. */
  datatype Session = Session(
    timeout: nat, maxRetries: nat, reply: nat -> Reply, top: nat -> nat, after: nat -> nat, granted: nat -> nat
  )

  /** The answer to request `i` is a Delay that ends before the timeout. */
  predicate CanWait(x: Session, i: nat) {
    x.reply(i).Delay? && x.after(i) + Seconds(x.reply(i)) < x.timeout
  }

  /** What the loop answers after `requests` requests, all but the last of which were waited out. */
  ghost predicate EndsWith(x: Session, outcome: Outcome, requests: nat) {
    && requests <= x.maxRetries
    && (forall i: nat | i < requests :: x.top(i) < x.timeout)
    && (forall i: nat | i + 1 < requests :: CanWait(x, i))
    && (outcome == CannotWait <==> requests > 0 && x.reply(requests - 1).Delay? && !CanWait(x, requests - 1))
    && (outcome == Rejected <==> requests > 0 && x.reply(requests - 1).RequestFailed?)
    && (outcome.Granted? <==> requests > 0 && x.reply(requests - 1).Proceed?)
    && (outcome == TimedOut ==> x.top(requests) >= x.timeout)
    && (outcome == TooManyRetries ==> requests == x.maxRetries && x.top(requests) < x.timeout)
    && (outcome.Granted? ==>
          outcome.remaining == if x.granted(requests - 1) < x.timeout then x.timeout - x.granted(requests - 1) else 0)
  }

  /** The requests whose Delay the agent sat out. */
  function Waits(outcome: Outcome, requests: nat): nat {
    if requests == 0 || outcome.TimedOut? || outcome.TooManyRetries? then requests else requests - 1
  }

  /**
   Against any answers the loop ends, asks at most `maxRetries` times and sleeps less than the
   task timeout in all; what is left for the download is the rest of the timeout.
   */
  method AcquireSlot(x: Session) returns (outcome: Outcome, requests: nat, slept: nat)
    requires ClockOk(x.reply, x.top, x.after)
    ensures EndsWith(x, outcome, requests)
    ensures slept == TotalSleep(x.reply, Waits(outcome, requests))
    ensures slept == 0 || slept < x.timeout
  {
    requests, slept := 0, 0;
    var retries := 0;
    while true
      invariant retries == requests <= x.maxRetries
      invariant slept == TotalSleep(x.reply, retries) <= x.top(retries)
      invariant slept == 0 || slept < x.timeout
      invariant forall i: nat | i < retries :: CanWait(x, i) && x.top(i) < x.timeout
      decreases x.maxRetries - retries
    {
      if x.top(retries) >= x.timeout {
        return TimedOut, requests, slept;
      }
      if retries >= x.maxRetries {
        return TooManyRetries, requests, slept;
      }
      assert RoundOk(x.reply, x.top, x.after, retries);
      var answer := x.reply(retries);
      requests := requests + 1;
      match answer {
        case RequestFailed =>
          return Rejected, requests, slept;
        case Delay(_) =>
          var seconds := Seconds(answer);
          if x.after(retries) + seconds >= x.timeout {
            return CannotWait, requests, slept;
          }
          slept := slept + seconds;
          retries := retries + 1;
        case Proceed =>
          var elapsed := x.granted(retries);
          return Granted(if elapsed < x.timeout then x.timeout - elapsed else 0), requests, slept;
      }
    }
  }

  /** The contract of the loop leaves it no choice: outcome and number of requests are determined. */
  lemma OutcomeIsDetermined(x: Session, a: Outcome, m: nat, b: Outcome, n: nat)
    requires EndsWith(x, a, m) && EndsWith(x, b, n) && m <= n
    ensures m == n && a == b
  {
    assert m < n ==> x.top(m) < x.timeout;
    assert 0 < m < n ==> CanWait(x, m - 1);
  }

  /** The server's answer to a queued agent, as the agent reads it. */
  function FromServer(a: S.Answer): Reply {
    match a
    case Proceed => Proceed
    case Delay(seconds) => Delay(if seconds < 0 then None else Some(seconds))
  }

  /** The server answers the first request of the session, and the agent may still ask. */
  ghost predicate AsksServer(x: Session, s: S.Slot, cfg: S.Settings, agent: string, c: S.Clock) {
    && S.SlotOk(s, c.check) && S.Ordered(c)
    && x.maxRetries > 0 && x.top(0) < x.timeout
    && x.reply(0) == FromServer(S.Request(s, cfg, agent, c).1)
  }

  /** An agent that the server queues gives up at once, without a second request or any sleep. */
  ghost predicate GivesUpAtOnce(x: Session, outcome: Outcome, requests: nat) {
    outcome == CannotWait && requests == 1 && TotalSleep(x.reply, Waits(outcome, requests)) == 0
  }

  lemma GivesUpIff(x: Session, outcome: Outcome, requests: nat)
    requires EndsWith(x, outcome, requests) && x.maxRetries > 0 && x.top(0) < x.timeout && x.reply(0).Delay?
    ensures GivesUpAtOnce(x, outcome, requests) <==> x.after(0) + Seconds(x.reply(0)) >= x.timeout
  {
    if !CanWait(x, 0) {
      assert EndsWith(x, CannotWait, 1);
      if requests >= 1 {
        OutcomeIsDetermined(x, CannotWait, 1, outcome, requests);
      }
    }
  }

  /** A Delay without a number is taken for sixty seconds. */
  lemma UnnumberedDelayIsAMinute(x: Session, outcome: Outcome, requests: nat)
    requires EndsWith(x, outcome, requests) && x.maxRetries > 0 && x.top(0) < x.timeout && x.reply(0) == Delay(None)
    ensures outcome == CannotWait && requests == 1 <==> x.after(0) + 60 >= x.timeout
  {
    GivesUpIff(x, outcome, requests);
  }

  /**
   Coordinator and agent together: a queued agent gives up on its first answer if and only if
   the delay the server computes reaches its timeout. It always does so if its timeout is within
   the current-test delay and the maximum delay, as long as the delay's sum fits u32.
   */
  lemma QueuedAgentGivesUp(x: Session, s: S.Slot, cfg: S.Settings, agent: string, c: S.Clock, outcome: Outcome, requests: nat)
    requires AsksServer(x, s, cfg, agent, c) && S.Request(s, cfg, agent, c).1.Delay? && EndsWith(x, outcome, requests)
    ensures GivesUpAtOnce(x, outcome, requests) <==> x.after(0) + S.Request(s, cfg, agent, c).1.seconds >= x.timeout
    ensures (
      && S.FitsU32(|S.Request(s, cfg, agent, c).0.queue| - 1, cfg) && cfg.maxDelay < 0x1_0000_0000
      && x.timeout <= cfg.currentTestDelay && x.timeout <= cfg.maxDelay) ==> GivesUpAtOnce(x, outcome, requests)
  {
    hide S.Request, S.SlotOk, S.Expire, S.Without, S.AsU32, S.TruncationIsHarmless, S.Ordered, EndsWith, GivesUpAtOnce;
    S.DelayIsDocumented(s, cfg, agent, c);
    GivesUpIff(x, outcome, requests);
  }

  /** The defaults: a minute for the task, and for the delay while another test runs. */
  const DEFAULTS := S.Settings(120, 300, 30, 60, 30)
  const DEFAULT_TIMEOUT := 60

  /** With the default settings every queued agent gives up at once, while the delay's sum fits u32. */
  lemma DefaultsNeverRetry(x: Session, s: S.Slot, agent: string, c: S.Clock, outcome: Outcome, requests: nat)
    requires AsksServer(x, s, DEFAULTS, agent, c) && S.Request(s, DEFAULTS, agent, c).1.Delay? && EndsWith(x, outcome, requests)
    requires x.timeout == DEFAULT_TIMEOUT && S.FitsU32(|s.queue|, DEFAULTS)
    ensures GivesUpAtOnce(x, outcome, requests)
  {
    hide S.Request, S.SlotOk, S.Expire, S.Without, S.Ordered, S.Fresh, EndsWith, GivesUpAtOnce, AsksServer;
    AheadWereWaiting(s, DEFAULTS, agent, c);
    QueuedAgentGivesUp(x, s, DEFAULTS, agent, c, outcome, requests);
  }

  lemma AheadWereWaiting(s: S.Slot, cfg: S.Settings, agent: string, c: S.Clock)
    requires S.Request(s, cfg, agent, c).1.Delay?
    ensures 0 < |S.Request(s, cfg, agent, c).0.queue| <= |s.queue| + 1
  {
    ShorterFresh(s.queue, c.cutoff - cfg.maxDelay * S.TICKS);
    ShorterQueue(S.Expire(s, cfg, c).queue, agent);
  }

  lemma {:induction false} ShorterQueue(queue: seq<S.Holder>, agent: string)
    ensures |S.Without(queue, agent)| <= |queue|
  {
    if queue != [] { ShorterQueue(queue[1..], agent); }
  }

  lemma {:induction false} ShorterFresh(queue: seq<S.Holder>, cutoff: int)
    ensures |S.Fresh(queue, cutoff)| <= |queue|
  {
    if queue != [] { ShorterFresh(queue[1..], cutoff); }
  }

  // ---------- the download ----------

  const CHUNK: nat := 64 * 1024

  /** Length of the i-th chunk the server streams for a download of `total` bytes. */
  function ChunkLength(total: nat, i: nat): nat {
    var remaining := if i * CHUNK < total then total - i * CHUNK else 0;
    if remaining < CHUNK then remaining else CHUNK
  }

  function ChunksNeeded(total: nat): nat {
    (total + CHUNK - 1) / CHUNK
  }

  function StreamedBytes(total: nat, chunks: nat): nat {
    if chunks == 0 then 0 else StreamedBytes(total, chunks - 1) + ChunkLength(total, chunks - 1)
  }

  lemma {:induction false} StreamedPrefix(total: nat, chunks: nat)
    ensures StreamedBytes(total, chunks) == if chunks * CHUNK < total then chunks * CHUNK else total
  {
    if chunks > 0 { StreamedPrefix(total, chunks - 1); }
  }

  /** The streamed chunks are exactly the announced Content-Length, and none of them is empty. */
  lemma StreamIsComplete(total: nat)
    ensures StreamedBytes(total, ChunksNeeded(total)) == total
    ensures forall i: nat | i < ChunksNeeded(total) :: 0 < ChunkLength(total, i) <= CHUNK
  {
    StreamedPrefix(total, ChunksNeeded(total));
    forall i: nat | i < ChunksNeeded(total)
      ensures 0 < ChunkLength(total, i) <= CHUNK
    {
      assert i * CHUNK <= (ChunksNeeded(total) - 1) * CHUNK < total;
    }
  }

  /** A chunk of the stream is all zeros. */
  function Zeros(n: nat): string {
    seq(n, _ => 0 as char)
  }

  /** The body the server streams, as one text. */
  function Stream(total: nat, chunks: nat): string {
    if chunks == 0 then "" else Stream(total, chunks - 1) + Zeros(ChunkLength(total, chunks - 1))
  }

  lemma {:induction false} StreamLength(total: nat, chunks: nat)
    ensures |Stream(total, chunks)| == StreamedBytes(total, chunks)
  {
    if chunks > 0 { StreamLength(total, chunks - 1); }
  }

  function Flat(pieces: seq<string>): string {
    if pieces == [] then "" else Flat(pieces[..|pieces| - 1]) + pieces[|pieces| - 1]
  }

  /** `pieces` is `whole`, cut at `cuts`. */
  predicate IsCut(whole: string, cuts: seq<nat>, pieces: seq<string>) {
    && |cuts| == |pieces| + 1 && cuts[0] == 0 && cuts[|pieces|] == |whole|
    && (forall i, j | 0 <= i <= j < |cuts| :: cuts[i] <= cuts[j] <= |whole|)
    && (forall i | 0 <= i < |pieces| :: pieces[i] == whole[cuts[i]..cuts[i + 1]])
  }

  lemma {:induction false} CutPrefix(whole: string, cuts: seq<nat>, pieces: seq<string>, n: nat)
    requires IsCut(whole, cuts, pieces) && n <= |pieces|
    ensures Flat(pieces[..n]) == whole[..cuts[n]]
  {
    if n > 0 {
      CutPrefix(whole, cuts, pieces, n - 1);
      assert pieces[..n][..n - 1] == pieces[..n - 1];
      assert whole[..cuts[n - 1]] + whole[cuts[n - 1]..cuts[n]] == whole[..cuts[n]];
    }
  }

  /** Pieces cut from a text make up that text. */
  lemma CutIsFlat(whole: string, cuts: seq<nat>, pieces: seq<string>)
    requires IsCut(whole, cuts, pieces)
    ensures Flat(pieces) == whole
  {
    CutPrefix(whole, cuts, pieces, |pieces|);
    assert pieces[..|pieces|] == pieces && whole[..|whole|] == whole;
  }

  /** The agent counts the bytes of the pieces in which the stream arrives. */
  method CountBytes(pieces: seq<string>) returns (bytes: nat)
    ensures bytes == |Flat(pieces)|
  {
    bytes := 0;
    var i := 0;
    while i < |pieces|
      invariant 0 <= i <= |pieces| && bytes == |Flat(pieces[..i])|
    {
      assert pieces[..i + 1][..i] == pieces[..i];
      bytes := bytes + |pieces[i]|;
      i := i + 1;
    }
    assert pieces[..i] == pieces;
  }

  /** Server and agent together: wherever the network cuts the stream, the agent counts the announced size. */
  lemma CountedIsSent(total: nat, cuts: seq<nat>, pieces: seq<string>)
    requires IsCut(Stream(total, ChunksNeeded(total)), cuts, pieces)
    ensures |Flat(pieces)| == total
  {
    CutIsFlat(Stream(total, ChunksNeeded(total)), cuts, pieces);
    StreamIsComplete(total);
    StreamLength(total, ChunksNeeded(total));
  }
}
