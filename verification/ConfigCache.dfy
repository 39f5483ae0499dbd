/**
 The read-through cache of agent configurations, kept fresh by file-change events.

 A cached entry is the text of a file; its hash and its compressed form are functions of the
 text. A file that exists may be unreadable (no UTF-8, no permission).
 */
module ConfigCache {
  import opened Wrappers

  datatype File = Text(content: string) | Unreadable

  type Disk = map<string, File>
  type Cache = map<string, string>

  /** What a reader without a cache would get. */
  function DirectRead(disk: Disk, id: string): Result<string> {
    if id !in disk then Err("not found")
    else if disk[id].Unreadable? then Err("not readable")
    else Ok(disk[id].content)
  }

  function Get(cache: Cache, disk: Disk, id: string): Result<string> {
    if id in cache then Ok(cache[id]) else DirectRead(disk, id)
  }

  function Filled(cache: Cache, disk: Disk, id: string): Cache {
    if id in cache || DirectRead(disk, id).Err? then cache else cache[id := DirectRead(disk, id).value]
  }

  /** A cache brought up to date for one file; a file that cannot be read leaves it as it is. */
  function Refreshed(cache: Cache, disk: Disk, id: string): Cache {
    if id !in disk then cache - {id}
    else if disk[id].Unreadable? then cache
    else cache[id := disk[id].content]
  }

  predicate SameEntry(before: Cache, after: Cache, id: string) {
    (id in after <==> id in before) && (id in after ==> after[id] == before[id])
  }

  /** No cached text differs from its file, but it may outlive one that became unreadable. */
  ghost predicate CacheOk(cache: Cache, disk: Disk, id: string) {
    id in cache ==> id in disk && (disk[id] == Text(cache[id]) || disk[id].Unreadable?)
  }

  /** An answer is that of a direct read unless an old text hides an unreadable file. */
  lemma AgreesIff(cache: Cache, disk: Disk, id: string)
    requires CacheOk(cache, disk, id)
    ensures Get(cache, disk, id) == DirectRead(disk, id) <==> !(id in cache && id in disk && disk[id].Unreadable?)
  {
  }

  /** The texts behind a listing of the directory. */
  function Readable(entries: seq<string>, disk: Disk): Cache {
    if entries == [] then map[]
    else
      var id := entries[|entries| - 1];
      var before := Readable(entries[..|entries| - 1], disk);
      if id in disk && disk[id].Text? then before[id := disk[id].content] else before
  }

  lemma {:induction false} ReadableHolds(entries: seq<string>, disk: Disk, id: string)
    ensures id in Readable(entries, disk) <==> id in entries && id in disk && disk[id].Text?
    ensures id in Readable(entries, disk) ==> disk[id] == Text(Readable(entries, disk)[id])
  {
    if entries != [] {
      ReadableHolds(entries[..|entries| - 1], disk, id);
    }
  }

  function ReadableCount(entries: seq<string>, disk: Disk): nat {
    if entries == [] then 0
    else
      var id := entries[|entries| - 1];
      ReadableCount(entries[..|entries| - 1], disk) + if id in disk && disk[id].Text? then 1 else 0
  }

  predicate NoRepeats(entries: seq<string>) {
    entries == [] || (entries[|entries| - 1] !in entries[..|entries| - 1] && NoRepeats(entries[..|entries| - 1]))
  }

  /** Names in a directory do not repeat, so the count is the number of texts loaded. */
  lemma {:induction false} CountIsNumberLoaded(entries: seq<string>, disk: Disk)
    requires NoRepeats(entries)
    ensures ReadableCount(entries, disk) == |Readable(entries, disk)|
  {
    if entries != [] {
      var init := entries[..|entries| - 1];
      CountIsNumberLoaded(init, disk);
      ReadableHolds(init, disk, entries[|entries| - 1]);
    }
  }

  class ConfigManager {
    var cache: Cache

    constructor ()
      ensures cache == map[]
    {
      cache := map[];
    }

    /** Fill the cache from a listing of the directory; unreadable files are skipped. */
    method LoadAllAgentConfigs(entries: seq<string>, disk: Disk) returns (count: nat)
      modifies this
      ensures cache == old(cache) + Readable(entries, disk)
      ensures count == ReadableCount(entries, disk)
      ensures forall id | id in entries && id in disk && disk[id].Text? :: id in cache && disk[id] == Text(cache[id])
      ensures forall id | !(id in entries && id in disk && disk[id].Text?) :: SameEntry(old(cache), cache, id)
    {
      count := 0;
      var i := 0;
      while i < |entries|
        invariant 0 <= i <= |entries|
        invariant cache == old(cache) + Readable(entries[..i], disk)
        invariant count == ReadableCount(entries[..i], disk)
      {
        assert entries[..i + 1][..i] == entries[..i];
        if entries[i] in disk && disk[entries[i]].Text? {
          cache := cache[entries[i] := disk[entries[i]].content];
          count := count + 1;
        }
        i := i + 1;
      }
      assert entries[..i] == entries;
      forall id {
        ReadableHolds(entries, disk, id);
      }
    }

    /** A miss reads the file and keeps its text; a hit and an error leave the cache as it was. */
    method GetAgentConfig(id: string, disk: Disk) returns (r: Result<string>)
      modifies this
      ensures r == Get(old(cache), disk, id)
      ensures cache == Filled(old(cache), disk, id)
      ensures r.Ok? <==> id in old(cache) || (id in disk && disk[id].Text?)
      ensures r.Ok? ==> id in cache && cache[id] == r.value
      ensures r.Ok? && id !in old(cache) ==> disk[id] == Text(r.value)
      ensures r.Err? || id in old(cache) ==> cache == old(cache)
      ensures forall other | other != id :: SameEntry(old(cache), cache, other)
    {
      if id in cache {
        return Ok(cache[id]);
      }
      if id !in disk {
        return Err("not found");
      }
      if disk[id].Unreadable? {
        return Err("not readable");
      }
      cache := cache[id := disk[id].content];
      r := Ok(disk[id].content);
    }

    method InvalidateAgentCache(id: string)
      modifies this
      ensures cache == old(cache) - {id}
    {
      cache := cache - {id};
    }

    method ReloadAgentConfig(id: string, disk: Disk) returns (r: Result<()>)
      modifies this
      ensures cache == Refreshed(old(cache), disk, id)
      ensures r.Err? <==> id in disk && disk[id].Unreadable?
      ensures r.Err? ==> cache == old(cache)
      ensures r.Ok? ==> (id in cache <==> id in disk) && (id in disk ==> disk[id] == Text(cache[id]))
      ensures forall other | other != id :: SameEntry(old(cache), cache, other)
    {
      if id !in disk {
        InvalidateAgentCache(id);
        return Ok(());
      }
      if disk[id].Unreadable? {
        return Err("not readable");
      }
      cache := cache[id := disk[id].content];
      r := Ok(());
    }

    /**
     The updater's loop over the events it receives while the files rest: whatever the order
     and the repetitions, every file named is brought up to date and nothing else changes.
     */
    method UpdateFromEvents(events: seq<string>, disk: Disk)
      modifies this
      ensures forall id | id in events :: Agrees(old(cache), cache, disk, id)
      ensures forall id | id !in events :: SameEntry(old(cache), cache, id)
    {
      var i := 0;
      while i < |events|
        invariant 0 <= i <= |events|
        invariant forall id | id in events[..i] :: Agrees(old(cache), cache, disk, id)
        invariant forall id | id !in events[..i] :: SameEntry(old(cache), cache, id)
      {
        assert events[..i + 1] == events[..i] + [events[i]];
        var _ := ReloadAgentConfig(events[i], disk);
        i := i + 1;
      }
      assert events[..i] == events;
    }
  }

  ghost predicate Agrees(before: Cache, cache: Cache, disk: Disk, id: string) {
    if id in disk && disk[id].Unreadable? then SameEntry(before, cache, id)
    else Get(cache, disk, id) == DirectRead(disk, id) && (id in cache <==> id in disk)
  }

  // ---------- runs ----------

  /** Where the updater is with the event it took. */
  datatype Updater = Ready | Received(id: string) | Reading(id: string) | Holding(id: string, content: string) | Removing(id: string)

  /** Where a cache miss is; the lock of the manager lets one through at a time. */
  datatype Fill = NoFill | Missed(id: string) | Loaded(id: string, content: string)

  datatype State = State(disk: Disk, cache: Cache, watching: bool, pending: seq<string>, updater: Updater, fill: Fill)

  datatype Event =
    | LoadAll(entries: seq<string>)
    | StartWatcher
    | Write(id: string, file: Option<File>)
    | Touch(id: string)
    // the updater: take an event, look whether the file exists, read it, change the cache
    | Receive
    | Look
    | Read
    | Change
    // a request that misses the cache: check, read the file, change the cache
    | Miss(id: string)
    | LoadMissed
    | StoreMissed
    | Invalidate(id: string)

  function Init(disk: Disk): State {
    State(disk, map[], false, [], Ready, NoFill)
  }

  predicate CanStep(s: State, e: Event) {
    match e
    case LoadAll(_) => !s.watching
    case StartWatcher => !s.watching
    case Write(_, _) => true
    case Touch(_) => s.watching
    case Receive => s.updater.Ready? && s.pending != []
    case Look => s.updater.Received?
    case Read => s.updater.Reading?
    case Change => s.updater.Holding? || s.updater.Removing?
    case Miss(id) => s.fill.NoFill? && id !in s.cache
    case LoadMissed => s.fill.Missed?
    case StoreMissed => s.fill.Loaded?
    case Invalidate(_) => true
  }

  function Notify(s: State, id: string): seq<string> {
    if s.watching then s.pending + [id] else s.pending
  }

  function Apply(s: State, e: Event): State
    requires CanStep(s, e)
  {
    match e
    case LoadAll(entries) =>
      s.(cache := s.cache + Readable(entries, s.disk))
    case StartWatcher => s.(watching := true)
    case Write(id, file) =>
      s.(disk := if file.Some? then s.disk[id := file.value] else s.disk - {id}, pending := Notify(s, id))
    case Touch(id) => s.(pending := s.pending + [id])
    case Receive => s.(updater := Received(s.pending[0]), pending := s.pending[1..])
    case Look =>
      s.(updater := if s.updater.id in s.disk then Reading(s.updater.id) else Removing(s.updater.id))
    case Read =>
      var r := DirectRead(s.disk, s.updater.id);
      s.(updater := if r.Ok? then Holding(s.updater.id, r.value) else Ready)
    case Change =>
      s.(updater := Ready,
         cache := if s.updater.Holding? then s.cache[s.updater.id := s.updater.content] else s.cache - {s.updater.id})
    case Miss(id) => s.(fill := Missed(id))
    case LoadMissed =>
      var r := DirectRead(s.disk, s.fill.id);
      s.(fill := if r.Ok? then Loaded(s.fill.id, r.value) else NoFill)
    case StoreMissed => s.(fill := NoFill, cache := s.cache[s.fill.id := s.fill.content])
    case Invalidate(id) => s.(cache := s.cache - {id})
  }

  predicate CanRun(s: State, run: seq<Event>)
    decreases |run|
  {
    run == [] || (CanStep(s, run[0]) && CanRun(Apply(s, run[0]), run[1..]))
  }

  function Execute(s: State, run: seq<Event>): State
    requires CanRun(s, run)
    decreases |run|
  {
    if run == [] then s else Execute(Apply(s, run[0]), run[1..])
  }

  predicate Settled(s: State, id: string) {
    id !in s.pending && (s.updater.Ready? || s.updater.id != id)
  }

  /** What a cached text of this file may be: the text of the file, unless that cannot be read. */
  predicate IsCurrent(disk: Disk, id: string, content: string) {
    id in disk && (disk[id] == Text(content) || disk[id].Unreadable?)
  }

  /**
   Two things go wrong unnoticed: before the watcher runs, a file that is cached changes; and a
   fill stores the old text of a file after the event of the change was handled.
   */
  predicate IsSafe(s: State, e: Event, id: string) {
    && (e.Write? && e.id == id && !s.watching && id in s.cache ==>
          e.file.Some? && (e.file.value == Text(s.cache[id]) || e.file.value.Unreadable?))
    && (e.StoreMissed? && s.fill.Loaded? && s.fill.id == id && Settled(s, id) ==> IsCurrent(s.disk, id, s.fill.content))
  }

  predicate SafeRun(s: State, run: seq<Event>, id: string)
    requires CanRun(s, run)
    decreases |run|
  {
    run == [] || (IsSafe(s, run[0], id) && SafeRun(Apply(s, run[0]), run[1..], id))
  }

  /** Until the watcher runs there are no events to wait for. */
  ghost predicate WatcherOk(s: State) {
    !s.watching ==> s.pending == [] && s.updater.Ready?
  }

  ghost predicate InSync(s: State, id: string) {
    && WatcherOk(s)
    && (Settled(s, id) ==> CacheOk(s.cache, s.disk, id))
    && (id !in s.pending && s.updater == Reading(id) ==> id in s.disk)
    && (id !in s.pending && s.updater == Removing(id) ==> id !in s.disk)
    && (id !in s.pending && s.updater.Holding? && s.updater.id == id ==> DirectRead(s.disk, id) == Ok(s.updater.content))
  }

  lemma StepKeepsSync(s: State, e: Event, id: string)
    requires CanStep(s, e) && IsSafe(s, e, id) && InSync(s, id)
    ensures InSync(Apply(s, e), id)
  {
    if e.LoadAll? {
      ReadableHolds(e.entries, s.disk, id);
    }
    if e.Receive? {
      assert s.pending == [s.pending[0]] + s.pending[1..];
    }
  }

  /** An unsafe step leaves a settled file with a wrong text. */
  lemma UnsafeStepIsWrong(s: State, e: Event, id: string)
    requires CanStep(s, e) && !IsSafe(s, e, id) && WatcherOk(s)
    ensures Settled(Apply(s, e), id) && !CacheOk(Apply(s, e).cache, Apply(s, e).disk, id)
  {
  }

  lemma {:induction false} RunKeepsSync(s: State, run: seq<Event>, id: string)
    requires CanRun(s, run) && SafeRun(s, run, id) && InSync(s, id)
    ensures InSync(Execute(s, run), id)
    decreases |run|
  {
    if run != [] {
      StepKeepsSync(s, run[0], id);
      RunKeepsSync(Apply(s, run[0]), run[1..], id);
    }
  }

  /** At every moment of the run at which the file is settled, no cached text of it is wrong. */
  ghost predicate AlwaysRight(s: State, run: seq<Event>, id: string)
    requires CanRun(s, run)
    decreases |run|
  {
    && (Settled(s, id) ==> CacheOk(s.cache, s.disk, id))
    && (run != [] ==> AlwaysRight(Apply(s, run[0]), run[1..], id))
  }

  lemma {:induction false} AlwaysRightIffSafe(s: State, run: seq<Event>, id: string)
    requires CanRun(s, run) && InSync(s, id)
    ensures AlwaysRight(s, run, id) <==> SafeRun(s, run, id)
    decreases |run|
  {
    hide IsSafe, Apply;
    if run != [] {
      if IsSafe(s, run[0], id) {
        StepKeepsSync(s, run[0], id);
        AlwaysRightIffSafe(Apply(s, run[0]), run[1..], id);
      } else {
        UnsafeStepIsWrong(s, run[0], id);
        WrongNow(Apply(s, run[0]), run[1..], id);
      }
    }
  }

  lemma WrongNow(s: State, run: seq<Event>, id: string)
    requires CanRun(s, run) && Settled(s, id) && !CacheOk(s.cache, s.disk, id)
    ensures !AlwaysRight(s, run, id)
  {
  }

  /**
   A run never shows a settled file with a wrong cached text if and only if it is safe for that
   file: whatever else writers, updater, events and fills do in between does no harm.
   */
  lemma NeverWrongIffSafe(disk: Disk, run: seq<Event>, id: string)
    requires CanRun(Init(disk), run)
    ensures AlwaysRight(Init(disk), run, id) <==> SafeRun(Init(disk), run, id)
  {
    AlwaysRightIffSafe(Init(disk), run, id);
  }

  /**
   In every state a safe run reaches, for every file without a pending event, an answer is
   exactly that of a direct read, unless an old text hides a file that can no longer be read.
   */
  lemma CacheAgreesWithDisk(disk: Disk, run: seq<Event>, id: string)
    requires CanRun(Init(disk), run) && SafeRun(Init(disk), run, id)
    requires Settled(Execute(Init(disk), run), id)
    ensures var s := Execute(Init(disk), run);
      Get(s.cache, s.disk, id) == DirectRead(s.disk, id) <==> !(id in s.cache && id in s.disk && s.disk[id].Unreadable?)
  {
    RunKeepsSync(Init(disk), run, id);
    var s := Execute(Init(disk), run);
    AgreesIff(s.cache, s.disk, id);
  }

  // ---------- the machine and the methods ----------

  /** A miss that nothing interrupts is one call of `GetAgentConfig`: same answer, same cache. */
  lemma FillIsGet(s: State, id: string)
    requires s.fill.NoFill? && id !in s.cache
    ensures var s1 := Apply(s, Miss(id));
      var s2 := Apply(s1, LoadMissed);
      if id in s.disk && s.disk[id].Text? then
        && s2.fill == Loaded(id, s.disk[id].content) && Get(s.cache, s.disk, id) == Ok(s.disk[id].content)
        && CanStep(s2, StoreMissed) && Apply(s2, StoreMissed) == s.(cache := s.cache[id := s.disk[id].content])
        && Apply(s2, StoreMissed).cache == Filled(s.cache, s.disk, id)
      else
        s2 == s && Get(s.cache, s.disk, id).Err? && Filled(s.cache, s.disk, id) == s.cache
  {
  }

  /** The state once the updater has dealt with its next event, undisturbed. */
  function Updated(s: State): State
    requires s.updater.Ready? && s.pending != []
  {
    var s2 := Apply(Apply(s, Receive), Look);
    var s3 := if s2.updater.Reading? then Apply(s2, Read) else s2;
    if s3.updater.Ready? then s3 else Apply(s3, Change)
  }

  /** An event that nothing interrupts is one call of `ReloadAgentConfig`. */
  lemma UpdateIsReload(s: State)
    requires s.updater.Ready? && s.pending != []
    ensures var id := s.pending[0];
      && Updated(s) == s.(pending := s.pending[1..], cache := Updated(s).cache)
      && Updated(s).cache == Refreshed(s.cache, s.disk, id)
      && (id !in s.disk ==> Updated(s).cache == s.cache - {id})
      && (id in s.disk && s.disk[id].Text? ==> Updated(s).cache == s.cache[id := s.disk[id].content])
      && (id in s.disk && s.disk[id].Unreadable? ==> Updated(s).cache == s.cache)
  {
  }

  // ---------- why each condition is needed ----------

  lemma {:induction false} RunOn(s: State, run: seq<Event>, more: seq<Event>)
    requires CanRun(s, run) && CanRun(Execute(s, run), more)
    ensures CanRun(s, run + more) && Execute(s, run + more) == Execute(Execute(s, run), more)
    decreases |run|
  {
    if run == [] {
      assert run + more == more;
    } else {
      assert (run + more)[1..] == run[1..] + more;
      RunOn(Apply(s, run[0]), run[1..], more);
    }
  }

  lemma FirstStep(s: State, e: Event)
    requires CanStep(s, e)
    ensures CanRun(s, [e]) && Execute(s, [e]) == Apply(s, e)
  {
  }

  lemma OneStep(s: State, run: seq<Event>, e: Event)
    requires CanRun(s, run) && CanStep(Execute(s, run), e)
    ensures CanRun(s, run + [e]) && Execute(s, run + [e]) == Apply(Execute(s, run), e)
  {
    assert CanRun(Execute(s, run), [e]);
    RunOn(s, run, [e]);
  }

  /** A settled file that is answered with something else than its text. */
  ghost predicate WronglySettled(disk: Disk, run: seq<Event>, id: string) {
    && CanRun(Init(disk), run)
    && var s := Execute(Init(disk), run);
      s.watching && Settled(s, id) && s.fill.NoFill? && Get(s.cache, s.disk, id) != DirectRead(s.disk, id)
  }

  /** A change between the two halves of a fill is lost: its event is handled before the old text goes in. */
  lemma OverlappingFillGoesStale()
    ensures WronglySettled(map["a" := Text("old")],
      [StartWatcher, Miss("a"), LoadMissed, Write("a", Some(Text("new"))), Receive, Look, Read, Change, StoreMissed], "a")
  {
    hide CanRun, Execute;
    var s := Init(map["a" := Text("old")]);
    var r1 := [StartWatcher];
    FirstStep(s, StartWatcher);
    OneStep(s, r1, Miss("a"));
    var r2 := r1 + [Miss("a")];
    OneStep(s, r2, LoadMissed);
    var r3 := r2 + [LoadMissed];
    OneStep(s, r3, Write("a", Some(Text("new"))));
    var r4 := r3 + [Write("a", Some(Text("new")))];
    OneStep(s, r4, Receive);
    var r5 := r4 + [Receive];
    OneStep(s, r5, Look);
    var r6 := r5 + [Look];
    OneStep(s, r6, Read);
    var r7 := r6 + [Read];
    OneStep(s, r7, Change);
    var r8 := r7 + [Change];
    OneStep(s, r8, StoreMissed);
    assert r8 + [StoreMissed] ==
      [StartWatcher, Miss("a"), LoadMissed, Write("a", Some(Text("new"))), Receive, Look, Read, Change, StoreMissed];
  }

  /** A change between the initial load and the start of the watcher raises no event. */
  lemma UnwatchedWriteGoesStale()
    ensures WronglySettled(map["a" := Text("old")], [LoadAll(["a"]), Write("a", Some(Text("new"))), StartWatcher], "a")
  {
    hide CanRun, Execute;
    var s := Init(map["a" := Text("old")]);
    var r1 := [LoadAll(["a"])];
    FirstStep(s, LoadAll(["a"]));
    ReadableHolds(["a"], s.disk, "a");
    OneStep(s, r1, Write("a", Some(Text("new"))));
    var r2 := r1 + [Write("a", Some(Text("new")))];
    OneStep(s, r2, StartWatcher);
    assert r2 + [StartWatcher] == [LoadAll(["a"]), Write("a", Some(Text("new"))), StartWatcher];
  }

  /** A file that becomes unreadable keeps being answered with its old text, also after its event. */
  lemma UnreadableKeepsOldText()
    ensures WronglySettled(map["a" := Text("old")],
      [LoadAll(["a"]), StartWatcher, Write("a", Some(Unreadable)), Receive, Look, Read], "a")
  {
    hide CanRun, Execute;
    var s := Init(map["a" := Text("old")]);
    var r1 := [LoadAll(["a"])];
    FirstStep(s, LoadAll(["a"]));
    ReadableHolds(["a"], s.disk, "a");
    OneStep(s, r1, StartWatcher);
    var r2 := r1 + [StartWatcher];
    OneStep(s, r2, Write("a", Some(Unreadable)));
    var r3 := r2 + [Write("a", Some(Unreadable))];
    OneStep(s, r3, Receive);
    var r4 := r3 + [Receive];
    OneStep(s, r4, Look);
    var r5 := r4 + [Look];
    OneStep(s, r5, Read);
    assert r5 + [Read] == [LoadAll(["a"]), StartWatcher, Write("a", Some(Unreadable)), Receive, Look, Read];
  }
}
