/**
 The engine in use, rebuilt at every start and every change of the lists over whatever the
 cache file holds at that moment, while earlier engines are still being saved.
 */
module EngineCoreSpec {
  import opened Options
  import opened ListText
  import opened EngineBuild
  import opened CacheWriters

  /** A start or a change of the lists, or one step of a writer. */
  datatype Event =
    | Build(lists: seq<ListEntry>, resources: seq<string>, restart: bool)
    | Disk(op: Op)

  /** The lists, the engine made from them, and all that has happened to the disk. */
  datatype System<E> = Off(ops: seq<Op>) | On(lists: seq<ListEntry>, resources: seq<string>, engine: E, ops: seq<Op>)

  /** A build that had to compile spawns a writer, unless the engine cannot be serialized. */
  function BuildStep<E>(lib: Library<E>, image: Key -> seq<Byte>, s0: State, ops: seq<Op>,
                        lists: seq<ListEntry>, resources: seq<string>): System<E>
  {
    var (engine, unsaved) := BuildEngine(lib, lists, resources, true, Content(Run(image, s0, ops)));
    var spawn := if unsaved.Some? && FileFor(lib, lists, resources).Some? then [Spawn(unsaved.value)] else [];
    On(lists, resources, engine, ops + spawn)
  }

  function SystemStep<E>(lib: Library<E>, image: Key -> seq<Byte>, s0: State, y: System<E>, e: Event): System<E> {
    match e
    case Build(lists, resources, restart) =>
      BuildStep(lib, image, s0, y.ops + if restart then [Crash] else [], lists, resources)
    case Disk(op) => if op.Spawn? then y else y.(ops := y.ops + [op])
  }

  function SystemRun<E>(lib: Library<E>, image: Key -> seq<Byte>, s0: State, events: seq<Event>): System<E> {
    if events == [] then Off([])
    else SystemStep(lib, image, s0, SystemRun(lib, image, s0, events[..|events| - 1]), events[|events| - 1])
  }

  /** Different rules never have one key, and an engine's image depends on its key alone. */
  ghost predicate NoCollision<E>(lib: Library<E>, image: Key -> seq<Byte>, events: seq<Event>) {
    && (forall i, j :: 0 <= i < |events| && 0 <= j < |events| && events[i].Build? && events[j].Build? ==>
          KeyOf(lib, events[i].lists) == KeyOf(lib, events[j].lists) ==> Ruleset(events[i].lists) == Ruleset(events[j].lists))
    && (forall i :: 0 <= i < |events| && events[i].Build? ==> Imaged(lib, image, events[i]))
  }

  ghost predicate Imaged<E>(lib: Library<E>, image: Key -> seq<Byte>, e: Event)
    requires e.Build?
  {
    var file := FileFor(lib, e.lists, e.resources);
    file.Some? ==> file.value == image(KeyOf(lib, e.lists))
  }

  /**
   What the cache holds at first: nothing, too few bytes, bytes under a key of none of the
   builds, bytes the library does not read, or a file saved for lists that collide with none.
   */
  ghost predicate HarmlessAtFirst<E>(lib: Library<E>, s0: State, events: seq<Event>) {
    forall i :: 0 <= i < |events| && events[i].Build? ==> Harmless(lib, Content(s0), events[i].lists)
  }

  /** A copy with bytes missing is never taken for an engine. */
  ghost predicate RejectsDamage<E>(lib: Library<E>, image: Key -> seq<Byte>) {
    forall k, l, d {:trigger Copy(d, image(k)), LoadCached(lib, Some(d), l)} ::
      Copy(d, image(k)) && d != image(k) ==> LoadCached(lib, Some(d), l).None?
  }

  /** The key was spawned for some build's engine. */
  ghost predicate Explained<E>(lib: Library<E>, events: seq<Event>, k: Key) {
    exists i :: 0 <= i < |events| && events[i].Build? && KeyOf(lib, events[i].lists) == k &&
      FileFor(lib, events[i].lists, events[i].resources).Some?
  }

  lemma ExplainedMore<E>(lib: Library<E>, events: seq<Event>, more: seq<Event>, k: Key)
    requires Explained(lib, events, k) && events <= more
    ensures Explained(lib, more, k)
  {
    var i :| 0 <= i < |events| && events[i].Build? && KeyOf(lib, events[i].lists) == k &&
      FileFor(lib, events[i].lists, events[i].resources).Some?;
    assert more[i] == events[i];
  }

  lemma SpawnedAfter(image: Key -> seq<Byte>, s0: State, ops: seq<Op>, op: Op)
    ensures Run(image, s0, ops + [op]).spawned ==
      if op.Spawn? then Run(image, s0, ops).spawned + {op.key} else Run(image, s0, ops).spawned
  {
    assert (ops + [op])[..|ops|] == ops;
  }

  /** Every writer was spawned for a build. */
  lemma {:induction false} SpawnsExplained<E>(lib: Library<E>, image: Key -> seq<Byte>, s0: State, events: seq<Event>, k: Key)
    requires Init(s0) && k in Run(image, s0, SystemRun(lib, image, s0, events).ops).spawned
    ensures Explained(lib, events, k)
  {
    if events != [] {
      var before, e := events[..|events| - 1], events[|events| - 1];
      var y := SystemRun(lib, image, s0, before);
      if k in Run(image, s0, y.ops).spawned {
        SpawnsExplained(lib, image, s0, before, k);
        ExplainedMore(lib, before, events, k);
      } else {
        LastSpawned(lib, image, s0, y, e, k);
        assert e == events[|events| - 1];
      }
    }
  }

  lemma LastSpawned<E>(lib: Library<E>, image: Key -> seq<Byte>, s0: State, y: System<E>, e: Event, k: Key)
    ensures k !in Run(image, s0, y.ops).spawned && k in Run(image, s0, SystemStep(lib, image, s0, y, e).ops).spawned ==>
      e.Build? && KeyOf(lib, e.lists) == k && FileFor(lib, e.lists, e.resources).Some?
  {
    if e.Disk? {
      SpawnedAfter(image, s0, y.ops, e.op);
    } else {
      SpawnedAfter(image, s0, y.ops, Crash);
      assert y.ops + [] == y.ops;
      BuildSpawned(lib, image, s0, y.ops + if e.restart then [Crash] else [], e.lists, e.resources, k);
    }
  }

  lemma BuildSpawned<E>(lib: Library<E>, image: Key -> seq<Byte>, s0: State, ops: seq<Op>,
                        lists: seq<ListEntry>, resources: seq<string>, k: Key)
    ensures
      k !in Run(image, s0, ops).spawned && k in Run(image, s0, BuildStep(lib, image, s0, ops, lists, resources).ops).spawned ==>
      KeyOf(lib, lists) == k && FileFor(lib, lists, resources).Some?
  {
    SpawnedAfter(image, s0, ops, Spawn(KeyOf(lib, lists)));
    assert ops + [] == ops;
  }

  /** No file a finished or unfinished writer left can mislead a build of this run. */
  lemma ImageHonest<E>(lib: Library<E>, image: Key -> seq<Byte>, events: seq<Event>, k: Key, j: nat)
    requires RoundTrips(lib) && NoCollision(lib, image, events) && Explained(lib, events, k)
    requires j < |events| && events[j].Build?
    ensures Honest(lib, Some(image(k)), events[j].lists)
  {
    var i :| 0 <= i < |events| && events[i].Build? && KeyOf(lib, events[i].lists) == k &&
      FileFor(lib, events[i].lists, events[i].resources).Some?;
    assert Imaged(lib, image, events[i]);
    SavedIsHonest(lib, events[i].lists, events[i].resources, events[j].lists);
  }

  /** At any point of a run, the cache file misleads no build of the run. */
  lemma CacheHonest<E>(lib: Library<E>, image: Key -> seq<Byte>, s0: State, ops: seq<Op>, events: seq<Event>, j: nat)
    requires RoundTrips(lib) && NoCollision(lib, image, events) && HarmlessAtFirst(lib, s0, events) && Init(s0)
    requires forall k :: k in Run(image, s0, ops).spawned ==> Explained(lib, events, k)
    requires ApartRun(image, s0, ops) || RejectsDamage(lib, image)
    requires j < |events| && events[j].Build?
    ensures Honest(lib, Content(Run(image, s0, ops)), events[j].lists)
  {
    var c := Content(Run(image, s0, ops));
    if c == Content(s0) {
      HarmlessIsHonest(lib, c, events[j].lists);
    } else {
      if ApartRun(image, s0, ops) {
        CacheIsPriorOrWhole(image, s0, ops);
        var k :| k in Run(image, s0, ops).spawned && c == Some(image(k));
        ImageHonest(lib, image, events, k, j);
      } else {
        CacheIsPriorOrCopy(image, s0, ops);
        var k :| k in Run(image, s0, ops).spawned && c.Some? && Copy(c.value, image(k));
        ImageHonest(lib, image, events, k, j);
        assert c.value != image(k) ==> LoadCached(lib, Some(c.value), KeyOf(lib, events[j].lists)).None?;
      }
    }
  }

  lemma ApartBefore(image: Key -> seq<Byte>, s0: State, ops: seq<Op>, op: Op)
    requires ApartRun(image, s0, ops + [op])
    ensures ApartRun(image, s0, ops)
  {
    assert (ops + [op])[..|ops|] == ops;
  }

  lemma HypothesesBefore<E>(lib: Library<E>, image: Key -> seq<Byte>, s0: State, events: seq<Event>, e: Event)
    requires NoCollision(lib, image, events + [e]) && HarmlessAtFirst(lib, s0, events + [e])
    ensures NoCollision(lib, image, events) && HarmlessAtFirst(lib, s0, events)
  {
    var all := events + [e];
    forall i | 0 <= i < |events| ensures events[i] == all[i] { }
    forall i | 0 <= i < |events| && events[i].Build?
      ensures Imaged(lib, image, events[i]) && Harmless(lib, Content(s0), events[i].lists)
    {
      assert all[i].Build?;
    }
    forall i, j | 0 <= i < |events| && 0 <= j < |events| && events[i].Build? && events[j].Build? &&
                  KeyOf(lib, events[i].lists) == KeyOf(lib, events[j].lists)
      ensures Ruleset(events[i].lists) == Ruleset(events[j].lists)
    {
      assert all[i].Build? && all[j].Build?;
    }
  }

  ghost predicate Right<E>(lib: Library<E>, y: System<E>) {
    y.On? ==> y.engine == Applied(lib, Compiled(lib, y.lists), y.resources)
  }

  /**
   Over any run of starts, changes of the lists, writers' steps, failures and crashes, the
   engine in use is the one compiled from the present lists, if no two writers of one key
   overlap or if damaged copies are rejected.
   */
  lemma {:induction false} EngineIsAlwaysRight<E>(lib: Library<E>, image: Key -> seq<Byte>, s0: State, events: seq<Event>)
    requires RoundTrips(lib) && NoCollision(lib, image, events) && HarmlessAtFirst(lib, s0, events) && Init(s0)
    requires ApartRun(image, s0, SystemRun(lib, image, s0, events).ops) || RejectsDamage(lib, image)
    ensures Right(lib, SystemRun(lib, image, s0, events))
  {
    if events != [] {
      var before, e := events[..|events| - 1], events[|events| - 1];
      assert events == before + [e];
      var y := SystemRun(lib, image, s0, before);
      HypothesesBefore(lib, image, s0, before, e);
      match e
      case Disk(op) =>
        if !RejectsDamage(lib, image) && !op.Spawn? { ApartBefore(image, s0, y.ops, op); }
        EngineIsAlwaysRight(lib, image, s0, before);
      case Build(lists, resources, restart) =>
        BuildIsRight(lib, image, s0, before, e);
    }
  }

  lemma BuildIsRight<E>(lib: Library<E>, image: Key -> seq<Byte>, s0: State, before: seq<Event>, e: Event)
    requires e.Build? && Init(s0)
    requires RoundTrips(lib) && NoCollision(lib, image, before + [e]) && HarmlessAtFirst(lib, s0, before + [e])
    ensures var y' := SystemStep(lib, image, s0, SystemRun(lib, image, s0, before), e);
      ApartRun(image, s0, y'.ops) || RejectsDamage(lib, image) ==> Right(lib, y')
  {
    var y, events := SystemRun(lib, image, s0, before), before + [e];
    var ops := y.ops + if e.restart then [Crash] else [];
    var y' := SystemStep(lib, image, s0, y, e);
    if ApartRun(image, s0, y'.ops) || RejectsDamage(lib, image) {
      if !RejectsDamage(lib, image) {
        if y'.ops != ops { ApartBefore(image, s0, ops, y'.ops[|ops|]); }
        assert y'.ops == ops || y'.ops == ops + [y'.ops[|ops|]];
      }
      forall k | k in Run(image, s0, ops).spawned ensures Explained(lib, events, k) {
        if e.restart {
          SpawnedAfter(image, s0, y.ops, Crash);
        } else {
          assert ops == y.ops;
        }
        SpawnsExplained(lib, image, s0, before, k);
        ExplainedMore(lib, before, events, k);
      }
      assert events[|before|] == e;
      CacheHonest(lib, image, s0, ops, events, |before|);
    }
  }
}

module EngineCore {
  import opened Options
  import opened ListText
  import opened EngineBuild
  import opened CacheWriters
  import opened EngineCoreSpec

  /**
   The lists, the engine built from them, and the directory the engine is cached in.
   `events` and `ops` record the calls and what they made happen on disk.
   */
  class EngineCore<E> {
    const lib: Library<E>
    const image: Key -> seq<Byte>
    ghost const s0: State
    var resources: seq<string>
    var lists: seq<ListEntry>
    var engine: E
    var disk: State
    ghost var ops: seq<Op>
    ghost var events: seq<Event>

    /** The disk is as the recorded calls left it; the lists may have changed since the last build. */
    ghost predicate Recorded()
      reads this
    {
      disk == Run(image, s0, ops) && SystemRun(lib, image, s0, events).ops == ops
    }

    /** And the engine was built from the present lists. */
    ghost predicate Valid()
      reads this
    {
      Recorded() && SystemRun(lib, image, s0, events) == On(lists, resources, engine, ops)
    }

    /** The conditions of the run theorem, for the calls made so far. */
    ghost predicate Assured()
      reads this
    {
      && RoundTrips(lib) && Init(s0) && NoCollision(lib, image, events) && HarmlessAtFirst(lib, s0, events)
      && (ApartRun(image, s0, ops) || RejectsDamage(lib, image))
    }

    /** After any sequence of calls, the engine in use is the one compiled from the present lists. */
    lemma InUseIsRight()
      requires Valid()
      ensures Assured() ==> engine == Applied(lib, Compiled(lib, lists), resources)
    {
      if Assured() { EngineIsAlwaysRight(lib, image, s0, events); }
    }

    /** A start of the process over the directory as it is. */
    constructor (lib: Library<E>, image: Key -> seq<Byte>, lists: seq<ListEntry>, resources: seq<string>, disk: State)
      ensures Valid() && this.lib == lib && this.image == image && s0 == disk
      ensures events == [Build(lists, resources, true)]
    {
      this.lib, this.image, this.lists, this.resources, s0 := lib, image, lists, resources, disk;
      var s := Step(image, disk, Crash);
      var (engine, after) := BuildOn(lib, image, s, lists, resources);
      this.engine, this.disk := engine, after;
      ops := SystemStep(lib, image, disk, Off([]), Build(lists, resources, true)).ops;
      events := [Build(lists, resources, true)];
      new;
      assert events[..0] == [] && [] + [Crash] == [Crash] && [Crash][..0] == [];
      BuildOnIsStep(lib, image, s0, [Crash], lists, resources);
    }

    /** Build anew over what the cache file holds now, and spawn a writer if the engine had to be compiled. */
    method Rebuild()
      requires Recorded()
      modifies this
      ensures Valid() && events == old(events) + [Build(lists, resources, false)]
      ensures lists == old(lists) && resources == old(resources)
    {
      engine, disk, ops, events := BuildNow(lib, image, s0, events, ops, disk, lists, resources);
    }

    /** Every change of the lists is followed by a rebuild, so the engine never lags behind them. */
    method Mutate(f: seq<ListEntry> -> seq<ListEntry>)
      requires Valid()
      modifies this
      ensures Valid() && lists == f(old(lists)) && resources == old(resources)
      ensures Assured() ==> engine == Applied(lib, Compiled(lib, lists), resources)
      ensures events == old(events) + [Build(lists, resources, false)]
    {
      lists := f(lists);
      Rebuild();
      InUseIsRight();
    }

    /** A background writer takes a step. */
    method WriterStep(op: Op)
      requires Valid() && !op.Spawn?
      modifies this
      ensures Valid() && events == old(events) + [Disk(op)]
      ensures lists == old(lists) && resources == old(resources) && engine == old(engine)
    {
      DiskRecorded(lib, image, s0, events, ops, op);
      disk := Step(image, disk, op);
      ops, events := ops + [op], events + [Disk(op)];
    }
  }

  /** The engine for the lists, and the disk with the writer spawned that is to save it, if it had to be compiled. */
  function BuildOn<E>(lib: Library<E>, image: Key -> seq<Byte>, disk: State, lists: seq<ListEntry>, resources: seq<string>): (E, State) {
    var (engine, unsaved) := BuildEngine(lib, lists, resources, true, Content(disk));
    (engine,
     if unsaved.Some? && FileFor(lib, lists, resources).Some? then Step(image, disk, Spawn(unsaved.value)) else disk)
  }

  lemma BuildOnIsStep<E>(lib: Library<E>, image: Key -> seq<Byte>, s0: State, ops: seq<Op>,
                         lists: seq<ListEntry>, resources: seq<string>)
    ensures var (engine, after) := BuildOn(lib, image, Run(image, s0, ops), lists, resources);
      var y := BuildStep(lib, image, s0, ops, lists, resources);
      y == On(lists, resources, engine, y.ops) && Run(image, s0, y.ops) == after
  {
    SpawnLast(image, s0, ops, BuildStep(lib, image, s0, ops, lists, resources).ops);
  }

  /** The build itself: what it returns is one step of the system machine. */
  method BuildNow<E>(lib: Library<E>, image: Key -> seq<Byte>, ghost s0: State, ghost events: seq<Event>, ghost ops: seq<Op>,
                     disk: State, lists: seq<ListEntry>, resources: seq<string>)
    returns (engine: E, after: State, ghost ops': seq<Op>, ghost events': seq<Event>)
    requires disk == Run(image, s0, ops) && SystemRun(lib, image, s0, events).ops == ops
    ensures events' == events + [Build(lists, resources, false)] && after == Run(image, s0, ops')
    ensures SystemRun(lib, image, s0, events') == On(lists, resources, engine, ops')
  {
    EventLast(lib, image, s0, events, Build(lists, resources, false));
    assert ops + [] == ops;
    BuildOnIsStep(lib, image, s0, ops, lists, resources);
    var built := BuildOn(lib, image, disk, lists, resources);
    engine, after := built.0, built.1;
    ops' := BuildStep(lib, image, s0, ops, lists, resources).ops;
    events' := events + [Build(lists, resources, false)];
  }

  lemma DiskRecorded<E>(lib: Library<E>, image: Key -> seq<Byte>, s0: State, events: seq<Event>, ops: seq<Op>, op: Op)
    requires !op.Spawn? && SystemRun(lib, image, s0, events).ops == ops
    ensures SystemRun(lib, image, s0, events + [Disk(op)]) == SystemRun(lib, image, s0, events).(ops := ops + [op])
    ensures Run(image, s0, ops + [op]) == Step(image, Run(image, s0, ops), op)
  {
    EventLast(lib, image, s0, events, Disk(op));
    SpawnLast(image, s0, ops, ops + [op]);
  }

  lemma SpawnLast(image: Key -> seq<Byte>, s0: State, ops: seq<Op>, after: seq<Op>)
    requires ops <= after && |after| <= |ops| + 1
    ensures Run(image, s0, after) == if |after| == |ops| then Run(image, s0, ops) else Step(image, Run(image, s0, ops), after[|ops|])
  {
    if |after| == |ops| { assert after == ops; } else { assert after[..|ops|] == ops; }
  }

  lemma EventLast<E>(lib: Library<E>, image: Key -> seq<Byte>, s0: State, events: seq<Event>, e: Event)
    ensures SystemRun(lib, image, s0, events + [e]) == SystemStep(lib, image, s0, SystemRun(lib, image, s0, events), e)
  {
    assert (events + [e])[..|events|] == events;
  }

  /** The writer at place `w` has written `done` bytes of its own file and the cache is as before. */
  ghost predicate AtWork(image: seq<Byte>, s: State, w: nat, key: Key, done: nat, before: Option<seq<Byte>>) {
    && w < |s.writers| && s.writers[w].key == key && s.writers[w].phase.Writing? && s.writers[w].phase.done == done
    && done <= |image| && Content(s) == before
    && var i := s.writers[w].phase.inode;
       && key in s.tmp && s.tmp[key] == i && s.cache != Some(i)
       && i in s.data && s.data[i] == image[..done]
  }

  lemma Begun(image: Key -> seq<Byte>, s: State, key: Key, inode: nat)
    requires Files(s) && inode !in s.data
    ensures AtWork(image(key), Step(image, Step(image, s, Spawn(key)), Create(|s.writers|, inode)),
                   |s.writers|, key, 0, Content(s))
  {
    var s1 := Step(image, s, Spawn(key));
    assert s1.writers[|s.writers|] == Writer(key, Start);
    assert Step(image, s1, Create(|s.writers|, inode)) == CreateStep(s1, |s.writers|, inode);
  }

  lemma Wrote(image: Key -> seq<Byte>, s: State, w: nat, key: Key, done: nat, before: Option<seq<Byte>>, count: nat)
    requires AtWork(image(key), s, w, key, done, before) && done + count <= |image(key)|
    ensures AtWork(image(key), Step(image, s, Write(w, count)), w, key, done + count, before)
  {
    PatchPrefix(image(key), done, count);
    assert Step(image, s, Write(w, count)) == WriteStep(image, s, w, count);
  }

  lemma Published(image: Key -> seq<Byte>, s: State, w: nat, key: Key, before: Option<seq<Byte>>)
    requires AtWork(image(key), s, w, key, |image(key)|, before)
    ensures var s' := Step(image, Step(image, s, Close(w)), Rename(w));
      Content(s') == Some(image(key)) && key !in s'.tmp
  {
    assert image(key)[..|image(key)|] == image(key);
    var s1 := Step(image, s, Close(w));
    assert s1 == Turn(s, w, Written);
    assert Step(image, s1, Rename(w)) == RenameStep(s1, w);
  }

  lemma GaveUp(image: Key -> seq<Byte>, s: State, w: nat, key: Key, done: nat, before: Option<seq<Byte>>)
    requires AtWork(image(key), s, w, key, done, before)
    ensures var s' := Step(image, Step(image, s, Fail(w)), Remove(w));
      Content(s') == before && key !in s'.tmp
  {
    var s1 := Step(image, s, Fail(w));
    assert s1 == Turn(s, w, Failing);
    assert Step(image, s1, Remove(w)) == Unlink(Turn(s1, w, Ended), key);
  }

  lemma ClosedGaveUp(image: Key -> seq<Byte>, s: State, w: nat, key: Key, before: Option<seq<Byte>>)
    requires AtWork(image(key), s, w, key, |image(key)|, before)
    ensures var s' := Step(image, Step(image, Step(image, s, Close(w)), Fail(w)), Remove(w));
      Content(s') == before && key !in s'.tmp
  {
    var s1 := Step(image, s, Close(w));
    assert s1 == Turn(s, w, Written);
    var s2 := Step(image, s1, Fail(w));
    assert s2 == Turn(s1, w, Failing);
    assert Step(image, s2, Remove(w)) == Unlink(Turn(s2, w, Ended), key);
  }

  class CacheDir {
    var s: State

    /**
     One save with nobody else writing, in pieces of at most `chunk` bytes, of which the
     first `good` succeed, and a rename that may fail: either the whole image is published or
     the cache is as before, and the file beside it is gone both times.
     */
    method SaveCachedEngine(image: Key -> seq<Byte>, key: Key, inode: nat, chunk: nat, good: nat, renamed: bool)
      returns (ok: bool)
      requires Files(s) && inode !in s.data && chunk > 0
      modifies this
      ensures Content(s) == if ok then Some(image(key)) else old(Content(s))
      ensures key !in s.tmp && (ok ==> renamed) && (good >= |image(key)| && renamed ==> ok)
    {
      var w, done, pieces := |s.writers|, 0, 0;
      ghost var before := Content(s);
      Begun(image, s, key, inode);
      s := Step(image, s, Spawn(key));
      s := Step(image, s, Create(w, inode));
      while done < |image(key)| && pieces < good
        invariant AtWork(image(key), s, w, key, done, before) && pieces <= done
        decreases |image(key)| - done
      {
        var count := if chunk < |image(key)| - done then chunk else |image(key)| - done;
        Wrote(image, s, w, key, done, before, count);
        s := Step(image, s, Write(w, count));
        done, pieces := done + count, pieces + 1;
      }
      ok := done == |image(key)| && renamed;
      if ok {
        Published(image, s, w, key, before);
        s := Step(image, s, Close(w));
        s := Step(image, s, Rename(w));
      } else {
        if done == |image(key)| {
          ClosedGaveUp(image, s, w, key, before);
          s := Step(image, s, Close(w));
        } else {
          GaveUp(image, s, w, key, done, before);
        }
        s := Step(image, s, Fail(w));
        s := Step(image, s, Remove(w));
      }
    }
  }
}
