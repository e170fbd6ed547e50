/**
 The bounded error log: a ring of the newest events in memory, mirrored to a file
 that grows by appending and is rewritten from the ring when it gets long.
 */
module ErrorLogSpec {
  import opened Options

  const ERROR_LOG_CAP: nat := 300
  const COMPACT_AT: nat := 600

  datatype Event = Event(tsMs: nat, kind: string, message: string, trace: Option<string>)

  /** A line of the file either decodes to an event or is skipped when the file is read. */
  datatype Line = Json(event: Event) | Junk(text: string)

  function Events(file: seq<Line>): seq<Event> {
    if file == [] then []
    else (if file[0].Json? then [file[0].event] else []) + Events(file[1..])
  }

  function Lines(es: seq<Event>): seq<Line> {
    seq(|es|, i requires 0 <= i < |es| => Json(es[i]))
  }

  /** The newest `n` elements. */
  function Newest<T>(s: seq<T>, n: nat): seq<T> {
    if |s| <= n then s else s[|s| - n..]
  }

  /** What loading a file puts into the ring. */
  function Reload(file: seq<Line>): seq<Event> {
    Newest(Events(file), ERROR_LOG_CAP)
  }

  datatype State = State(ring: seq<Event>, fileLines: nat, file: seq<Line>)

  /** Each write to the file either happens completely or not at all. */
  datatype Op = Push(event: Event, written: bool) | Clear(removed: bool)

  function Load(file: seq<Line>): State {
    State(Reload(file), |file|, file)
  }

  function Step(s: State, op: Op): State {
    match op
    case Push(e, written) =>
      var ring := Newest(s.ring + [e], ERROR_LOG_CAP);
      if s.fileLines >= COMPACT_AT
      then State(ring, |ring|, if written then Lines(ring) else s.file)
      else State(ring, s.fileLines + 1, if written then s.file + [Json(e)] else s.file)
    case Clear(removed) => State([], 0, if removed then [] else s.file)
  }

  function Run(file: seq<Line>, ops: seq<Op>): State {
    if ops == [] then Load(file) else Step(Run(file, ops[..|ops| - 1]), ops[|ops| - 1])
  }

  predicate Succeeds(op: Op) {
    match op
    case Push(_, written) => written
    case Clear(removed) => removed
  }

  /** The events since the last clear, starting from what the file held. */
  function History(file: seq<Line>, ops: seq<Op>): seq<Event> {
    if ops == [] then Events(file)
    else if ops[|ops| - 1].Clear? then []
    else History(file, ops[..|ops| - 1]) + [ops[|ops| - 1].event]
  }

  lemma {:induction false} EventsConcat(a: seq<Line>, b: seq<Line>)
    ensures Events(a + b) == Events(a) + Events(b)
  {
    if a == [] {
      assert a + b == b;
    } else {
      assert (a + b)[0] == a[0] && (a + b)[1..] == a[1..] + b;
      EventsConcat(a[1..], b);
    }
  }

  lemma {:induction false} EventsOfLines(es: seq<Event>)
    ensures Events(Lines(es)) == es
  {
    if es != [] {
      assert Lines(es)[1..] == Lines(es[1..]);
      EventsOfLines(es[1..]);
    }
  }

  lemma EventsSnoc(file: seq<Line>, e: Event)
    ensures Events(file + [Json(e)]) == Events(file) + [e]
  {
    EventsConcat(file, [Json(e)]);
    assert [Json(e)][1..] == [];
  }

  /** Keeping the newest of the newest plus one more is keeping the newest of everything. */
  lemma NewestSnoc<T>(s: seq<T>, x: T, n: nat)
    requires n > 0
    ensures Newest(Newest(s, n) + [x], n) == Newest(s + [x], n)
  {
  }

  ghost predicate Synced(s: State) {
    s.ring == Reload(s.file) && s.fileLines == |s.file|
  }

  lemma StepSynced(s: State, op: Op)
    requires Synced(s) && Succeeds(op)
    ensures Synced(Step(s, op))
    ensures |Step(s, op).file| <= if |s.file| <= COMPACT_AT then COMPACT_AT else |s.file|
  {
    if op.Push? {
      var ring := Newest(s.ring + [op.event], ERROR_LOG_CAP);
      NewestSnoc(Events(s.file), op.event, ERROR_LOG_CAP);
      EventsSnoc(s.file, op.event);
      EventsOfLines(ring);
    }
  }

  /**
   With successful writes, in every run from any file: the ring is the newest 300
   events since the last clear, a restart reads back exactly the ring, and the file
   never exceeds 600 lines unless it started longer.
   */
  lemma {:induction false} RingMirrorsFile(file: seq<Line>, ops: seq<Op>)
    requires forall i :: 0 <= i < |ops| ==> Succeeds(ops[i])
    ensures var s := Run(file, ops);
      && s.ring == Newest(History(file, ops), ERROR_LOG_CAP)
      && Load(s.file) == s
      && |s.file| <= (if |file| <= COMPACT_AT then COMPACT_AT else |file|)
  {
    if ops != [] {
      var before, op := ops[..|ops| - 1], ops[|ops| - 1];
      RingMirrorsFile(file, before);
      StepSynced(Run(file, before), op);
      if op.Push? {
        NewestSnoc(History(file, before), op.event, ERROR_LOG_CAP);
      }
    }
  }

  // ----- after failed writes

  /** The ring and the file agree on their newest `k` events. */
  ghost predicate AgreeOn(s: State, k: nat) {
    && k <= |s.ring| <= ERROR_LOG_CAP && k <= |Events(s.file)|
    && Newest(s.ring, k) == Newest(Events(s.file), k)
  }

  ghost predicate Recovering(s: State, k: nat) {
    |s.ring| <= ERROR_LOG_CAP && (s.ring == Reload(s.file) || AgreeOn(s, k))
  }

  lemma AgreeMore(r: seq<Event>, es: seq<Event>, e: Event, k: nat)
    requires k <= |r| <= ERROR_LOG_CAP && k <= |es| && k < ERROR_LOG_CAP
    requires Newest(r, k) == Newest(es, k)
    ensures Newest(Newest(r + [e], ERROR_LOG_CAP), k + 1) == Newest(es + [e], k + 1)
    ensures k + 1 <= |Newest(r + [e], ERROR_LOG_CAP)|
  {
    assert Newest(r + [e], k + 1) == Newest(r, k) + [e];
    assert Newest(es + [e], k + 1) == Newest(es, k) + [e];
  }

  lemma StepRecovers(s: State, e: Event, k: nat)
    requires Recovering(s, k) && k < ERROR_LOG_CAP
    ensures Recovering(Step(s, Push(e, true)), k + 1)
  {
    var ring := Newest(s.ring + [e], ERROR_LOG_CAP);
    EventsOfLines(ring);
    EventsSnoc(s.file, e);
    if s.fileLines < COMPACT_AT {
      if s.ring == Reload(s.file) {
        NewestSnoc(Events(s.file), e, ERROR_LOG_CAP);
      } else {
        AgreeMore(s.ring, Events(s.file), e, k);
      }
    }
  }

  function Pushes(s: State, es: seq<Event>): State {
    if es == [] then s else Step(Pushes(s, es[..|es| - 1]), Push(es[|es| - 1], true))
  }

  lemma {:induction false} PushesRecover(s: State, es: seq<Event>)
    requires |s.ring| <= ERROR_LOG_CAP && |es| <= ERROR_LOG_CAP
    ensures Recovering(Pushes(s, es), |es|)
  {
    if es != [] {
      PushesRecover(s, es[..|es| - 1]);
      StepRecovers(Pushes(s, es[..|es| - 1]), es[|es| - 1], |es| - 1);
    }
  }

  /** Whatever failed before, 300 successful pushes make a restart read back the ring again. */
  lemma Heals(s: State, es: seq<Event>)
    requires |s.ring| <= ERROR_LOG_CAP && |es| == ERROR_LOG_CAP
    ensures Pushes(s, es).ring == Reload(Pushes(s, es).file)
  {
    PushesRecover(s, es);
  }

  // ----- after one lost write, exactly

  /** A restart would read back the ring. */
  ghost predicate Mirrored(s: State) {
    s.ring == Reload(s.file)
  }

  /** One of the written pushes finds the file long and rewrites it from the ring. */
  predicate Compacts(s: State, es: seq<Event>) {
    s.fileLines + |es| > COMPACT_AT
  }

  ghost predicate AllAre<T>(xs: seq<T>, x: T) {
    forall i :: 0 <= i < |xs| ==> xs[i] == x
  }

  lemma MirroredStays(s: State, e: Event)
    requires Mirrored(s)
    ensures Mirrored(Step(s, Push(e, true)))
  {
    NewestSnoc(Events(s.file), e, ERROR_LOG_CAP);
    EventsSnoc(s.file, e);
    EventsOfLines(Newest(s.ring + [e], ERROR_LOG_CAP));
  }

  lemma SnocThen<T>(a: seq<T>, es: seq<T>)
    requires es != []
    ensures a + es == (a + es[..|es| - 1]) + [es[|es| - 1]]
  {
  }

  lemma {:induction false} PushesFile(s: State, es: seq<Event>)
    requires s.fileLines <= COMPACT_AT && !Compacts(s, es)
    ensures Pushes(s, es).fileLines == s.fileLines + |es| && Events(Pushes(s, es).file) == Events(s.file) + es
  {
    if es == [] {
      assert Events(s.file) + es == Events(s.file);
    } else {
      PushesFile(s, es[..|es| - 1]);
      EventsSnoc(Pushes(s, es[..|es| - 1]).file, es[|es| - 1]);
      SnocThen(Events(s.file), es);
    }
  }

  lemma {:induction false} PushesRing(s: State, es: seq<Event>)
    requires |s.ring| <= ERROR_LOG_CAP
    ensures Pushes(s, es).ring == Newest(s.ring + es, ERROR_LOG_CAP)
  {
    if es == [] {
      assert s.ring + es == s.ring;
    } else {
      PushesRing(s, es[..|es| - 1]);
      NewestSnoc(s.ring + es[..|es| - 1], es[|es| - 1], ERROR_LOG_CAP);
      SnocThen(s.ring, es);
    }
  }

  /** A rewrite mends whatever was lost before. */
  lemma {:induction false} CompactionHeals(s: State, es: seq<Event>)
    requires s.fileLines <= COMPACT_AT && Compacts(s, es)
    ensures Mirrored(Pushes(s, es))
  {
    if es != [] {
      var init, last := es[..|es| - 1], es[|es| - 1];
      if Compacts(s, init) {
        CompactionHeals(s, init);
        MirroredStays(Pushes(s, init), last);
      } else {
        PushesFile(s, init);
        EventsOfLines(Newest(Pushes(s, init).ring + [last], ERROR_LOG_CAP));
      }
    }
  }

  lemma NewestOfLong<T>(a: seq<T>, b: seq<T>, n: nat)
    requires |b| >= n
    ensures Newest(a + b, n) == Newest(b, n)
  {
  }

  lemma NewestOfShort<T>(a: seq<T>, b: seq<T>, n: nat)
    requires |b| < n
    ensures Newest(a + b, n) == Newest(a, n - |b|) + b
  {
  }

  lemma NewestTwice<T>(a: seq<T>, b: seq<T>, n: nat)
    ensures Newest(Newest(a, n) + b, n) == Newest(a + b, n)
  {
    if |a| > n {
      var early, d := a[..|a| - n], Newest(a, n);
      assert a + b == early + (d + b);
      NewestOfLong(early, d + b, n);
    }
  }

  /** Shifting in one more element changes nothing exactly if the newest ones were all that element. */
  lemma ShiftedSame<T>(f: seq<T>, e: T, k: nat)
    requires k > 0
    ensures Newest(f + [e], k) == Newest(f, k) <==> |f| >= k && AllAre(Newest(f, k), e)
  {
    var a, b := Newest(f + [e], k), Newest(f, k);
    if a == b {
      assert |f| >= k;
      AllTheSame(b, e, |b|);
    }
    if |f| >= k && AllAre(b, e) {
      assert a == b;
    }
  }

  lemma {:induction false} AllTheSame<T>(b: seq<T>, e: T, n: nat)
    requires n <= |b| && (b != [] ==> b[|b| - 1] == e) && forall i, j :: 0 <= i && j == i + 1 && j < |b| ==> b[i] == b[j]
    ensures forall i :: |b| - n <= i < |b| ==> b[i] == e
  {
    if n > 0 {
      AllTheSame(b, e, n - 1);
      var i := |b| - n;
      if n > 1 { assert b[i] == b[i + 1]; }
    }
  }

  lemma SameEnds<T>(a: seq<T>, b: seq<T>, c: seq<T>)
    requires |a| + |c| == |b| + |c|
    ensures a + c == b + c <==> a == b
  {
    if a + c == b + c {
      assert a == (a + c)[..|a|] && b == (b + c)[..|b|];
    }
  }

  lemma LostOne(f: seq<Event>, e: Event, es: seq<Event>)
    ensures Newest(f + [e] + es, ERROR_LOG_CAP) == Newest(f + es, ERROR_LOG_CAP) <==>
      var k := ERROR_LOG_CAP - |es|; k <= 0 || (|f| >= k && AllAre(Newest(f, k), e))
  {
    var k := ERROR_LOG_CAP - |es|;
    if k <= 0 {
      NewestOfLong(f + [e], es, ERROR_LOG_CAP);
      NewestOfLong(f, es, ERROR_LOG_CAP);
    } else {
      NewestOfShort(f + [e], es, ERROR_LOG_CAP);
      NewestOfShort(f, es, ERROR_LOG_CAP);
      ShiftedSame(f, e, k);
      var a, b := Newest(f + [e], k), Newest(f, k);
      if |a| == |b| { SameEnds(a, b, es); } else { assert |a + es| != |b + es|; }
    }
  }

  /**
   After one lost write, a restart reads back the ring again if and only if 300 pushes have
   been written since, or one of them rewrote the file, or the events that would have to
   stand in for the lost one were all equal to it.
   */
  lemma LostWriteHealsIff(s: State, e: Event, es: seq<Event>)
    requires Synced(s)
    ensures var lost, k := Step(s, Push(e, false)), ERROR_LOG_CAP - |es|;
      Mirrored(Pushes(lost, es)) <==>
        k <= 0 || Compacts(lost, es) || (|Events(s.file)| >= k && AllAre(Newest(Events(s.file), k), e))
  {
    var lost := Step(s, Push(e, false));
    assert lost.fileLines <= COMPACT_AT;
    if Compacts(lost, es) {
      CompactionHeals(lost, es);
    } else {
      var f := Events(s.file);
      PushesFile(lost, es);
      PushesRing(lost, es);
      assert lost.ring == Newest(f + [e], ERROR_LOG_CAP) by { NewestSnoc(f, e, ERROR_LOG_CAP); }
      NewestTwice(f + [e], es, ERROR_LOG_CAP);
      LostOne(f, e, es);
    }
  }

  /** A lost append is missing after a restart. */
  lemma LostAppend(e: Event)
    ensures var s := Run([], [Push(e, false)]); s.ring == [e] && Reload(s.file) == []
  {
    assert [Push(e, false)][..0] == [];
    assert Run([], []) == State([], 0, []);
  }
}

/** The log object: the ring, the line counter and the file it mirrors, updated in place. */
module ErrorLog {
  import opened ErrorLogSpec

  class ErrorLog {
    var ring: seq<Event>
    var fileLines: nat
    var file: seq<Line>

    ghost function Model(): State
      reads this
    {
      State(ring, fileLines, file)
    }

    constructor Load(file: seq<Line>)
      ensures Model() == ErrorLogSpec.Load(file)
    {
      var events := Events(file);
      while |events| > ERROR_LOG_CAP
        invariant Newest(events, ERROR_LOG_CAP) == Reload(file)
      {
        events := events[1..];
      }
      ring, fileLines := events, |file|;
      this.file := file;
    }

    method Push(event: Event, written: bool)
      modifies this
      ensures Model() == Step(old(Model()), ErrorLogSpec.Push(event, written))
    {
      ring := ring + [event];
      while |ring| > ERROR_LOG_CAP
        invariant Newest(ring, ERROR_LOG_CAP) == Newest(old(ring) + [event], ERROR_LOG_CAP)
        invariant fileLines == old(fileLines) && file == old(file)
      {
        ring := ring[1..];
      }
      if fileLines >= COMPACT_AT {
        fileLines := |ring|;
        file := if written then Lines(ring) else file;
      } else {
        fileLines := fileLines + 1;
        file := if written then file + [Json(event)] else file;
      }
    }

    method Clear(removed: bool) returns (n: nat)
      modifies this
      ensures n == |old(ring)|
      ensures Model() == Step(old(Model()), ErrorLogSpec.Clear(removed))
    {
      n := |ring|;
      ring, fileLines := [], 0;
      file := if removed then [] else file;
    }
  }
}
