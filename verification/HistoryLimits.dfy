/**
 Where the statistics stop agreeing with the raw log, and exactly when: a retention that
 grows, and clock readings that step back between calls.
 */
module HistoryLimits {
  import opened HistorySpec

  // ----- a retention that grows

  predicate Reads(op: Op) {
    op.Record? || op.TakeSnapshot?
  }

  function EventOf(op: Op): Event
    requires op.Record?
  {
    Event(BucketIndex(op.now), op.metric, op.domain)
  }

  /** Call `i` recorded an event, and no reset came after it. */
  ghost predicate Counted(ops: seq<Op>, i: nat) {
    i < |ops| && ops[i].Record? && forall j :: i < j < |ops| ==> !ops[j].Reset?
  }

  /** A later record or snapshot found the event of call `i` outside the window of that moment. */
  ghost predicate Outlived(ops: seq<Op>, i: nat)
    requires i < |ops| && ops[i].Record?
  {
    exists j :: i < j < |ops| && OutlivedAt(ops, i, j)
  }

  ghost predicate OutlivedAt(ops: seq<Op>, i: nat, j: nat)
    requires i < |ops| && ops[i].Record? && j < |ops|
  {
    Reads(ops[j]) && Expired(EventOf(ops[i]), Window(ops[..j]), BucketIndex(ops[j].now))
  }

  ghost predicate IsCounted(ops: seq<Op>, e: Event) {
    exists i: nat :: Counted(ops, i) && EventOf(ops[i]) == e
  }

  ghost predicate IsOutlived(ops: seq<Op>, e: Event) {
    exists i: nat :: Counted(ops, i) && Outlived(ops, i) && EventOf(ops[i]) == e
  }

  lemma CountedStep(ops: seq<Op>, op: Op, i: nat)
    ensures Counted(ops + [op], i) <==> (Counted(ops, i) && !op.Reset?) || (i == |ops| && op.Record?)
  {
    var all := ops + [op];
    if Counted(ops, i) && !op.Reset? {
      forall j | i < j < |all| ensures !all[j].Reset? { assert j < |ops| ==> all[j] == ops[j]; }
    }
    if Counted(all, i) && i < |ops| {
      assert !all[|ops|].Reset?;
      forall j | i < j < |ops| ensures !ops[j].Reset? { assert all[j] == ops[j]; }
    }
  }

  lemma OutlivedStep(ops: seq<Op>, op: Op, i: nat)
    requires i < |ops| && ops[i].Record?
    ensures Outlived(ops + [op], i) <==>
      Outlived(ops, i) || (Reads(op) && Expired(EventOf(ops[i]), Window(ops), BucketIndex(op.now)))
  {
    var all := ops + [op];
    assert all[..|ops|] == ops;
    forall j | i < j < |ops| ensures OutlivedAt(all, i, j) <==> OutlivedAt(ops, i, j) {
      assert all[..j] == ops[..j];
    }
    if Outlived(ops, i) {
      var j :| i < j < |ops| && OutlivedAt(ops, i, j);
      assert OutlivedAt(all, i, j);
    }
    if Reads(op) && Expired(EventOf(ops[i]), Window(ops), BucketIndex(op.now)) {
      assert OutlivedAt(all, i, |ops|);
    }
  }

  lemma IsCountedStep(ops: seq<Op>, op: Op, e: Event)
    ensures IsCounted(ops + [op], e) <==> (IsCounted(ops, e) && !op.Reset?) || (op.Record? && EventOf(op) == e)
  {
    var all := ops + [op];
    if IsCounted(all, e) {
      var i: nat :| Counted(all, i) && EventOf(all[i]) == e;
      CountedStep(ops, op, i);
    }
    if IsCounted(ops, e) && !op.Reset? {
      var i: nat :| Counted(ops, i) && EventOf(ops[i]) == e;
      CountedStep(ops, op, i);
      assert Counted(all, i) && EventOf(all[i]) == e;
    }
    if op.Record? && EventOf(op) == e {
      CountedStep(ops, op, |ops|);
      assert Counted(all, |ops|) && EventOf(all[|ops|]) == e;
    }
  }

  lemma IsOutlivedStep(ops: seq<Op>, op: Op, e: Event)
    ensures IsOutlived(ops + [op], e) <==>
      && !op.Reset?
      && (|| IsOutlived(ops, e)
          || (IsCounted(ops, e) && Reads(op) && Expired(e, Window(ops), BucketIndex(op.now))))
  {
    var all := ops + [op];
    if IsOutlived(all, e) {
      var i: nat :| Counted(all, i) && Outlived(all, i) && EventOf(all[i]) == e;
      CountedStep(ops, op, i);
      assert i < |ops|;
      OutlivedStep(ops, op, i);
    }
    if IsOutlived(ops, e) && !op.Reset? {
      var i: nat :| Counted(ops, i) && Outlived(ops, i) && EventOf(ops[i]) == e;
      CountedStep(ops, op, i);
      OutlivedStep(ops, op, i);
      assert Counted(all, i) && Outlived(all, i) && EventOf(all[i]) == e;
    }
    if IsCounted(ops, e) && Reads(op) && Expired(e, Window(ops), BucketIndex(op.now)) {
      var i: nat :| Counted(ops, i) && EventOf(ops[i]) == e;
      CountedStep(ops, op, i);
      OutlivedStep(ops, op, i);
      assert Counted(all, i) && Outlived(all, i) && EventOf(all[i]) == e;
    }
  }

  /** The log holds the events of the counted calls. */
  lemma {:induction false} LogIsCounted(ops: seq<Op>, e: Event)
    ensures e in Log(ops) <==> IsCounted(ops, e)
  {
    if ops != [] {
      var before, op := ops[..|ops| - 1], ops[|ops| - 1];
      assert ops == before + [op];
      LogIsCounted(before, e);
      IsCountedStep(before, op, e);
    }
  }

  lemma GoneIsExpired(kept: seq<Event>, window: nat, idx: nat, e: Event)
    requires InOrder(kept) && UpTo(kept, idx)
    ensures var r := DropExpired(kept, window, idx);
      (e in kept[..|kept| - |r|] ==> Expired(e, window, idx)) && (e in r ==> !Expired(e, window, idx))
  {
    DropExpiredCut(kept, window, idx);
    DropExpiredIsRecent(kept, window, idx);
  }

  lemma CutInThree(log: seq<Event>, kept: seq<Event>, r: seq<Event>)
    requires |r| <= |kept| <= |log| && kept == log[|log| - |kept|..] && r == kept[|kept| - |r|..]
    ensures var lost, gone := LostOf(log, kept), kept[..|kept| - |r|];
      log == lost + gone + r && LostOf(log, r) == lost + gone
  {
  }

  lemma OfThree(lost: seq<Event>, gone: seq<Event>, r: seq<Event>, window: nat, idx: nat, e: Event)
    requires (e in gone ==> Expired(e, window, idx)) && (e in r ==> !Expired(e, window, idx))
    ensures e in lost + gone <==> e in lost || (e in lost + gone + r && Expired(e, window, idx))
  {
  }

  /** In bucket order, what eviction takes out of the kept events is all of them that have expired. */
  lemma CutIsExpired(log: seq<Event>, kept: seq<Event>, window: nat, idx: nat, e: Event)
    requires InOrder(log) && UpTo(log, idx) && |kept| <= |log| && kept == log[|log| - |kept|..]
    ensures e in LostOf(log, DropExpired(kept, window, idx)) <==>
      e in LostOf(log, kept) || (e in log && Expired(e, window, idx))
  {
    var r := DropExpired(kept, window, idx);
    assert r == kept[|kept| - |r|..] by { DropExpiredCut(kept, window, idx); }
    CutInThree(log, kept, r);
    SuffixInOrder(log, kept, idx);
    GoneIsExpired(kept, window, idx, e);
    OfThree(LostOf(log, kept), kept[..|kept| - |r|], r, window, idx, e);
  }

  lemma LostOfBoth(log: seq<Event>, r: seq<Event>, e: Event)
    requires |r| <= |log|
    ensures LostOf(log + [e], r + [e]) == LostOf(log, r)
  {
  }

  lemma LostByStep(log: seq<Event>, kept: seq<Event>, window: nat, op: Op)
    requires |kept| <= |log| && Step(Live(kept, window), op).Live?
    ensures LostOf(LogStep(log, op), Step(Live(kept, window), op).kept) ==
      if op.Reset? then []
      else if Reads(op) then LostOf(log, DropExpired(kept, window, BucketIndex(op.now)))
      else LostOf(log, kept)
  {
    if op.Record? {
      LostOfBoth(log, DropExpired(kept, window, BucketIndex(op.now)), EventOf(op));
    }
  }

  lemma StillLive(ops: seq<Op>, op: Op)
    requires ClockNeverStepsBack(ops) && Clock(ops) <= ClockStep(Clock(ops), op)
    ensures Run(ops).Live? && Run(ops) == Live(Run(ops).kept, Window(ops)) && |Run(ops).kept| <= |Log(ops)|
    ensures Run(ops + [op]).Live? && Run(ops + [op]) == Step(Run(ops), op) && Log(ops + [op]) == LogStep(Log(ops), op)
  {
    assert (ops + [op])[..|ops|] == ops;
    SteadyClockNeverPanics(ops);
    SteadyClockNeverPanics(ops + [op]);
    KeptIsLogSuffix(ops);
  }

  lemma LostStep(ops: seq<Op>, op: Op)
    requires ClockNeverStepsBack(ops) && Clock(ops) <= ClockStep(Clock(ops), op)
    ensures Run(ops).Live? && Run(ops + [op]).Live?
    ensures Lost(ops + [op]) ==
      if op.Reset? then []
      else if Reads(op) then LostOf(Log(ops), DropExpired(Run(ops).kept, Window(ops), BucketIndex(op.now)))
      else Lost(ops)
  {
    StillLive(ops, op);
    LostByStep(Log(ops), Run(ops).kept, Window(ops), op);
  }

  /** With a steady clock, the evicted events are those of the calls a later reading found outside its window. */
  lemma {:induction false} LostIsOutlived(ops: seq<Op>, e: Event)
    requires ClockNeverStepsBack(ops)
    ensures Run(ops).Live? && (e in Lost(ops) <==> IsOutlived(ops, e))
  {
    if ops != [] {
      var before, op := ops[..|ops| - 1], ops[|ops| - 1];
      assert ops == before + [op];
      LostIsOutlived(before, e);
      LostStep(before, op);
      IsOutlivedStep(before, op, e);
      if Reads(op) {
        var idx := BucketIndex(op.now);
        SteadyClockNeverPanics(before);
        KeptIsLogSuffix(before);
        assert BucketIndex(Clock(before)) <= idx;
        CutIsExpired(Log(before), Run(before).kept, Window(before), idx, e);
        LogIsCounted(before, e);
      }
    }
  }

  /** No event that is inside the window now was found outside the window of an earlier moment. */
  ghost predicate NoneRevived(ops: seq<Op>, now: nat) {
    forall i: nat :: Counted(ops, i) && InWindow(EventOf(ops[i]), Window(ops), BucketIndex(now)) ==> !Outlived(ops, i)
  }

  /**
   With a steady clock, and retention changed at will, a snapshot shows the log's events of
   the window if and only if none of them was outside the window at an earlier record or
   snapshot. The condition speaks of the calls made, not of what the object keeps.
   */
  lemma SnapshotExactIff(ops: seq<Op>, now: nat)
    requires ClockNeverStepsBack(ops) && Clock(ops) <= now
    ensures Run(ops).Live? && Step(Run(ops), TakeSnapshot(now)).Live?
    ensures Step(Run(ops), TakeSnapshot(now)).kept == Recent(Log(ops), Window(ops), BucketIndex(now)) <==>
      NoneRevived(ops, now)
  {
    var w, idx := Window(ops), BucketIndex(now);
    ShortByLostEvents(ops, now);
    if NoneInWindow(Lost(ops), w, idx) {
      forall i: nat | Counted(ops, i) && InWindow(EventOf(ops[i]), w, idx) ensures !Outlived(ops, i) {
        LostIsOutlived(ops, EventOf(ops[i]));
      }
    }
    if NoneRevived(ops, now) {
      forall k | 0 <= k < |Lost(ops)| ensures !InWindow(Lost(ops)[k], w, idx) {
        LostIsOutlived(ops, Lost(ops)[k]);
      }
    }
  }

  // ----- clock readings that step back before a snapshot

  /** An event ahead of the snapshot, or an expired one hidden behind one that has not expired. */
  ghost predicate OutOfPlace(kept: seq<Event>, window: nat, idx: nat, i: nat)
    requires i < |kept|
  {
    kept[i].idx > idx || (Expired(kept[i], window, idx) && exists j :: 0 <= j < i && !Expired(kept[j], window, idx))
  }

  lemma OutOfPlacePanics(kept: seq<Event>, window: nat, idx: nat, i: nat)
    requires i < |kept| && OutOfPlace(kept, window, idx, i)
    ensures !AllInWindow(DropExpired(kept, window, idx), window, idx)
  {
    var rest := DropExpired(kept, window, idx);
    DropExpiredCut(kept, window, idx);
    var cut := |kept| - |rest|;
    assert cut <= i;
    assert rest[i - cut] == kept[i] && !InWindow(kept[i], window, idx);
  }

  lemma PanicsOutOfPlace(kept: seq<Event>, window: nat, idx: nat) returns (i: nat)
    requires !AllInWindow(DropExpired(kept, window, idx), window, idx)
    ensures i < |kept| && OutOfPlace(kept, window, idx, i)
  {
    var rest := DropExpired(kept, window, idx);
    DropExpiredCut(kept, window, idx);
    var cut := |kept| - |rest|;
    var k :| 0 <= k < |rest| && !InWindow(rest[k], window, idx);
    i := cut + k;
    assert rest[k] == kept[i] && rest[0] == kept[cut];
  }

  /** Whatever the recorded times, a snapshot panics exactly if some kept event is out of place. */
  lemma SnapshotPanicsIff(kept: seq<Event>, window: nat, now: nat)
    ensures Step(Live(kept, window), TakeSnapshot(now)) == Poisoned <==>
      exists i :: 0 <= i < |kept| && OutOfPlace(kept, window, BucketIndex(now), i)
  {
    var idx := BucketIndex(now);
    if i :| 0 <= i < |kept| && OutOfPlace(kept, window, idx, i) {
      OutOfPlacePanics(kept, window, idx, i);
    }
    if !AllInWindow(DropExpired(kept, window, idx), window, idx) {
      var i := PanicsOutOfPlace(kept, window, idx);
    }
  }

  lemma Extend(ops: seq<Op>, op: Op) returns (more: seq<Op>)
    ensures Run(more) == Step(Run(ops), op)
    ensures Log(more) == LogStep(Log(ops), op)
    ensures Clock(more) == ClockStep(Clock(ops), op)
    ensures Window(more) == WindowStep(Window(ops), op)
    ensures ClockNeverStepsBack(more) <==> ClockNeverStepsBack(ops) && Clock(ops) <= ClockStep(Clock(ops), op)
  {
    more := ops + [op];
    assert more[..|ops|] == ops;
  }

  lemma ShortThenLongRetention() returns (ops: seq<Op>)
    ensures ClockNeverStepsBack(ops) && Clock(ops) == 3600 && Window(ops) == 144
    ensures Run(ops).Live? && Lost(ops) == [Event(0, Requests, "")]
  {
    var e0, e6 := Event(0, Requests, ""), Event(6, Requests, "");
    var o1 := Extend([], SetRetention(1));
    var o2 := RecordExtend(o1, [], [], e0, 0);
    assert DropExpired([e0], 6, 6) == [];
    var o3 := RecordExtend(o2, [e0], [e0], e6, 3600);
    ops := Extend(o3, SetRetention(24));
    assert Lost(ops) == LostOf([e0, e6], [e6]);
  }

  lemma RecordExtend(ops: seq<Op>, kept: seq<Event>, log: seq<Event>, e: Event, now: nat) returns (more: seq<Op>)
    requires ClockNeverStepsBack(ops) && Clock(ops) <= now && e.idx == BucketIndex(now)
    requires Run(ops) == Live(kept, 6) && Log(ops) == log && DropExpired(kept, 6, e.idx) == []
    ensures ClockNeverStepsBack(more) && Clock(more) == now && Run(more) == Live([e], 6) && Log(more) == log + [e]
  {
    more := Extend(ops, Record(now, e.metric, e.domain));
  }

  /** Lengthening the retention cannot bring evicted events back. */
  lemma GrowingWindowLosesEvents()
    ensures exists ops ::
      && ClockNeverStepsBack(ops) && Run(ops).Live?
      && Step(Run(ops), TakeSnapshot(Clock(ops))).Live?
      && Step(Run(ops), TakeSnapshot(Clock(ops))).kept != Recent(Log(ops), Window(ops), BucketIndex(Clock(ops)))
  {
    var ops := ShortThenLongRetention();
    ShortByLostEvents(ops, 3600);
    assert InWindow(Lost(ops)[0], 144, 6);
  }

  /** A clock that steps back over a bucket boundary before a snapshot makes it panic. */
  lemma StepBackBeforeSnapshotPanics()
    ensures exists ops :: Run(ops) == Poisoned
  {
    var e := Event(1, Requests, "");
    var o1 := Extend([], Record(600, Requests, ""));
    assert Run(o1) == Live([e], 144);
    var o2 := Extend(o1, TakeSnapshot(0));
    assert DropExpired([e], 144, 0) == [e];
    assert !InWindow([e][0], 144, 0);
  }

  /** A record stamped earlier than the one before it can hide an expired bucket, and the snapshot panics though nothing lies ahead of it. */
  lemma HiddenBucketPanics()
    ensures exists ops :: Run(ops) == Poisoned && UpTo(Log(ops), BucketIndex(Clock(ops)))
  {
    var e10, e1 := Event(10, Requests, ""), Event(1, Requests, "");
    var o1 := Extend([], SetRetention(1));
    var o2 := Extend(o1, Record(6000, Requests, ""));
    assert Run(o2) == Live([e10], 6) && Log(o2) == [e10];
    var o3 := Extend(o2, Record(600, Requests, ""));
    assert DropExpired([e10], 6, 1) == [e10];
    assert Run(o3) == Live([e10, e1], 6) && Log(o3) == [e10, e1];
    var o4 := Extend(o3, TakeSnapshot(6000));
    assert OutOfPlace([e10, e1], 6, 10, 1) by { assert !Expired([e10, e1][0], 6, 10); }
    SnapshotPanicsIff([e10, e1], 6, 6000);
  }

  // ----- clock readings that step back before a record

  /** No event of another bucket lies between two events of bucket `b`. */
  ghost predicate Unbroken(es: seq<Event>, b: int) {
    forall i, j, k :: 0 <= i < j < k < |es| && es[i].idx == b == es[k].idx ==> es[j].idx == b
  }

  /** From the first event of bucket `b` on there are no others. */
  ghost predicate EndsIn(es: seq<Event>, b: int) {
    forall i, j :: 0 <= i < j < |es| && es[i].idx == b ==> es[j].idx == b
  }

  lemma TallySnoc(es: seq<Event>, c: Counter)
    requires es != []
    ensures Tally(es, c) == Tally(es[..|es| - 1], c) + if Hits(es[|es| - 1], c) then 1 else 0
  {
    var last := es[|es| - 1];
    assert es == es[..|es| - 1] + [last];
    TallyConcat(es[..|es| - 1], [last], c);
  }

  lemma {:induction false} TallyAtLeastOne(es: seq<Event>, c: Counter, i: nat)
    requires i < |es| && Hits(es[i], c)
    ensures Tally(es, c) > 0
  {
    if i > 0 { TallyAtLeastOne(es[1..], c, i - 1); }
  }

  lemma {:induction false} StreakIsAll(es: seq<Event>, b: int, m: nat)
    requires EndsIn(es, b)
    ensures Streak(es, b, m) == Tally(es, ByCell(m, b))
  {
    if es != [] {
      TallySnoc(es, ByCell(m, b));
      if es[|es| - 1].idx == b {
        StreakIsAll(es[..|es| - 1], b, m);
      } else {
        forall e | e in es ensures !Hits(e, ByCell(m, b)) {
          var i :| 0 <= i < |es| && es[i] == e;
        }
        TallyOfNone(es, ByCell(m, b));
      }
    }
  }

  lemma {:induction false} LastRunIsAll(es: seq<Event>, b: int, m: nat)
    requires Unbroken(es, b)
    ensures LastRun(es, b, m) == Tally(es, ByCell(m, b))
  {
    if es != [] {
      TallySnoc(es, ByCell(m, b));
      if es[|es| - 1].idx == b {
        forall i, j | 0 <= i < j < |es| && es[i].idx == b ensures es[j].idx == b {
          if j < |es| - 1 { assert es[|es| - 1].idx == b; }
        }
        StreakIsAll(es, b, m);
      } else {
        LastRunIsAll(es[..|es| - 1], b, m);
      }
    }
  }

  lemma {:induction false} StreakFallsShort(es: seq<Event>, b: int, i: nat, j: nat)
    requires i < j < |es| && es[i].idx == b && es[j].idx != b
    ensures Streak(es, b, es[i].metric.Index()) < Tally(es, ByCell(es[i].metric.Index(), b))
  {
    var c := ByCell(es[i].metric.Index(), b);
    if es[|es| - 1].idx == b {
      TallySnoc(es, c);
      StreakFallsShort(es[..|es| - 1], b, i, j);
    } else {
      TallyAtLeastOne(es, c, i);
    }
  }

  lemma {:induction false} LastRunFallsShort(es: seq<Event>, b: int, i: nat, j: nat, k: nat)
    requires i < j < k < |es| && es[i].idx == b == es[k].idx && es[j].idx != b
    ensures LastRun(es, b, es[i].metric.Index()) < Tally(es, ByCell(es[i].metric.Index(), b))
  {
    if es[|es| - 1].idx == b {
      StreakFallsShort(es, b, i, j);
    } else {
      TallySnoc(es, ByCell(es[i].metric.Index(), b));
      LastRunFallsShort(es[..|es| - 1], b, i, j, k);
    }
  }

  ghost predicate CellsRight(es: seq<Event>, b: int) {
    forall m :: 0 <= m < METRIC_COUNT ==> LastRun(es, b, m) == Tally(es, ByCell(m, b))
  }

  /** A bucket's cells are its full counts if and only if its events were recorded without another bucket's between them. */
  lemma CellsRightIff(es: seq<Event>, b: int)
    ensures CellsRight(es, b) <==> Unbroken(es, b)
  {
    if Unbroken(es, b) {
      forall m | 0 <= m < METRIC_COUNT ensures LastRun(es, b, m) == Tally(es, ByCell(m, b)) {
        LastRunIsAll(es, b, m);
      }
    } else {
      var i, j, k :| 0 <= i < j < k < |es| && es[i].idx == b == es[k].idx && es[j].idx != b;
      LastRunFallsShort(es, b, i, j, k);
    }
  }

  lemma UnbrokenOutside(kept: seq<Event>, window: nat, idx: nat, b: int)
    requires AllInWindow(kept, window, idx) && !(b <= idx < b + window)
    ensures Unbroken(kept, b)
  {
    forall i | 0 <= i < |kept| ensures kept[i].idx != b { assert InWindow(kept[i], window, idx); }
  }

  /** The same for a whole snapshot: every cell it shows is right if and only if no bucket's events are broken up. */
  lemma SnapshotCellsIff(ops: seq<Op>, now: nat)
    requires Run(ops + [TakeSnapshot(now)]).Live?
    ensures var kept, w, idx := Run(ops + [TakeSnapshot(now)]).kept, Window(ops), BucketIndex(now);
      (forall b: int :: b <= idx < b + w ==> CellsRight(kept, b)) <==> (forall b: int :: Unbroken(kept, b))
  {
    var all := ops + [TakeSnapshot(now)];
    assert all[..|ops|] == ops;
    var kept, w, idx := Run(all).kept, Window(ops), BucketIndex(now);
    KeptIsLogSuffix(ops);
    forall b: int ensures CellsRight(kept, b) <==> Unbroken(kept, b) { CellsRightIff(kept, b); }
    forall b: int | !(b <= idx < b + w) ensures Unbroken(kept, b) { UnbrokenOutside(kept, w, idx, b); }
  }

  lemma SplitCell(e2: Event, e1: Event)
    requires e2 == Event(2, Requests, "") && e1 == Event(1, Requests, "")
    ensures var es := [e2, e1, e2]; LastRun(es, 2, 0) == 1 && Tally(es, ByCell(0, 2)) == 2
  {
    var es := [e2, e1, e2];
    assert es[..2] == [e2, e1] && es[1..] == [e1, e2];
    assert LastRun(es, 2, 0) == 1 + Streak([e2, e1], 2, 0) == 1;
    assert Tally([e1, e2], ByCell(0, 2)) == Tally([e2], ByCell(0, 2)) == 1;
  }

  lemma RecordKept(ops: seq<Op>, es: seq<Event>, e: Event, now: nat) returns (more: seq<Op>)
    requires Run(ops) == Live(es, 144) && Log(ops) == es && e.idx == BucketIndex(now)
    requires es != [] ==> !Expired(es[0], 144, e.idx)
    ensures Run(more) == Live(es + [e], 144) && Log(more) == es + [e] && Clock(more) == now
  {
    more := Extend(ops, Record(now, e.metric, e.domain));
  }

  /** A clock that steps back before a record can leave a cell of a later snapshot short of its count. */
  lemma StepBackSplitsACell()
    ensures exists ops ::
      && Run(ops).Live? && Step(Run(ops), TakeSnapshot(Clock(ops))) == Run(ops)
      && LastRun(Run(ops).kept, 2, 0) < Tally(Log(ops), ByCell(0, 2))
  {
    var e2, e1 := Event(2, Requests, ""), Event(1, Requests, "");
    var o1 := RecordKept([], [], e2, 1200);
    assert [] + [e2] == [e2];
    var o2 := RecordKept(o1, [e2], e1, 600);
    assert [e2] + [e1] == [e2, e1];
    var o3 := RecordKept(o2, [e2, e1], e2, 1200);
    assert [e2, e1] + [e2] == [e2, e1, e2];
    SplitCell(e2, e1);
    SnapshotKeeps([e2, e1, e2], 144, 1200);
    assert Step(Run(o3), TakeSnapshot(Clock(o3))) == Run(o3);
  }

  lemma SnapshotKeeps(es: seq<Event>, window: nat, now: nat)
    requires AllInWindow(es, window, BucketIndex(now))
    ensures Step(Live(es, window), TakeSnapshot(now)) == Live(es, window)
  {
    assert es != [] ==> InWindow(es[0], window, BucketIndex(now));
  }
}
