/**
 The sliding-window statistics. `History` keeps running totals and per-domain
 counts over a deque of buckets; the specification keeps the events themselves
 (`State.kept`). Every method of the class is proved to act on its buckets as the
 one-line `Step` acts on the events, and the lemmas below relate the kept events
 to the full log of recorded events.
 */
module HistorySpec {
  import opened Options
  import opened Ordering

  const METRIC_COUNT: nat := 6
  const BUCKET_SECS: nat := 600
  const WINDOW_BUCKETS: nat := 144
  const TOP_N: nat := 25

  datatype Metric = Requests | Blocked | Errors | DnsQueries | DnsBlocked | DnsCached {
    function Index(): (i: nat)
      ensures i < METRIC_COUNT
    {
      match this
      case Requests => 0
      case Blocked => 1
      case Errors => 2
      case DnsQueries => 3
      case DnsBlocked => 4
      case DnsCached => 5
    }

    function DomainTable(): Option<Table> {
      match this
      case Requests => Some(QueriedTable)
      case DnsQueries => Some(QueriedTable)
      case Blocked => Some(BlockedTable)
      case DnsBlocked => Some(BlockedTable)
      case Errors => None
      case DnsCached => None
    }
  }

  /** The ten-minute bucket a time falls in. */
  function BucketIndex(now: nat): nat {
    now / 600
  }

  function HoursToBuckets(hours: nat): nat {
    hours * 6
  }

  datatype Table = QueriedTable | BlockedTable

  /** One recorded event, with the ten-minute bucket its time falls in. */
  datatype Event = Event(idx: nat, metric: Metric, domain: string)

  /** What a counter counts: a metric, a metric within one bucket, or a domain within one table. */
  datatype Counter = ByMetric(m: nat) | ByCell(m: nat, idx: int) | ByDomain(table: Table, domain: string)

  predicate Hits(e: Event, c: Counter) {
    match c
    case ByMetric(m) => e.metric.Index() == m
    case ByCell(m, idx) => e.metric.Index() == m && e.idx == idx
    case ByDomain(t, d) => e.domain == d != "" && e.metric.DomainTable() == Some(t)
  }

  /** The recount: how many events hit a counter. */
  function Tally(es: seq<Event>, c: Counter): nat {
    if es == [] then 0 else (if Hits(es[0], c) then 1 else 0) + Tally(es[1..], c)
  }

  lemma {:induction false} TallyConcat(a: seq<Event>, b: seq<Event>, c: Counter)
    ensures Tally(a + b, c) == Tally(a, c) + Tally(b, c)
  {
    if a == [] {
      assert a + b == b;
    } else {
      assert (a + b)[1..] == a[1..] + b;
      TallyConcat(a[1..], b, c);
    }
  }

  /** A counting table agrees with the recount and holds no zero entries. */
  ghost predicate IsTable(m: map<string, nat>, es: seq<Event>, t: Table) {
    && (forall d :: d in m <==> Tally(es, ByDomain(t, d)) > 0)
    && (forall d :: d in m ==> m[d] == Tally(es, ByDomain(t, d)))
  }

  // ----- the window

  predicate Expired(e: Event, window: nat, idx: nat) {
    e.idx + window <= idx
  }

  /** Eviction works from the oldest end and stops at the first event still in the window. */
  function DropExpired(es: seq<Event>, window: nat, idx: nat): (r: seq<Event>)
    ensures |r| <= |es|
  {
    if es != [] && Expired(es[0], window, idx) then DropExpired(es[1..], window, idx) else es
  }

  /** The newest events stay; what went had expired, and what is left starts with an event that has not. */
  lemma {:induction false} DropExpiredCut(es: seq<Event>, window: nat, idx: nat)
    ensures var r := DropExpired(es, window, idx);
      && r == es[|es| - |r|..]
      && (forall i :: 0 <= i < |es| - |r| ==> Expired(es[i], window, idx))
      && (r != [] ==> !Expired(r[0], window, idx))
  {
    if es != [] && Expired(es[0], window, idx) {
      DropExpiredCut(es[1..], window, idx);
      var r := DropExpired(es, window, idx);
      forall i | 0 <= i < |es| - |r| ensures Expired(es[i], window, idx) {
        if i > 0 { assert es[i] == es[1..][i - 1]; }
      }
    }
  }

  predicate InWindow(e: Event, window: nat, idx: nat) {
    e.idx <= idx < e.idx + window
  }

  ghost predicate AllInWindow(es: seq<Event>, window: nat, idx: nat) {
    forall i :: 0 <= i < |es| ==> InWindow(es[i], window, idx)
  }

  ghost predicate NoneInWindow(es: seq<Event>, window: nat, idx: nat) {
    forall i :: 0 <= i < |es| ==> !InWindow(es[i], window, idx)
  }

  /** The events of a log that the window covers. */
  function Recent(es: seq<Event>, window: nat, idx: nat): (r: seq<Event>) {
    if es == [] then []
    else (if InWindow(es[0], window, idx) then [es[0]] else []) + Recent(es[1..], window, idx)
  }

  /** The count of metric `m` in the last uninterrupted run of events of bucket `b`. */
  function LastRun(es: seq<Event>, b: int, m: nat): nat {
    if es == [] then 0
    else if es[|es| - 1].idx != b then LastRun(es[..|es| - 1], b, m)
    else Streak(es, b, m)
  }

  function Streak(es: seq<Event>, b: int, m: nat): nat {
    if es == [] || es[|es| - 1].idx != b then 0
    else (if Hits(es[|es| - 1], ByMetric(m)) then 1 else 0) + Streak(es[..|es| - 1], b, m)
  }

  // ----- the state machine

  datatype Op =
    | Record(now: nat, metric: Metric, domain: string)
    | TakeSnapshot(now: nat)
    | SetRetention(hours: nat)
    | Reset

  /** A snapshot that indexes outside its series panics under the lock, and the lock stays poisoned. */
  datatype State = Live(kept: seq<Event>, window: nat) | Poisoned

  const Init := Live([], WINDOW_BUCKETS)

  ghost function Step(s: State, op: Op): State {
    match s
    case Poisoned => Poisoned
    case Live(kept, window) =>
      match op
      case Record(now, m, d) =>
        var idx := BucketIndex(now);
        Live(DropExpired(kept, window, idx) + [Event(idx, m, d)], window)
      case TakeSnapshot(now) =>
        var idx := BucketIndex(now);
        var rest := DropExpired(kept, window, idx);
        if AllInWindow(rest, window, idx) then Live(rest, window) else Poisoned
      case SetRetention(hours) => Live(kept, HoursToBuckets(hours))
      case Reset => Live([], window)
  }

  ghost function Run(ops: seq<Op>): State {
    if ops == [] then Init else Step(Run(ops[..|ops| - 1]), ops[|ops| - 1])
  }

  function LogStep(log: seq<Event>, op: Op): seq<Event> {
    match op
    case Record(now, m, d) => log + [Event(BucketIndex(now), m, d)]
    case Reset => []
    case _ => log
  }

  function ClockStep(clock: nat, op: Op): nat {
    match op
    case Record(now, _, _) => now
    case TakeSnapshot(now) => now
    case _ => clock
  }

  function WindowStep(window: nat, op: Op): nat {
    if op.SetRetention? then HoursToBuckets(op.hours) else window
  }

  /** The raw log: every event recorded since the last reset. */
  function Log(ops: seq<Op>): seq<Event> {
    if ops == [] then [] else LogStep(Log(ops[..|ops| - 1]), ops[|ops| - 1])
  }

  /** The time of the last call that read the clock. */
  function Clock(ops: seq<Op>): nat {
    if ops == [] then 0 else ClockStep(Clock(ops[..|ops| - 1]), ops[|ops| - 1])
  }

  function Window(ops: seq<Op>): nat {
    if ops == [] then WINDOW_BUCKETS else WindowStep(Window(ops[..|ops| - 1]), ops[|ops| - 1])
  }

  ghost predicate ClockNeverStepsBack(ops: seq<Op>) {
    ops == [] || (ClockNeverStepsBack(ops[..|ops| - 1]) && Clock(ops[..|ops| - 1]) <= Clock(ops))
  }

  ghost predicate WindowNeverGrows(ops: seq<Op>) {
    ops == [] || (WindowNeverGrows(ops[..|ops| - 1]) && Window(ops) <= Window(ops[..|ops| - 1]))
  }

  // ----- whole runs

  ghost predicate InOrder(es: seq<Event>) {
    forall i, j :: 0 <= i < j < |es| ==> es[i].idx <= es[j].idx
  }

  ghost predicate UpTo(es: seq<Event>, idx: nat) {
    forall i :: 0 <= i < |es| ==> es[i].idx <= idx
  }

  /** In every run, whatever the clock and the window do, the kept events are the newest part of the log. */
  lemma {:induction false} KeptIsLogSuffix(ops: seq<Op>)
    ensures Run(ops).Live? ==>
      && Run(ops).window == Window(ops)
      && |Run(ops).kept| <= |Log(ops)|
      && Run(ops).kept == Log(ops)[|Log(ops)| - |Run(ops).kept|..]
  {
    if ops != [] {
      var before := ops[..|ops| - 1];
      KeptIsLogSuffix(before);
      if Run(before).Live? {
        StepKeepsSuffix(Run(before).kept, Log(before), Window(before), ops[|ops| - 1]);
      }
    }
  }

  lemma DropKeepsSuffix(kept: seq<Event>, log: seq<Event>, window: nat, idx: nat)
    requires |kept| <= |log| && kept == log[|log| - |kept|..]
    ensures var r := DropExpired(kept, window, idx); |r| <= |log| && r == log[|log| - |r|..]
  {
    DropExpiredCut(kept, window, idx);
    SuffixOfSuffix(DropExpired(kept, window, idx), kept, log);
  }

  lemma SuffixGrows<T>(a: seq<T>, b: seq<T>, x: T)
    requires |a| <= |b| && a == b[|b| - |a|..]
    ensures a + [x] == (b + [x])[|b| - |a|..]
  {
  }

  lemma StepKeepsSuffix(kept: seq<Event>, log: seq<Event>, window: nat, op: Op)
    requires |kept| <= |log| && kept == log[|log| - |kept|..]
    ensures var s, log' := Step(Live(kept, window), op), LogStep(log, op);
      s.Live? ==> s.window == WindowStep(window, op) && |s.kept| <= |log'| && s.kept == log'[|log'| - |s.kept|..]
  {
    if op.Record? || op.TakeSnapshot? {
      var idx := BucketIndex(op.now);
      DropKeepsSuffix(kept, log, window, idx);
      if op.Record? {
        SuffixGrows(DropExpired(kept, window, idx), log, Event(idx, op.metric, op.domain));
      }
    }
  }

  lemma SuffixOfSuffix<T>(a: seq<T>, b: seq<T>, c: seq<T>)
    requires |a| <= |b| <= |c| && a == b[|b| - |a|..] && b == c[|c| - |b|..]
    ensures a == c[|c| - |a|..]
  {
  }

  lemma StepSteady(kept: seq<Event>, log: seq<Event>, window: nat, clock: nat, op: Op)
    requires |kept| <= |log| && kept == log[|log| - |kept|..]
    requires InOrder(log) && UpTo(log, BucketIndex(clock))
    requires clock <= ClockStep(clock, op)
    ensures Step(Live(kept, window), op).Live?
    ensures InOrder(LogStep(log, op)) && UpTo(LogStep(log, op), BucketIndex(ClockStep(clock, op)))
  {
    var idx := BucketIndex(ClockStep(clock, op));
    assert BucketIndex(clock) <= idx;
    if op.TakeSnapshot? {
      DropExpiredIsRecent(kept, window, idx);
    }
  }

  /** With a steady clock no run panics, and the log is in bucket order up to the present. */
  lemma {:induction false} SteadyClockNeverPanics(ops: seq<Op>)
    requires ClockNeverStepsBack(ops)
    ensures Run(ops).Live?
    ensures InOrder(Log(ops)) && UpTo(Log(ops), BucketIndex(Clock(ops)))
  {
    if ops != [] {
      var before := ops[..|ops| - 1];
      SteadyClockNeverPanics(before);
      KeptIsLogSuffix(before);
      StepSteady(Run(before).kept, Log(before), Window(before), Clock(before), ops[|ops| - 1]);
    }
  }

  /** Events evicted so far: the part of the log that is no longer kept. */
  ghost function Lost(ops: seq<Op>): seq<Event>
    requires Run(ops).Live?
  {
    LostOf(Log(ops), Run(ops).kept)
  }

  ghost function LostOf(log: seq<Event>, kept: seq<Event>): seq<Event> {
    if |kept| <= |log| then log[..|log| - |kept|] else []
  }

  lemma {:induction false} RecentConcat(a: seq<Event>, b: seq<Event>, window: nat, idx: nat)
    ensures Recent(a + b, window, idx) == Recent(a, window, idx) + Recent(b, window, idx)
  {
    if a == [] {
      assert a + b == b;
    } else {
      RecentConcat(a[1..], b, window, idx);
      var head := if InWindow(a[0], window, idx) then [a[0]] else [];
      calc {
        Recent(a + b, window, idx);
        { assert (a + b)[0] == a[0] && (a + b)[1..] == a[1..] + b; }
        head + Recent(a[1..] + b, window, idx);
        head + (Recent(a[1..], window, idx) + Recent(b, window, idx));
        head + Recent(a[1..], window, idx) + Recent(b, window, idx);
      }
    }
  }

  lemma {:induction false} RecentAll(es: seq<Event>, window: nat, idx: nat)
    requires AllInWindow(es, window, idx)
    ensures Recent(es, window, idx) == es
  {
    if es != [] { RecentAll(es[1..], window, idx); }
  }

  lemma {:induction false} RecentNone(es: seq<Event>, window: nat, idx: nat)
    ensures Recent(es, window, idx) == [] <==> NoneInWindow(es, window, idx)
  {
    if es != [] {
      RecentNone(es[1..], window, idx);
      if NoneInWindow(es[1..], window, idx) && !InWindow(es[0], window, idx) {
        forall i | 0 <= i < |es| ensures !InWindow(es[i], window, idx) {
          if i > 0 { assert es[i] == es[1..][i - 1]; }
        }
      }
      if NoneInWindow(es, window, idx) {
        forall i | 0 <= i < |es[1..]| ensures !InWindow(es[1..][i], window, idx) {
          assert es[1..][i] == es[i + 1];
        }
      }
    }
  }

  /** On events in bucket order, eviction from the old end keeps exactly the events in the window. */
  lemma {:induction false} DropExpiredIsRecent(es: seq<Event>, window: nat, idx: nat)
    requires InOrder(es) && UpTo(es, idx)
    ensures DropExpired(es, window, idx) == Recent(es, window, idx)
    ensures AllInWindow(DropExpired(es, window, idx), window, idx)
  {
    if es != [] && Expired(es[0], window, idx) {
      DropExpiredIsRecent(es[1..], window, idx);
    } else {
      RecentAll(es, window, idx);
    }
  }

  /** With a steady clock a snapshot is short of exactly those evicted events that fall inside the window again. */
  lemma ShortByLostEvents(ops: seq<Op>, now: nat)
    requires ClockNeverStepsBack(ops) && Clock(ops) <= now
    ensures Run(ops).Live? && Step(Run(ops), TakeSnapshot(now)).Live?
    ensures Step(Run(ops), TakeSnapshot(now)).kept == Recent(Log(ops), Window(ops), BucketIndex(now))
       <==> NoneInWindow(Lost(ops), Window(ops), BucketIndex(now))
  {
    var idx, w := BucketIndex(now), Window(ops);
    assert BucketIndex(Clock(ops)) <= idx;
    SteadyClockNeverPanics(ops);
    KeptIsLogSuffix(ops);
    SplitWindow(Log(ops), Run(ops).kept, w, idx);
  }

  lemma SuffixInOrder(log: seq<Event>, kept: seq<Event>, idx: nat)
    requires InOrder(log) && UpTo(log, idx)
    requires |kept| <= |log| && kept == log[|log| - |kept|..]
    ensures InOrder(kept) && UpTo(kept, idx)
  {
  }

  lemma SplitWindow(log: seq<Event>, kept: seq<Event>, window: nat, idx: nat)
    requires InOrder(log) && UpTo(log, idx)
    requires |kept| <= |log| && kept == log[|log| - |kept|..]
    ensures AllInWindow(DropExpired(kept, window, idx), window, idx)
    ensures DropExpired(kept, window, idx) == Recent(log, window, idx)
       <==> NoneInWindow(LostOf(log, kept), window, idx)
  {
    SuffixInOrder(log, kept, idx);
    DropExpiredIsRecent(kept, window, idx);
    RecentSplit(log, LostOf(log, kept), kept, window, idx);
  }

  lemma RecentSplit(log: seq<Event>, lost: seq<Event>, kept: seq<Event>, window: nat, idx: nat)
    requires log == lost + kept
    ensures Recent(kept, window, idx) == Recent(log, window, idx) <==> NoneInWindow(lost, window, idx)
  {
    RecentConcat(lost, kept, window, idx);
    RecentNone(lost, window, idx);
    assert |Recent(log, window, idx)| == |Recent(lost, window, idx)| + |Recent(kept, window, idx)|;
    if Recent(lost, window, idx) == [] {
      assert [] + Recent(kept, window, idx) == Recent(kept, window, idx);
    }
  }

  ghost predicate AllExpired(es: seq<Event>, window: nat, idx: nat) {
    forall i :: 0 <= i < |es| ==> Expired(es[i], window, idx)
  }

  /** An evicted event was out of the window when it went, so it is out of every smaller, later window. */
  lemma {:induction false} LostStaysExpired(ops: seq<Op>)
    requires ClockNeverStepsBack(ops) && WindowNeverGrows(ops)
    ensures Run(ops).Live?
    ensures AllExpired(Lost(ops), Window(ops), BucketIndex(Clock(ops)))
  {
    SteadyClockNeverPanics(ops);
    if ops != [] {
      var before := ops[..|ops| - 1];
      SteadyClockNeverPanics(before);
      LostStaysExpired(before);
      KeptIsLogSuffix(before);
      StepLoss(Run(before).kept, Log(before), Window(before), Clock(before), ops[|ops| - 1]);
    }
  }

  lemma StepLoss(kept: seq<Event>, log: seq<Event>, window: nat, clock: nat, op: Op)
    requires |kept| <= |log| && kept == log[|log| - |kept|..]
    requires AllExpired(LostOf(log, kept), window, BucketIndex(clock))
    requires clock <= ClockStep(clock, op) && WindowStep(window, op) <= window
    requires Step(Live(kept, window), op).Live?
    ensures var s, log' := Step(Live(kept, window), op), LogStep(log, op);
      AllExpired(LostOf(log', s.kept), s.window, BucketIndex(ClockStep(clock, op)))
  {
    var idx := BucketIndex(ClockStep(clock, op));
    assert BucketIndex(clock) <= idx;
    if op.Record? || op.TakeSnapshot? {
      var r := DropExpired(kept, window, idx);
      LossGrowsByExpired(log, kept, window, idx);
      var log', s := LogStep(log, op), Step(Live(kept, window), op);
      assert LostOf(log', s.kept) == LostOf(log, r);
    }
  }

  lemma LossGrowsByExpired(log: seq<Event>, kept: seq<Event>, window: nat, idx: nat)
    requires |kept| <= |log| && kept == log[|log| - |kept|..]
    requires AllExpired(LostOf(log, kept), window, idx)
    ensures AllExpired(LostOf(log, DropExpired(kept, window, idx)), window, idx)
  {
    var r := DropExpired(kept, window, idx);
    DropExpiredCut(kept, window, idx);
    forall i | 0 <= i < |log| - |r| ensures Expired(log[i], window, idx) {
      if i < |log| - |kept| {
        assert log[i] == LostOf(log, kept)[i];
      } else {
        assert log[i] == kept[i - (|log| - |kept|)];
      }
    }
  }

  /** The steady case: every snapshot shows exactly the log's events of the window. */
  lemma SnapshotRefinesLog(ops: seq<Op>, now: nat)
    requires ClockNeverStepsBack(ops) && WindowNeverGrows(ops) && Clock(ops) <= now
    ensures Run(ops + [TakeSnapshot(now)]) == Live(Recent(Log(ops), Window(ops), BucketIndex(now)), Window(ops))
  {
    assert (ops + [TakeSnapshot(now)])[..|ops|] == ops;
    var idx := BucketIndex(now);
    assert BucketIndex(Clock(ops)) <= idx;
    LostStaysExpired(ops);
    KeptIsLogSuffix(ops);
    ShortByLostEvents(ops, now);
    forall i | 0 <= i < |Lost(ops)| ensures !InWindow(Lost(ops)[i], Window(ops), idx) {
      assert Expired(Lost(ops)[i], Window(ops), BucketIndex(Clock(ops)));
    }
  }

  // ----- what the series and the totals say about the kept events

  lemma {:induction false} StreakIsTally(es: seq<Event>, b: int, m: nat)
    requires InOrder(es)
    requires es != [] ==> es[|es| - 1].idx <= b
    ensures Streak(es, b, m) == Tally(es, ByCell(m, b))
  {
    if es != [] {
      var init, last := es[..|es| - 1], es[|es| - 1];
      assert es == init + [last];
      TallyConcat(init, [last], ByCell(m, b));
      if last.idx == b {
        StreakIsTally(init, b, m);
      } else {
        TallyOfNone(init, ByCell(m, b));
      }
    }
  }

  lemma {:induction false} TallyOfNone(es: seq<Event>, c: Counter)
    requires forall e :: e in es ==> !Hits(e, c)
    ensures Tally(es, c) == 0
  {
    if es != [] { TallyOfNone(es[1..], c); }
  }

  /** In bucket order, one bucket's events form a single run, so the cell is the full count. */
  lemma {:induction false} LastRunIsTally(es: seq<Event>, b: int, m: nat)
    requires InOrder(es)
    ensures LastRun(es, b, m) == Tally(es, ByCell(m, b))
  {
    if es != [] {
      var init, last := es[..|es| - 1], es[|es| - 1];
      if last.idx != b {
        assert es == init + [last];
        TallyConcat(init, [last], ByCell(m, b));
        LastRunIsTally(init, b, m);
      } else {
        StreakIsTally(es, b, m);
      }
    }
  }

  function Sum(s: seq<nat>): nat {
    if s == [] then 0 else s[0] + Sum(s[1..])
  }

  function CellTallies(es: seq<Event>, m: nat, window: nat, idx: nat): seq<nat> {
    seq<nat>(window, j => Tally(es, ByCell(m, idx - (window - 1 - j))))
  }

  lemma {:induction false} SumOfOneHit(s: seq<nat>, t: seq<nat>, k: nat)
    requires |s| == |t| && k < |s|
    requires forall j :: 0 <= j < |s| && j != k ==> s[j] == t[j]
    requires s[k] == t[k] + 1
    ensures Sum(s) == Sum(t) + 1
  {
    if k > 0 { SumOfOneHit(s[1..], t[1..], k - 1); } else { assert s[1..] == t[1..]; }
  }

  lemma {:induction false} SumOfZeros(s: seq<nat>)
    requires forall j :: 0 <= j < |s| ==> s[j] == 0
    ensures Sum(s) == 0
  {
    if s != [] { SumOfZeros(s[1..]); }
  }

  /** Conservation: when every event is in the window, the cells add up to the total. */
  lemma {:induction false} CellsSumToTotal(es: seq<Event>, m: nat, window: nat, idx: nat)
    requires AllInWindow(es, window, idx)
    ensures Sum(CellTallies(es, m, window, idx)) == Tally(es, ByMetric(m))
  {
    var s := CellTallies(es, m, window, idx);
    if es == [] {
      forall j | 0 <= j < window ensures s[j] == 0 {
        assert s[j] == Tally(es, ByCell(m, idx - (window - 1 - j)));
      }
      SumOfZeros(s);
    } else {
      var t := CellTallies(es[1..], m, window, idx);
      CellsSumToTotal(es[1..], m, window, idx);
      assert InWindow(es[0], window, idx);
      var k := window - 1 - (idx - es[0].idx);
      if Hits(es[0], ByMetric(m)) {
        forall j | 0 <= j < window
          ensures s[j] == t[j] + if j == k then 1 else 0
        {
          assert s[j] == Tally(es, ByCell(m, idx - (window - 1 - j)));
        }
        SumOfOneHit(s, t, k);
      } else {
        forall j | 0 <= j < window ensures s[j] == t[j] {
          assert s[j] == Tally(es, ByCell(m, idx - (window - 1 - j)));
        }
        assert s == t;
      }
    }
  }

  /** Leaving out events outside the window changes no cell inside it. */
  lemma {:induction false} RecentKeepsCells(es: seq<Event>, window: nat, idx: nat, b: int, m: nat)
    requires b <= idx < b + window
    ensures Tally(Recent(es, window, idx), ByCell(m, b)) == Tally(es, ByCell(m, b))
  {
    if es != [] {
      RecentKeepsCells(es[1..], window, idx, b, m);
      var head := if InWindow(es[0], window, idx) then [es[0]] else [];
      TallyConcat(head, Recent(es[1..], window, idx), ByCell(m, b));
    }
  }

  lemma {:induction false} RecentInOrder(es: seq<Event>, window: nat, idx: nat, from: nat)
    requires InOrder(es) && forall i :: 0 <= i < |es| ==> from <= es[i].idx
    ensures var r := Recent(es, window, idx);
      InOrder(r) && AllInWindow(r, window, idx) && forall i :: 0 <= i < |r| ==> from <= r[i].idx
  {
    if es != [] {
      RecentInOrder(es[1..], window, idx, es[0].idx);
      var rest := Recent(es[1..], window, idx);
      var head := if InWindow(es[0], window, idx) then [es[0]] else [];
      assert Recent(es, window, idx) == head + rest;
    }
  }

  lemma CellOfRecent(log: seq<Event>, kept: seq<Event>, w: nat, idx: nat, m: nat, b: int)
    requires kept == Recent(log, w, idx) && InOrder(kept) && b <= idx < b + w
    ensures LastRun(kept, b, m) == Tally(kept, ByCell(m, b)) == Tally(log, ByCell(m, b))
  {
    LastRunIsTally(kept, b, m);
    RecentKeepsCells(log, w, idx, b, m);
  }

  lemma TotalsAgree(log: seq<Event>, w: nat, idx: nat, m: nat)
    requires InOrder(log)
    ensures Sum(CellTallies(log, m, w, idx)) == Tally(Recent(log, w, idx), ByMetric(m))
  {
    var kept := Recent(log, w, idx);
    var s, t := CellTallies(log, m, w, idx), CellTallies(kept, m, w, idx);
    RecentInOrder(log, w, idx, 0);
    forall j | 0 <= j < w ensures s[j] == t[j] {
      RecentKeepsCells(log, w, idx, idx - (w - 1 - j), m);
    }
    assert s == t;
    CellsSumToTotal(kept, m, w, idx);
  }

  /**
   The numbers a steady snapshot shows, recounted from the raw log: the cell `k`
   buckets back is the log's count for that bucket, and the cells add up to the total.
   */
  lemma SnapshotRecount(ops: seq<Op>, now: nat, m: nat, k: nat)
    requires ClockNeverStepsBack(ops) && WindowNeverGrows(ops) && Clock(ops) <= now
    requires k < Window(ops)
    ensures var s, idx := Run(ops + [TakeSnapshot(now)]), BucketIndex(now);
      && s.Live?
      && LastRun(s.kept, idx - k, m) == Tally(Log(ops), ByCell(m, idx - k))
      && Tally(s.kept, ByMetric(m)) == Sum(CellTallies(Log(ops), m, Window(ops), idx))
  {
    var log, w, idx := Log(ops), Window(ops), BucketIndex(now);
    var s := Run(ops + [TakeSnapshot(now)]);
    assert s == Live(Recent(log, w, idx), w) by { SnapshotRefinesLog(ops, now); }
    assert InOrder(log) by { SteadyClockNeverPanics(ops); }
    RecentInOrder(log, w, idx, 0);
    CellOfRecent(log, s.kept, w, idx, m, idx - k);
    TotalsAgree(log, w, idx, m);
  }
}

/** The statistics object itself: buckets, running totals and two domain tables, updated in place. */
module History {
  import opened Options
  import opened Ordering
  import opened HistorySpec

  datatype Bucket = Bucket(idx: nat, counts: seq<nat>, queried: map<string, nat>, blocked: map<string, nat>)

  datatype Snapshot = Snapshot(
    bucketSecs: nat,
    totals: seq<nat>,
    series: seq<seq<nat>>,
    topQueried: seq<(string, nat)>,
    topBlocked: seq<(string, nat)>)

  // ----- counting one event

  const ZEROS: seq<nat> := [0, 0, 0, 0, 0, 0]

  function Counted(c: seq<nat>, m: Metric): (r: seq<nat>)
    requires |c| == METRIC_COUNT
    ensures |r| == METRIC_COUNT
  {
    c[m.Index() := c[m.Index()] + 1]
  }

  function Noted(m: map<string, nat>, e: Event, t: Table): map<string, nat> {
    if e.domain != "" && e.metric.DomainTable() == Some(t)
    then m[e.domain := (if e.domain in m then m[e.domain] else 0) + 1]
    else m
  }

  function Added(b: Bucket, e: Event): Bucket
    requires |b.counts| == METRIC_COUNT
  {
    Bucket(b.idx, Counted(b.counts, e.metric), Noted(b.queried, e, QueriedTable), Noted(b.blocked, e, BlockedTable))
  }

  // ----- counting a run of events

  ghost function CountsOf(es: seq<Event>): (c: seq<nat>)
    ensures |c| == METRIC_COUNT
  {
    if es == [] then ZEROS else Counted(CountsOf(es[..|es| - 1]), es[|es| - 1].metric)
  }

  ghost function TableOf(es: seq<Event>, t: Table): map<string, nat> {
    if es == [] then map[] else Noted(TableOf(es[..|es| - 1], t), es[|es| - 1], t)
  }

  ghost function BucketOf(idx: nat, es: seq<Event>): Bucket {
    Bucket(idx, CountsOf(es), TableOf(es, QueriedTable), TableOf(es, BlockedTable))
  }

  lemma CountsSnoc(es: seq<Event>, e: Event)
    ensures CountsOf(es + [e]) == Counted(CountsOf(es), e.metric)
    ensures TableOf(es + [e], QueriedTable) == Noted(TableOf(es, QueriedTable), e, QueriedTable)
    ensures TableOf(es + [e], BlockedTable) == Noted(TableOf(es, BlockedTable), e, BlockedTable)
  {
    assert (es + [e])[..|es|] == es;
  }

  /** Incremental counts are the recount. */
  lemma {:induction false} CountsAreTallies(es: seq<Event>, m: nat)
    requires m < METRIC_COUNT
    ensures CountsOf(es)[m] == Tally(es, ByMetric(m))
  {
    if es != [] {
      var init, last := es[..|es| - 1], es[|es| - 1];
      CountsAreTallies(init, m);
      assert es == init + [last] && [last][1..] == [];
      TallyConcat(init, [last], ByMetric(m));
    }
  }

  /** Incremental tables are the recount, entry by entry, and hold no zeros. */
  lemma {:induction false} TableIsTallies(es: seq<Event>, t: Table, d: string)
    ensures d in TableOf(es, t) <==> Tally(es, ByDomain(t, d)) > 0
    ensures d in TableOf(es, t) ==> TableOf(es, t)[d] == Tally(es, ByDomain(t, d))
  {
    if es != [] {
      var init, last := es[..|es| - 1], es[|es| - 1];
      TableIsTallies(init, t, d);
      assert es == init + [last] && [last][1..] == [];
      TallyConcat(init, [last], ByDomain(t, d));
    }
  }

  lemma TableOfIsTable(es: seq<Event>, t: Table)
    ensures IsTable(TableOf(es, t), es, t)
  {
    forall d
      ensures d in TableOf(es, t) <==> Tally(es, ByDomain(t, d)) > 0
      ensures d in TableOf(es, t) ==> TableOf(es, t)[d] == Tally(es, ByDomain(t, d))
    {
      TableIsTallies(es, t, d);
    }
  }

  // ----- taking the oldest run out again

  /** Take one bucket's counts out of a window table, dropping entries that reach zero. */
  method Subtract(table: map<string, nat>, expired: map<string, nat>) returns (w: map<string, nat>)
    ensures forall d :: d in w <==> d in table && (d in expired ==> table[d] > expired[d])
    ensures forall d :: d in w ==> w[d] == table[d] - if d in expired then expired[d] else 0
  {
    w := table;
    var todo := expired.Keys;
    while todo != {}
      invariant todo <= expired.Keys
      invariant forall d :: d in todo ==> (d in w <==> d in table)
      invariant forall d :: d !in todo ==> (d in w <==> d in table && (d in expired ==> table[d] > expired[d]))
      invariant forall d :: d in w ==> w[d] == table[d] - if d in expired && d !in todo then expired[d] else 0
      decreases todo
    {
      var d :| d in todo;
      if d in w {
        var left := if w[d] >= expired[d] then w[d] - expired[d] else 0;
        w := if left == 0 then w - {d} else w[d := left];
      }
      todo := todo - {d};
    }
  }

  /** Taking out the oldest run's own table leaves the table of the rest; no entry goes below its share. */
  method SubtractRun(table: map<string, nat>, expired: map<string, nat>,
                     ghost run: seq<Event>, ghost rest: seq<Event>, ghost t: Table)
    returns (w: map<string, nat>)
    requires table == TableOf(run + rest, t) && expired == TableOf(run, t)
    ensures w == TableOf(rest, t)
  {
    w := Subtract(table, expired);
    forall d
      ensures d in expired ==> d in table && expired[d] <= table[d]
      ensures d in w <==> d in TableOf(rest, t)
      ensures d in w ==> w[d] == TableOf(rest, t)[d]
    {
      TallyConcat(run, rest, ByDomain(t, d));
      TableIsTallies(run, t, d);
      TableIsTallies(rest, t, d);
      TableIsTallies(run + rest, t, d);
    }
  }

  /** Taking out the oldest run's counts leaves the counts of the rest; no total goes below zero. */
  method SubtractCounts(totals: seq<nat>, counts: seq<nat>, ghost run: seq<Event>, ghost rest: seq<Event>)
    returns (left: seq<nat>)
    requires totals == CountsOf(run + rest) && counts == CountsOf(run)
    ensures left == CountsOf(rest)
  {
    left := totals;
    for m := 0 to METRIC_COUNT
      invariant |left| == METRIC_COUNT
      invariant forall k :: m <= k < METRIC_COUNT ==> left[k] == totals[k]
      invariant forall k :: 0 <= k < m ==> left[k] == CountsOf(rest)[k]
    {
      TallyConcat(run, rest, ByMetric(m));
      CountsAreTallies(run, m);
      CountsAreTallies(rest, m);
      CountsAreTallies(run + rest, m);
      left := left[m := left[m] - counts[m]];
    }
  }

  lemma {:induction false} DropRun(run: seq<Event>, rest: seq<Event>, window: nat, idx: nat)
    requires forall i :: 0 <= i < |run| ==> Expired(run[i], window, idx)
    ensures DropExpired(run + rest, window, idx) == DropExpired(rest, window, idx)
  {
    if run == [] {
      assert run + rest == rest;
    } else {
      assert (run + rest)[1..] == run[1..] + rest && (run + rest)[0] == run[0];
      DropRun(run[1..], rest, window, idx);
    }
  }

  /** Take one expired bucket out of the totals and both tables. */
  method SubtractBucket(totals: seq<nat>, queried: map<string, nat>, blocked: map<string, nat>, b: Bucket,
                        ghost all: seq<Event>, ghost run: seq<Event>, ghost rest: seq<Event>)
    returns (t: seq<nat>, q: map<string, nat>, k: map<string, nat>)
    requires Sums(totals, queried, blocked, all) && all == run + rest && b == BucketOf(b.idx, run)
    ensures Sums(t, q, k, rest)
  {
    t := SubtractCounts(totals, b.counts, run, rest);
    q := SubtractRun(queried, b.queried, run, rest, QueriedTable);
    k := SubtractRun(blocked, b.blocked, run, rest, BlockedTable);
  }

  /** The running totals and tables agree with a recount of the events. */
  ghost predicate Sums(totals: seq<nat>, queried: map<string, nat>, blocked: map<string, nat>, es: seq<Event>) {
    && totals == CountsOf(es)
    && queried == TableOf(es, QueriedTable)
    && blocked == TableOf(es, BlockedTable)
  }

  lemma SumsSnoc(totals: seq<nat>, queried: map<string, nat>, blocked: map<string, nat>, es: seq<Event>, e: Event)
    requires Sums(totals, queried, blocked, es)
    ensures |totals| == METRIC_COUNT
    ensures Sums(Counted(totals, e.metric), Noted(queried, e, QueriedTable), Noted(blocked, e, BlockedTable), es + [e])
  {
    CountsSnoc(es, e);
  }

  // ----- buckets stand for runs of events

  ghost predicate AllAt(es: seq<Event>, idx: nat) {
    forall i :: 0 <= i < |es| ==> es[i].idx == idx
  }

  /** Each bucket counts one non-empty run of events that all fall in it, and neighbours differ. */
  ghost predicate Groups(buckets: seq<Bucket>, runs: seq<seq<Event>>) {
    && |buckets| == |runs|
    && (forall i :: 0 <= i < |runs| ==> runs[i] != [] && AllAt(runs[i], buckets[i].idx))
    && (forall i :: 0 <= i < |runs| ==> buckets[i] == BucketOf(buckets[i].idx, runs[i]))
    && (forall i, j :: 0 <= i && i + 1 == j < |buckets| ==> buckets[i].idx != buckets[j].idx)
  }

  ghost function Flatten(runs: seq<seq<Event>>): seq<Event> {
    if runs == [] then [] else runs[0] + Flatten(runs[1..])
  }

  lemma {:induction false} FlattenSnoc(runs: seq<seq<Event>>, run: seq<Event>)
    ensures Flatten(runs + [run]) == Flatten(runs) + run
  {
    if runs == [] {
      assert runs + [run] == [run] && Flatten([run][1..]) == [];
    } else {
      assert (runs + [run])[1..] == runs[1..] + [run];
      FlattenSnoc(runs[1..], run);
    }
  }

  lemma {:induction false} FlattenSplit(runs: seq<seq<Event>>, i: nat)
    requires i <= |runs|
    ensures Flatten(runs) == Flatten(runs[..i]) + Flatten(runs[i..])
  {
    if i == 0 {
      assert runs[0..] == runs;
    } else {
      assert runs[..i][1..] == runs[1..][..i - 1] && runs[i..] == runs[1..][i - 1..];
      FlattenSplit(runs[1..], i - 1);
    }
  }

  /** The oldest bucket comes off the deque, and with it the oldest run of events. */
  method PopOldest(buckets: seq<Bucket>, ghost runs: seq<seq<Event>>, ghost window: nat, ghost idx: nat)
    returns (rest: seq<Bucket>, ghost run: seq<Event>, ghost left: seq<seq<Event>>)
    requires Groups(buckets, runs) && buckets != [] && buckets[0].idx + window <= idx
    ensures Groups(rest, left) && |rest| < |buckets|
    ensures buckets[0] == BucketOf(buckets[0].idx, run) && Flatten(runs) == run + Flatten(left)
    ensures DropExpired(Flatten(left), window, idx) == DropExpired(Flatten(runs), window, idx)
  {
    rest, run, left := buckets[1..], runs[0], runs[1..];
    DropRun(run, Flatten(left), window, idx);
  }

  /** And its counts go with it. */
  method DropOldest(buckets: seq<Bucket>, totals: seq<nat>, queried: map<string, nat>, blocked: map<string, nat>,
                    ghost runs: seq<seq<Event>>, ghost window: nat, ghost idx: nat)
    returns (rest: seq<Bucket>, t: seq<nat>, q: map<string, nat>, k: map<string, nat>, ghost left: seq<seq<Event>>)
    requires Groups(buckets, runs) && Sums(totals, queried, blocked, Flatten(runs))
    requires buckets != [] && buckets[0].idx + window <= idx
    ensures Groups(rest, left) && |rest| < |buckets| && Sums(t, q, k, Flatten(left))
    ensures DropExpired(Flatten(left), window, idx) == DropExpired(Flatten(runs), window, idx)
  {
    ghost var run;
    rest, run, left := PopOldest(buckets, runs, window, idx);
    t, q, k := SubtractBucket(totals, queried, blocked, buckets[0], Flatten(runs), run, Flatten(left));
  }

  /** A new event opens a new bucket when the newest one is another. */
  lemma NewBucketGroups(buckets: seq<Bucket>, runs: seq<seq<Event>>, e: Event)
    requires Groups(buckets, runs) && (buckets != [] ==> buckets[|buckets| - 1].idx != e.idx)
    ensures Groups(buckets + [Added(Bucket(e.idx, ZEROS, map[], map[]), e)], runs + [[e]])
    ensures Flatten(runs + [[e]]) == Flatten(runs) + [e]
  {
    CountsSnoc([], e);
    assert [] + [e] == [e];
    FlattenSnoc(runs, [e]);
  }

  /** A new event of the newest bucket is counted there. */
  lemma SameBucketGroups(buckets: seq<Bucket>, runs: seq<seq<Event>>, e: Event, n: nat)
    requires Groups(buckets, runs) && |buckets| == n + 1 && buckets[n].idx == e.idx
    ensures |buckets[n].counts| == METRIC_COUNT
    ensures Groups(buckets[n := Added(buckets[n], e)], runs[n := runs[n] + [e]])
    ensures Flatten(runs[n := runs[n] + [e]]) == Flatten(runs) + [e]
  {
    CountsSnoc(runs[n], e);
    FlattenGrows(runs, n, e);
  }

  lemma FlattenGrows(runs: seq<seq<Event>>, n: nat, e: Event)
    requires |runs| == n + 1
    ensures Flatten(runs[n := runs[n] + [e]]) == Flatten(runs) + [e]
  {
    var rs, run := runs[..n], runs[n];
    assert runs == rs + [run] && runs[n := run + [e]] == rs + [run + [e]];
    FlattenSnoc(rs, run);
    FlattenSnoc(rs, run + [e]);
  }

  /** One more event, in the newest bucket if that is its own, else in a bucket opened for it. */
  method CountInNewest(buckets: seq<Bucket>, ghost runs: seq<seq<Event>>, e: Event)
    returns (after: seq<Bucket>, ghost grown: seq<seq<Event>>)
    requires Groups(buckets, runs)
    ensures Groups(after, grown) && Flatten(grown) == Flatten(runs) + [e]
  {
    var n := |buckets| - 1;
    if buckets == [] || buckets[n].idx != e.idx {
      NewBucketGroups(buckets, runs, e);
      after, grown := buckets + [Added(Bucket(e.idx, ZEROS, map[], map[]), e)], runs + [[e]];
    } else {
      SameBucketGroups(buckets, runs, e, n);
      after, grown := buckets[n := Added(buckets[n], e)], runs[n := runs[n] + [e]];
    }
  }

  // ----- the series

  lemma {:induction false} LastRunAppend(es: seq<Event>, run: seq<Event>, c: nat, b: int, m: nat)
    requires run != [] && forall i :: 0 <= i < |run| ==> run[i].idx == c
    requires es != [] ==> es[|es| - 1].idx != c
    ensures LastRun(es + run, b, m) == if b == c then Tally(run, ByMetric(m)) else LastRun(es, b, m)
  {
    var init, last := run[..|run| - 1], run[|run| - 1];
    assert (es + run)[|es + run| - 1] == last && (es + run)[..|es + run| - 1] == es + init;
    if b == c {
      StreakAppend(es, run, c, m);
    } else if init == [] {
      assert es + init == es;
    } else {
      LastRunAppend(es, init, c, b, m);
    }
  }

  lemma {:induction false} StreakAppend(es: seq<Event>, run: seq<Event>, c: nat, m: nat)
    requires forall i :: 0 <= i < |run| ==> run[i].idx == c
    requires es != [] ==> es[|es| - 1].idx != c
    ensures Streak(es + run, c, m) == Tally(run, ByMetric(m))
  {
    if run == [] {
      assert es + run == es;
    } else {
      var init, last := run[..|run| - 1], run[|run| - 1];
      assert (es + run)[|es + run| - 1] == last && (es + run)[..|es + run| - 1] == es + init;
      StreakAppend(es, init, c, m);
      assert run == init + [last] && [last][1..] == [];
      TallyConcat(init, [last], ByMetric(m));
    }
  }

  lemma FlattenLast(buckets: seq<Bucket>, runs: seq<seq<Event>>, i: nat)
    requires Groups(buckets, runs) && 0 < i <= |runs|
    ensures Flatten(runs[..i]) != [] && Flatten(runs[..i])[|Flatten(runs[..i])| - 1].idx == buckets[i - 1].idx
  {
    var run := runs[i - 1];
    assert runs[..i] == runs[..i - 1] + [run];
    FlattenSnoc(runs[..i - 1], run);
    assert Flatten(runs[..i])[|Flatten(runs[..i])| - 1] == run[|run| - 1];
  }

  /** Going one bucket further: its cell takes the bucket's count, the other cells stay. */
  lemma NextBucket(buckets: seq<Bucket>, runs: seq<seq<Event>>, i: nat, b: int, m: nat)
    requires Groups(buckets, runs) && i < |buckets| && m < METRIC_COUNT
    ensures |buckets[i].counts| == METRIC_COUNT
    ensures LastRun(Flatten(runs[..i + 1]), b, m)
         == if b == buckets[i].idx then buckets[i].counts[m] else LastRun(Flatten(runs[..i]), b, m)
  {
    assert runs[..i + 1] == runs[..i] + [runs[i]];
    FlattenSnoc(runs[..i], runs[i]);
    CountsAreTallies(runs[i], m);
    if i > 0 { FlattenLast(buckets, runs, i); }
    LastRunAppend(Flatten(runs[..i]), runs[i], buckets[i].idx, b, m);
  }

  /** The window check extends one bucket at a time; a bucket outside it settles the whole question. */
  lemma NextInWindow(buckets: seq<Bucket>, runs: seq<seq<Event>>, i: nat, window: nat, idx: nat)
    requires Groups(buckets, runs) && i < |buckets|
    requires AllInWindow(Flatten(runs[..i]), window, idx)
    ensures AllInWindow(Flatten(runs[..i + 1]), window, idx) <==> buckets[i].idx <= idx < buckets[i].idx + window
    ensures !(buckets[i].idx <= idx < buckets[i].idx + window) ==> !AllInWindow(Flatten(runs), window, idx)
  {
    var upTo, at := Flatten(runs[..i + 1]), |Flatten(runs[..i])|;
    assert runs[..i + 1] == runs[..i] + [runs[i]];
    FlattenSnoc(runs[..i], runs[i]);
    FlattenSplit(runs, i + 1);
    assert upTo[at] == runs[i][0] == Flatten(runs)[at];
  }

  /** Position `j` of a series stands for the bucket `window - 1 - j` before the present one. */
  ghost predicate IsSeries(series: seq<seq<nat>>, es: seq<Event>, window: nat, idx: nat) {
    && |series| == METRIC_COUNT
    && (forall m :: 0 <= m < METRIC_COUNT ==> |series[m]| == window)
    && (forall m, j :: 0 <= m < METRIC_COUNT && 0 <= j < window ==>
        series[m][j] == LastRun(es, idx - (window - 1 - j), m))
  }

  /** Every metric's series gets the bucket's count at one position. */
  method Place(series: seq<seq<nat>>, pos: nat, counts: seq<nat>) returns (r: seq<seq<nat>>)
    requires |series| == |counts| == METRIC_COUNT
    requires forall m :: 0 <= m < METRIC_COUNT ==> pos < |series[m]|
    ensures |r| == METRIC_COUNT
    ensures forall m :: 0 <= m < METRIC_COUNT ==> r[m] == series[m][pos := counts[m]]
  {
    r := series;
    for m := 0 to METRIC_COUNT
      invariant |r| == METRIC_COUNT
      invariant forall k :: 0 <= k < m ==> r[k] == series[k][pos := counts[k]]
      invariant forall k :: m <= k < METRIC_COUNT ==> r[k] == series[k]
    {
      r := r[m := r[m][pos := counts[m]]];
    }
  }

  lemma PlacedIsSeries(buckets: seq<Bucket>, runs: seq<seq<Event>>, i: nat, window: nat, idx: nat,
                       before: seq<seq<nat>>, after: seq<seq<nat>>)
    requires Groups(buckets, runs) && i < |buckets| && buckets[i].idx <= idx < buckets[i].idx + window
    requires IsSeries(before, Flatten(runs[..i]), window, idx)
    requires |after| == METRIC_COUNT == |buckets[i].counts|
    requires forall m :: 0 <= m < METRIC_COUNT ==>
      after[m] == before[m][window - 1 - (idx - buckets[i].idx) := buckets[i].counts[m]]
    ensures IsSeries(after, Flatten(runs[..i + 1]), window, idx)
  {
    forall m, j | 0 <= m < METRIC_COUNT && 0 <= j < window
      ensures after[m][j] == LastRun(Flatten(runs[..i + 1]), idx - (window - 1 - j), m)
    {
      NextBucket(buckets, runs, i, idx - (window - 1 - j), m);
    }
  }

  /** `None` is an index out of range: some bucket lies outside the window. */
  method BuildSeries(buckets: seq<Bucket>, ghost runs: seq<seq<Event>>, window: nat, idx: nat)
    returns (r: Option<seq<seq<nat>>>)
    requires Groups(buckets, runs)
    ensures r.Some? <==> AllInWindow(Flatten(runs), window, idx)
    ensures r.Some? ==> IsSeries(r.value, Flatten(runs), window, idx)
  {
    var blank := seq<nat>(window, _ => 0);
    var series := seq(METRIC_COUNT, _ => blank);
    for i := 0 to |buckets|
      invariant AllInWindow(Flatten(runs[..i]), window, idx)
      invariant IsSeries(series, Flatten(runs[..i]), window, idx)
    {
      var b := buckets[i];
      NextInWindow(buckets, runs, i, window, idx);
      if idx < b.idx || window <= idx - b.idx {
        return None;
      }
      ghost var before := series;
      series := Place(series, window - 1 - (idx - b.idx), b.counts);
      PlacedIsSeries(buckets, runs, i, window, idx, before, series);
    }
    assert runs[..|buckets|] == runs;
    r := Some(series);
  }

  // ----- the top-domain lists

  predicate RankLeq(a: (string, nat), b: (string, nat)) {
    a.1 > b.1 || (a.1 == b.1 && StringLeq(a.0, b.0))
  }

  lemma RankOrder()
    ensures Total(RankLeq) && Antisymmetric(RankLeq)
  {
    StringOrder();
  }

  /** The busiest domains of a table: at most 25, best first, and nothing left out outranks a row shown. */
  ghost predicate IsTop(v: seq<(string, nat)>, m: map<string, nat>) {
    && |v| <= TOP_N
    && Sorted(RankLeq, v)
    && (forall i, j :: 0 <= i < j < |v| ==> v[i].0 != v[j].0)
    && (forall i :: 0 <= i < |v| ==> v[i].0 in m && v[i].1 == m[v[i].0])
    && (forall d :: d in m && (d, m[d]) !in v ==> |v| == TOP_N && forall i :: 0 <= i < |v| ==> RankLeq(v[i], (d, m[d])))
  }

  method Top(m: map<string, nat>) returns (v: seq<(string, nat)>)
    ensures IsTop(v, m)
  {
    var rows: seq<(string, nat)> := [];
    var todo := m.Keys;
    while todo != {}
      invariant todo <= m.Keys
      invariant forall i :: 0 <= i < |rows| ==> rows[i].0 in m && rows[i].0 !in todo && rows[i].1 == m[rows[i].0]
      invariant forall i, j :: 0 <= i < j < |rows| ==> rows[i].0 != rows[j].0
      invariant forall d :: d in m && d !in todo ==> (d, m[d]) in rows
      decreases todo
    {
      var d :| d in todo;
      rows := rows + [(d, m[d])];
      todo := todo - {d};
    }
    v := TopOfRows(m, rows);
  }

  ghost predicate IsRows(m: map<string, nat>, rows: seq<(string, nat)>) {
    && (forall i :: 0 <= i < |rows| ==> rows[i].0 in m && rows[i].1 == m[rows[i].0])
    && (forall i, j :: 0 <= i < j < |rows| ==> rows[i].0 != rows[j].0)
    && (forall d :: d in m ==> (d, m[d]) in rows)
  }

  method TopOfRows(m: map<string, nat>, rows: seq<(string, nat)>) returns (v: seq<(string, nat)>)
    requires IsRows(m, rows)
    ensures IsTop(v, m)
  {
    var sorted := SortBy(RankLeq, rows);
    RankOrder();
    SortBySorted(RankLeq, rows);
    SortedRows(m, rows, sorted);
    v := if |sorted| > TOP_N then sorted[..TOP_N] else sorted;
    CutIsTop(m, sorted, v);
  }

  lemma CutIsTop(m: map<string, nat>, sorted: seq<(string, nat)>, v: seq<(string, nat)>)
    requires IsRows(m, sorted) && Sorted(RankLeq, sorted)
    requires v == if |sorted| > TOP_N then sorted[..TOP_N] else sorted
    ensures IsTop(v, m)
  {
    forall d | d in m && (d, m[d]) !in v
      ensures |v| == TOP_N && forall i :: 0 <= i < |v| ==> RankLeq(v[i], (d, m[d]))
    {
      var k :| 0 <= k < |sorted| && sorted[k] == (d, m[d]);
      assert forall i :: 0 <= i < |v| ==> v[i] == sorted[i] && v[i] in v;
      assert k >= |v|;
    }
  }

  /** A rearrangement of a map's rows is again the map's rows. */
  lemma SortedRows(m: map<string, nat>, rows: seq<(string, nat)>, sorted: seq<(string, nat)>)
    requires IsRows(m, rows) && multiset(sorted) == multiset(rows)
    ensures IsRows(m, sorted)
  {
    forall i | 0 <= i < |sorted| ensures sorted[i] in rows { assert sorted[i] in multiset(rows); }
    forall d | d in m ensures (d, m[d]) in sorted { assert (d, m[d]) in multiset(sorted); }
    forall x ensures multiset(rows)[x] <= 1 { AtMostOnce(rows, x); }
    forall i, j | 0 <= i < j < |sorted| ensures sorted[i].0 != sorted[j].0 {
      if sorted[i].0 == sorted[j].0 {
        assert sorted[i] == sorted[j];
        TwiceCounts(sorted, i, j);
      }
    }
  }

  lemma {:induction false} AtMostOnce(s: seq<(string, nat)>, x: (string, nat))
    requires forall i, j :: 0 <= i < j < |s| ==> s[i].0 != s[j].0
    ensures multiset(s)[x] <= 1
  {
    if s != [] {
      AtMostOnce(s[1..], x);
      assert s == [s[0]] + s[1..];
      if x == s[0] { assert x !in s[1..]; }
    }
  }

  lemma TwiceCounts<T>(s: seq<T>, i: nat, j: nat)
    requires i < j < |s| && s[i] == s[j]
    ensures multiset(s)[s[i]] >= 2
  {
    assert s == s[..j] + s[j..];
    assert s[i] in s[..j] && s[j] in s[j..];
  }

  /** The list is determined by the table, so the program's unstable sort shows the same rows every time. */
  lemma {:induction false} TopUnique(v: seq<(string, nat)>, w: seq<(string, nat)>, m: map<string, nat>)
    requires IsTop(v, m) && IsTop(w, m)
    ensures v == w
  {
    RankOrder();
    TopPrefix(v, w, m, |v|);
    TopPrefix(w, v, m, |w|);
  }

  lemma {:induction false} TopPrefix(v: seq<(string, nat)>, w: seq<(string, nat)>, m: map<string, nat>, n: nat)
    requires IsTop(v, m) && IsTop(w, m) && n <= |v|
    requires Total(RankLeq) && Antisymmetric(RankLeq)
    ensures n <= |w| && v[..n] == w[..n]
  {
    if n > 0 {
      TopPrefix(v, w, m, n - 1);
      TopNext(v, w, m, n - 1);
      TopNext(w, v, m, n - 1);
    }
  }

  /** The next row shown by one list is at least as good as the next row of the other. */
  lemma TopNext(v: seq<(string, nat)>, w: seq<(string, nat)>, m: map<string, nat>, n: nat)
    requires IsTop(v, m) && IsTop(w, m) && n < |v| && n <= |w| && v[..n] == w[..n]
    requires Total(RankLeq)
    ensures n < |w| && RankLeq(w[n], v[n])
  {
    var x := v[n];
    assert (x.0, m[x.0]) == x;
    forall i | 0 <= i < n ensures w[i].0 != x.0 {
      assert v[i] == v[..n][i] && w[i] == w[..n][i] && v[i].0 != v[n].0;
    }
    if x in w {
      var p :| 0 <= p < |w| && w[p] == x;
      assert p >= n;
      if p > n { assert RankLeq(w[n], w[p]); }
    } else {
      assert |w| == TOP_N && RankLeq(w[n], x);
    }
  }

  /** What a snapshot says about the kept events. */
  ghost predicate Shows(s: Snapshot, kept: seq<Event>, window: nat, idx: nat) {
    && s.bucketSecs == BUCKET_SECS
    && s.totals == CountsOf(kept)
    && IsSeries(s.series, kept, window, idx)
    && IsTop(s.topQueried, TableOf(kept, QueriedTable))
    && IsTop(s.topBlocked, TableOf(kept, BlockedTable))
  }

  class History {
    var buckets: seq<Bucket>
    var totals: seq<nat>
    var queried: map<string, nat>
    var blocked: map<string, nat>
    var window: nat
    var poisoned: bool
    ghost var runs: seq<seq<Event>>

    /** Totals and tables agree with the buckets, and the buckets with the events they stand for. */
    ghost predicate Valid()
      reads this
    {
      && Groups(buckets, runs)
      && Sums(totals, queried, blocked, Flatten(runs))
    }

    ghost function Model(): State
      reads this
    {
      if poisoned then Poisoned else Live(Flatten(runs), window)
    }

    constructor ()
      ensures Valid() && Model() == Init
    {
      buckets, totals, queried, blocked := [], ZEROS, map[], map[];
      window, poisoned, runs := WINDOW_BUCKETS, false, [];
    }

    method Rotate(idx: nat)
      requires Valid()
      modifies this
      ensures Valid() && window == old(window) && poisoned == old(poisoned)
      ensures Flatten(runs) == DropExpired(old(Flatten(runs)), window, idx)
    {
      while buckets != [] && buckets[0].idx + window <= idx
        invariant Valid() && window == old(window) && poisoned == old(poisoned)
        invariant DropExpired(Flatten(runs), window, idx) == DropExpired(old(Flatten(runs)), window, idx)
        decreases |buckets|
      {
        PopFront(idx);
      }
      assert buckets != [] ==> Flatten(runs)[0] == runs[0][0];
    }

    method PopFront(idx: nat)
      requires Valid() && buckets != [] && buckets[0].idx + window <= idx
      modifies this
      ensures Valid() && window == old(window) && poisoned == old(poisoned)
      ensures |buckets| < |old(buckets)|
      ensures DropExpired(Flatten(runs), window, idx) == DropExpired(old(Flatten(runs)), window, idx)
    {
      var rest, t, q, k; ghost var left;
      rest, t, q, k, left := DropOldest(buckets, totals, queried, blocked, runs, window, idx);
      buckets, runs, totals, queried, blocked := rest, left, t, q, k;
    }

    method RecordAt(now: nat, metric: Metric, domain: string)
      requires Valid()
      modifies this
      ensures Valid()
      ensures Model() == Step(old(Model()), Record(now, metric, domain))
    {
      if poisoned {
        return;
      }
      var idx := BucketIndex(now);
      Rotate(idx);
      Count(Event(idx, metric, domain));
    }

    method Count(e: Event)
      requires Valid()
      modifies this
      ensures Valid() && window == old(window) && poisoned == old(poisoned)
      ensures Flatten(runs) == old(Flatten(runs)) + [e]
    {
      SumsSnoc(totals, queried, blocked, Flatten(runs), e);
      buckets, runs := CountInNewest(buckets, runs, e);
      totals := Counted(totals, e.metric);
      queried, blocked := Noted(queried, e, QueriedTable), Noted(blocked, e, BlockedTable);
    }

    method Reset()
      requires Valid()
      modifies this
      ensures Valid()
      ensures Model() == Step(old(Model()), HistorySpec.Reset)
    {
      if !poisoned {
        buckets, totals, queried, blocked, runs := [], ZEROS, map[], map[], [];
      }
    }

    method SetRetentionHours(hours: nat)
      requires Valid()
      modifies this
      ensures Valid()
      ensures Model() == Step(old(Model()), SetRetention(hours))
    {
      if !poisoned {
        window := HoursToBuckets(hours);
      }
    }

    /** `None` is the panic; the lock it holds stays poisoned. */
    method SnapshotAt(now: nat) returns (r: Option<Snapshot>)
      requires Valid()
      modifies this
      ensures Valid()
      ensures Model() == Step(old(Model()), TakeSnapshot(now))
      ensures r.Some? <==> Model().Live?
      ensures r.Some? ==> Shows(r.value, Model().kept, window, BucketIndex(now))
    {
      if poisoned {
        return None;
      }
      var idx := BucketIndex(now);
      Rotate(idx);
      var series := BuildSeries(buckets, runs, window, idx);
      if series.None? {
        poisoned := true;
        return None;
      }
      var q := Top(queried);
      var k := Top(blocked);
      r := Some(Snapshot(BUCKET_SECS, totals, series.value, q, k));
    }
  }
}
