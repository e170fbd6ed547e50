/**
 Sequence numbers across restarts. Requests and DNS queries draw numbers from one
 counter; a request's captured details are written when it ends, under its number, to a
 log of their own. The counter lives in the process, and a restart resumes it from the
 newest line of each log.
 */
module SeqResumeSpec {
  import opened Options
  import opened RotatingLogSpec

  datatype Queued = Queued(tsMs: nat, line: Line)

  /** A rotating log with the lines its writer thread has not written yet. */
  datatype Channel = Channel(disk: Log, queue: seq<Queued>)

  /** The lines with the queued ones after them. */
  function Followed(lines: seq<Line>, q: seq<Queued>): seq<Line> {
    if q == [] then lines else Followed(lines, q[..|q| - 1]) + [q[|q| - 1].line]
  }

  /** Everything on disk or on its way there, oldest first. */
  function All(c: Channel): seq<Line> {
    Followed(Retained(c.disk), c.queue)
  }

  function Send(c: Channel, tsMs: nat, line: Line): Channel {
    c.(queue := c.queue + [Queued(tsMs, line)])
  }

  const OK := Io(true, true, true)

  /** The writer thread takes the oldest queued line; it may rotate the files first, and each file operation may fail. */
  function WriteNext(c: Channel, io: Io): Channel {
    if c.queue == [] then c
    else Channel(WriteLine(c.disk, c.queue[0].tsMs, c.queue[0].line, io), c.queue[1..])
  }

  function Reopened(c: Channel, hours: nat): Channel {
    Channel(Open(c.disk.current, c.disk.rotated, hours), [])
  }

  /** A request in flight: what was captured so far. */
  datatype Exchange = Exchange(tsMs: nat, captured: string)

  /** `drawn` holds the numbers that threads have taken from the counter and not queued a line for yet. */
  datatype State = State(
    next: nat,
    drawn: set<nat>,
    requests: Channel,
    details: Channel,
    queries: Channel,
    inFlight: map<nat, Exchange>)

  /** Drawing a number and queueing its line are two steps, between which other threads may act. */
  datatype Op =
    | Draw
    | QueueRequest(num: nat, tsMs: nat, url: string)
    | QueueQuery(num: nat, tsMs: nat, domain: string)
    | Capture(num: nat, text: string)
    | End(num: nat)
    | WriteRequest(io: Io)
    | WriteDetail(io: Io)
    | WriteQuery(io: Io)
    | Restart(hours: nat)

  /** The number of the newest line on disk. */
  function NewestNum(g: Log): Option<nat> {
    var lines := Retained(g);
    if lines == [] then None else lines[|lines| - 1].num
  }

  function Max(a: nat, b: nat): nat {
    if a >= b then a else b
  }

  function OrZero(n: Option<nat>): nat {
    if n.Some? then n.value else 0
  }

  /** The highest of the newest numbers of the three logs; the counter resumes one above. */
  function OnDisk(s: State): nat {
    Max(OrZero(NewestNum(s.requests.disk)), Max(OrZero(NewestNum(s.details.disk)), OrZero(NewestNum(s.queries.disk))))
  }

  function Restarted(s: State, hours: nat): State {
    State(OnDisk(s) + 1, {}, Reopened(s.requests, hours), Reopened(s.details, hours), Reopened(s.queries, hours), map[])
  }

  function EndStep(s: State, n: nat): State
    requires n in s.inFlight
  {
    var x := s.inFlight[n];
    var details := if x.captured == "" then s.details else Send(s.details, x.tsMs, Line(Some(n), None, x.captured));
    s.(details := details, inFlight := s.inFlight - {n})
  }

  function Step(s: State, op: Op): State {
    match op
    case Draw => s.(next := s.next + 1, drawn := s.drawn + {s.next})
    case QueueRequest(n, tsMs, url) =>
      if n !in s.drawn then s
      else s.(drawn := s.drawn - {n},
              requests := Send(s.requests, tsMs, Line(Some(n), Some(tsMs), url)),
              inFlight := s.inFlight[n := Exchange(tsMs, "")])
    case QueueQuery(n, tsMs, domain) =>
      if n !in s.drawn then s
      else s.(drawn := s.drawn - {n}, queries := Send(s.queries, tsMs, Line(Some(n), Some(tsMs), domain)))
    case Capture(n, text) =>
      if n in s.inFlight then s.(inFlight := s.inFlight[n := s.inFlight[n].(captured := text)]) else s
    case End(n) => if n in s.inFlight then EndStep(s, n) else s
    case WriteRequest(io) => s.(requests := WriteNext(s.requests, io))
    case WriteDetail(io) => s.(details := WriteNext(s.details, io))
    case WriteQuery(io) => s.(queries := WriteNext(s.queries, io))
    case Restart(hours) => Restarted(s, hours)
  }

  function Fresh(hours: nat): State {
    var empty := Channel(Open(None, None, hours), []);
    State(1, {}, empty, empty, empty, map[])
  }

  function RunFrom(s: State, ops: seq<Op>): State {
    if ops == [] then s else Step(RunFrom(s, ops[..|ops| - 1]), ops[|ops| - 1])
  }

  function Run(hours: nat, ops: seq<Op>): State {
    RunFrom(Fresh(hours), ops)
  }

  /** What the latest holder of each number had captured, once it has ended. */
  function EndedStep(s: State, op: Op, ended: map<nat, string>): map<nat, string> {
    if op.Draw? then ended - {s.next}
    else if op.End? && op.num in s.inFlight then ended[op.num := s.inFlight[op.num].captured]
    else ended
  }

  function EndedFrom(s: State, ended: map<nat, string>, ops: seq<Op>): map<nat, string> {
    if ops == [] then ended
    else
      var before, op := ops[..|ops| - 1], ops[|ops| - 1];
      EndedStep(RunFrom(s, before), op, EndedFrom(s, ended, before))
  }

  function Ended(hours: nat, ops: seq<Op>): map<nat, string> {
    EndedFrom(Fresh(hours), map[], ops)
  }

  ghost predicate HasNum(lines: seq<Line>, n: nat) {
    lines != [] && (lines[|lines| - 1].num == Some(n) || HasNum(lines[..|lines| - 1], n))
  }

  /** No detail on disk has a number above the newest ones of the logs. */
  ghost predicate Covered(s: State) {
    forall n: nat :: HasNum(Retained(s.details.disk), n) ==> n <= OnDisk(s)
  }

  /** Every restart finds the details covered. */
  ghost predicate RestartsCovered(s: State, ops: seq<Op>) {
    ops == [] ||
      (RestartsCovered(s, ops[..|ops| - 1]) && (ops[|ops| - 1].Restart? ==> Covered(RunFrom(s, ops[..|ops| - 1]))))
  }

  // ----- details belong to their requests

  /** Numbers below the counter, none of a request still open, each line with what its request captured. */
  ghost predicate Own(lines: seq<Line>, next: nat, busy: set<nat>, ended: map<nat, string>) {
    lines == [] ||
    var init, last := lines[..|lines| - 1], lines[|lines| - 1];
    && Own(init, next, busy, ended)
    && last.num.Some? && last.num.value < next && last.num.value !in busy
    && last.num.value in ended && ended[last.num.value] == last.text
  }

  function Busy(s: State): set<nat> {
    s.inFlight.Keys + s.drawn
  }

  ghost predicate Inv(s: State, ended: map<nat, string>) {
    && Own(All(s.details), s.next, Busy(s), ended)
    && s.inFlight.Keys !! s.drawn
    && (forall n :: n in Busy(s) ==> n < s.next && n !in ended)
  }

  lemma SuffixInit(s: seq<Line>, w: seq<Line>)
    requires IsSuffix(s, w) && s != []
    ensures s[|s| - 1] == w[|w| - 1] && IsSuffix(s[..|s| - 1], w[..|w| - 1])
  {
  }

  lemma {:induction false} OwnSuffix(s: seq<Line>, w: seq<Line>, next: nat, busy: set<nat>, ended: map<nat, string>)
    requires IsSuffix(s, w) && Own(w, next, busy, ended)
    ensures Own(s, next, busy, ended)
  {
    if s != [] {
      SuffixInit(s, w);
      OwnSuffix(s[..|s| - 1], w[..|w| - 1], next, busy, ended);
    }
  }

  lemma OwnSnoc(lines: seq<Line>, line: Line, next: nat, busy: set<nat>, ended: map<nat, string>)
    ensures Own(lines + [line], next, busy, ended) <==>
      && Own(lines, next, busy, ended)
      && line.num.Some? && line.num.value < next && line.num.value !in busy
      && line.num.value in ended && ended[line.num.value] == line.text
  {
    assert (lines + [line])[..|lines|] == lines;
  }

  /** More numbers drawn, more requests ended: the lines still belong. */
  lemma {:induction false} OwnStays(lines: seq<Line>, next: nat, next': nat, busy: set<nat>, busy': set<nat>,
                                    ended: map<nat, string>, ended': map<nat, string>)
    requires Own(lines, next, busy, ended) && next <= next'
    requires forall n :: n in busy' ==> n in busy || n >= next
    requires forall n :: n in ended && n < next ==> n in ended' && (n in busy || ended'[n] == ended[n])
    ensures Own(lines, next', busy', ended')
  {
    if lines != [] { OwnStays(lines[..|lines| - 1], next, next', busy, busy', ended, ended'); }
  }

  /** Writing moves the oldest queued line to the disk, or loses it, and may drop old lines. */
  lemma WrittenOrLost(g: Log, tsMs: nat, line: Line, io: Io)
    ensures var r, r' := Retained(g), Retained(WriteLine(g, tsMs, line, io));
      IsSuffix(r', r + [line]) || IsSuffix(r', r)
  {
    var r := Retained(g);
    assert IsSuffix(r, r);
    StepKeepsSuffix(g, Append(tsMs, line, io), r);
  }

  lemma FollowedSplit(w: seq<Line>, x: Queued, q: seq<Queued>)
    ensures q == [] ==> Followed(w, [x] + q) == w + [x.line]
    ensures q != [] ==> Followed(w, [x] + q) == Followed(w, [x] + q[..|q| - 1]) + [q[|q| - 1].line]
  {
    if q == [] {
      assert [x] + q == [x] && [x][..0] == [];
    } else {
      assert ([x] + q)[|q|] == q[|q| - 1] && ([x] + q)[..|q|] == [x] + q[..|q| - 1];
    }
  }

  lemma {:induction false} OwnAfterWrite(s: seq<Line>, w: seq<Line>, x: Queued, q: seq<Queued>,
                                         next: nat, busy: set<nat>, ended: map<nat, string>)
    requires IsSuffix(s, w + [x.line]) || IsSuffix(s, w)
    requires Own(Followed(w, [x] + q), next, busy, ended)
    ensures Own(Followed(s, q), next, busy, ended)
  {
    FollowedSplit(w, x, q);
    if q == [] {
      OwnSnoc(w, x.line, next, busy, ended);
      if IsSuffix(s, w) { OwnSuffix(s, w, next, busy, ended); } else { OwnSuffix(s, w + [x.line], next, busy, ended); }
    } else {
      var init, last := q[..|q| - 1], q[|q| - 1].line;
      OwnSnoc(Followed(w, [x] + init), last, next, busy, ended);
      OwnAfterWrite(s, w, x, init, next, busy, ended);
      OwnSnoc(Followed(s, init), last, next, busy, ended);
    }
  }

  lemma OwnWriteNext(c: Channel, io: Io, next: nat, busy: set<nat>, ended: map<nat, string>)
    requires Own(All(c), next, busy, ended)
    ensures Own(All(WriteNext(c, io)), next, busy, ended)
  {
    if c.queue != [] {
      WrittenOrLost(c.disk, c.queue[0].tsMs, c.queue[0].line, io);
      assert c.queue == [c.queue[0]] + c.queue[1..];
      OwnAfterWrite(Retained(WriteNext(c, io).disk), Retained(c.disk), c.queue[0], c.queue[1..], next, busy, ended);
    }
  }

  lemma SendAll(c: Channel, tsMs: nat, line: Line)
    ensures All(Send(c, tsMs, line)) == All(c) + [line]
  {
    assert (c.queue + [Queued(tsMs, line)])[..|c.queue|] == c.queue;
  }

  lemma {:induction false} OwnOnDisk(lines: seq<Line>, q: seq<Queued>, next: nat, busy: set<nat>, ended: map<nat, string>)
    requires Own(Followed(lines, q), next, busy, ended)
    ensures Own(lines, next, busy, ended)
  {
    if q != [] {
      OwnSnoc(Followed(lines, q[..|q| - 1]), q[|q| - 1].line, next, busy, ended);
      OwnOnDisk(lines, q[..|q| - 1], next, busy, ended);
    }
  }

  lemma {:induction false} OwnBelow(lines: seq<Line>, next: nat, next': nat, busy: set<nat>, ended: map<nat, string>)
    requires Own(lines, next, busy, ended) && forall n: nat :: HasNum(lines, n) ==> n < next'
    ensures Own(lines, next', {}, ended)
  {
    if lines != [] {
      var init := lines[..|lines| - 1];
      assert HasNum(lines, lines[|lines| - 1].num.value);
      forall n: nat | HasNum(init, n) ensures n < next' { assert HasNum(lines, n); }
      OwnBelow(init, next, next', busy, ended);
    }
  }

  lemma DrawInv(s: State, ended: map<nat, string>)
    requires Inv(s, ended)
    ensures Inv(Step(s, Draw), EndedStep(s, Draw, ended))
  {
    var s' := Step(s, Draw);
    OwnStays(All(s.details), s.next, s'.next, Busy(s), Busy(s'), ended, EndedStep(s, Draw, ended));
  }

  lemma EndInv(s: State, n: nat, ended: map<nat, string>)
    requires Inv(s, ended) && n in s.inFlight
    ensures Inv(EndStep(s, n), EndedStep(s, End(n), ended))
  {
    var x, s', ended' := s.inFlight[n], EndStep(s, n), EndedStep(s, End(n), ended);
    OwnStays(All(s.details), s.next, s.next, Busy(s), Busy(s'), ended, ended');
    if x.captured != "" {
      SendAll(s.details, x.tsMs, Line(Some(n), None, x.captured));
      OwnSnoc(All(s.details), Line(Some(n), None, x.captured), s.next, Busy(s'), ended');
    }
  }

  lemma RestartInv(s: State, hours: nat, ended: map<nat, string>)
    requires Inv(s, ended) && Covered(s)
    ensures Inv(Restarted(s, hours), ended)
  {
    var lines := Retained(s.details.disk);
    OwnOnDisk(lines, s.details.queue, s.next, Busy(s), ended);
    OwnBelow(lines, s.next, OnDisk(s) + 1, Busy(s), ended);
    assert All(Restarted(s, hours).details) == lines && Busy(Restarted(s, hours)) == {};
  }

  lemma QueueInv(s: State, op: Op, ended: map<nat, string>)
    requires Inv(s, ended) && (op.QueueRequest? || op.QueueQuery? || op.Capture?)
    ensures Inv(Step(s, op), ended)
  {
    var s' := Step(s, op);
    OwnStays(All(s.details), s.next, s.next, Busy(s), Busy(s'), ended, ended);
  }

  lemma StepInv(s: State, op: Op, ended: map<nat, string>)
    requires Inv(s, ended) && (op.Restart? ==> Covered(s))
    ensures Inv(Step(s, op), EndedStep(s, op, ended))
  {
    match op
    case Draw => DrawInv(s, ended);
    case End(n) => if n in s.inFlight { EndInv(s, n, ended); }
    case WriteDetail(io) => OwnWriteNext(s.details, io, s.next, Busy(s), ended);
    case Restart(hours) => RestartInv(s, hours, ended);
    case WriteRequest(_) =>
    case WriteQuery(_) =>
    case _ => QueueInv(s, op, ended);
  }

  lemma {:induction false} RunInv(s: State, ended: map<nat, string>, ops: seq<Op>)
    requires Inv(s, ended) && RestartsCovered(s, ops)
    ensures Inv(RunFrom(s, ops), EndedFrom(s, ended, ops))
  {
    if ops != [] {
      var before := ops[..|ops| - 1];
      RunInv(s, ended, before);
      StepInv(RunFrom(s, before), ops[|ops| - 1], EndedFrom(s, ended, before));
    }
  }

  lemma FreshInv(hours: nat)
    ensures Inv(Fresh(hours), map[])
  {
    assert Retained(Open(None, None, hours)) == [];
  }

  /** The detail found for a number on disk. */
  function Lookup(s: State, n: nat): Option<Line> {
    NewestMatch(Retained(s.details.disk), (l: Line) => l.num == Some(n))
  }

  lemma {:induction false} MatchIsOwn(lines: seq<Line>, n: nat, next: nat, busy: set<nat>, ended: map<nat, string>)
    requires Own(lines, next, busy, ended)
    ensures var r := NewestMatch(lines, (l: Line) => l.num == Some(n));
      r.Some? ==> n !in busy && n in ended && r.value.text == ended[n]
  {
    if lines != [] && lines[|lines| - 1].num != Some(n) {
      MatchIsOwn(lines[..|lines| - 1], n, next, busy, ended);
    }
  }

  lemma LookupInv(s: State, ended: map<nat, string>, n: nat)
    requires Inv(s, ended)
    ensures Lookup(s, n).Some? ==> n !in Busy(s) && n in ended && Lookup(s, n).value.text == ended[n]
  {
    OwnOnDisk(Retained(s.details.disk), s.details.queue, s.next, Busy(s), ended);
    MatchIsOwn(Retained(s.details.disk), n, s.next, Busy(s), ended);
  }

  /**
   Threads interleaving as they like, writes failing anywhere and queues undrained: if
   every restart finds the details on disk covered by the newest numbers, a lookup returns
   what that very request captured, never an earlier request of the same number.
   */
  lemma LookupFindsOwnDetail(hours: nat, ops: seq<Op>, n: nat)
    requires RestartsCovered(Fresh(hours), ops)
    ensures var r := Lookup(Run(hours, ops), n);
      r.Some? ==> n in Ended(hours, ops) && r.value.text == Ended(hours, ops)[n]
  {
    FreshInv(hours);
    RunInv(Fresh(hours), map[], ops);
    LookupInv(Run(hours, ops), Ended(hours, ops), n);
  }

  // ----- and only then

  ghost predicate NoRestart(ops: seq<Op>) {
    ops == [] || (NoRestart(ops[..|ops| - 1]) && !ops[|ops| - 1].Restart?)
  }

  /** A lookup for a request that is still open finds a detail: that of another request. */
  ghost predicate Misled(s: State) {
    exists n :: n in Busy(s) && Lookup(s, n).Some?
  }

  function Draws(k: nat): seq<Op> {
    if k == 0 then [] else Draws(k - 1) + [Draw]
  }

  lemma RunSnoc(s: State, ops: seq<Op>, op: Op)
    ensures RunFrom(s, ops + [op]) == Step(RunFrom(s, ops), op)
    ensures NoRestart(ops + [op]) <==> NoRestart(ops) && !op.Restart?
  {
    assert (ops + [op])[..|ops|] == ops;
  }

  lemma {:induction false} AfterDraws(s: State, k: nat)
    ensures NoRestart(Draws(k))
    ensures RunFrom(s, Draws(k)).next == s.next + k && RunFrom(s, Draws(k)).details == s.details
    ensures k > 0 ==> s.next + k - 1 in RunFrom(s, Draws(k)).drawn
  {
    if k > 0 {
      AfterDraws(s, k - 1);
      RunSnoc(s, Draws(k - 1), Draw);
    }
  }

  lemma {:induction false} FindsNum(lines: seq<Line>, n: nat)
    requires HasNum(lines, n)
    ensures NewestMatch(lines, (l: Line) => l.num == Some(n)).Some?
  {
    if lines[|lines| - 1].num != Some(n) { FindsNum(lines[..|lines| - 1], n); }
  }

  lemma ReusedMisleads(s: State, n: nat) returns (ops: seq<Op>)
    requires HasNum(Retained(s.details.disk), n) && s.next <= n
    ensures NoRestart(ops) && Misled(RunFrom(s, ops))
  {
    var k := n + 1 - s.next;
    ops := Draws(k);
    AfterDraws(s, k);
    FindsNum(Retained(s.details.disk), n);
    assert n in Busy(RunFrom(s, ops)) && Lookup(RunFrom(s, ops), n).Some?;
  }

  lemma UncoveredMisleads(s: State, hours: nat) returns (ops: seq<Op>)
    requires !Covered(s)
    ensures NoRestart(ops) && Misled(RunFrom(Restarted(s, hours), ops))
  {
    var n: nat :| HasNum(Retained(s.details.disk), n) && n > OnDisk(s);
    ops := ReusedMisleads(Restarted(s, hours), n);
  }

  lemma {:induction false} NoRestartIsCovered(s: State, ops: seq<Op>)
    requires NoRestart(ops)
    ensures RestartsCovered(s, ops)
  {
    if ops != [] { NoRestartIsCovered(s, ops[..|ops| - 1]); }
  }

  ghost predicate NeverMisled(s: State) {
    forall ops :: NoRestart(ops) ==> !Misled(RunFrom(s, ops))
  }

  /** After any run whose restarts were safe, the next restart is safe for detail lookups if and only if no detail on disk has a number above the newest ones of the logs. */
  lemma RestartSafeIff(hours: nat, ops: seq<Op>, again: nat)
    requires RestartsCovered(Fresh(hours), ops)
    ensures NeverMisled(Restarted(Run(hours, ops), again)) <==> Covered(Run(hours, ops))
  {
    FreshInv(hours);
    RunInv(Fresh(hours), map[], ops);
    SafeIffCovered(Run(hours, ops), again, Ended(hours, ops));
  }

  lemma SafeIffCovered(s: State, hours: nat, ended: map<nat, string>)
    requires Inv(s, ended)
    ensures NeverMisled(Restarted(s, hours)) <==> Covered(s)
  {
    if Covered(s) {
      RestartInv(s, hours, ended);
      forall ops | NoRestart(ops) ensures !Misled(RunFrom(Restarted(s, hours), ops)) {
        NoRestartIsCovered(Restarted(s, hours), ops);
        RunInv(Restarted(s, hours), ended, ops);
        var s', ended' := RunFrom(Restarted(s, hours), ops), EndedFrom(Restarted(s, hours), ended, ops);
        forall n | n in Busy(s') ensures Lookup(s', n).None? { LookupInv(s', ended', n); }
      }
    } else {
      var ops := UncoveredMisleads(s, hours);
    }
  }
}

/**
 When numbers are drawn and queued one at a time: what draining and successful writes of
 the request log alone give, and what else it takes for no number to be given out twice.
 */
module SeqOrder {
  import opened Options
  import L = RotatingLogSpec
  import opened SeqResumeSpec

  /** No number is drawn while another is still to be queued. */
  ghost predicate OneAtATime(s: State, ops: seq<Op>) {
    ops == [] ||
      (OneAtATime(s, ops[..|ops| - 1]) && (ops[|ops| - 1].Draw? ==> RunFrom(s, ops[..|ops| - 1]).drawn == {}))
  }

  function Tip(lines: seq<L.Line>): nat {
    if lines == [] then 0 else OrZero(lines[|lines| - 1].num)
  }

  /** Numbered in increasing order. */
  ghost predicate Ordered(lines: seq<L.Line>) {
    lines == [] ||
    var init, last := lines[..|lines| - 1], lines[|lines| - 1];
    Ordered(init) && last.num.Some? && Tip(init) < last.num.value
  }

  lemma OrderedSnoc(lines: seq<L.Line>, line: L.Line)
    ensures Ordered(lines + [line]) <==> Ordered(lines) && line.num.Some? && Tip(lines) < line.num.value
    ensures Tip(lines + [line]) == OrZero(line.num)
  {
    assert (lines + [line])[..|lines|] == lines;
  }

  lemma {:induction false} OrderedSuffix(s: seq<L.Line>, w: seq<L.Line>)
    requires L.IsSuffix(s, w) && Ordered(w)
    ensures Ordered(s) && (s != [] ==> Tip(s) == Tip(w)) && Tip(s) <= Tip(w)
  {
    if s != [] {
      SuffixInit(s, w);
      OrderedSuffix(s[..|s| - 1], w[..|w| - 1]);
    }
  }

  lemma {:induction false} OrderedAfterWrite(s: seq<L.Line>, w: seq<L.Line>, x: Queued, q: seq<Queued>)
    requires L.IsSuffix(s, w + [x.line]) || L.IsSuffix(s, w)
    requires Ordered(Followed(w, [x] + q))
    ensures Ordered(Followed(s, q)) && Tip(Followed(s, q)) <= Tip(Followed(w, [x] + q))
  {
    FollowedSplit(w, x, q);
    if q == [] {
      OrderedSnoc(w, x.line);
      if L.IsSuffix(s, w) { OrderedSuffix(s, w); } else { OrderedSuffix(s, w + [x.line]); }
    } else {
      var init, last := q[..|q| - 1], q[|q| - 1].line;
      OrderedSnoc(Followed(w, [x] + init), last);
      OrderedAfterWrite(s, w, x, init);
      OrderedSnoc(Followed(s, init), last);
    }
  }

  /** Lost writes leave an ordered log ordered. */
  lemma OrderedWriteNext(c: Channel, io: L.Io)
    requires Ordered(All(c))
    ensures Ordered(All(WriteNext(c, io))) && Tip(All(WriteNext(c, io))) <= Tip(All(c))
  {
    if c.queue != [] {
      WrittenOrLost(c.disk, c.queue[0].tsMs, c.queue[0].line, io);
      assert c.queue == [c.queue[0]] + c.queue[1..];
      OrderedAfterWrite(L.Retained(WriteNext(c, io).disk), L.Retained(c.disk), c.queue[0], c.queue[1..]);
    }
  }

  lemma {:induction false} OrderedOnDisk(lines: seq<L.Line>, q: seq<Queued>)
    requires Ordered(Followed(lines, q))
    ensures Ordered(lines) && Tip(lines) <= Tip(Followed(lines, q))
  {
    if q != [] {
      OrderedSnoc(Followed(lines, q[..|q| - 1]), q[|q| - 1].line);
      OrderedOnDisk(lines, q[..|q| - 1]);
    }
  }

  lemma {:induction false} OrderedUpToTip(lines: seq<L.Line>, n: nat)
    requires Ordered(lines) && HasNum(lines, n)
    ensures n <= Tip(lines)
  {
    if lines[|lines| - 1].num != Some(n) { OrderedUpToTip(lines[..|lines| - 1], n); }
  }

  // ----- whatever is lost, the request and the query log are in order

  /** Both logs in order, below the counter and below a number still to be queued. */
  ghost predicate InOrder(s: State) {
    var rs, qs := All(s.requests), All(s.queries);
    && Ordered(rs) && Ordered(qs) && Tip(rs) < s.next && Tip(qs) < s.next
    && (forall n :: n in s.drawn ==> n == s.next - 1 && Tip(rs) < n && Tip(qs) < n)
  }

  lemma QueueOrdered(s: State, c: Channel, n: nat, tsMs: nat, text: string)
    requires Ordered(All(c)) && Tip(All(c)) < n
    ensures var c' := Send(c, tsMs, L.Line(Some(n), Some(tsMs), text)); Ordered(All(c')) && Tip(All(c')) == n
  {
    var line := L.Line(Some(n), Some(tsMs), text);
    SendAll(c, tsMs, line);
    OrderedSnoc(All(c), line);
  }

  lemma RestartOrdered(s: State, hours: nat)
    requires InOrder(s)
    ensures InOrder(Restarted(s, hours))
  {
    OrderedOnDisk(L.Retained(s.requests.disk), s.requests.queue);
    OrderedOnDisk(L.Retained(s.queries.disk), s.queries.queue);
    var s' := Restarted(s, hours);
    assert All(s'.requests) == L.Retained(s.requests.disk) && All(s'.queries) == L.Retained(s.queries.disk);
  }

  lemma QueueInOrder(s: State, op: Op)
    requires InOrder(s) && (op.QueueRequest? || op.QueueQuery?) && op.num in s.drawn
    ensures InOrder(Step(s, op))
  {
    if op.QueueRequest? {
      QueueOrdered(s, s.requests, op.num, op.tsMs, op.url);
    } else {
      QueueOrdered(s, s.queries, op.num, op.tsMs, op.domain);
    }
  }

  lemma WriteInOrder(s: State, op: Op)
    requires InOrder(s) && (op.WriteRequest? || op.WriteQuery?)
    ensures InOrder(Step(s, op))
  {
    if op.WriteRequest? { OrderedWriteNext(s.requests, op.io); } else { OrderedWriteNext(s.queries, op.io); }
  }

  lemma StepOrdered(s: State, op: Op)
    requires InOrder(s) && (op.Draw? ==> s.drawn == {})
    ensures InOrder(Step(s, op))
  {
    if op.QueueRequest? || op.QueueQuery? {
      if op.num in s.drawn { QueueInOrder(s, op); }
    } else if op.WriteRequest? || op.WriteQuery? {
      WriteInOrder(s, op);
    } else if op.Restart? {
      RestartOrdered(s, op.hours);
    }
  }

  lemma {:induction false} RunOrdered(hours: nat, ops: seq<Op>)
    requires OneAtATime(Fresh(hours), ops)
    ensures InOrder(Run(hours, ops))
  {
    if ops == [] {
      assert L.Retained(L.Open(None, None, hours)) == [];
    } else {
      RunOrdered(hours, ops[..|ops| - 1]);
      StepOrdered(Run(hours, ops[..|ops| - 1]), ops[|ops| - 1]);
    }
  }

  /** The number is on one of the three logs on disk. */
  ghost predicate AnywhereOnDisk(s: State, n: nat) {
    HasNum(L.Retained(s.requests.disk), n) || HasNum(L.Retained(s.details.disk), n) || HasNum(L.Retained(s.queries.disk), n)
  }

  /**
   With numbers issued one at a time, writes failing anywhere and queues undrained: the
   restarted counter is above every number on disk if and only if no detail on disk is
   above the newest numbers of the logs.
   */
  lemma ResumesAboveAllIff(hours: nat, ops: seq<Op>)
    requires OneAtATime(Fresh(hours), ops)
    ensures var s := Run(hours, ops);
      (forall n: nat :: AnywhereOnDisk(s, n) ==> n <= OnDisk(s)) <==> Covered(s)
  {
    var s := Run(hours, ops);
    RunOrdered(hours, ops);
    if Covered(s) {
      forall n: nat | AnywhereOnDisk(s, n) ensures n <= OnDisk(s) { OnDiskCovers(s, n); }
    } else {
      var n: nat :| HasNum(L.Retained(s.details.disk), n) && n > OnDisk(s);
      assert AnywhereOnDisk(s, n);
    }
  }

  lemma OnDiskCovers(s: State, n: nat)
    requires InOrder(s) && Covered(s) && AnywhereOnDisk(s, n)
    ensures n <= OnDisk(s)
  {
    OrderedOnDisk(L.Retained(s.requests.disk), s.requests.queue);
    OrderedOnDisk(L.Retained(s.queries.disk), s.queries.queue);
    if HasNum(L.Retained(s.requests.disk), n) {
      OrderedUpToTip(L.Retained(s.requests.disk), n);
    } else if HasNum(L.Retained(s.queries.disk), n) {
      OrderedUpToTip(L.Retained(s.queries.disk), n);
    }
  }

  lemma {:induction false} OwnUpTo(lines: seq<L.Line>, n: nat, next: nat, busy: set<nat>, ended: map<nat, string>)
    requires Own(lines, next, busy, ended) && HasNum(lines, n)
    ensures n < next
  {
    if lines[|lines| - 1].num != Some(n) { OwnUpTo(lines[..|lines| - 1], n, next, busy, ended); }
  }

  /** With numbers issued one at a time and every restart covered, the next number is on no log, neither on disk nor queued. */
  lemma NextIsOnNoLog(hours: nat, ops: seq<Op>)
    requires OneAtATime(Fresh(hours), ops) && RestartsCovered(Fresh(hours), ops)
    ensures var s := Run(hours, ops);
      !HasNum(All(s.requests), s.next) && !HasNum(All(s.details), s.next) && !HasNum(All(s.queries), s.next)
  {
    var s := Run(hours, ops);
    RunOrdered(hours, ops);
    FreshInv(hours);
    RunInv(Fresh(hours), map[], ops);
    if HasNum(All(s.requests), s.next) { OrderedUpToTip(All(s.requests), s.next); }
    if HasNum(All(s.queries), s.next) { OrderedUpToTip(All(s.queries), s.next); }
    if HasNum(All(s.details), s.next) { OwnUpTo(All(s.details), s.next, s.next, Busy(s), Ended(hours, ops)); }
  }

  // ----- the request log drained and written

  /** Every write of the request log succeeds, and every restart finds its queue empty. */
  ghost predicate RequestsKept(s: State, ops: seq<Op>) {
    ops == [] ||
      (&& RequestsKept(s, ops[..|ops| - 1])
       && (ops[|ops| - 1].WriteRequest? ==> ops[|ops| - 1].io == OK)
       && (ops[|ops| - 1].Restart? ==> RunFrom(s, ops[..|ops| - 1]).requests.queue == []))
  }

  ghost predicate UpTo(lines: seq<L.Line>, top: nat) {
    forall n: nat :: HasNum(lines, n) ==> n <= top
  }

  /** No detail and no request in flight has a number above the newest request line, written or queued. */
  ghost predicate Backed(s: State) {
    var top := Tip(All(s.requests));
    UpTo(All(s.details), top) && forall n :: n in s.inFlight ==> n <= top
  }

  lemma WriteOk(g: L.Log, tsMs: nat, line: L.Line)
    ensures L.IsSuffix(L.Retained(L.WriteLine(g, tsMs, line, OK)), L.Retained(g) + [line])
    ensures L.Retained(L.WriteLine(g, tsMs, line, OK)) != []
  {
    var r := L.Retained(g);
    assert L.IsSuffix(r, r);
    L.StepKeepsSuffix(g, L.Append(tsMs, line, OK), r);
  }

  lemma {:induction false} TipAfterWrite(s: seq<L.Line>, w: seq<L.Line>, x: Queued, q: seq<Queued>)
    requires L.IsSuffix(s, w + [x.line]) && s != []
    ensures Tip(Followed(s, q)) == Tip(Followed(w, [x] + q))
  {
    FollowedSplit(w, x, q);
    if q == [] {
      assert s[|s| - 1] == (w + [x.line])[|w|];
    }
  }

  lemma TipWriteNext(c: Channel)
    ensures Tip(All(WriteNext(c, OK))) == Tip(All(c))
  {
    if c.queue != [] {
      WriteOk(c.disk, c.queue[0].tsMs, c.queue[0].line);
      assert c.queue == [c.queue[0]] + c.queue[1..];
      TipAfterWrite(L.Retained(WriteNext(c, OK).disk), L.Retained(c.disk), c.queue[0], c.queue[1..]);
    }
  }

  lemma NumSnoc(lines: seq<L.Line>, line: L.Line, n: nat)
    ensures HasNum(lines + [line], n) <==> HasNum(lines, n) || line.num == Some(n)
  {
    assert (lines + [line])[..|lines|] == lines;
  }

  lemma {:induction false} NumSuffix(s: seq<L.Line>, w: seq<L.Line>, n: nat)
    requires L.IsSuffix(s, w) && HasNum(s, n)
    ensures HasNum(w, n)
  {
    SuffixInit(s, w);
    if s[|s| - 1].num != Some(n) { NumSuffix(s[..|s| - 1], w[..|w| - 1], n); }
  }

  lemma {:induction false} NumAfterWrite(s: seq<L.Line>, w: seq<L.Line>, x: Queued, q: seq<Queued>, n: nat)
    requires L.IsSuffix(s, w + [x.line]) || L.IsSuffix(s, w)
    requires HasNum(Followed(s, q), n)
    ensures HasNum(Followed(w, [x] + q), n)
  {
    FollowedSplit(w, x, q);
    if q == [] {
      NumSnoc(w, x.line, n);
      if L.IsSuffix(s, w) { NumSuffix(s, w, n); } else { NumSuffix(s, w + [x.line], n); }
    } else {
      var init, last := q[..|q| - 1], q[|q| - 1].line;
      NumSnoc(Followed(s, init), last, n);
      NumSnoc(Followed(w, [x] + init), last, n);
      if HasNum(Followed(s, init), n) { NumAfterWrite(s, w, x, init, n); }
    }
  }

  lemma NumWriteNext(c: Channel, io: L.Io, n: nat)
    requires HasNum(All(WriteNext(c, io)), n)
    ensures HasNum(All(c), n)
  {
    if c.queue != [] {
      WrittenOrLost(c.disk, c.queue[0].tsMs, c.queue[0].line, io);
      assert c.queue == [c.queue[0]] + c.queue[1..];
      NumAfterWrite(L.Retained(WriteNext(c, io).disk), L.Retained(c.disk), c.queue[0], c.queue[1..], n);
    }
  }

  lemma {:induction false} NumOnDisk(lines: seq<L.Line>, q: seq<Queued>, n: nat)
    requires HasNum(lines, n)
    ensures HasNum(Followed(lines, q), n)
  {
    if q != [] {
      NumOnDisk(lines, q[..|q| - 1], n);
      NumSnoc(Followed(lines, q[..|q| - 1]), q[|q| - 1].line, n);
    }
  }

  /** With the request log drained, its newest number covers the details. */
  lemma BackedIsCovered(s: State)
    requires Backed(s) && s.requests.queue == []
    ensures Covered(s) && Tip(All(s.requests)) <= OnDisk(s)
  {
    forall n: nat | HasNum(L.Retained(s.details.disk), n) ensures n <= OnDisk(s) {
      NumOnDisk(L.Retained(s.details.disk), s.details.queue, n);
    }
  }

  lemma EndBacked(s: State, n: nat)
    requires Backed(s) && n in s.inFlight
    ensures Backed(EndStep(s, n))
  {
    var x := s.inFlight[n];
    var line := L.Line(Some(n), None, x.captured);
    SendAll(s.details, x.tsMs, line);
    forall k: nat | HasNum(All(EndStep(s, n).details), k) ensures k <= Tip(All(s.requests)) {
      NumSnoc(All(s.details), line, k);
    }
  }

  lemma RestartBacked(s: State, hours: nat)
    requires Backed(s) && s.requests.queue == []
    ensures Backed(Restarted(s, hours))
  {
    var s' := Restarted(s, hours);
    assert All(s'.requests) == All(s.requests) && All(s'.details) == L.Retained(s.details.disk);
    forall n: nat | HasNum(All(s'.details), n) ensures n <= Tip(All(s'.requests)) {
      NumOnDisk(L.Retained(s.details.disk), s.details.queue, n);
    }
  }

  lemma StepBacked(s: State, op: Op)
    requires InOrder(s) && Backed(s)
    requires (op.WriteRequest? ==> op.io == OK) && (op.Restart? ==> s.requests.queue == [])
    ensures Backed(Step(s, op))
  {
    match op
    case QueueRequest(n, tsMs, url) => if n in s.drawn { QueueOrdered(s, s.requests, n, tsMs, url); }
    case End(n) => if n in s.inFlight { EndBacked(s, n); }
    case WriteRequest(io) => TipWriteNext(s.requests);
    case WriteDetail(io) => WriteDetailBacked(s, io);
    case Restart(hours) => RestartBacked(s, hours);
    case _ =>
  }

  lemma WriteDetailBacked(s: State, io: L.Io)
    requires Backed(s)
    ensures Backed(Step(s, WriteDetail(io)))
  {
    forall n: nat | HasNum(All(WriteNext(s.details, io)), n) ensures HasNum(All(s.details), n) {
      NumWriteNext(s.details, io, n);
    }
  }

  lemma {:induction false} RunBacked(hours: nat, ops: seq<Op>)
    requires OneAtATime(Fresh(hours), ops) && RequestsKept(Fresh(hours), ops)
    ensures Backed(Run(hours, ops)) && RestartsCovered(Fresh(hours), ops)
  {
    if ops == [] {
      assert L.Retained(L.Open(None, None, hours)) == [];
    } else {
      var before, op := ops[..|ops| - 1], ops[|ops| - 1];
      RunBacked(hours, before);
      RunOrdered(hours, before);
      StepBacked(Run(hours, before), op);
      if op.Restart? { BackedIsCovered(Run(hours, before)); }
    }
  }

  /**
   Numbers issued one at a time, and the request log written and drained before each
   restart, are enough for detail lookups, whatever happens to the other two logs.
   */
  lemma DrainingRequestsSuffices(hours: nat, ops: seq<Op>, n: nat)
    requires OneAtATime(Fresh(hours), ops) && RequestsKept(Fresh(hours), ops)
    ensures var r := Lookup(Run(hours, ops), n);
      r.Some? ==> n in Ended(hours, ops) && r.value.text == Ended(hours, ops)[n]
  {
    RunBacked(hours, ops);
    LookupFindsOwnDetail(hours, ops, n);
  }

  // ----- no number twice

  /** The query log is written and drained as well, and no number is waiting to be queued at a restart. */
  ghost predicate AllKept(s: State, ops: seq<Op>) {
    ops == [] ||
      (&& AllKept(s, ops[..|ops| - 1])
       && (ops[|ops| - 1].WriteQuery? ==> ops[|ops| - 1].io == OK)
       && (ops[|ops| - 1].Restart? ==>
             RunFrom(s, ops[..|ops| - 1]).queries.queue == [] && RunFrom(s, ops[..|ops| - 1]).drawn == {}))
  }

  /** The last number given out is on a log, or still to be queued. */
  ghost predicate Accounted(s: State) {
    s.drawn == {} ==> s.next == Max(Tip(All(s.requests)), Tip(All(s.queries))) + 1
  }

  /** With all that, the counter resumes exactly where it was. */
  lemma ResumeIsExact(s: State)
    requires InOrder(s) && Backed(s) && Accounted(s)
    requires s.requests.queue == [] && s.queries.queue == [] && s.drawn == {}
    ensures OnDisk(s) + 1 == s.next
  {
    BackedIsCovered(s);
    var ds := L.Retained(s.details.disk);
    if ds != [] && ds[|ds| - 1].num.Some? {
      var n := ds[|ds| - 1].num.value;
      assert HasNum(ds, n);
      NumOnDisk(ds, s.details.queue, n);
    }
  }

  lemma StepAccounted(s: State, op: Op)
    requires InOrder(s) && Backed(s) && Accounted(s) && (op.Draw? ==> s.drawn == {})
    requires (op.WriteRequest? || op.WriteQuery? ==> op.io == OK)
    requires (op.Restart? ==> s.requests.queue == [] && s.queries.queue == [] && s.drawn == {})
    ensures Accounted(Step(s, op)) && Step(s, op).next == if op.Draw? then s.next + 1 else s.next
  {
    match op
    case QueueRequest(n, tsMs, url) => if n in s.drawn { QueueOrdered(s, s.requests, n, tsMs, url); }
    case QueueQuery(n, tsMs, domain) => if n in s.drawn { QueueOrdered(s, s.queries, n, tsMs, domain); }
    case WriteRequest(io) => TipWriteNext(s.requests);
    case WriteQuery(io) => TipWriteNext(s.queries);
    case Restart(hours) => ResumeIsExact(s);
    case _ =>
  }

  /** The numbers given out over all runs of the process, in order. */
  function Issued(s: State, ops: seq<Op>): seq<nat> {
    if ops == [] then []
    else
      var before := ops[..|ops| - 1];
      if ops[|ops| - 1].Draw? then Issued(s, before) + [RunFrom(s, before).next] else Issued(s, before)
  }

  ghost predicate Ascending(ns: seq<nat>, top: nat) {
    && (forall i, j :: 0 <= i < j < |ns| ==> ns[i] < ns[j])
    && (forall i :: 0 <= i < |ns| ==> ns[i] < top)
  }

  /**
   Numbers issued one at a time, with the request and the query log written and drained
   before each restart: no number is ever given out twice, across any number of restarts
   and rotations, although details are written in drop order and may be lost.
   */
  lemma {:induction false} NumbersNeverRepeat(hours: nat, ops: seq<Op>)
    requires OneAtATime(Fresh(hours), ops) && RequestsKept(Fresh(hours), ops) && AllKept(Fresh(hours), ops)
    ensures Ascending(Issued(Fresh(hours), ops), Run(hours, ops).next) && Accounted(Run(hours, ops))
  {
    if ops == [] {
      assert L.Retained(L.Open(None, None, hours)) == [];
    } else {
      var before := ops[..|ops| - 1];
      NumbersNeverRepeat(hours, before);
      RunOrdered(hours, before);
      RunBacked(hours, before);
      StepAccounted(Run(hours, before), ops[|ops| - 1]);
      AscendingSnoc(Issued(Fresh(hours), before), Run(hours, before).next);
    }
  }

  lemma AscendingSnoc(ns: seq<nat>, n: nat)
    requires Ascending(ns, n)
    ensures Ascending(ns + [n], n + 1)
  {
  }
}

/** Three ways to a restart that is not covered, each with the other two kinds of care taken. */
module SeqReuse {
  import opened Options
  import L = RotatingLogSpec
  import opened SeqResumeSpec
  import opened SeqOrder

  ghost predicate WritesSucceed(ops: seq<Op>) {
    ops == [] ||
      (&& WritesSucceed(ops[..|ops| - 1])
       && var op := ops[|ops| - 1]; (op.WriteRequest? || op.WriteDetail? || op.WriteQuery? ==> op.io == OK))
  }

  predicate Drained(s: State) {
    s.requests.queue == [] && s.details.queue == [] && s.queries.queue == [] && s.drawn == {}
  }

  /** One more step, at which no process restarts. */
  lemma Then(ops: seq<Op>, op: Op) returns (more: seq<Op>)
    requires RestartsCovered(Fresh(24), ops) && !op.Restart?
    ensures Run(24, more) == Step(Run(24, ops), op) && RestartsCovered(Fresh(24), more)
    ensures OneAtATime(Fresh(24), more) <==> OneAtATime(Fresh(24), ops) && (op.Draw? ==> Run(24, ops).drawn == {})
    ensures WritesSucceed(more) <==>
      WritesSucceed(ops) && (op.WriteRequest? || op.WriteDetail? || op.WriteQuery? ==> op.io == OK)
  {
    more := ops + [op];
    assert more[..|ops|] == ops;
  }

  const EMPTY := Channel(L.Open(None, None, 24), [])

  function RequestLine(n: nat): L.Line {
    L.Line(Some(n), Some(0), "")
  }

  function DetailLine(n: nat): L.Line {
    L.Line(Some(n), None, "x")
  }

  /** Two requests in flight, their lines queued in this order. */
  ghost predicate Opened(s: State, a: L.Line, b: L.Line) {
    && s.drawn == {} && s.requests == Channel(EMPTY.disk, [Queued(0, a), Queued(0, b)])
    && s.details == EMPTY && s.queries == EMPTY && s.inFlight == map[1 := Exchange(0, ""), 2 := Exchange(0, "")]
  }

  lemma OpenedInTurn() returns (ops: seq<Op>)
    ensures RestartsCovered(Fresh(24), ops) && OneAtATime(Fresh(24), ops) && WritesSucceed(ops)
    ensures Opened(Run(24, ops), RequestLine(1), RequestLine(2))
  {
    ops := Then([], Draw);
    ops := Then(ops, QueueRequest(1, 0, ""));
    assert Run(24, ops).drawn == {};
    ops := Then(ops, Draw);
    ops := Then(ops, QueueRequest(2, 0, ""));
  }

  lemma OpenedCrosswise() returns (ops: seq<Op>)
    ensures RestartsCovered(Fresh(24), ops) && WritesSucceed(ops)
    ensures Opened(Run(24, ops), RequestLine(2), RequestLine(1))
  {
    ops := Then([], Draw);
    ops := Then(ops, Draw);
    ops := Then(ops, QueueRequest(2, 0, ""));
    ops := Then(ops, QueueRequest(1, 0, ""));
  }

  ghost predicate Captured(s: State, c: Channel) {
    s.drawn == {} && s.requests == c && s.queries == EMPTY && s.inFlight == map[1 := Exchange(0, "x"), 2 := Exchange(0, "x")]
  }

  lemma BothCaptured(before: seq<Op>, a: L.Line, b: L.Line) returns (ops: seq<Op>)
    requires RestartsCovered(Fresh(24), before) && Opened(Run(24, before), a, b)
    ensures RestartsCovered(Fresh(24), ops)
    ensures (OneAtATime(Fresh(24), before) <==> OneAtATime(Fresh(24), ops)) && (WritesSucceed(before) <==> WritesSucceed(ops))
    ensures Captured(Run(24, ops), Run(24, before).requests) && Run(24, ops).details == EMPTY
  {
    ops := Then(before, Capture(1, "x"));
    ops := Then(ops, Capture(2, "x"));
  }

  /** They end in the order 2, 1, and the detail writer writes both. */
  lemma BothEnded(before: seq<Op>, c: Channel) returns (ops: seq<Op>)
    requires RestartsCovered(Fresh(24), before) && Captured(Run(24, before), c) && Run(24, before).details == EMPTY
    ensures RestartsCovered(Fresh(24), ops)
    ensures (OneAtATime(Fresh(24), before) <==> OneAtATime(Fresh(24), ops)) && (WritesSucceed(before) <==> WritesSucceed(ops))
    ensures var s := Run(24, ops);
      s.drawn == {} && s.requests == c && s.queries == EMPTY && s.details == Channel(EMPTY.disk, [Queued(0, DetailLine(2)), Queued(0, DetailLine(1))])
  {
    ops := Then(before, End(2));
    ops := Then(ops, End(1));
  }

  lemma TwoWrites(a: L.Line, b: L.Line)
    ensures var c := WriteNext(WriteNext(Channel(EMPTY.disk, [Queued(0, a), Queued(0, b)]), OK), OK);
      L.Retained(c.disk) == [a, b] && c.queue == []
  {
    var c := WriteNext(Channel(EMPTY.disk, [Queued(0, a), Queued(0, b)]), OK);
    assert c.queue == [Queued(0, b)];
    assert c.disk == L.Log(Some([a]), None, true, Some(0), L.HoursMs(24)) by { assert [] + [a] == [a]; }
  }

  /** A detail log that ends in 1 and holds 2. */
  ghost predicate DetailsCrossed(s: State) {
    L.Retained(s.details.disk) == [DetailLine(2), DetailLine(1)] && s.details.queue == [] && s.queries == EMPTY && s.drawn == {}
  }

  lemma DetailsWritten(before: seq<Op>, c: Channel) returns (ops: seq<Op>)
    requires RestartsCovered(Fresh(24), before) && Captured(Run(24, before), c) && Run(24, before).details == EMPTY
    ensures RestartsCovered(Fresh(24), ops)
    ensures (OneAtATime(Fresh(24), before) <==> OneAtATime(Fresh(24), ops)) && (WritesSucceed(before) <==> WritesSucceed(ops))
    ensures DetailsCrossed(Run(24, ops)) && Run(24, ops).requests == c
  {
    ops := BothEnded(before, c);
    TwoWrites(DetailLine(2), DetailLine(1));
    ops := Then(ops, WriteDetail(OK));
    ops := Then(ops, WriteDetail(OK));
  }

  lemma CrossedIsUncovered(s: State)
    requires DetailsCrossed(s) && OrZero(NewestNum(s.requests.disk)) <= 1
    ensures !Covered(s)
  {
    var lines := L.Retained(s.details.disk);
    assert lines[..1] == [DetailLine(2)];
    assert HasNum(lines[..1], 2) && HasNum(lines, 2);
    assert OnDisk(s) == 1;
  }

  /** The restart after this run leads a lookup astray. */
  ghost predicate Astray(ops: seq<Op>) {
    RestartsCovered(Fresh(24), ops) && !Covered(Run(24, ops)) && !NeverMisled(Restarted(Run(24, ops), 24))
  }

  lemma AstrayIfUncovered(ops: seq<Op>)
    requires RestartsCovered(Fresh(24), ops) && !Covered(Run(24, ops))
    ensures Astray(ops)
  {
    RestartSafeIff(24, ops, 24);
  }

  /** One at a time and no write fails, but the request log is not drained. */
  lemma UndrainedRestartReuses()
    ensures exists ops :: Astray(ops) && OneAtATime(Fresh(24), ops) && WritesSucceed(ops)
  {
    var o1 := OpenedInTurn();
    var o2 := BothCaptured(o1, RequestLine(1), RequestLine(2));
    var ops := DetailsWritten(o2, Run(24, o1).requests);
    CrossedIsUncovered(Run(24, ops));
    AstrayIfUncovered(ops);
  }

  /** One at a time and all drained, but both request lines fail to be written. */
  lemma FailedWritesReuse()
    ensures exists ops :: Astray(ops) && OneAtATime(Fresh(24), ops) && Drained(Run(24, ops))
  {
    var o1 := OpenedInTurn();
    var o2 := BothCaptured(o1, RequestLine(1), RequestLine(2));
    var o3 := DetailsWritten(o2, Run(24, o1).requests);
    var failing := L.Io(true, false, true);
    var o4 := Then(o3, WriteRequest(failing));
    var ops := Then(o4, WriteRequest(failing));
    assert Run(24, ops).requests == EMPTY;
    CrossedIsUncovered(Run(24, ops));
    AstrayIfUncovered(ops);
  }

  lemma RequestsWritten(before: seq<Op>, a: L.Line, b: L.Line) returns (ops: seq<Op>)
    requires RestartsCovered(Fresh(24), before) && WritesSucceed(before) && DetailsCrossed(Run(24, before))
    requires Run(24, before).requests == Channel(EMPTY.disk, [Queued(0, a), Queued(0, b)])
    ensures RestartsCovered(Fresh(24), ops) && WritesSucceed(ops) && DetailsCrossed(Run(24, ops)) && Drained(Run(24, ops))
    ensures L.Retained(Run(24, ops).requests.disk) == [a, b]
  {
    TwoWrites(a, b);
    ops := Then(before, WriteRequest(OK));
    ops := Then(ops, WriteRequest(OK));
  }

  /** All drained and no write fails, but two threads drew their numbers in one order and queued their lines in the other. */
  lemma CrosswiseIssueReuses()
    ensures exists ops :: Astray(ops) && Drained(Run(24, ops)) && WritesSucceed(ops)
  {
    var o1 := OpenedCrosswise();
    var o2 := BothCaptured(o1, RequestLine(2), RequestLine(1));
    var o3 := DetailsWritten(o2, Run(24, o1).requests);
    var ops := RequestsWritten(o3, RequestLine(2), RequestLine(1));
    CrossedIsUncovered(Run(24, ops));
    AstrayIfUncovered(ops);
  }
}

/** The statistics object as far as numbering goes: the counter, three logs and the requests in flight. */
module SeqResume {
  import opened Options
  import opened RotatingLogSpec
  import opened SeqResumeSpec

  class SharedState {
    var next: nat
    var drawn: set<nat>
    var requests: Channel
    var details: Channel
    var queries: Channel
    var inFlight: map<nat, Exchange>

    ghost function Model(): State
      reads this
    {
      State(next, drawn, requests, details, queries, inFlight)
    }

    /** Starting over the files an earlier process left: resume above the newest numbers. */
    constructor WithDataDir(left: State, hours: nat)
      ensures Model() == SeqResumeSpec.Step(left, Restart(hours))
    {
      requests := Reopened(left.requests, hours);
      details := Reopened(left.details, hours);
      queries := Reopened(left.queries, hours);
      inFlight, drawn := map[], {};
      var newest := [NewestNum(left.requests.disk), NewestNum(left.details.disk), NewestNum(left.queries.disk)];
      ghost var r, d, q := OrZero(newest[0]), OrZero(newest[1]), OrZero(newest[2]);
      var onDisk, i := 0, 0;
      while i < |newest|
        invariant 0 <= i <= |newest|
        invariant onDisk == if i == 0 then 0 else if i == 1 then r else if i == 2 then Max(r, d) else Max(r, Max(d, q))
      {
        if newest[i].Some? && newest[i].value > onDisk {
          onDisk := newest[i].value;
        }
        i := i + 1;
      }
      next := onDisk + 1;
    }

    /** Open a request record: take a number, queue the request line, and keep the exchange for its captures. */
    method Begin(tsMs: nat, url: string) returns (n: nat)
      modifies this
      ensures n == old(next)
      ensures Model() == SeqResumeSpec.Step(SeqResumeSpec.Step(old(Model()), Draw), QueueRequest(n, tsMs, url))
    {
      n := FetchAdd();
      drawn := drawn - {n};
      requests := Send(requests, tsMs, Line(Some(n), Some(tsMs), url));
      inFlight := inFlight[n := Exchange(tsMs, "")];
    }

    method FetchAdd() returns (n: nat)
      modifies this
      ensures n == old(next) && Model() == SeqResumeSpec.Step(old(Model()), Draw)
    {
      n := next;
      next := next + 1;
      drawn := drawn + {n};
    }

    method RecordDns(tsMs: nat, domain: string) returns (n: nat)
      modifies this
      ensures n == old(next)
      ensures Model() == SeqResumeSpec.Step(SeqResumeSpec.Step(old(Model()), Draw), QueueQuery(n, tsMs, domain))
    {
      n := FetchAdd();
      drawn := drawn - {n};
      queries := Send(queries, tsMs, Line(Some(n), Some(tsMs), domain));
    }

    method Attach(n: nat, text: string)
      modifies this
      ensures Model() == SeqResumeSpec.Step(old(Model()), Capture(n, text))
    {
      if n in inFlight {
        inFlight := inFlight[n := inFlight[n].(captured := text)];
      }
    }

    /** The exchange is dropped: its captures, if any, go to the detail log. */
    method Drop(n: nat)
      modifies this
      ensures Model() == SeqResumeSpec.Step(old(Model()), End(n))
    {
      if n in inFlight {
        var x := inFlight[n];
        if x.captured != "" {
          details := Send(details, x.tsMs, Line(Some(n), None, x.captured));
        }
        inFlight := inFlight - {n};
      }
    }
  }
}
