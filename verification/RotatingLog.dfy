/**
 The rotating log: one current file and one old file, written by a writer thread and
 read back newest first, page by page, with the smallest sequence number seen as cursor.
 */
module RotatingLogSpec {
  import opened Options

  /** A log line with the two fields the log itself reads back: its sequence number and its time. */
  datatype Line = Line(num: Option<nat>, tsMs: Option<nat>, text: string)

  datatype Log = Log(
    current: Option<seq<Line>>,
    rotated: Option<seq<Line>>,
    open: bool,
    startedMs: Option<nat>,
    rotateMs: nat)

  function Contents(file: Option<seq<Line>>): seq<Line> {
    if file.Some? then file.value else []
  }

  /** All lines on disk, oldest first. */
  function Retained(g: Log): seq<Line> {
    Contents(g.rotated) + Contents(g.current)
  }

  function HoursMs(hours: nat): nat {
    hours * 3600000
  }

  /** Open the log over the files of an earlier process; rotation counts from the first line's time. */
  function Open(current: Option<seq<Line>>, rotated: Option<seq<Line>>, hours: nat): Log {
    var first := if Contents(current) == [] then None else Contents(current)[0].tsMs;
    Log(current, rotated, false, first, HoursMs(hours))
  }

  /** Which file operations of one write succeed. */
  datatype Io = Io(renameOk: bool, openOk: bool, writeOk: bool)

  predicate Due(g: Log, tsMs: nat) {
    g.startedMs.Some? && (if tsMs >= g.startedMs.value then tsMs - g.startedMs.value else 0) >= g.rotateMs
  }

  /** Rotation renames the current file over the old one; a missing current file leaves the old one alone. */
  function Rotate(g: Log, renamed: bool): Log {
    if g.current.Some? && renamed
    then Log(None, g.current, false, None, g.rotateMs)
    else g.(open := false, startedMs := None)
  }

  function WriteLine(g: Log, tsMs: nat, line: Line, io: Io): Log {
    var g := if Due(g, tsMs) then Rotate(g, io.renameOk) else g;
    if !g.open && !io.openOk then g
    else
      var file := Contents(g.current);
      var started := if g.startedMs.Some? then g.startedMs else Some(tsMs);
      if io.writeOk
      then g.(current := Some(file + [line]), open := true, startedMs := started)
      else g.(current := Some(file), open := false, startedMs := started)
  }

  predicate Lands(g: Log, tsMs: nat, io: Io) {
    var g := if Due(g, tsMs) then Rotate(g, io.renameOk) else g;
    (g.open || io.openOk) && io.writeOk
  }

  datatype Op =
    | Append(tsMs: nat, line: Line, io: Io)
    | SetRotateHours(hours: nat)
    | Reopen(hours: nat)

  function Step(g: Log, op: Op): Log {
    match op
    case Append(tsMs, line, io) => WriteLine(g, tsMs, line, io)
    case SetRotateHours(hours) => g.(rotateMs := HoursMs(hours))
    case Reopen(hours) => Open(g.current, g.rotated, hours)
  }

  function Run(ops: seq<Op>, hours: nat): Log {
    if ops == [] then Open(None, None, hours) else Step(Run(ops[..|ops| - 1], hours), ops[|ops| - 1])
  }

  /** The lines that reached the disk, oldest first. */
  function Written(ops: seq<Op>, hours: nat): seq<Line> {
    if ops == [] then []
    else
      var before, op := ops[..|ops| - 1], ops[|ops| - 1];
      if op.Append? && Lands(Run(before, hours), op.tsMs, op.io)
      then Written(before, hours) + [op.line]
      else Written(before, hours)
  }

  ghost predicate IsSuffix(s: seq<Line>, w: seq<Line>) {
    |s| <= |w| && s == w[|w| - |s|..]
  }

  lemma RotateKeepsSuffix(g: Log, renamed: bool, w: seq<Line>)
    requires IsSuffix(Retained(g), w)
    ensures IsSuffix(Retained(Rotate(g, renamed)), w) && |Retained(Rotate(g, renamed))| <= |Retained(g)|
  {
    var a, b := Contents(g.rotated), Contents(g.current);
    assert w[|w| - |b|..] == b;
  }

  lemma StepKeepsSuffix(g: Log, op: Op, w: seq<Line>)
    requires IsSuffix(Retained(g), w)
    ensures var w' := if op.Append? && Lands(g, op.tsMs, op.io) then w + [op.line] else w;
      && IsSuffix(Retained(Step(g, op)), w')
      && |w| - |Retained(g)| <= |w'| - |Retained(Step(g, op))|
  {
    if op.Append? {
      var h := if Due(g, op.tsMs) then Rotate(g, op.io.renameOk) else g;
      RotateKeepsSuffix(g, op.io.renameOk, w);
      if Lands(g, op.tsMs, op.io) {
        assert Retained(Step(g, op)) == Retained(h) + [op.line];
        SuffixSnoc(Retained(h), w, op.line);
      } else {
        assert Retained(Step(g, op)) == Retained(h);
      }
    }
  }

  lemma SuffixSnoc(s: seq<Line>, w: seq<Line>, x: Line)
    requires IsSuffix(s, w)
    ensures IsSuffix(s + [x], w + [x])
  {
  }

  /** In every run, through rotations, reopenings and failed file operations, the two files
      together hold the newest written lines, in order and without a gap. */
  lemma {:induction false} RetainedIsSuffix(ops: seq<Op>, hours: nat)
    ensures IsSuffix(Retained(Run(ops, hours)), Written(ops, hours))
  {
    if ops != [] {
      RetainedIsSuffix(ops[..|ops| - 1], hours);
      StepKeepsSuffix(Run(ops[..|ops| - 1], hours), ops[|ops| - 1], Written(ops[..|ops| - 1], hours));
    }
  }

  /** Position of the first retained line among all lines written. */
  function Start(ops: seq<Op>, hours: nat): int {
    |Written(ops, hours)| - |Retained(Run(ops, hours))|
  }

  /** As a run goes on, lines are only appended at the new end and only dropped at the old end. */
  lemma {:induction false} RunProgress(ops: seq<Op>, hours: nat, i: nat)
    requires i <= |ops|
    ensures Written(ops[..i], hours) <= Written(ops, hours)
    ensures 0 <= Start(ops[..i], hours) <= Start(ops, hours)
    ensures Retained(Run(ops[..i], hours)) == Written(ops, hours)[Start(ops[..i], hours)..|Written(ops[..i], hours)|]
  {
    RetainedIsSuffix(ops[..i], hours);
    if i == |ops| {
      assert ops[..i] == ops;
    } else {
      var before := ops[..|ops| - 1];
      assert before[..i] == ops[..i];
      RunProgress(before, hours, i);
      RetainedIsSuffix(before, hours);
      StepKeepsSuffix(Run(before, hours), ops[|ops| - 1], Written(before, hours));
    }
  }

  // ----- looking a line up

  /** The newest line that matches, or none. */
  function NewestMatch(lines: seq<Line>, pred: Line -> bool): Option<Line> {
    if lines == [] then None
    else if pred(lines[|lines| - 1]) then Some(lines[|lines| - 1])
    else NewestMatch(lines[..|lines| - 1], pred)
  }

  lemma {:induction false} NewestMatchSplit(a: seq<Line>, b: seq<Line>, pred: Line -> bool)
    ensures NewestMatch(a + b, pred) == if NewestMatch(b, pred).Some? then NewestMatch(b, pred) else NewestMatch(a, pred)
  {
    if b == [] {
      assert a + b == a;
    } else {
      assert (a + b)[|a + b| - 1] == b[|b| - 1] && (a + b)[..|a + b| - 1] == a + b[..|b| - 1];
      NewestMatchSplit(a, b[..|b| - 1], pred);
    }
  }

  // ----- paging

  predicate Selected(line: Line, before: Option<nat>) {
    line.num.Some? && (before.None? || line.num.value < before.value)
  }

  /** The lines of `w` from `lo` to `hi` that have a number below the cursor, newest first. */
  function Back(w: seq<Line>, lo: nat, hi: nat, before: Option<nat>): seq<Line>
    requires hi <= |w|
  {
    if lo >= hi then []
    else (if Selected(w[hi - 1], before) then [w[hi - 1]] else []) + Back(w, lo, hi - 1, before)
  }

  function Take<T>(s: seq<T>, n: nat): seq<T> {
    if |s| <= n then s else s[..n]
  }

  function PageOf(lines: seq<Line>, before: Option<nat>, limit: nat): seq<Line> {
    Take(Back(lines, 0, |lines|, before), limit)
  }

  lemma {:induction false} BackSplit(w: seq<Line>, lo: nat, mid: nat, hi: nat, before: Option<nat>)
    requires lo <= mid <= hi <= |w|
    ensures Back(w, lo, hi, before) == Back(w, mid, hi, before) + Back(w, lo, mid, before)
  {
    if mid < hi { BackSplit(w, lo, mid, hi - 1, before); }
  }

  /** Only the lines of the stretch matter. */
  lemma {:induction false} BackShift(v: seq<Line>, w: seq<Line>, lo: nat, hi: nat, before: Option<nat>)
    requires hi <= |v| && lo + hi <= |w| && forall i :: 0 <= i < hi ==> v[i] == w[lo + i]
    ensures Back(v, 0, hi, before) == Back(w, lo, lo + hi, before)
  {
    if hi > 0 { BackShift(v, w, lo, hi - 1, before); }
  }

  lemma BackConcat(a: seq<Line>, b: seq<Line>, before: Option<nat>)
    ensures Back(a + b, 0, |a + b|, before) == Back(b, 0, |b|, before) + Back(a, 0, |a|, before)
  {
    var all := a + b;
    BackSplit(all, 0, |a|, |all|, before);
    BackShift(b, all, |a|, |b|, before);
    BackShift(a, all, 0, |a|, before);
  }

  lemma {:induction false} BackNone(w: seq<Line>, lo: nat, hi: nat, before: Option<nat>)
    requires hi <= |w| && forall i :: lo <= i < hi ==> !Selected(w[i], before)
    ensures Back(w, lo, hi, before) == []
  {
    if lo < hi { BackNone(w, lo, hi - 1, before); }
  }

  lemma {:induction false} BackAll(w: seq<Line>, lo: nat, hi: nat, before: Option<nat>)
    requires hi <= |w| && forall i :: lo <= i < hi && w[i].num.Some? ==> Selected(w[i], before)
    ensures Back(w, lo, hi, before) == Back(w, lo, hi, None)
  {
    if lo < hi { BackAll(w, lo, hi - 1, before); }
  }

  /** Sequence numbers grow from line to line (lines without one are skipped). */
  ghost predicate Increasing(w: seq<Line>) {
    forall i, j :: 0 <= i < j < |w| && w[i].num.Some? && w[j].num.Some? ==> w[i].num.value < w[j].num.value
  }

  /** The cursor `c` separates the lines before position `p` from those at and after it. */
  ghost predicate Cuts(w: seq<Line>, p: nat, c: Option<nat>) {
    && p <= |w| && c.Some?
    && (forall i :: 0 <= i < p && w[i].num.Some? ==> w[i].num.value < c.value)
    && (forall i :: p <= i < |w| && w[i].num.Some? ==> w[i].num.value >= c.value)
  }

  /** Below the cursor lie exactly the numbered lines before the cut that are still retained. */
  lemma BelowCursor(w: seq<Line>, k: nat, n: nat, p: nat, c: Option<nat>)
    requires k <= n <= |w| && p <= n && Cuts(w, p, c)
    ensures Back(w, k, n, c) == Back(w, k, p, None)
  {
    if k <= p {
      BackSplit(w, k, p, n, c);
      BackNone(w, p, n, c);
      BackAll(w, k, p, c);
    } else {
      BackNone(w, k, n, c);
    }
  }

  /** The position of the `limit`-th numbered line, counted back from `hi`. */
  lemma {:induction false} Reach(w: seq<Line>, lo: nat, hi: nat, limit: nat) returns (q: nat)
    requires hi <= |w| && 0 < limit <= |Back(w, lo, hi, None)|
    ensures lo <= q < hi && Back(w, lo, hi, None)[..limit] == Back(w, q, hi, None)
    ensures w[q].num.Some? && w[q] == Back(w, lo, hi, None)[limit - 1]
  {
    if Selected(w[hi - 1], None) && limit == 1 {
      q := hi - 1;
    } else {
      q := Reach(w, lo, hi - 1, if Selected(w[hi - 1], None) then limit - 1 else limit);
    }
  }

  // ----- walking all pages

  /** One page that sees the lines `view.0` to `view.1` of all lines ever written. */
  function PageAt(w: seq<Line>, view: (nat, nat), before: Option<nat>, limit: nat): seq<Line>
    requires view.0 <= view.1 <= |w|
  {
    Take(Back(w, view.0, view.1, before), limit)
  }

  datatype Walked = Walked(lines: seq<Line>, done: bool)

  /**
   What a client collects from the pages `i` to `n` by asking with the smallest number seen
   as cursor, until a page comes back short; `pages` gives the answer to each request.
   */
  function Collect(pages: (nat, Option<nat>) -> seq<Line>, n: nat, i: nat, before: Option<nat>, limit: nat): Walked
    requires limit > 0
    decreases n - i
  {
    if i >= n then Walked([], false)
    else
      var page := pages(i, before);
      if |page| < limit then Walked(page, true)
      else
        var rest := Collect(pages, n, i + 1, page[|page| - 1].num, limit);
        Walked(page + rest.lines, rest.done)
  }

  /** The pages of a log that holds `held[k]` when page `k` is asked for. */
  function PagesOf(held: seq<seq<Line>>, limit: nat): (nat, Option<nat>) -> seq<Line> {
    (k: nat, c: Option<nat>) => if k < |held| then PageOf(held[k], c, limit) else []
  }

  function Walk(held: seq<seq<Line>>, limit: nat): Walked
    requires limit > 0
  {
    Collect(PagesOf(held, limit), |held|, 0, None, limit)
  }

  /** Each page sees its own view: older lines have been rotated away by then, newer ones are not there yet. */
  ghost predicate Shows(held: seq<seq<Line>>, w: seq<Line>, views: seq<(nat, nat)>) {
    && |held| == |views|
    && forall k :: 0 <= k < |views| ==> views[k].0 <= views[k].1 <= |w| && held[k] == w[views[k].0..views[k].1]
  }

  /** Every page sees lines up to position `p` at least; how much the rotation has left of them is open. */
  ghost predicate SeesUpTo(w: seq<Line>, views: seq<(nat, nat)>, p: nat) {
    forall k :: 0 <= k < |views| ==> views[k].0 <= views[k].1 <= |w| && p <= views[k].1
  }

  /** A page is the newest-first reading of a stretch that ends at the cut; a short page reads all that is there. */
  lemma PageStretch(w: seq<Line>, view: (nat, nat), p: nat, c: Option<nat>, limit: nat) returns (q: nat)
    requires Increasing(w) && view.0 <= view.1 <= |w| && p <= view.1 && limit > 0
    requires Back(w, view.0, view.1, c) == Back(w, view.0, p, None)
    ensures q <= p && PageAt(w, view, c, limit) == Back(w, q, p, None)
    ensures |PageAt(w, view, c, limit)| < limit ==> q <= view.0
    ensures |PageAt(w, view, c, limit)| >= limit ==>
      q < p && |Back(w, q, p, None)| == limit && w[q] == PageAt(w, view, c, limit)[limit - 1] && Cuts(w, q, w[q].num)
  {
    if |Back(w, view.0, p, None)| < limit {
      q := if view.0 <= p then view.0 else p;
    } else {
      q := Reach(w, view.0, p, limit);
    }
  }

  lemma SliceIsPage(lines: seq<Line>, w: seq<Line>, view: (nat, nat), before: Option<nat>, limit: nat)
    requires view.0 <= view.1 <= |w| && lines == w[view.0..view.1]
    ensures PageOf(lines, before, limit) == PageAt(w, view, before, limit)
  {
    BackShift(lines, w, view.0, |lines|, before);
  }

  ghost predicate PagesAt(pages: (nat, Option<nat>) -> seq<Line>, w: seq<Line>, views: seq<(nat, nat)>, limit: nat) {
    forall k, c :: 0 <= k < |views| ==> views[k].0 <= views[k].1 <= |w| && pages(k, c) == PageAt(w, views[k], c, limit)
  }

  lemma ShownPages(held: seq<seq<Line>>, w: seq<Line>, views: seq<(nat, nat)>, limit: nat)
    requires Shows(held, w, views)
    ensures PagesAt(PagesOf(held, limit), w, views, limit)
  {
    forall k, c | 0 <= k < |views| ensures PageOf(held[k], c, limit) == PageAt(w, views[k], c, limit) {
      SliceIsPage(held[k], w, views[k], c, limit);
    }
  }

  /** One page from a cut at `p`, and where a full page leaves the cursor for the next one. */
  lemma WalkPage(w: seq<Line>, views: seq<(nat, nat)>, i: nat, p: nat, c: Option<nat>, limit: nat) returns (mid: nat)
    requires Increasing(w) && SeesUpTo(w, views, p) && limit > 0 && i < |views| && p <= |w|
    requires Back(w, views[i].0, views[i].1, c) == Back(w, views[i].0, p, None)
    ensures mid <= p && PageAt(w, views[i], c, limit) == Back(w, mid, p, None)
    ensures |Back(w, mid, p, None)| < limit ==> mid <= views[i].0
    ensures |Back(w, mid, p, None)| >= limit ==> mid < p && Back(w, mid, p, None)[|Back(w, mid, p, None)| - 1] == w[mid]
    ensures |Back(w, mid, p, None)| >= limit && i + 1 < |views| ==>
      Back(w, views[i + 1].0, views[i + 1].1, w[mid].num) == Back(w, views[i + 1].0, mid, None)
  {
    mid := PageStretch(w, views[i], p, c, limit);
    if |Back(w, mid, p, None)| >= limit && i + 1 < |views| {
      BelowCursor(w, views[i + 1].0, views[i + 1].1, mid, w[mid].num);
    }
  }

  /**
   From a cut at `p` on, the walk reads off the numbered lines of a stretch that ends at the
   cut, newest first. When it is done the stretch reaches back past everything still
   retained at its last page, and it is done before it has seen more pages than lines.
   */
  lemma {:induction false} WalkFrom(pages: (nat, Option<nat>) -> seq<Line>, w: seq<Line>, views: seq<(nat, nat)>,
                                    i: nat, p: nat, c: Option<nat>, limit: nat)
    returns (q: nat, last: nat)
    requires PagesAt(pages, w, views, limit)
    requires Increasing(w) && SeesUpTo(w, views, p) && limit > 0 && i <= |views| && p <= |w|
    requires i < |views| ==> Back(w, views[i].0, views[i].1, c) == Back(w, views[i].0, p, None)
    ensures q <= p && Collect(pages, |views|, i, c, limit).lines == Back(w, q, p, None)
    ensures Collect(pages, |views|, i, c, limit).done ==> last < |views| && q <= views[last].0
    ensures !Collect(pages, |views|, i, c, limit).done ==> q + |views| - i <= p
    decreases |views| - i
  {
    q, last := p, i;
    if i < |views| {
      var mid := WalkPage(w, views, i, p, c, limit);
      var page := pages(i, c);
      assert page == Back(w, mid, p, None);
      q := mid;
      if |page| >= limit {
        q, last := WalkFrom(pages, w, views, i + 1, mid, w[mid].num, limit);
        BackSplit(w, q, mid, p, None);
        assert Collect(pages, |views|, i, c, limit).lines == page + Collect(pages, |views|, i + 1, w[mid].num, limit).lines;
      }
    }
  }

  /**
   The whole walk, with lines appended and files rotated between pages: it returns, newest
   first and each once, the numbered lines of a gapless stretch that ends with the newest
   line of the first page's view; it stops, and then the stretch covers every line that was
   there at the first page and is still retained at the last.
   */
  lemma PagingReturnsAllRetained(held: seq<seq<Line>>, w: seq<Line>, views: seq<(nat, nat)>, limit: nat)
    returns (q: nat, last: nat)
    requires limit > 0 && views != [] && Shows(held, w, views) && SeesUpTo(w, views, views[0].1)
    requires Increasing(w)
    ensures q <= views[0].1 && Walk(held, limit).lines == Back(w, q, views[0].1, None)
    ensures Walk(held, limit).done ==> last < |views| && q <= views[last].0
    ensures |views| > views[0].1 ==> Walk(held, limit).done
  {
    ShownPages(held, w, views, limit);
    q, last := WalkFrom(PagesOf(held, limit), w, views, 0, views[0].1, None, limit);
  }

  // ----- the same over a run of the log

  /** What the log holds after the first `n` steps of a run, as a stretch of all the lines the run writes. */
  function ViewAfter(ops: seq<Op>, hours: nat, n: nat): (int, nat)
    requires n <= |ops|
  {
    (Start(ops[..n], hours), |Written(ops[..n], hours)|)
  }

  lemma ViewIsRetained(ops: seq<Op>, hours: nat, n: nat)
    requires n <= |ops|
    ensures var w, view := Written(ops, hours), ViewAfter(ops, hours, n);
      0 <= view.0 <= view.1 <= |w| && Retained(Run(ops[..n], hours)) == w[view.0..view.1]
  {
    RunProgress(ops, hours, n);
  }

  lemma ViewsRise(ops: seq<Op>, hours: nat, m: nat, n: nat)
    requires m <= n <= |ops|
    ensures ViewAfter(ops, hours, m).1 <= ViewAfter(ops, hours, n).1
  {
    var mid := ops[..n];
    RunProgress(mid, hours, m);
    assert mid[..m] == ops[..m];
  }

  ghost predicate Rising(ops: seq<Op>, points: seq<nat>) {
    forall j, k :: 0 <= j <= k < |points| ==> points[j] <= points[k] <= |ops|
  }

  ghost predicate AreViews(ops: seq<Op>, hours: nat, points: seq<nat>, views: seq<(nat, nat)>) {
    |views| == |points| && forall k :: 0 <= k < |points| ==> points[k] <= |ops| && views[k] == ViewAfter(ops, hours, points[k])
  }

  /** What the log holds at each point of the run. */
  function HeldAt(ops: seq<Op>, hours: nat, points: seq<nat>): seq<seq<Line>>
    requires forall k :: 0 <= k < |points| ==> points[k] <= |ops|
  {
    seq(|points|, k requires 0 <= k < |points| => Retained(Run(ops[..points[k]], hours)))
  }

  lemma ViewsOf(ops: seq<Op>, hours: nat, points: seq<nat>) returns (views: seq<(nat, nat)>)
    requires Rising(ops, points) && points != []
    ensures AreViews(ops, hours, points, views) && SeesUpTo(Written(ops, hours), views, views[0].1)
    ensures Shows(HeldAt(ops, hours, points), Written(ops, hours), views)
  {
    forall k | 0 <= k < |points|
      ensures 0 <= ViewAfter(ops, hours, points[k]).0 <= ViewAfter(ops, hours, points[k]).1 <= |Written(ops, hours)|
      ensures ViewAfter(ops, hours, points[0]).1 <= ViewAfter(ops, hours, points[k]).1
    {
      ViewIsRetained(ops, hours, points[k]);
      ViewsRise(ops, hours, points[0], points[k]);
    }
    views := seq(|points|, k requires 0 <= k < |points| => ViewAfter(ops, hours, points[k]));
    var held, w := HeldAt(ops, hours, points), Written(ops, hours);
    forall k | 0 <= k < |views| ensures held[k] == w[views[k].0..views[k].1] {
      ViewIsRetained(ops, hours, points[k]);
    }
  }

  /** The stretch from `q` to the newest line at the first page is what was walked, and a finished walk leaves nothing out. */
  ghost predicate Covers(ops: seq<Op>, hours: nat, points: seq<nat>, walked: Walked, q: nat)
    requires points != [] && Rising(ops, points)
  {
    var w, first := Written(ops, hours), |Written(ops[..points[0]], hours)|;
    && q <= first <= |w| && walked.lines == Back(w, q, first, None)
    && (walked.done ==> exists k :: 0 <= k < |points| && q <= Start(ops[..points[k]], hours))
  }

  /**
   Over any run of the log, with a page asked for at any points of it: what the pages
   return, newest first and each line once, is a gapless stretch of the lines written, up
   to the newest line at the first page; paging stops, and then nothing that was there at
   the first page and is still retained at the last has been left out.
   */
  lemma PagingOverARun(ops: seq<Op>, hours: nat, points: seq<nat>, limit: nat)
    requires Rising(ops, points) && points != [] && limit > 0 && Increasing(Written(ops, hours))
    ensures var walked := Walk(HeldAt(ops, hours, points), limit);
      && (exists q :: Covers(ops, hours, points, walked, q))
      && (|points| > |Written(ops[..points[0]], hours)| ==> walked.done)
  {
    var views := ViewsOf(ops, hours, points);
    var held := HeldAt(ops, hours, points);
    var q, last := PagingReturnsAllRetained(held, Written(ops, hours), views, limit);
    var walked := Walk(held, limit);
    assert views[0] == ViewAfter(ops, hours, points[0]);
    if walked.done { assert views[last] == ViewAfter(ops, hours, points[last]); }
    assert Covers(ops, hours, points, walked, q);
  }

  lemma {:induction false} BackMembers(w: seq<Line>, lo: nat, hi: nat, x: Line)
    requires hi <= |w|
    ensures x in Back(w, lo, hi, None) <==> x.num.Some? && exists k :: lo <= k < hi && w[k] == x
  {
    if lo < hi {
      BackMembers(w, lo, hi - 1, x);
      if x.num.Some? && x in Back(w, lo, hi - 1, None) {
        var k :| lo <= k < hi - 1 && w[k] == x;
      }
    }
  }

  lemma BelowLast(w: seq<Line>, lo: nat, hi: nat, x: Line)
    requires Increasing(w) && lo < hi <= |w| && x in Back(w, lo, hi - 1, None) && w[hi - 1].num.Some?
    ensures x.num.Some? && x.num.value < w[hi - 1].num.value
  {
    BackMembers(w, lo, hi - 1, x);
    var k :| lo <= k < hi - 1 && w[k] == x;
  }

  ghost predicate Descends(b: seq<Line>) {
    && (forall i :: 0 <= i < |b| ==> b[i].num.Some?)
    && (forall i, j :: 0 <= i < j < |b| ==> b[j].num.value < b[i].num.value)
  }

  lemma DescendsCons(x: Line, rest: seq<Line>)
    requires Descends(rest) && x.num.Some? && forall i :: 0 <= i < |rest| ==> rest[i].num.value < x.num.value
    ensures Descends([x] + rest)
  {
  }

  /** The reading order: strictly descending numbers, so no line comes twice. */
  lemma {:induction false} BackDescends(w: seq<Line>, lo: nat, hi: nat)
    requires Increasing(w) && hi <= |w|
    ensures Descends(Back(w, lo, hi, None))
  {
    if lo < hi {
      BackDescends(w, lo, hi - 1);
      var last, rest := w[hi - 1], Back(w, lo, hi - 1, None);
      if last.num.Some? {
        forall i | 0 <= i < |rest| ensures rest[i].num.value < last.num.value { BelowLast(w, lo, hi, rest[i]); }
        DescendsCons(last, rest);
      }
    }
  }
}

/** How long lines stay: a line is dropped only when it is a rotation period old. */
module RotatingLogAge {
  import opened Options
  import opened RotatingLogSpec

  const OK := Io(true, true, true)

  /** The lines a step drops: the old file's, when the current file is renamed over it. */
  function DroppedBy(g: Log, op: Op): seq<Line> {
    if op.Append? && Due(g, op.tsMs) && g.current.Some? && op.io.renameOk then Contents(g.rotated) else []
  }

  function Dropped(ops: seq<Op>, hours: nat): seq<Line> {
    if ops == [] then []
    else Dropped(ops[..|ops| - 1], hours) + DroppedBy(Run(ops[..|ops| - 1], hours), ops[|ops| - 1])
  }

  function Rotated(g: Log, op: Op): Log {
    if op.Append? && Due(g, op.tsMs) then Rotate(g, op.io.renameOk) else g
  }

  function Added(g: Log, op: Op): seq<Line> {
    if op.Append? && Lands(g, op.tsMs, op.io) then [op.line] else []
  }

  lemma RotationSplits(g: Log, op: Op)
    ensures DroppedBy(g, op) + Retained(Rotated(g, op)) == Retained(g)
  {
  }

  lemma StepAdds(g: Log, op: Op)
    ensures Retained(Step(g, op)) == Retained(Rotated(g, op)) + Added(g, op)
  {
  }

  lemma Regroup<T>(a: seq<T>, b: seq<T>, c: seq<T>, d: seq<T>)
    ensures (a + (b + c)) + d == (a + b) + (c + d)
  {
  }

  lemma StepConserves(g: Log, op: Op, w: seq<Line>, dropped: seq<Line>)
    requires w == dropped + Retained(g)
    ensures w + Added(g, op) == (dropped + DroppedBy(g, op)) + Retained(Step(g, op))
  {
    RotationSplits(g, op);
    StepAdds(g, op);
    Regroup(dropped, DroppedBy(g, op), Retained(Rotated(g, op)), Added(g, op));
  }

  /** Conservation, in every run: each line that reached the disk was dropped by a rotation or is still there. */
  lemma {:induction false} DroppedOrRetained(ops: seq<Op>, hours: nat)
    ensures Written(ops, hours) == Dropped(ops, hours) + Retained(Run(ops, hours))
  {
    if ops != [] {
      var before := ops[..|ops| - 1];
      DroppedOrRetained(before, hours);
      StepConserves(Run(before, hours), ops[|ops| - 1], Written(before, hours), Dropped(before, hours));
      assert Written(ops, hours) == Written(before, hours) + Added(Run(before, hours), ops[|ops| - 1]);
    }
  }

  /** Lines stamped with their times, in time order, every file operation succeeding, and rotation set within bounds. */
  ghost predicate TimelyOp(now: nat, least: nat, most: nat, op: Op) {
    match op
    case Append(tsMs, line, io) => now <= tsMs && line.tsMs == Some(tsMs) && io == OK
    case SetRotateHours(h) => least <= h <= most
    case Reopen(h) => least <= h <= most
  }

  ghost predicate Timely(ops: seq<Op>, least: nat, most: nat) {
    ops == [] || (Timely(ops[..|ops| - 1], least, most) && TimelyOp(Now(ops[..|ops| - 1]), least, most, ops[|ops| - 1]))
  }

  function NowStep(now: nat, op: Op): nat {
    if op.Append? then op.tsMs else now
  }

  /** The time of the last append. */
  function Now(ops: seq<Op>): nat {
    if ops == [] then 0 else NowStep(Now(ops[..|ops| - 1]), ops[|ops| - 1])
  }

  ghost predicate TimesIn(lines: seq<Line>, from: int, to: int) {
    forall i :: 0 <= i < |lines| ==> lines[i].tsMs.Some? && from <= lines[i].tsMs.value <= to
  }

  /**
   Dropped lines are at least the shortest period old; the current file spans less than
   the longest one, and the old file lies before it.
   */
  ghost predicate Aged(g: Log, dropped: seq<Line>, now: nat, short: nat, long: nat) {
    var current, rotated := Contents(g.current), Contents(g.rotated);
    && short <= g.rotateMs <= long && TimesIn(dropped, 0, now - short)
    && (current == [] ==> g.startedMs == None && rotated == [])
    && (current != [] ==> g.startedMs.Some? && g.startedMs == current[0].tsMs && g.startedMs.value <= now)
    && (current != [] ==> TimesIn(current, g.startedMs.value, now) && TimesIn(current, 0, g.startedMs.value + long - 1))
    && (current != [] ==> TimesIn(rotated, 0, g.startedMs.value))
  }

  lemma AppendInPeriod(g: Log, dropped: seq<Line>, now: nat, short: nat, long: nat, op: Op)
    requires Aged(g, dropped, now, short, long) && short > 0
    requires op.Append? && now <= op.tsMs && op.line.tsMs == Some(op.tsMs) && op.io == OK && !Due(g, op.tsMs)
    ensures Aged(Step(g, op), dropped, op.tsMs, short, long)
  {
    var g' := Step(g, op);
    assert Contents(g'.current) == Contents(g.current) + [op.line] && g'.rotated == g.rotated;
  }

  lemma AppendRotates(g: Log, dropped: seq<Line>, now: nat, short: nat, long: nat, op: Op)
    requires Aged(g, dropped, now, short, long) && short > 0
    requires op.Append? && now <= op.tsMs && op.line.tsMs == Some(op.tsMs) && op.io == OK && Due(g, op.tsMs)
    ensures Aged(Step(g, op), dropped + Contents(g.rotated), op.tsMs, short, long) && g.current.Some?
  {
    var g' := Step(g, op);
    assert Contents(g'.current) == [op.line] && g'.rotated == g.current;
  }

  lemma StepAged(g: Log, dropped: seq<Line>, now: nat, least: nat, most: nat, op: Op)
    requires Aged(g, dropped, now, HoursMs(least), HoursMs(most)) && least > 0 && TimelyOp(now, least, most, op)
    ensures Aged(Step(g, op), dropped + DroppedBy(g, op), NowStep(now, op), HoursMs(least), HoursMs(most))
  {
    if op.Append? && Due(g, op.tsMs) {
      AppendRotates(g, dropped, now, HoursMs(least), HoursMs(most), op);
    } else {
      assert dropped + [] == dropped;
      if op.Append? { AppendInPeriod(g, dropped, now, HoursMs(least), HoursMs(most), op); }
    }
  }

  /**
   A line stays for at least the rotation period, the shortest one if it is changed:
   whatever has been dropped is that much older than the newest line. And the files do not
   grow for ever: the lines of the current one lie within one period, the longest one if it
   is changed, and those of the old one before it.
   */
  lemma {:induction false} RecentLinesStay(ops: seq<Op>, hours: nat, least: nat, most: nat)
    requires Timely(ops, least, most) && 0 < least <= hours <= most
    ensures Aged(Run(ops, hours), Dropped(ops, hours), Now(ops), HoursMs(least), HoursMs(most))
  {
    if ops != [] {
      var before := ops[..|ops| - 1];
      RecentLinesStay(before, hours, least, most);
      StepAged(Run(before, hours), Dropped(before, hours), Now(before), least, most, ops[|ops| - 1]);
    }
  }
}

/** The log object and its readers. */
module RotatingLog {
  import opened Options
  import opened RotatingLogSpec

  class RotatingLog {
    var current: Option<seq<Line>>
    var rotated: Option<seq<Line>>
    var open: bool
    var startedMs: Option<nat>
    var rotateMs: nat

    ghost function Model(): Log
      reads this
    {
      Log(current, rotated, open, startedMs, rotateMs)
    }

    constructor Open(current: Option<seq<Line>>, rotated: Option<seq<Line>>, hours: nat)
      ensures Model() == RotatingLogSpec.Open(current, rotated, hours)
    {
      this.current, this.rotated, open := current, rotated, false;
      startedMs := if Contents(current) == [] then None else Contents(current)[0].tsMs;
      rotateMs := HoursMs(hours);
    }

    method SetRotateHours(hours: nat)
      modifies this
      ensures Model() == Step(old(Model()), RotatingLogSpec.SetRotateHours(hours))
    {
      rotateMs := HoursMs(hours);
    }

    method WriteLine(tsMs: nat, line: Line, io: Io)
      modifies this
      ensures Model() == RotatingLogSpec.WriteLine(old(Model()), tsMs, line, io)
    {
      if startedMs.Some? && (if tsMs >= startedMs.value then tsMs - startedMs.value else 0) >= rotateMs {
        open := false;
        if current.Some? && io.renameOk {
          rotated, current := current, None;
        }
        startedMs := None;
      }
      if !open {
        if !io.openOk {
          return;
        }
        current, open := Some(Contents(current)), true;
      }
      if startedMs.None? {
        startedMs := Some(tsMs);
      }
      if io.writeOk {
        current := Some(Contents(current) + [line]);
      } else {
        current, open := Some(Contents(current)), false;
      }
    }

    /** Reads the current file, then the rotated one, each back to front. */
    method Page(before: Option<nat>, limit: nat) returns (out: seq<Line>)
      ensures out == PageOf(Retained(Model()), before, limit)
    {
      if limit == 0 {
        return [];
      }
      ghost var newer, older := Contents(current), Contents(rotated);
      ghost var b := Back(newer, 0, |newer|, before);
      BackConcat(older, newer, before);
      TakeMore(b, Back(older, 0, |older|, before), limit);
      assert [] + b == b;
      out := Scan(Contents(current), before, limit, []);
      if |out| < limit {
        out := Scan(Contents(rotated), before, limit, out);
      }
    }

    /** The newest line that matches, or none. */
    method Find(pred: Line -> bool) returns (r: Option<Line>)
      ensures r == NewestMatch(Retained(Model()), pred)
    {
      r := FindBack(Contents(current), pred);
      NewestMatchSplit(Contents(rotated), Contents(current), pred);
      if r.None? {
        r := FindBack(Contents(rotated), pred);
      }
    }
  }

  lemma TakeMore(a: seq<Line>, b: seq<Line>, limit: nat)
    ensures |Take(a, limit)| >= limit ==> Take(a + b, limit) == Take(a, limit)
    ensures Take(Take(a, limit) + b, limit) == Take(a + b, limit)
  {
  }

  /** One file back to front, adding to `got` until the limit is reached. */
  method Scan(text: seq<Line>, before: Option<nat>, limit: nat, got: seq<Line>) returns (out: seq<Line>)
    requires |got| < limit
    ensures out == Take(got + Back(text, 0, |text|, before), limit)
  {
    out := got;
    var i := |text|;
    while i > 0
      invariant 0 <= i <= |text| && |out| < limit
      invariant out + Back(text, 0, i, before) == got + Back(text, 0, |text|, before)
    {
      i := i - 1;
      if Selected(text[i], before) {
        ghost var was := out;
        out := out + [text[i]];
        assert was + ([text[i]] + Back(text, 0, i, before)) == out + Back(text, 0, i, before);
        if |out| >= limit {
          return;
        }
      } else {
        assert [] + Back(text, 0, i, before) == Back(text, 0, i, before);
      }
    }
  }

  method FindBack(text: seq<Line>, pred: Line -> bool) returns (r: Option<Line>)
    ensures r == NewestMatch(text, pred)
  {
    var i := |text|;
    assert text[..i] == text;
    while i > 0
      invariant 0 <= i <= |text|
      invariant NewestMatch(text[..i], pred) == NewestMatch(text, pred)
    {
      i := i - 1;
      assert text[..i + 1][..i] == text[..i];
      if pred(text[i]) {
        return Some(text[i]);
      }
    }
    r := None;
  }
}
