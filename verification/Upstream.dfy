/**
 Upstream selection: the smoothed round-trip time of each server, weights drawn from it,
 the order in which servers are tried, and the attempt loop.
 */
module UpstreamSpec {
  import opened Options
  import opened Ordering

  // ----- the smoothed round-trip time

  /** 0 stands for "no sample yet"; a stored value is never 0. */
  function Smooth(prev: nat, sample: nat): (r: nat)
    ensures r >= 1
  {
    var n := if prev == 0 then sample else prev - prev / 8 + sample / 8;
    if n < 1 then 1 else n
  }

  predicate Between(v: nat, lo: nat, hi: nat) {
    lo <= v <= hi
  }

  function Floored(sample: nat): nat {
    if sample < 1 then 1 else sample
  }

  /** Integer smoothing never leaves the range of its inputs, so it cannot overflow either. */
  lemma SmoothStaysBetween(prev: nat, sample: nat, lo: nat, hi: nat)
    requires lo >= 1 && Between(Floored(sample), lo, hi) && (prev == 0 || Between(prev, lo, hi))
    ensures Between(Smooth(prev, sample), lo, hi)
  {
  }

  ghost function Gap(a: nat, b: nat): nat {
    if a < b then b - a else a - b
  }

  /** One sample moves the value towards it and never past it, until both lie in the same eighth-step. */
  lemma SmoothApproaches(prev: nat, sample: nat)
    requires prev >= 1
    ensures prev / 8 == sample / 8 ==> Smooth(prev, sample) == prev
    ensures prev / 8 > sample / 8 ==> Floored(sample) <= Smooth(prev, sample) < prev
    ensures prev / 8 < sample / 8 ==> prev < Smooth(prev, sample) <= sample
  {
  }

  function Steady(prev: nat, sample: nat, n: nat): nat
    decreases n
  {
    if n == 0 then prev else Steady(Smooth(prev, sample), sample, n - 1)
  }

  /** From the n-th sample on the value no longer moves, and it is within eight microseconds of the sample. */
  ghost predicate SettledFrom(prev: nat, sample: nat, n: nat) {
    Gap(Steady(prev, sample, n), sample) < 8 && forall m: nat :: m >= n ==> Steady(prev, sample, m) == Steady(prev, sample, n)
  }

  /** Whatever went before, a steady round-trip time settles the value next to it. */
  lemma {:induction false} SteadyConverges(prev: nat, sample: nat)
    requires prev >= 1
    ensures exists n: nat :: SettledFrom(prev, sample, n)
    decreases Gap(prev, sample)
  {
    SmoothApproaches(prev, sample);
    if prev / 8 == sample / 8 {
      forall m: nat ensures Steady(prev, sample, m) == prev { SteadyStays(prev, sample, m); }
      assert SettledFrom(prev, sample, 0);
    } else {
      var next := Smooth(prev, sample);
      SteadyConverges(next, sample);
      var k: nat :| SettledFrom(next, sample, k);
      forall m: nat | m >= k + 1 ensures Steady(prev, sample, m) == Steady(prev, sample, k + 1) {
        assert Steady(next, sample, m - 1) == Steady(next, sample, k);
      }
      assert SettledFrom(prev, sample, k + 1);
    }
  }

  lemma {:induction false} SteadyStays(prev: nat, sample: nat, m: nat)
    requires prev >= 1 && prev / 8 == sample / 8
    ensures Steady(prev, sample, m) == prev
  {
    SmoothApproaches(prev, sample);
    if m > 0 { SteadyStays(prev, sample, m - 1); }
  }

  /** Threads load the value, compute, and store; loads and stores of different threads may interleave. */
  datatype Racing = Racing(value: nat, loaded: map<nat, (nat, nat)>)

  datatype Event = Load(thread: nat, sample: nat) | Store(thread: nat) | Reset

  function Race(s: Racing, e: Event): Racing {
    match e
    case Load(t, sample) => Racing(s.value, s.loaded[t := (s.value, sample)])
    case Store(t) => if t in s.loaded then Racing(Smooth(s.loaded[t].0, s.loaded[t].1), s.loaded - {t}) else s
    case Reset => Racing(0, s.loaded)
  }

  function RaceAll(s: Racing, es: seq<Event>): Racing {
    if es == [] then s else Race(RaceAll(s, es[..|es| - 1]), es[|es| - 1])
  }

  ghost predicate Within(s: Racing, lo: nat, hi: nat) {
    && (s.value == 0 || Between(s.value, lo, hi))
    && (forall t :: t in s.loaded ==>
        (s.loaded[t].0 == 0 || Between(s.loaded[t].0, lo, hi)) && Between(Floored(s.loaded[t].1), lo, hi))
  }

  /**
   Under every interleaving, the value is the "no sample" mark or lies between the
   smallest and the largest sample (floored at 1), counting what was loaded before.
   */
  lemma {:induction false} RaceStaysWithin(s: Racing, es: seq<Event>, lo: nat, hi: nat)
    requires lo >= 1 && Within(s, lo, hi)
    requires forall i :: 0 <= i < |es| && es[i].Load? ==> Between(Floored(es[i].sample), lo, hi)
    ensures Within(RaceAll(s, es), lo, hi)
  {
    if es != [] {
      var before, e := RaceAll(s, es[..|es| - 1]), es[|es| - 1];
      RaceStaysWithin(s, es[..|es| - 1], lo, hi);
      if e.Store? && e.thread in before.loaded {
        SmoothStaysBetween(before.loaded[e.thread].0, before.loaded[e.thread].1, lo, hi);
      }
    }
  }

  /** Once set, the value goes back to the mark only through a reset. */
  lemma {:induction false} NeverBackToUnset(s: Racing, es: seq<Event>)
    requires s.value != 0 && forall i :: 0 <= i < |es| ==> !es[i].Reset?
    ensures RaceAll(s, es).value != 0
  {
    if es != [] { NeverBackToUnset(s, es[..|es| - 1]); }
  }

  /** A load that straddles a reset brings the old value back, out of range of the samples since. */
  lemma ResetCanBeUndone()
    ensures var s := RaceAll(Racing(800000, map[]), [Load(0, 8), Reset, Store(0)]); s.value == 700001
  {
    var s0 := Racing(800000, map[]);
    var s1, s2 := Race(s0, Load(0, 8)), Race(Race(s0, Load(0, 8)), Reset);
    assert [Load(0, 8), Reset, Store(0)][..2] == [Load(0, 8), Reset];
    assert [Load(0, 8), Reset][..1] == [Load(0, 8)] && [Load(0, 8)][..0] == [];
    assert RaceAll(s0, [Load(0, 8)]) == s1;
    assert RaceAll(s0, [Load(0, 8), Reset]) == s2;
    assert s2.loaded[0] == (800000, 8);
  }

  /** Samples of continued traffic that lie in a range. */
  ghost predicate SamplesIn(es: seq<Event>, lo: nat, hi: nat) {
    forall i :: 0 <= i < |es| && es[i].Load? ==> Between(Floored(es[i].sample), lo, hi)
  }

  ghost predicate UnsetOrIn(v: nat, lo: nat, hi: nat) {
    v == 0 || Between(v, lo, hi)
  }

  /** What every thread that has loaded and not stored yet is about to store lies in the range. */
  ghost predicate PendingIn(s: Racing, lo: nat, hi: nat) {
    forall t :: t in s.loaded ==> Between(Smooth(s.loaded[t].0, s.loaded[t].1), lo, hi)
  }

  lemma {:induction false} PendingStaysIn(s: Racing, es: seq<Event>, lo: nat, hi: nat)
    requires lo >= 1 && UnsetOrIn(s.value, lo, hi) && PendingIn(s, lo, hi) && SamplesIn(es, lo, hi)
    ensures UnsetOrIn(RaceAll(s, es).value, lo, hi) && PendingIn(RaceAll(s, es), lo, hi)
  {
    if es != [] {
      var before, e := RaceAll(s, es[..|es| - 1]), es[|es| - 1];
      PendingStaysIn(s, es[..|es| - 1], lo, hi);
      if e.Load? { SmoothStaysBetween(before.value, e.sample, lo, hi); }
    }
  }

  ghost predicate StaysIn(s: Racing, lo: nat, hi: nat) {
    forall es :: SamplesIn(es, lo, hi) ==> UnsetOrIn(RaceAll(s, es).value, lo, hi)
  }

  /**
   A reset is final, for traffic with samples in a range, if and only if every thread that
   has loaded the value before it is about to store something in that range.
   */
  lemma ResetIsFinalIff(s: Racing, lo: nat, hi: nat)
    requires lo >= 1 && s.value == 0
    ensures StaysIn(s, lo, hi) <==> PendingIn(s, lo, hi)
  {
    if PendingIn(s, lo, hi) {
      forall es | SamplesIn(es, lo, hi) ensures UnsetOrIn(RaceAll(s, es).value, lo, hi) {
        PendingStaysIn(s, es, lo, hi);
      }
    } else {
      var t :| t in s.loaded && !Between(Smooth(s.loaded[t].0, s.loaded[t].1), lo, hi);
      var es := [Store(t)];
      assert es[..0] == [] && RaceAll(s, []) == s;
      assert RaceAll(s, es).value == Smooth(s.loaded[t].0, s.loaded[t].1);
      assert SamplesIn(es, lo, hi);
    }
  }

  // ----- weights

  function Millis(us: nat): nat {
    if us < 1000 then 1 else us / 1000
  }

  function Weight(us: nat): nat {
    if us == 0 then 10000
    else
      var w := 10000 / Millis(us);
      if w < 1 then 1 else w
  }

  lemma QuotientAntitone(n: nat, a: nat, b: nat)
    requires 1 <= a <= b
    ensures 0 <= n / b <= n / a <= n
  {
    var q, p := n / b, n / a;
    assert q * b <= n < (p + 1) * a by {
      assert n == q * b + n % b;
      assert n == p * a + n % a;
    }
    if q > p {
      MulMono(p + 1, q, a);
      MulMono2(q, a, b);
    }
    if p > n {
      MulMono2(p, 1, a);
    }
  }

  lemma MulMono(x: nat, y: nat, k: nat)
    requires x <= y
    ensures x * k <= y * k
  {
  }

  lemma MulMono2(k: nat, x: nat, y: nat)
    requires x <= y
    ensures k * x <= k * y
  {
  }

  lemma WeightInRange(us: nat)
    ensures 1 <= Weight(us) <= 10000
  {
    if us != 0 { QuotientAntitone(10000, 1, Millis(us)); }
  }

  /** A weight is the server's share of ten thousand, by the millisecond and rounded down, but at least 1. */
  lemma WeightIsShare(us: nat)
    requires us != 0
    ensures Weight(us) == 1 || Weight(us) * Millis(us) <= 10000
    ensures 10000 < (Weight(us) + 1) * Millis(us)
  {
    var ms := Millis(us);
    var w := 10000 / ms;
    assert 10000 == w * ms + 10000 % ms;
    assert (w + 1) * ms == w * ms + ms;
    if w < 1 { assert w == 0; }
  }

  /** A slower server never weighs more; a server without samples weighs most. */
  lemma WeightAntitone(us: nat, slower: nat)
    requires us <= slower
    ensures Weight(slower) <= Weight(us)
  {
    WeightInRange(slower);
    if us != 0 {
      assert Millis(us) <= Millis(slower);
      QuotientAntitone(10000, Millis(us), Millis(slower));
    }
  }

  // ----- the weighted pick

  /** The sum of the first `n` weights. */
  function Prefix(ws: seq<nat>, n: nat): nat
    requires n <= |ws|
  {
    if n == 0 then 0 else Prefix(ws, n - 1) + ws[n - 1]
  }

  lemma {:induction false} PrefixMono(ws: seq<nat>, a: nat, b: nat)
    requires a <= b <= |ws|
    ensures Prefix(ws, a) <= Prefix(ws, b)
  {
    if a < b { PrefixMono(ws, a, b - 1); }
  }

  ghost predicate Picks(ws: seq<nat>, point: nat, i: nat) {
    i < |ws| && Prefix(ws, i) <= point < Prefix(ws, i + 1)
  }

  lemma PickUnique(ws: seq<nat>, point: nat, i: nat, j: nat)
    requires Picks(ws, point, i) && Picks(ws, point, j)
    ensures i == j
  {
    if i < j { PrefixMono(ws, i + 1, j); }
    if j < i { PrefixMono(ws, j + 1, i); }
  }

  /** The loop of the weighted pick; it always returns from inside, never from after the loop. */
  method PickWeighted(ws: seq<nat>, r: nat) returns (i: nat)
    ensures Prefix(ws, |ws|) == 0 ==> i == 0
    ensures Prefix(ws, |ws|) > 0 ==> Picks(ws, r % Prefix(ws, |ws|), i)
    ensures Prefix(ws, |ws|) > 0 ==> forall j: nat :: Picks(ws, r % Prefix(ws, |ws|), j) ==> j == i
  {
    var total := 0;
    for k := 0 to |ws|
      invariant total == Prefix(ws, k)
    {
      total := total + ws[k];
    }
    if total == 0 {
      return 0;
    }
    var point := r % total;
    i := 0;
    while i < |ws|
      invariant 0 <= i <= |ws|
      invariant Prefix(ws, i) <= r % total && point == r % total - Prefix(ws, i)
    {
      if point < ws[i] {
        forall j: nat | Picks(ws, r % total, j) ensures j == i { PickUnique(ws, r % total, i, j); }
        return;
      }
      point := point - ws[i];
      i := i + 1;
    }
    assert false;
  }

  predicate From(p: nat, a: nat) {
    a <= p
  }

  function Interval(a: nat, b: nat): set<nat> {
    set p | 0 <= p < b && From(p, a)
  }

  lemma {:induction false} IntervalSize(a: nat, b: nat)
    requires a <= b
    ensures |Interval(a, b)| == b - a
  {
    if a < b {
      IntervalSize(a, b - 1);
      assert Interval(a, b) == Interval(a, b - 1) + {b - 1};
    }
  }

  /** Of all residues, exactly `ws[i]` pick server `i`. */
  lemma ShareOfPicks(ws: seq<nat>, i: nat)
    requires i < |ws|
    ensures var mine := set p | 0 <= p < Prefix(ws, |ws|) && Picks(ws, p, i); |mine| == ws[i]
  {
    PrefixMono(ws, i + 1, |ws|);
    IntervalSize(Prefix(ws, i), Prefix(ws, i + 1));
    assert (set p | 0 <= p < Prefix(ws, |ws|) && Picks(ws, p, i)) == Interval(Prefix(ws, i), Prefix(ws, i + 1));
  }

  // ----- who may be asked, and in which order

  /** The indices of the enabled servers, ascending. */
  function Active(enabled: seq<bool>): seq<nat> {
    if enabled == [] then []
    else
      var n := |enabled| - 1;
      Active(enabled[..n]) + if enabled[n] then [n] else []
  }

  ghost predicate Ascending(s: seq<nat>, below: nat) {
    s == [] || (Ascending(s[..|s| - 1], s[|s| - 1]) && s[|s| - 1] < below)
  }

  lemma {:induction false} ActiveAscends(enabled: seq<bool>)
    ensures Ascending(Active(enabled), |enabled|)
  {
    if enabled != [] {
      var n := |enabled| - 1;
      var init := Active(enabled[..n]);
      ActiveAscends(enabled[..n]);
      if enabled[n] {
        assert (init + [n])[..|init|] == init;
      } else {
        assert init + [] == init;
        AscendingBelow(init, n, n + 1);
      }
    }
  }

  lemma {:induction false} ActiveMember(enabled: seq<bool>, i: nat)
    ensures i in Active(enabled) <==> i < |enabled| && enabled[i]
  {
    if enabled != [] {
      var n := |enabled| - 1;
      ActiveMember(enabled[..n], i);
      assert i in Active(enabled) <==> i in Active(enabled[..n]) || (enabled[n] && i == n);
    }
  }

  lemma {:induction false} AscendingBelow(s: seq<nat>, a: nat, b: nat)
    requires Ascending(s, a) && a <= b
    ensures Ascending(s, b)
  {
  }

  lemma {:induction false} AscendingBounds(s: seq<nat>, below: nat, x: nat)
    requires Ascending(s, below) && x in s
    ensures x < below && multiset(s)[x] == 1
  {
    var init, last := s[..|s| - 1], s[|s| - 1];
    assert s == init + [last];
    if x == last {
      if x in init { AscendingBounds(init, last, x); }
    } else {
      AscendingBounds(init, last, x);
    }
  }

  function Position(s: seq<nat>, x: nat): (i: nat)
    ensures x in s ==> i < |s| && s[i] == x
    ensures x !in s ==> i == 0
  {
    if s == [] then 0
    else if s[0] == x then 0
    else if x in s[1..] then 1 + Position(s[1..], x)
    else 0
  }

  /** Failover starts at the preferred server, if it may be asked, and goes round. */
  function FailoverOrder(active: seq<nat>, preferred: nat): seq<nat> {
    if active == [] then [] else GoRound(active, Position(active, preferred))
  }

  function GoRound(active: seq<nat>, start: nat): seq<nat>
    requires active != []
  {
    seq(|active|, k requires 0 <= k < |active| => active[(start + k) % |active|])
  }

  lemma WrapOnce(a: nat, n: nat)
    requires n > 0 && a < 2 * n
    ensures a % n == if a < n then a else a - n
  {
    if a >= n {
      assert (a - n) / n == 0;
      ModMinus(a, n);
    }
  }

  lemma ModMinus(a: nat, n: nat)
    requires 0 < n <= a
    ensures a % n == (a - n) % n
  {
    var q, r := (a - n) / n, (a - n) % n;
    assert a == (q + 1) * n + r by { assert (q + 1) * n == q * n + n; }
    Unique(a, n, q + 1, r);
  }

  lemma Unique(a: nat, n: nat, q: nat, r: nat)
    requires n > 0 && a == q * n + r && r < n
    ensures a % n == r
  {
    var q', r' := a / n, a % n;
    assert a == q' * n + r';
    if q < q' { MulMono(q + 1, q', n); }
    if q' < q { MulMono(q' + 1, q, n); }
  }

  lemma GoRoundIsRotation(active: seq<nat>, start: nat)
    requires start < |active|
    ensures GoRound(active, start) == active[start..] + active[..start]
  {
    var rotated := active[start..] + active[..start];
    forall k | 0 <= k < |active| ensures GoRound(active, start)[k] == rotated[k] {
      WrapOnce(start + k, |active|);
    }
  }

  /** Failover order is a rotation of the enabled servers: a permutation that starts at the preferred one. */
  lemma FailoverIsRotation(active: seq<nat>, preferred: nat)
    requires active != []
    ensures var order, start := FailoverOrder(active, preferred), Position(active, preferred);
      && start < |active| && order == active[start..] + active[..start]
      && multiset(order) == multiset(active)
      && (preferred in active ==> order[0] == preferred)
  {
    var start := Position(active, preferred);
    GoRoundIsRotation(active, start);
    assert active == active[..start] + active[start..];
  }

  function Others(s: seq<nat>, picked: nat): seq<nat> {
    if s == [] then []
    else
      var init, last := s[..|s| - 1], s[|s| - 1];
      Others(init, picked) + if last == picked then [] else [last]
  }

  /** Load balancing asks the picked server first and the rest by round-trip time. */
  function LoadBalancedOrder(active: seq<nat>, picked: nat, rtt: seq<nat>): seq<nat> {
    [picked] + Others(SortBy((i: nat, j: nat) => Key(rtt, i) <= Key(rtt, j), active), picked)
  }

  function Key(rtt: seq<nat>, i: nat): nat {
    if i < |rtt| then rtt[i] else 0
  }

  lemma {:induction false} OthersLeave(s: seq<nat>, picked: nat)
    requires multiset(s)[picked] <= 1
    ensures multiset(Others(s, picked)) == multiset(s) - multiset{picked}
  {
    if s != [] {
      var init, last := s[..|s| - 1], s[|s| - 1];
      assert s == init + [last];
      OthersLeave(init, picked);
    }
  }

  lemma {:induction false} OthersIn(s: seq<nat>, picked: nat, x: nat)
    requires x in Others(s, picked)
    ensures x in s
  {
    var init, last := s[..|s| - 1], s[|s| - 1];
    if x != last || last == picked { OthersIn(init, picked, x); }
  }

  lemma {:induction false} OthersSorted(s: seq<nat>, picked: nat, leq: (nat, nat) -> bool)
    requires Sorted(leq, s)
    ensures Sorted(leq, Others(s, picked))
  {
    if s != [] {
      var init, last := s[..|s| - 1], s[|s| - 1];
      OthersSorted(init, picked, leq);
      var rest := Others(init, picked);
      forall i | 0 <= i < |rest| ensures leq(rest[i], last) {
        OthersIn(init, picked, rest[i]);
        var k :| 0 <= k < |init| && init[k] == rest[i];
        assert s[k] == rest[i];
      }
    }
  }

  lemma BackInFront(s: seq<nat>, picked: nat, rest: seq<nat>)
    requires picked in s && multiset(rest) == multiset(s) - multiset{picked}
    ensures multiset([picked] + rest) == multiset(s)
  {
    assert picked in multiset(s);
  }

  /** Load-balanced order: a permutation of the enabled servers, the pick first, the rest by rising round-trip time. */
  lemma LoadBalancedIsPermutation(active: seq<nat>, below: nat, picked: nat, rtt: seq<nat>)
    requires Ascending(active, below) && picked in active
    ensures var order := LoadBalancedOrder(active, picked, rtt);
      && multiset(order) == multiset(active)
      && order[0] == picked
      && (forall i, j :: 1 <= i < j < |order| ==> Key(rtt, order[i]) <= Key(rtt, order[j]))
  {
    var leq := (i: nat, j: nat) => Key(rtt, i) <= Key(rtt, j);
    var sorted := SortBy(leq, active);
    var rest, order := Others(sorted, picked), LoadBalancedOrder(active, picked, rtt);
    assert order == [picked] + rest;
    assert multiset(order) == multiset(active) by {
      AscendingBounds(active, below, picked);
      OthersLeave(sorted, picked);
      BackInFront(active, picked, rest);
    }
    assert Sorted(leq, rest) by {
      SortBySorted(leq, active);
      OthersSorted(sorted, picked, leq);
    }
    forall i, j | 1 <= i < j < |order| ensures Key(rtt, order[i]) <= Key(rtt, order[j]) {
      assert leq(rest[i - 1], rest[j - 1]);
    }
  }

  // ----- trying servers one after another

  datatype Stats = Stats(queries: nat, failures: nat, rttUs: nat)

  /** How one attempt ends; only an answer with the query's own id counts. */
  datatype Outcome = Answered(rttUs: nat) | WrongId | Failed | TimedOut

  function Recorded(st: Stats, sample: nat, failed: bool): Stats {
    Stats(st.queries + 1, st.failures + (if failed then 1 else 0), Smooth(st.rttUs, sample))
  }

  /** A failed attempt counts as twice the timeout. */
  function PenaltyUs(timeoutMs: nat): nat {
    2 * (if timeoutMs < 100 then 100 else timeoutMs) * 1000
  }

  /** The position of the first server that answers, or the length when none does. */
  function FirstAnswer(order: seq<nat>, outcomes: seq<Outcome>): (n: nat)
    requires forall i :: 0 <= i < |order| ==> order[i] < |outcomes|
    ensures n <= |order|
    ensures forall i :: 0 <= i < n ==> !outcomes[order[i]].Answered?
    ensures n < |order| ==> outcomes[order[n]].Answered?
  {
    if order == [] then 0
    else if outcomes[order[0]].Answered? then 0
    else
      assert forall i :: 0 <= i < |order[1..]| ==> order[1..][i] == order[i + 1];
      1 + FirstAnswer(order[1..], outcomes)
  }

  /** The statistics after the first `n` servers of the order failed. */
  function AfterFailures(stats: seq<Stats>, order: seq<nat>, n: nat, penalty: nat): (r: seq<Stats>)
    requires n <= |order| && forall i :: 0 <= i < |order| ==> order[i] < |stats|
    ensures |r| == |stats|
  {
    if n == 0 then stats
    else
      var s := AfterFailures(stats, order, n - 1, penalty);
      s[order[n - 1] := Recorded(s[order[n - 1]], penalty, true)]
  }

  function AfterAttempts(stats: seq<Stats>, order: seq<nat>, outcomes: seq<Outcome>, penalty: nat): (r: seq<Stats>)
    requires |outcomes| == |stats| && forall i :: 0 <= i < |order| ==> order[i] < |stats|
    ensures |r| == |stats|
  {
    var n := FirstAnswer(order, outcomes);
    var s := AfterFailures(stats, order, n, penalty);
    if n == |order| then s else s[order[n] := Recorded(s[order[n]], outcomes[order[n]].rttUs, false)]
  }

  function SumQueries(stats: seq<Stats>): nat {
    if stats == [] then 0 else SumQueries(stats[..|stats| - 1]) + stats[|stats| - 1].queries
  }

  function SumFailures(stats: seq<Stats>): nat {
    if stats == [] then 0 else SumFailures(stats[..|stats| - 1]) + stats[|stats| - 1].failures
  }

  lemma {:induction false} SumsAfterOne(stats: seq<Stats>, i: nat, sample: nat, failed: bool)
    requires i < |stats|
    ensures var after := stats[i := Recorded(stats[i], sample, failed)];
      && SumQueries(after) == SumQueries(stats) + 1
      && SumFailures(after) == SumFailures(stats) + if failed then 1 else 0
  {
    var after, n := stats[i := Recorded(stats[i], sample, failed)], |stats| - 1;
    if i == n {
      assert after[..n] == stats[..n];
    } else {
      SumsAfterOne(stats[..n], i, sample, failed);
      assert after[..n] == stats[..n][i := Recorded(stats[i], sample, failed)];
    }
  }

  lemma {:induction false} SumsAfterFailures(stats: seq<Stats>, order: seq<nat>, n: nat, penalty: nat)
    requires n <= |order| && forall i :: 0 <= i < |order| ==> order[i] < |stats|
    ensures SumQueries(AfterFailures(stats, order, n, penalty)) == SumQueries(stats) + n
    ensures SumFailures(AfterFailures(stats, order, n, penalty)) == SumFailures(stats) + n
  {
    if n > 0 {
      SumsAfterFailures(stats, order, n - 1, penalty);
      SumsAfterOne(AfterFailures(stats, order, n - 1, penalty), order[n - 1], penalty, true);
    }
  }

  /** Conservation: one query per attempt, one failure per attempt that failed. */
  lemma AttemptsAreCounted(stats: seq<Stats>, order: seq<nat>, outcomes: seq<Outcome>, penalty: nat)
    requires |outcomes| == |stats| && forall i :: 0 <= i < |order| ==> order[i] < |stats|
    ensures var n, after := FirstAnswer(order, outcomes), AfterAttempts(stats, order, outcomes, penalty);
      && SumFailures(after) == SumFailures(stats) + n
      && SumQueries(after) == SumQueries(stats) + n + if n < |order| then 1 else 0
  {
    var n := FirstAnswer(order, outcomes);
    SumsAfterFailures(stats, order, n, penalty);
    if n < |order| {
      SumsAfterOne(AfterFailures(stats, order, n, penalty), order[n], outcomes[order[n]].rttUs, false);
    }
  }

  ghost predicate OnceEach(order: seq<nat>) {
    forall i, j :: 0 <= i < j < |order| ==> order[i] != order[j]
  }

  lemma {:induction false} FailuresPerServer(stats: seq<Stats>, order: seq<nat>, n: nat, penalty: nat, j: nat)
    requires n <= |order| && (forall i :: 0 <= i < |order| ==> order[i] < |stats|) && j < |stats|
    requires OnceEach(order)
    ensures AfterFailures(stats, order, n, penalty)[j]
         == if j in order[..n] then Recorded(stats[j], penalty, true) else stats[j]
  {
    if n > 0 {
      FailuresPerServer(stats, order, n - 1, penalty, j);
      assert order[..n] == order[..n - 1] + [order[n - 1]];
    }
  }

  /** What one resolution does to each server: a failure, the answer, or nothing, and never twice. */
  lemma AttemptsPerServer(stats: seq<Stats>, order: seq<nat>, outcomes: seq<Outcome>, penalty: nat, j: nat)
    requires |outcomes| == |stats| && (forall i :: 0 <= i < |order| ==> order[i] < |stats|) && j < |stats|
    requires OnceEach(order)
    ensures var n := FirstAnswer(order, outcomes);
      AfterAttempts(stats, order, outcomes, penalty)[j] ==
        if n < |order| && j == order[n] then Recorded(stats[j], outcomes[j].rttUs, false)
        else if j in order[..n] then Recorded(stats[j], penalty, true)
        else stats[j]
  {
    var n := FirstAnswer(order, outcomes);
    FailuresPerServer(stats, order, n, penalty, j);
  }

  /** An order that permutes the enabled servers asks each of them once and no parked one. */
  lemma {:induction false} PermutationAsksEachOnce(enabled: seq<bool>, order: seq<nat>)
    requires multiset(order) == multiset(Active(enabled))
    ensures OnceEach(order)
    ensures forall j :: j in order <==> 0 <= j < |enabled| && enabled[j]
  {
    ActiveAscends(enabled);
    forall j ensures j in order <==> 0 <= j < |enabled| && enabled[j] {
      if 0 <= j { ActiveMember(enabled, j); }
      assert j in order <==> j in multiset(order);
      assert j in Active(enabled) <==> j in multiset(Active(enabled));
    }
    forall i, j | 0 <= i < j < |order| ensures order[i] != order[j] {
      assert order[i] in multiset(order);
      AscendingBounds(Active(enabled), |enabled|, order[i]);
      CountPair(order, i, j);
    }
  }

  lemma CountPair(s: seq<nat>, i: nat, j: nat)
    requires i < j < |s| && multiset(s)[s[i]] == 1
    ensures s[i] != s[j]
  {
    assert s == s[..j] + s[j..];
    assert s[i] in s[..j] && s[j] in s[j..];
  }

  /** A resolution fails only after every enabled server has failed. */
  lemma FailsOnlyWhenAllFail(enabled: seq<bool>, order: seq<nat>, outcomes: seq<Outcome>)
    requires |outcomes| == |enabled| && multiset(order) == multiset(Active(enabled))
    requires forall i :: 0 <= i < |order| ==> order[i] < |outcomes|
    ensures FirstAnswer(order, outcomes) == |order| <==>
      forall j :: 0 <= j < |enabled| && enabled[j] ==> !outcomes[j].Answered?
  {
    PermutationAsksEachOnce(enabled, order);
    var n := FirstAnswer(order, outcomes);
    if n == |order| {
      forall j | 0 <= j < |enabled| && enabled[j] ensures !outcomes[j].Answered? {
        var i :| 0 <= i < |order| && order[i] == j;
      }
    } else {
      assert order[n] in order;
    }
  }
}

/** The resolver: per-server statistics and the preferred server, updated in place. */
module Upstream {
  import opened Options
  import opened Ordering
  import opened UpstreamSpec

  datatype Mode = Failover | LoadBalance

  class Resolver {
    const enabled: seq<bool>
    const mode: Mode
    const timeoutMs: nat
    var stats: seq<Stats>
    var preferred: nat

    ghost predicate Valid()
      reads this
    {
      |stats| == |enabled|
    }

    constructor (enabled: seq<bool>, mode: Mode, timeoutMs: nat)
      ensures Valid() && preferred == 0 && this.enabled == enabled && this.mode == mode && this.timeoutMs == timeoutMs
      ensures forall i :: 0 <= i < |stats| ==> stats[i] == Stats(0, 0, 0)
    {
      this.enabled, this.mode, this.timeoutMs := enabled, mode, timeoutMs;
      stats, preferred := seq(|enabled|, _ => Stats(0, 0, 0)), 0;
    }

    method ResolveSequential(order: seq<nat>, outcomes: seq<Outcome>) returns (r: Option<nat>)
      requires Valid() && |outcomes| == |stats| && forall i :: 0 <= i < |order| ==> order[i] < |stats|
      modifies this`stats, this`preferred
      ensures Valid()
      ensures stats == AfterAttempts(old(stats), order, outcomes, PenaltyUs(timeoutMs))
      ensures var n := FirstAnswer(order, outcomes);
        && r == (if n < |order| then Some(order[n]) else None)
        && preferred == (if n < |order| then order[n] else old(preferred))
    {
      ghost var n, penalty := FirstAnswer(order, outcomes), PenaltyUs(timeoutMs);
      for i := 0 to |order|
        invariant i <= n && preferred == old(preferred) && |stats| == |outcomes|
        invariant stats == AfterFailures(old(stats), order, i, penalty)
      {
        var idx := order[i];
        if outcomes[idx].Answered? {
          stats := stats[idx := Recorded(stats[idx], outcomes[idx].rttUs, false)];
          preferred := idx;
          return Some(idx);
        }
        stats := stats[idx := Recorded(stats[idx], PenaltyUs(timeoutMs), true)];
      }
      r := None;
    }

    /** The order in which this resolution asks the enabled servers; `r` is the random draw. */
    method Order(r: nat) returns (order: seq<nat>)
      requires Valid()
      ensures multiset(order) == multiset(Active(enabled))
      ensures mode.Failover? || |Active(enabled)| <= 1 ==> order == FailoverOrder(Active(enabled), preferred)
      ensures mode.LoadBalance? && |Active(enabled)| > 1 ==> Balanced(order, Active(enabled), stats, r)
    {
      var active := Active(enabled);
      if active == [] {
        return [];
      }
      if mode.Failover? || |active| <= 1 {
        FailoverIsRotation(active, preferred);
        order := FailoverOrder(active, preferred);
      } else {
        var ws := Weights(active, stats);
        WeightsPositive(active, stats, |ws|);
        var k := PickWeighted(ws, r);
        ActiveAscends(enabled);
        LoadBalancedIsPermutation(active, |enabled|, active[k], Rtts(stats));
        order := LoadBalancedOrder(active, active[k], Rtts(stats));
      }
    }

    /** `None` when no server is enabled or every enabled one failed; `order` is the order of asking. */
    method Resolve(r: nat, outcomes: seq<Outcome>) returns (server: Option<nat>, ghost order: seq<nat>)
      requires Valid() && |outcomes| == |enabled|
      modifies this`stats, this`preferred
      ensures Valid() && multiset(order) == multiset(Active(enabled)) && InRange(order, |outcomes|)
      ensures mode.Failover? || |Active(enabled)| <= 1 ==> order == FailoverOrder(Active(enabled), old(preferred))
      ensures mode.LoadBalance? && |Active(enabled)| > 1 ==> Balanced(order, Active(enabled), old(stats), r)
      ensures stats == AfterAttempts(old(stats), order, outcomes, PenaltyUs(timeoutMs))
      ensures var n := FirstAnswer(order, outcomes); server == if n < |order| then Some(order[n]) else None
      ensures server.Some? ==> server.value < |enabled| && enabled[server.value] && outcomes[server.value].Answered?
      ensures server.None? <==> NoneAnswers(enabled, outcomes)
      ensures Spared(enabled, old(stats), stats)
      ensures preferred == if server.Some? then server.value else old(preferred)
    {
      var asked := Order(r);
      order := asked;
      Resolution(enabled, stats, order, outcomes, PenaltyUs(timeoutMs));
      server := ResolveSequential(asked, outcomes);
    }
  }

  /** What holds of every order that permutes the enabled servers. */
  lemma Resolution(enabled: seq<bool>, stats: seq<Stats>, order: seq<nat>, outcomes: seq<Outcome>, penalty: nat)
    requires |outcomes| == |enabled| == |stats| && multiset(order) == multiset(Active(enabled))
    ensures forall i :: 0 <= i < |order| ==> order[i] < |stats| && enabled[order[i]]
    ensures FirstAnswer(order, outcomes) == |order| <==> NoneAnswers(enabled, outcomes)
    ensures Spared(enabled, stats, AfterAttempts(stats, order, outcomes, penalty))
  {
    PermutationAsksEachOnce(enabled, order);
    assert forall i :: 0 <= i < |order| ==> order[i] in order;
    FailsOnlyWhenAllFail(enabled, order, outcomes);
    forall j | 0 <= j < |enabled|
      ensures !enabled[j] ==> AfterAttempts(stats, order, outcomes, penalty)[j] == stats[j]
      ensures AfterAttempts(stats, order, outcomes, penalty)[j].queries <= stats[j].queries + 1
    {
      AttemptsPerServer(stats, order, outcomes, penalty, j);
    }
  }

  ghost predicate NoneAnswers(enabled: seq<bool>, outcomes: seq<Outcome>)
    requires |outcomes| == |enabled|
  {
    forall j :: 0 <= j < |enabled| && enabled[j] ==> !outcomes[j].Answered?
  }

  ghost predicate InRange(order: seq<nat>, n: nat) {
    forall i :: 0 <= i < |order| ==> order[i] < n
  }

  /** Parked servers are left alone and no server is asked twice. */
  ghost predicate Spared(enabled: seq<bool>, before: seq<Stats>, after: seq<Stats>) {
    && |before| == |after| == |enabled|
    && (forall j :: 0 <= j < |enabled| && !enabled[j] ==> after[j] == before[j])
    && (forall j :: 0 <= j < |enabled| ==> after[j].queries <= before[j].queries + 1)
  }

  /** The order the weighted pick leads to. */
  ghost predicate Balanced(order: seq<nat>, active: seq<nat>, stats: seq<Stats>, r: nat) {
    var ws := Weights(active, stats);
    Prefix(ws, |ws|) > 0 &&
    exists k: nat :: k < |active| && Picks(ws, r % Prefix(ws, |ws|), k) && order == LoadBalancedOrder(active, active[k], Rtts(stats))
  }

  function Rtts(stats: seq<Stats>): seq<nat> {
    seq(|stats|, i requires 0 <= i < |stats| => stats[i].rttUs)
  }

  function Weights(active: seq<nat>, stats: seq<Stats>): seq<nat> {
    seq(|active|, i requires 0 <= i < |active| => Weight(Key(Rtts(stats), active[i])))
  }

  lemma {:induction false} WeightsPositive(active: seq<nat>, stats: seq<Stats>, n: nat)
    requires n <= |active|
    ensures Prefix(Weights(active, stats), n) >= n
  {
    if n > 0 {
      WeightsPositive(active, stats, n - 1);
      WeightInRange(Key(Rtts(stats), active[n - 1]));
    }
  }
}
