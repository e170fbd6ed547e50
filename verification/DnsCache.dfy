/**
 The DNS answer cache: a bounded, least-recently-used map with TTL clamping on the way
 in and TTL ageing on the way out. Times are nanoseconds of one steady clock. The
 reference it is compared with is a plain unbounded map of the latest accepted answers.
 */
module DnsCacheSpec {
  import opened Options

  datatype Key = Key(name: string, qtype: nat, qclass: nat)

  datatype Record = Record(ttl: nat, rdata: string)

  datatype ResponseCode = NoError | NXDomain | ServFail | Other(code: nat)

  datatype Message = Message(
    truncated: bool,
    code: ResponseCode,
    answers: seq<Record>,
    authorities: seq<Record>,
    additionals: seq<Record>)

  datatype Entry = Entry(response: Message, stored: nat, expires: nat)

  /** A live cache: capacity and entries, most recently used first. */
  datatype Lru = Lru(cap: nat, items: seq<(Key, Entry)>)

  datatype State = State(lru: Option<Lru>, minTtl: nat, maxTtl: nat, hits: nat, misses: nat)

  function Nanos(secs: nat): nat {
    secs * 1000000000
  }

  function WholeSecs(nanos: nat): nat {
    nanos / 1000000000
  }

  const EMPTY_RESPONSE_TTL: nat := 30

  /** TTLs are 32-bit numbers. */
  predicate Wide(n: nat) {
    n < 0x1_0000_0000
  }

  // ----- storing

  predicate Cacheable(m: Message) {
    !m.truncated && (m.code == NoError || m.code == NXDomain)
  }

  /** A bound of 0 leaves the record's own TTL alone. */
  function Clamp(ttl: nat, minTtl: nat, maxTtl: nat): nat {
    var t := if minTtl > 0 && ttl < minTtl then minTtl else ttl;
    if maxTtl > 0 && t > maxTtl then maxTtl else t
  }

  function Clamped(rs: seq<Record>, minTtl: nat, maxTtl: nat): seq<Record> {
    seq(|rs|, i requires 0 <= i < |rs| => rs[i].(ttl := Clamp(rs[i].ttl, minTtl, maxTtl)))
  }

  function ClampedMessage(m: Message, minTtl: nat, maxTtl: nat): Message {
    m.(answers := Clamped(m.answers, minTtl, maxTtl),
       authorities := Clamped(m.authorities, minTtl, maxTtl),
       additionals := Clamped(m.additionals, minTtl, maxTtl))
  }

  function Records(m: Message): seq<Record> {
    m.answers + m.authorities + m.additionals
  }

  /** The least TTL among the records seen so far and these. */
  function Shortest(soFar: Option<nat>, rs: seq<Record>): Option<nat> {
    if rs == [] then soFar
    else
      var t := rs[|rs| - 1].ttl;
      var s := Shortest(soFar, rs[..|rs| - 1]);
      Some(if s.Some? && s.value <= t then s.value else t)
  }

  function Stamped(m: Message, minTtl: nat, maxTtl: nat, now: nat): Entry {
    var response := ClampedMessage(m, minTtl, maxTtl);
    var shortest := Shortest(None, Records(response));
    Entry(response, now, now + Nanos(if shortest.Some? then shortest.value else EMPTY_RESPONSE_TTL))
  }

  // ----- serving

  /** The age in whole seconds, cut to 32 bits. */
  function Age(e: Entry, now: nat): nat {
    if now < e.stored then 0 else WholeSecs(now - e.stored) % 0x1_0000_0000
  }

  function AgedTtl(ttl: nat, age: nat): nat {
    var left := if ttl >= age then ttl - age else 0;
    if left < 1 then 1 else left
  }

  function Aged(rs: seq<Record>, age: nat): seq<Record> {
    seq(|rs|, i requires 0 <= i < |rs| => rs[i].(ttl := AgedTtl(rs[i].ttl, age)))
  }

  function AgedMessage(m: Message, age: nat): Message {
    m.(answers := Aged(m.answers, age), authorities := Aged(m.authorities, age), additionals := Aged(m.additionals, age))
  }

  // ----- the least-recently-used list

  function Lookup(items: seq<(Key, Entry)>, key: Key): Option<Entry> {
    if items == [] then None
    else if items[|items| - 1].0 == key then Some(items[|items| - 1].1)
    else Lookup(items[..|items| - 1], key)
  }

  function Without(items: seq<(Key, Entry)>, key: Key): (r: seq<(Key, Entry)>)
    ensures |r| <= |items|
  {
    if items == [] then []
    else
      var init, last := items[..|items| - 1], items[|items| - 1];
      if last.0 == key then Without(init, key) else Without(init, key) + [last]
  }

  function Take(items: seq<(Key, Entry)>, n: nat): seq<(Key, Entry)> {
    if |items| <= n then items else items[..n]
  }

  function Front(items: seq<(Key, Entry)>, key: Key, e: Entry): seq<(Key, Entry)> {
    [(key, e)] + Without(items, key)
  }

  // ----- the operations

  /** A get reads the clock twice: for the expiry check and for the age. */
  datatype Op =
    | Put(key: Key, response: Message, now: nat)
    | Get(key: Key, checked: nat, aged: nat)
    | SetConfig(cap: nat, minTtl: nat, maxTtl: nat)
    | Clear

  function Served(s: State, key: Key, checked: nat, aged: nat): Option<Message> {
    if s.lru.None? then None
    else
      var e := Lookup(s.lru.value.items, key);
      if e.Some? && e.value.expires > checked
      then Some(AgedMessage(e.value.response, Age(e.value, aged)))
      else None
  }

  function Step(s: State, op: Op): State {
    match op
    case Put(key, m, now) =>
      if s.lru.None? || !Cacheable(m) then s
      else
        var c := s.lru.value;
        s.(lru := Some(c.(items := Take(Front(c.items, key, Stamped(m, s.minTtl, s.maxTtl, now)), c.cap))))
    case Get(key, checked, aged) =>
      if s.lru.None? then s.(misses := s.misses + 1)
      else
        var c := s.lru.value;
        var e := Lookup(c.items, key);
        if e.None? then s.(misses := s.misses + 1)
        else if e.value.expires > checked
        then s.(lru := Some(c.(items := Front(c.items, key, e.value))), hits := s.hits + 1)
        else s.(lru := Some(c.(items := Without(c.items, key))), misses := s.misses + 1)
    case SetConfig(cap, minTtl, maxTtl) =>
      var lru :=
        if cap == 0 then None
        else if s.lru.Some? then Some(Lru(cap, Take(s.lru.value.items, cap)))
        else Some(Lru(cap, []));
      s.(lru := lru, minTtl := minTtl, maxTtl := maxTtl)
    case Clear =>
      if s.lru.Some? then s.(lru := Some(s.lru.value.(items := []))) else s
  }

  function Init(cap: nat, minTtl: nat, maxTtl: nat): State {
    State(if cap == 0 then None else Some(Lru(cap, [])), minTtl, maxTtl, 0, 0)
  }

  function Run(init: State, ops: seq<Op>): State {
    if ops == [] then init else Step(Run(init, ops[..|ops| - 1]), ops[|ops| - 1])
  }

  // ----- the reference: the latest accepted answer for each key

  function LatestStep(s: State, op: Op, latest: map<Key, Entry>): map<Key, Entry> {
    match op
    case Put(key, m, now) =>
      if s.lru.Some? && Cacheable(m) then latest[key := Stamped(m, s.minTtl, s.maxTtl, now)] else latest
    case Get(_, _, _) => latest
    case SetConfig(cap, _, _) => if cap == 0 then map[] else latest
    case Clear => map[]
  }

  function Latest(init: State, base: map<Key, Entry>, ops: seq<Op>): map<Key, Entry> {
    if ops == [] then base
    else LatestStep(Run(init, ops[..|ops| - 1]), ops[|ops| - 1], Latest(init, base, ops[..|ops| - 1]))
  }

  /** Every cached entry is the latest accepted answer for its key. */
  ghost predicate Current(items: seq<(Key, Entry)>, latest: map<Key, Entry>) {
    items == [] ||
    var last := items[|items| - 1];
    Current(items[..|items| - 1], latest) && last.0 in latest && latest[last.0] == last.1
  }

  ghost predicate Distinct(items: seq<(Key, Entry)>) {
    items == [] || (Distinct(items[..|items| - 1]) && Lookup(items[..|items| - 1], items[|items| - 1].0).None?)
  }

  ghost predicate Inv(s: State, latest: map<Key, Entry>) {
    s.lru.Some? ==>
      var c := s.lru.value;
      1 <= c.cap && |c.items| <= c.cap && Distinct(c.items) && Current(c.items, latest)
  }

  // ----- list lemmas

  lemma {:induction false} WithoutKeeps(items: seq<(Key, Entry)>, key: Key, k: Key)
    ensures Lookup(Without(items, key), k) == if k == key then None else Lookup(items, k)
  {
    if items != [] {
      var init, last := items[..|items| - 1], items[|items| - 1];
      WithoutKeeps(init, key, k);
      if last.0 != key {
        assert (Without(init, key) + [last])[..|Without(init, key)|] == Without(init, key);
      }
    }
  }

  lemma {:induction false} WithoutOk(items: seq<(Key, Entry)>, key: Key, e: Entry, latest: map<Key, Entry>)
    requires Distinct(items) && Current(items, latest)
    ensures Distinct(Without(items, key)) && Current(Without(items, key), latest[key := e]) && Current(Without(items, key), latest)
  {
    if items != [] {
      var init, last := items[..|items| - 1], items[|items| - 1];
      WithoutOk(init, key, e, latest);
      if last.0 != key {
        WithoutKeeps(init, key, last.0);
        assert (Without(init, key) + [last])[..|Without(init, key)|] == Without(init, key);
      }
    }
  }

  lemma {:induction false} FrontOk(x: (Key, Entry), rest: seq<(Key, Entry)>, latest: map<Key, Entry>)
    requires Distinct(rest) && Current(rest, latest) && Lookup(rest, x.0).None?
    requires x.0 in latest && latest[x.0] == x.1
    ensures Distinct([x] + rest) && Current([x] + rest, latest)
  {
    if rest == [] {
      assert [x] + rest == [x] && [x][..0] == [];
    } else {
      var init, last := rest[..|rest| - 1], rest[|rest| - 1];
      assert ([x] + rest)[..|rest|] == [x] + init && ([x] + rest)[|rest|] == last;
      FrontOk(x, init, latest);
      FrontLookup(x, init, last.0);
    }
  }

  lemma {:induction false} FrontLookup(x: (Key, Entry), rest: seq<(Key, Entry)>, k: Key)
    ensures Lookup([x] + rest, k) ==
      if Lookup(rest, k).Some? then Lookup(rest, k) else if k == x.0 then Some(x.1) else None
  {
    if rest == [] {
      assert [x] + rest == [x] && [x][..0] == [];
    } else {
      assert ([x] + rest)[..|rest|] == [x] + rest[..|rest| - 1];
      FrontLookup(x, rest[..|rest| - 1], k);
    }
  }

  lemma {:induction false} TakeOk(items: seq<(Key, Entry)>, n: nat, latest: map<Key, Entry>)
    requires Distinct(items) && Current(items, latest)
    ensures Distinct(Take(items, n)) && Current(Take(items, n), latest) && |Take(items, n)| <= n
  {
    if |items| > n {
      TakeOk(items[..|items| - 1], n, latest);
      assert Take(items[..|items| - 1], n) == items[..n];
    }
  }

  lemma {:induction false} CurrentLookup(items: seq<(Key, Entry)>, key: Key, latest: map<Key, Entry>)
    requires Current(items, latest) && Lookup(items, key).Some?
    ensures key in latest && latest[key] == Lookup(items, key).value
  {
    if items[|items| - 1].0 != key { CurrentLookup(items[..|items| - 1], key, latest); }
  }

  // ----- every run

  lemma PutInv(c: Lru, key: Key, e: Entry, latest: map<Key, Entry>)
    requires 1 <= c.cap && |c.items| <= c.cap && Distinct(c.items) && Current(c.items, latest)
    ensures var items := Take(Front(c.items, key, e), c.cap);
      |items| <= c.cap && Distinct(items) && Current(items, latest[key := e])
  {
    WithoutOk(c.items, key, e, latest);
    WithoutKeeps(c.items, key, key);
    FrontOk((key, e), Without(c.items, key), latest[key := e]);
    TakeOk(Front(c.items, key, e), c.cap, latest[key := e]);
  }

  /** A key that is present makes room for itself when it moves to the front. */
  lemma {:induction false} WithoutShrinks(items: seq<(Key, Entry)>, key: Key)
    requires Lookup(items, key).Some?
    ensures |Without(items, key)| < |items|
  {
    if items[|items| - 1].0 != key { WithoutShrinks(items[..|items| - 1], key); }
  }

  lemma GetInv(c: Lru, key: Key, latest: map<Key, Entry>)
    requires 1 <= c.cap && |c.items| <= c.cap && Distinct(c.items) && Current(c.items, latest)
    requires Lookup(c.items, key).Some?
    ensures var items := Front(c.items, key, Lookup(c.items, key).value);
      |items| <= c.cap && Distinct(items) && Current(items, latest)
    ensures var items := Without(c.items, key);
      |items| <= c.cap && Distinct(items) && Current(items, latest)
  {
    var e := Lookup(c.items, key).value;
    CurrentLookup(c.items, key, latest);
    WithoutOk(c.items, key, e, latest);
    WithoutKeeps(c.items, key, key);
    WithoutShrinks(c.items, key);
    FrontOk((key, e), Without(c.items, key), latest);
  }

  lemma StepInv(s: State, op: Op, latest: map<Key, Entry>)
    requires Inv(s, latest)
    ensures Inv(Step(s, op), LatestStep(s, op, latest))
  {
    if s.lru.Some? {
      var c := s.lru.value;
      match op
      case Put(key, m, now) => PutInv(c, key, Stamped(m, s.minTtl, s.maxTtl, now), latest);
      case Get(key, checked, aged) => if Lookup(c.items, key).Some? { GetInv(c, key, latest); }
      case SetConfig(cap, _, _) => TakeOk(c.items, cap, latest);
      case Clear =>
    }
  }

  lemma {:induction false} RunInv(cap: nat, minTtl: nat, maxTtl: nat, ops: seq<Op>)
    ensures Inv(Run(Init(cap, minTtl, maxTtl), ops), Latest(Init(cap, minTtl, maxTtl), map[], ops))
  {
    if ops != [] {
      var init := Init(cap, minTtl, maxTtl);
      RunInv(cap, minTtl, maxTtl, ops[..|ops| - 1]);
      StepInv(Run(init, ops[..|ops| - 1]), ops[|ops| - 1], Latest(init, map[], ops[..|ops| - 1]));
    }
  }

  /** In every run, a hit is the latest accepted answer for the key, aged, and not yet expired. */
  lemma HitIsLatest(cap: nat, minTtl: nat, maxTtl: nat, ops: seq<Op>, key: Key, checked: nat, aged: nat)
    ensures var s, latest := Run(Init(cap, minTtl, maxTtl), ops), Latest(Init(cap, minTtl, maxTtl), map[], ops);
      Served(s, key, checked, aged).Some? ==>
        && key in latest && checked < latest[key].expires
        && Served(s, key, checked, aged).value == AgedMessage(latest[key].response, Age(latest[key], aged))
  {
    var s, latest := Run(Init(cap, minTtl, maxTtl), ops), Latest(Init(cap, minTtl, maxTtl), map[], ops);
    RunInv(cap, minTtl, maxTtl, ops);
    if s.lru.Some? && Lookup(s.lru.value.items, key).Some? {
      CurrentLookup(s.lru.value.items, key, latest);
    }
  }

  function Gets(ops: seq<Op>): nat {
    if ops == [] then 0 else Gets(ops[..|ops| - 1]) + if ops[|ops| - 1].Get? then 1 else 0
  }

  /** Every lookup is counted once, as a hit or as a miss. */
  lemma {:induction false} EveryGetCounted(cap: nat, minTtl: nat, maxTtl: nat, ops: seq<Op>)
    ensures var s := Run(Init(cap, minTtl, maxTtl), ops); s.hits + s.misses == Gets(ops)
  {
    if ops != [] { EveryGetCounted(cap, minTtl, maxTtl, ops[..|ops| - 1]); }
  }

  // ----- TTL arithmetic

  lemma {:induction false} ShortestBounds(rs: seq<Record>, i: nat)
    requires i < |rs|
    ensures Shortest(None, rs).Some? && Shortest(None, rs).value <= rs[i].ttl
  {
    var init := rs[..|rs| - 1];
    if i < |init| { ShortestBounds(init, i); assert init[i] == rs[i]; }
  }

  lemma {:induction false} ShortestAttained(rs: seq<Record>)
    requires rs != []
    ensures exists i :: 0 <= i < |rs| && Shortest(None, rs) == Some(rs[i].ttl)
  {
    var init, n := rs[..|rs| - 1], |rs| - 1;
    if init == [] || Shortest(None, init).value > rs[n].ttl {
      if init != [] { ShortestAttained(init); }
      assert Shortest(None, rs) == Some(rs[n].ttl);
    } else {
      ShortestAttained(init);
      var i :| 0 <= i < |init| && Shortest(None, init) == Some(init[i].ttl);
      assert rs[i] == init[i];
    }
  }

  /** The clamp, in bounds: within the limits that are set, and untouched when already there. */
  lemma ClampMeets(ttl: nat, minTtl: nat, maxTtl: nat)
    ensures var t := Clamp(ttl, minTtl, maxTtl);
      && (maxTtl > 0 ==> t <= maxTtl)
      && (minTtl > 0 && (maxTtl == 0 || minTtl <= maxTtl) ==> minTtl <= t)
      && ((minTtl == 0 || minTtl <= ttl) && (maxTtl == 0 || ttl <= maxTtl) ==> t == ttl)
  {
  }

  lemma SecondsWithin(d: nat, ttl: nat)
    requires d < Nanos(ttl)
    ensures WholeSecs(d) < ttl
    ensures Nanos(WholeSecs(d)) <= d < Nanos(WholeSecs(d)) + 1000000000
  {
  }

  /**
   With one clock reading per get, the TTL a hit returns is exactly the stored TTL minus
   the whole seconds elapsed, and at least 1: neither the floor at 1, nor the saturation,
   nor the cut to 32 bits takes anything away. A client that keeps the record for the
   returned TTL drops it less than a second after the stored TTL runs out, and not before.
   */
  lemma TtlExact(m: Message, minTtl: nat, maxTtl: nat, stored: nat, now: nat, i: nat)
    requires var e := Stamped(m, minTtl, maxTtl, stored);
      stored <= now < e.expires && i < |Records(e.response)| && Wide(Records(e.response)[i].ttl)
    ensures var e := Stamped(m, minTtl, maxTtl, stored);
      var ttl := Records(e.response)[i].ttl;
      var got := AgedTtl(ttl, Age(e, now));
      && got == ttl - WholeSecs(now - stored) && got >= 1
      && stored + Nanos(ttl) <= now + Nanos(got) < stored + Nanos(ttl) + 1000000000
  {
    var e := Stamped(m, minTtl, maxTtl, stored);
    var ttl := Records(e.response)[i].ttl;
    ShortestBounds(Records(e.response), i);
    SecondsWithin(now - stored, ttl);
  }

  /** With a second, later clock reading for the age, the TTL is exact if and only if the age is still below it. */
  lemma TtlExactIff(e: Entry, ttl: nat, now: nat)
    requires e.stored <= now && Wide(WholeSecs(now - e.stored))
    ensures AgedTtl(ttl, Age(e, now)) == ttl - WholeSecs(now - e.stored) <==> WholeSecs(now - e.stored) < ttl
  {
  }

  /** The records of an aged message are the stored ones with their TTLs aged, in place. */
  lemma AgedRecords(m: Message, age: nat)
    ensures |Records(AgedMessage(m, age))| == |Records(m)|
    ensures forall i :: 0 <= i < |Records(m)| ==>
      Records(AgedMessage(m, age))[i] == Records(m)[i].(ttl := AgedTtl(Records(m)[i].ttl, age))
  {
  }

  lemma ClampedRecords(m: Message, minTtl: nat, maxTtl: nat)
    ensures |Records(ClampedMessage(m, minTtl, maxTtl))| == |Records(m)|
    ensures forall i :: 0 <= i < |Records(m)| ==>
      Records(ClampedMessage(m, minTtl, maxTtl))[i] == Records(m)[i].(ttl := Clamp(Records(m)[i].ttl, minTtl, maxTtl))
  {
  }

  // ----- what a client gets to see over a run

  /** TTLs and their bounds are 32-bit numbers. */
  ghost predicate WideRecords(m: Message) {
    forall i :: 0 <= i < |Records(m)| ==> Wide(Records(m)[i].ttl)
  }

  ghost predicate WideOp(op: Op) {
    (op.Put? ==> WideRecords(op.response)) && (op.SetConfig? ==> Wide(op.minTtl) && Wide(op.maxTtl))
  }

  ghost predicate WideRun(minTtl: nat, maxTtl: nat, ops: seq<Op>) {
    Wide(minTtl) && Wide(maxTtl) && forall i :: 0 <= i < |ops| ==> WideOp(ops[i])
  }

  /** No put read a later time than `now`. */
  ghost predicate NotAhead(ops: seq<Op>, now: nat) {
    forall i :: 0 <= i < |ops| && ops[i].Put? ==> ops[i].now <= now
  }

  /** Call `i` stored this answer for the key, under the bounds of that moment. */
  ghost predicate StoredBy(init: State, ops: seq<Op>, i: nat, key: Key, e: Entry) {
    && i < |ops| && ops[i].Put? && ops[i].key == key && Cacheable(ops[i].response)
    && var s := Run(init, ops[..i]); e == Stamped(ops[i].response, s.minTtl, s.maxTtl, ops[i].now)
  }

  lemma {:induction false} LatestWasStored(init: State, ops: seq<Op>, key: Key)
    requires key in Latest(init, map[], ops)
    ensures exists i :: StoredBy(init, ops, i, key, Latest(init, map[], ops)[key])
  {
    var before, op, n := ops[..|ops| - 1], ops[|ops| - 1], |ops| - 1;
    var e := Latest(init, map[], ops)[key];
    if op.Put? && op.key == key && Run(init, before).lru.Some? && Cacheable(op.response) {
      assert ops[..n] == before;
      assert StoredBy(init, ops, n, key, e);
    } else {
      LatestWasStored(init, before, key);
      var i: nat :| StoredBy(init, before, i, key, e);
      assert before[..i] == ops[..i] && before[i] == ops[i];
      assert StoredBy(init, ops, i, key, e);
    }
  }

  lemma {:induction false} BoundsAreWide(cap: nat, minTtl: nat, maxTtl: nat, ops: seq<Op>, i: nat)
    requires WideRun(minTtl, maxTtl, ops) && i <= |ops|
    ensures var s := Run(Init(cap, minTtl, maxTtl), ops[..i]); Wide(s.minTtl) && Wide(s.maxTtl)
  {
    if i > 0 {
      BoundsAreWide(cap, minTtl, maxTtl, ops, i - 1);
      assert ops[..i][..i - 1] == ops[..i - 1] && WideOp(ops[i - 1]);
    }
  }

  /** Record `j` as it was put, with its TTL clamped and the whole seconds since taken off. */
  ghost predicate Ticked(got: Record, put: Record, minTtl: nat, maxTtl: nat, elapsed: nat) {
    && got == put.(ttl := got.ttl) && got.ttl >= 1
    && got.ttl == Clamp(put.ttl, minTtl, maxTtl) - WholeSecs(elapsed)
  }

  lemma EntryTicked(m: Message, minTtl: nat, maxTtl: nat, stored: nat, now: nat, j: nat)
    requires WideRecords(m) && Wide(minTtl) && Wide(maxTtl) && j < |Records(m)|
    requires var e := Stamped(m, minTtl, maxTtl, stored); stored <= now < e.expires
    ensures var e := Stamped(m, minTtl, maxTtl, stored);
      var got := Records(AgedMessage(e.response, Age(e, now)));
      |got| == |Records(m)| && Ticked(got[j], Records(m)[j], minTtl, maxTtl, now - stored)
  {
    var e := Stamped(m, minTtl, maxTtl, stored);
    ClampedRecords(m, minTtl, maxTtl);
    AgedRecords(e.response, Age(e, now));
    TtlExact(m, minTtl, maxTtl, stored, now, j);
  }

  /** What was put by call `i` is what comes back, record by record, with the time since taken off. */
  ghost predicate ComesBack(init: State, ops: seq<Op>, i: nat, key: Key, hit: Message, now: nat) {
    && i < |ops| && ops[i].Put? && ops[i].key == key && ops[i].now <= now && |Records(hit)| == |Records(ops[i].response)|
    && var s := Run(init, ops[..i]);
       forall j :: 0 <= j < |Records(hit)| ==>
         Ticked(Records(hit)[j], Records(ops[i].response)[j], s.minTtl, s.maxTtl, now - ops[i].now)
  }

  /**
   In every run with a clock that does not step back and one reading per get: a hit is the
   last accepted put for its key, each record with its TTL clamped by the bounds of that
   moment and the whole seconds since then taken off, and never below 1.
   */
  lemma HitTtls(cap: nat, minTtl: nat, maxTtl: nat, ops: seq<Op>, key: Key, now: nat)
    requires WideRun(minTtl, maxTtl, ops) && NotAhead(ops, now)
    ensures var init := Init(cap, minTtl, maxTtl);
      var hit := Served(Run(init, ops), key, now, now);
      hit.Some? ==>
        && key in Latest(init, map[], ops)
        && exists i: nat ::
             StoredBy(init, ops, i, key, Latest(init, map[], ops)[key]) && ComesBack(init, ops, i, key, hit.value, now)
  {
    var init := Init(cap, minTtl, maxTtl);
    var hit := Served(Run(init, ops), key, now, now);
    HitIsLatest(cap, minTtl, maxTtl, ops, key, now, now);
    if hit.Some? {
      LatestWasStored(init, ops, key);
      var e := Latest(init, map[], ops)[key];
      var i: nat :| StoredBy(init, ops, i, key, e);
      StoredComesBack(cap, minTtl, maxTtl, ops, i, key, e, now);
    }
  }

  lemma StoredComesBack(cap: nat, minTtl: nat, maxTtl: nat, ops: seq<Op>, i: nat, key: Key, e: Entry, now: nat)
    requires WideRun(minTtl, maxTtl, ops) && NotAhead(ops, now) && now < e.expires
    requires StoredBy(Init(cap, minTtl, maxTtl), ops, i, key, e)
    ensures ComesBack(Init(cap, minTtl, maxTtl), ops, i, key, AgedMessage(e.response, Age(e, now)), now)
  {
    var s, m := Run(Init(cap, minTtl, maxTtl), ops[..i]), ops[i].response;
    BoundsAreWide(cap, minTtl, maxTtl, ops, i);
    assert WideOp(ops[i]);
    ClampedRecords(m, s.minTtl, s.maxTtl);
    AgedRecords(e.response, Age(e, now));
    forall j | 0 <= j < |Records(m)|
      ensures Ticked(Records(AgedMessage(e.response, Age(e, now)))[j], Records(m)[j], s.minTtl, s.maxTtl, now - ops[i].now)
    {
      EntryTicked(m, s.minTtl, s.maxTtl, ops[i].now, now, j);
    }
  }

  // ----- what least-recently-used promises

  /** The keys touched by some operations. */
  ghost function Touched(ops: seq<Op>): set<Key> {
    if ops == [] then {}
    else
      var op := ops[|ops| - 1];
      Touched(ops[..|ops| - 1]) + if op.Put? || op.Get? then {op.key} else {}
  }

  ghost function Keys(items: seq<(Key, Entry)>): set<Key> {
    if items == [] then {} else Keys(items[..|items| - 1]) + {items[|items| - 1].0}
  }

  /** The keys used more recently than `key`. */
  ghost function Ahead(items: seq<(Key, Entry)>, key: Key): set<Key> {
    if items == [] then {}
    else if items[|items| - 1].0 == key then Keys(items[..|items| - 1])
    else Ahead(items[..|items| - 1], key)
  }

  lemma {:induction false} KeysLookup(items: seq<(Key, Entry)>, key: Key)
    ensures key in Keys(items) <==> Lookup(items, key).Some?
  {
    if items != [] { KeysLookup(items[..|items| - 1], key); }
  }

  lemma {:induction false} KeysCount(items: seq<(Key, Entry)>)
    requires Distinct(items)
    ensures |Keys(items)| == |items|
  {
    if items != [] {
      KeysCount(items[..|items| - 1]);
      KeysLookup(items[..|items| - 1], items[|items| - 1].0);
    }
  }

  lemma {:induction false} KeysWithout(items: seq<(Key, Entry)>, x: Key)
    ensures Keys(Without(items, x)) <= Keys(items)
  {
    if items != [] {
      var init, last := items[..|items| - 1], items[|items| - 1];
      KeysWithout(init, x);
      if last.0 != x {
        assert (Without(init, x) + [last])[..|Without(init, x)|] == Without(init, x);
      }
    }
  }

  lemma {:induction false} AheadWithout(items: seq<(Key, Entry)>, x: Key, key: Key)
    requires key != x
    ensures Ahead(Without(items, x), key) <= Ahead(items, key)
  {
    if items != [] {
      var init, last := items[..|items| - 1], items[|items| - 1];
      AheadWithout(init, x, key);
      KeysWithout(init, x);
      if last.0 != x {
        assert (Without(init, x) + [last])[..|Without(init, x)|] == Without(init, x);
      }
    }
  }

  lemma {:induction false} KeysFront(x: (Key, Entry), rest: seq<(Key, Entry)>)
    ensures Keys([x] + rest) == {x.0} + Keys(rest)
  {
    if rest == [] {
      assert [x] + rest == [x] && [x][..0] == [];
    } else {
      assert ([x] + rest)[..|rest|] == [x] + rest[..|rest| - 1];
      KeysFront(x, rest[..|rest| - 1]);
    }
  }

  lemma {:induction false} AheadFront(x: (Key, Entry), rest: seq<(Key, Entry)>, key: Key)
    requires key != x.0 && Lookup(rest, key).Some?
    ensures Ahead([x] + rest, key) <= {x.0} + Ahead(rest, key)
  {
    var init := rest[..|rest| - 1];
    assert ([x] + rest)[..|rest|] == [x] + init && ([x] + rest)[|rest|] == rest[|rest| - 1];
    if rest[|rest| - 1].0 == key {
      KeysFront(x, init);
    } else {
      AheadFront(x, init, key);
    }
  }

  /** Touching another key moves it ahead and nothing else. */
  lemma FrontOther(items: seq<(Key, Entry)>, x: Key, e: Entry, key: Key)
    requires key != x && Lookup(items, key).Some? && Distinct(items)
    ensures Lookup(Front(items, x, e), key) == Lookup(items, key)
    ensures Ahead(Front(items, x, e), key) <= Ahead(items, key) + {x}
  {
    WithoutKeeps(items, x, key);
    FrontLookup((x, e), Without(items, x), key);
    AheadWithout(items, x, key);
    AheadFront((x, e), Without(items, x), key);
  }

  /** Dropping the least recently used entry spares a key with fewer than `cap` keys ahead of it. */
  lemma TakeSpares(items: seq<(Key, Entry)>, cap: nat, key: Key, touched: set<Key>)
    requires Distinct(items) && |items| <= cap + 1 && Lookup(items, key).Some?
    requires Ahead(items, key) <= touched && |touched| < cap
    ensures Lookup(Take(items, cap), key) == Lookup(items, key) && Ahead(Take(items, cap), key) == Ahead(items, key)
  {
    if |items| > cap {
      var init, last := items[..cap], items[cap];
      if last.0 == key {
        KeysCount(init);
        Subset(Keys(init), touched);
      }
    }
  }

  lemma {:induction false} Subset<T>(a: set<T>, b: set<T>)
    requires a <= b
    ensures |a| <= |b|
  {
    if a != {} {
      var x :| x in a;
      Subset(a - {x}, b - {x});
    }
  }

  /** The key is cached, and only touched keys are ahead of it. */
  ghost predicate Spared(s: State, key: Key, e: Entry, touched: set<Key>) {
    s.lru.Some? && Lookup(s.lru.value.items, key) == Some(e) && Ahead(s.lru.value.items, key) <= touched
  }

  lemma PutSpares(c: Lru, x: Key, y: Entry, key: Key, e: Entry, touched: set<Key>, latest: map<Key, Entry>)
    requires 1 <= c.cap && |c.items| <= c.cap && Distinct(c.items) && Current(c.items, latest)
    requires Lookup(c.items, key) == Some(e) && Ahead(c.items, key) <= touched && x != key
    requires |touched + {x}| < c.cap
    ensures var items := Take(Front(c.items, x, y), c.cap);
      Lookup(items, key) == Some(e) && Ahead(items, key) <= touched + {x}
  {
    FrontOther(c.items, x, y, key);
    WithoutOk(c.items, x, y, latest);
    WithoutKeeps(c.items, x, x);
    FrontOk((x, y), Without(c.items, x), latest[x := y]);
    TakeSpares(Front(c.items, x, y), c.cap, key, touched + {x});
  }

  lemma StepSpares(s: State, op: Op, key: Key, e: Entry, touched: set<Key>, latest: map<Key, Entry>)
    requires Inv(s, latest) && Spared(s, key, e, touched) && (op.Put? || op.Get?) && op.key != key
    requires |touched + {op.key}| < s.lru.value.cap
    ensures Spared(Step(s, op), key, e, touched + {op.key}) && Step(s, op).lru.value.cap == s.lru.value.cap
  {
    var c := s.lru.value;
    match op
    case Put(x, m, now) =>
      PutSpares(c, x, Stamped(m, s.minTtl, s.maxTtl, now), key, e, touched, latest);
    case Get(x, checked, aged) =>
      if Lookup(c.items, x).Some? {
        FrontOther(c.items, x, Lookup(c.items, x).value, key);
        WithoutKeeps(c.items, x, key);
        AheadWithout(c.items, x, key);
      }
  }

  /**
   The promise of least-recently-used: once a key is at the front, gets and puts of fewer
   other keys than the capacity never push it out.
   */
  lemma {:induction false} RecentlyUsedStays(s: State, base: map<Key, Entry>, ops: seq<Op>, key: Key, e: Entry)
    requires Inv(s, base) && Spared(s, key, e, {}) && |Touched(ops)| < s.lru.value.cap
    requires forall i :: 0 <= i < |ops| ==> (ops[i].Put? || ops[i].Get?) && ops[i].key != key
    ensures Inv(Run(s, ops), Latest(s, base, ops))
    ensures Spared(Run(s, ops), key, e, Touched(ops)) && Run(s, ops).lru.value.cap == s.lru.value.cap
  {
    if ops != [] {
      var before, op := ops[..|ops| - 1], ops[|ops| - 1];
      Subset(Touched(before), Touched(ops));
      RecentlyUsedStays(s, base, before, key, e);
      StepInv(Run(s, before), op, Latest(s, base, before));
      StepSpares(Run(s, before), op, key, e, Touched(before), Latest(s, base, before));
    }
  }
}

/** The cache object: an optional least-recently-used list, TTL bounds and counters, updated in place. */
module DnsCache {
  import opened Options
  import opened DnsCacheSpec

  class DnsCache {
    var lru: Option<Lru>
    var minTtl: nat
    var maxTtl: nat
    var hits: nat
    var misses: nat

    ghost function Model(): State
      reads this
    {
      State(lru, minTtl, maxTtl, hits, misses)
    }

    constructor (cap: nat, minTtl: nat, maxTtl: nat)
      ensures Model() == Init(cap, minTtl, maxTtl)
    {
      lru := if cap == 0 then None else Some(Lru(cap, []));
      this.minTtl, this.maxTtl, hits, misses := minTtl, maxTtl, 0, 0;
    }

    method SetConfig(cap: nat, minTtl: nat, maxTtl: nat)
      modifies this
      ensures Model() == Step(old(Model()), DnsCacheSpec.SetConfig(cap, minTtl, maxTtl))
    {
      this.minTtl, this.maxTtl := minTtl, maxTtl;
      if cap == 0 {
        lru := None;
      } else if lru.Some? {
        lru := Some(Lru(cap, Take(lru.value.items, cap)));
      } else {
        lru := Some(Lru(cap, []));
      }
    }

    method Get(key: Key, checked: nat, aged: nat) returns (hit: Option<Message>)
      modifies this
      ensures hit == Served(old(Model()), key, checked, aged)
      ensures Model() == Step(old(Model()), DnsCacheSpec.Get(key, checked, aged))
    {
      hit := None;
      if lru.Some? {
        var c := lru.value;
        var e := Lookup(c.items, key);
        if e.Some? && e.value.expires > checked {
          var age := Age(e.value, aged);
          var m := e.value.response;
          var answers := AgeSection(m.answers, age);
          var authorities := AgeSection(m.authorities, age);
          var additionals := AgeSection(m.additionals, age);
          hit := Some(m.(answers := answers, authorities := authorities, additionals := additionals));
          lru := Some(c.(items := Front(c.items, key, e.value)));
        } else if e.Some? {
          lru := Some(c.(items := Without(c.items, key)));
        }
      }
      if hit.Some? {
        hits := hits + 1;
      } else {
        misses := misses + 1;
      }
    }

    method Put(key: Key, response: Message, now: nat)
      modifies this
      ensures Model() == Step(old(Model()), DnsCacheSpec.Put(key, response, now))
    {
      if response.truncated || !(response.code == NoError || response.code == NXDomain) {
        return;
      }
      var answers, s1 := ClampSection(response.answers, minTtl, maxTtl, None);
      var authorities, s2 := ClampSection(response.authorities, minTtl, maxTtl, s1);
      var additionals, shortest := ClampSection(response.additionals, minTtl, maxTtl, s2);
      ShortestConcat(None, answers, authorities);
      ShortestConcat(None, answers + authorities, additionals);
      var clamped := response.(answers := answers, authorities := authorities, additionals := additionals);
      var ttl := if shortest.Some? then shortest.value else EMPTY_RESPONSE_TTL;
      if lru.Some? {
        var c := lru.value;
        lru := Some(c.(items := Take(Front(c.items, key, Entry(clamped, now, now + Nanos(ttl))), c.cap)));
      }
    }

    method Clear() returns (n: nat)
      modifies this
      ensures n == if old(lru).Some? then |old(lru).value.items| else 0
      ensures Model() == Step(old(Model()), DnsCacheSpec.Clear)
    {
      n := 0;
      if lru.Some? {
        n := |lru.value.items|;
        lru := Some(lru.value.(items := []));
      }
    }
  }

  method AgeSection(rs: seq<Record>, age: nat) returns (out: seq<Record>)
    ensures out == Aged(rs, age)
  {
    out := [];
    for i := 0 to |rs|
      invariant |out| == i
      invariant forall k :: 0 <= k < i ==> out[k] == rs[k].(ttl := AgedTtl(rs[k].ttl, age))
    {
      out := out + [rs[i].(ttl := AgedTtl(rs[i].ttl, age))];
    }
  }

  lemma ShortestSnoc(soFar: Option<nat>, rs: seq<Record>, r: Record)
    ensures var s := Shortest(soFar, rs);
      Shortest(soFar, rs + [r]) == Some(if s.Some? && s.value <= r.ttl then s.value else r.ttl)
  {
    assert (rs + [r])[..|rs|] == rs;
  }

  /** Clamp one section's TTLs, carrying along the shortest seen. */
  method ClampSection(rs: seq<Record>, minTtl: nat, maxTtl: nat, soFar: Option<nat>)
    returns (out: seq<Record>, shortest: Option<nat>)
    ensures out == Clamped(rs, minTtl, maxTtl)
    ensures shortest == Shortest(soFar, out)
  {
    out, shortest := [], soFar;
    for i := 0 to |rs|
      invariant |out| == i
      invariant forall k :: 0 <= k < i ==> out[k] == rs[k].(ttl := Clamp(rs[k].ttl, minTtl, maxTtl))
      invariant shortest == Shortest(soFar, out)
    {
      var ttl := rs[i].ttl;
      if minTtl > 0 && ttl < minTtl {
        ttl := minTtl;
      }
      if maxTtl > 0 && ttl > maxTtl {
        ttl := maxTtl;
      }
      ShortestSnoc(soFar, out, rs[i].(ttl := ttl));
      out := out + [rs[i].(ttl := ttl)];
      shortest := Some(if shortest.Some? && shortest.value <= ttl then shortest.value else ttl);
    }
  }

  lemma {:induction false} ShortestConcat(soFar: Option<nat>, a: seq<Record>, b: seq<Record>)
    ensures Shortest(soFar, a + b) == Shortest(Shortest(soFar, a), b)
  {
    if b == [] {
      assert a + b == a;
    } else {
      assert (a + b)[..|a + b| - 1] == a + b[..|b| - 1];
      ShortestConcat(soFar, a, b[..|b| - 1]);
    }
  }
}
