/**
 Which engine a set of filter lists gives, and the cache file that may stand in for
 compiling it. The filter library is a parameter: what it compiles, hashes and
 serializes to is not looked into.
 */
module EngineBuild {
  import opened Options
  import opened Ordering
  import opened ListText

  type Byte = b: int | 0 <= b < 256
  type Key = k: int | 0 <= k < 0x1_0000_0000_0000_0000

  datatype Library<!E> = Library(
    compile: seq<string> -> E,
    hash: seq<(string, string)> -> Key,
    serialize: E -> Option<seq<Byte>>,
    deserialize: seq<Byte> -> Option<E>,
    useResources: (E, seq<string>) -> E)

  // ----- the canonical order

  function Enabled(lists: seq<ListEntry>): seq<ListEntry> {
    if lists == [] then [] else (if lists[0].enabled then [lists[0]] else []) + Enabled(lists[1..])
  }

  function Pair(l: ListEntry): (string, string) {
    (l.name, l.text)
  }

  predicate EntryLeq(a: ListEntry, b: ListEntry) {
    PairLeq(Pair(a), Pair(b))
  }

  function EnabledInOrder(lists: seq<ListEntry>): seq<ListEntry> {
    SortBy(EntryLeq, Enabled(lists))
  }

  function Pairs(lists: seq<ListEntry>): seq<(string, string)> {
    Mapped(Pair, lists)
  }

  /** The names and texts that go into the engine, in the order they go in. */
  function Ruleset(lists: seq<ListEntry>): seq<(string, string)> {
    Pairs(EnabledInOrder(lists))
  }

  lemma {:induction false} EnabledCounts(lists: seq<ListEntry>, x: ListEntry)
    ensures multiset(Enabled(lists))[x] == if x.enabled then multiset(lists)[x] else 0
  {
    if lists != [] {
      EnabledCounts(lists[1..], x);
      assert lists == [lists[0]] + lists[1..];
    }
  }

  lemma RulesetSorted(lists: seq<ListEntry>)
    ensures Sorted(PairLeq, Ruleset(lists))
    ensures multiset(Ruleset(lists)) == multiset(Pairs(Enabled(lists)))
  {
    PairOrder();
    assert Total(EntryLeq);
    SortBySorted(EntryLeq, Enabled(lists));
    MappedPermuted(Pair, EnabledInOrder(lists), Enabled(lists));
  }

  /** The order the store hands the lists over in does not show, nor do disabled lists or sources. */
  lemma OrderIsCanonical(a: seq<ListEntry>, b: seq<ListEntry>)
    requires multiset(Pairs(Enabled(a))) == multiset(Pairs(Enabled(b)))
    ensures Ruleset(a) == Ruleset(b)
  {
    RulesetSorted(a);
    RulesetSorted(b);
    PairOrder();
    SortedUnique(PairLeq, Ruleset(a), Ruleset(b));
  }

  lemma StoreOrderDoesNotShow(a: seq<ListEntry>, b: seq<ListEntry>)
    requires multiset(a) == multiset(b)
    ensures Ruleset(a) == Ruleset(b)
  {
    forall x ensures multiset(Enabled(a))[x] == multiset(Enabled(b))[x] {
      EnabledCounts(a, x);
      EnabledCounts(b, x);
    }
    MappedPermuted(Pair, Enabled(a), Enabled(b));
    OrderIsCanonical(a, b);
  }

  /** And it shows every edit: two stores with one rule set have the same enabled names and texts. */
  lemma RulesetShowsEdits(a: seq<ListEntry>, b: seq<ListEntry>)
    requires Ruleset(a) == Ruleset(b)
    ensures multiset(Pairs(Enabled(a))) == multiset(Pairs(Enabled(b)))
  {
    RulesetSorted(a);
    RulesetSorted(b);
  }

  // ----- the key in the file

  /** The lowest byte first. */
  function ToLe(n: nat, size: nat): (r: seq<Byte>)
    ensures |r| == size
  {
    if size == 0 then [] else [n % 256] + ToLe(n / 256, size - 1)
  }

  function FromLe(bytes: seq<Byte>): nat {
    if bytes == [] then 0 else bytes[0] + 256 * FromLe(bytes[1..])
  }

  function Bound(size: nat): nat {
    if size == 0 then 1 else 256 * Bound(size - 1)
  }

  lemma {:induction false} LeRoundTrip(n: nat, size: nat)
    requires n < Bound(size)
    ensures FromLe(ToLe(n, size)) == n
  {
    if size > 0 {
      LeRoundTrip(n / 256, size - 1);
      assert ToLe(n, size)[1..] == ToLe(n / 256, size - 1);
    }
  }

  lemma LowByte(b: Byte, high: nat)
    ensures (b + 256 * high) % 256 == b && (b + 256 * high) / 256 == high
  {
  }

  lemma {:induction false} LeOnto(bytes: seq<Byte>)
    ensures ToLe(FromLe(bytes), |bytes|) == bytes
  {
    if bytes != [] {
      LeOnto(bytes[1..]);
      LowByte(bytes[0], FromLe(bytes[1..]));
      assert bytes == [bytes[0]] + bytes[1..];
    }
  }

  lemma BoundOfEight()
    ensures Bound(8) == 0x1_0000_0000_0000_0000
  {
    assert Bound(2) == 0x1_0000;
    assert Bound(4) == 0x1_0000_0000;
    assert Bound(6) == 0x1_0000_0000_0000;
  }

  function KeyBytes(key: Key): (r: seq<Byte>)
    ensures |r| == 8
  {
    ToLe(key, 8)
  }

  /** A file holds a key exactly if it starts with that key's eight bytes. */
  lemma KeyOfFile(key: Key, head: seq<Byte>)
    requires |head| == 8
    ensures FromLe(head) == key <==> head == KeyBytes(key)
  {
    BoundOfEight();
    LeRoundTrip(key, 8);
    LeOnto(head);
  }

  // ----- building and loading

  function Texts(rules: seq<(string, string)>): seq<string> {
    seq(|rules|, i requires 0 <= i < |rules| => rules[i].1)
  }

  function KeyOf<E>(lib: Library<E>, lists: seq<ListEntry>): Key {
    lib.hash(Ruleset(lists))
  }

  /** The engine compiled from the rules, before any resources. */
  function Compiled<E>(lib: Library<E>, lists: seq<ListEntry>): E {
    lib.compile(Texts(Ruleset(lists)))
  }

  function Applied<E>(lib: Library<E>, engine: E, resources: seq<string>): E {
    if resources == [] then engine else lib.useResources(engine, resources)
  }

  function LoadCached<E>(lib: Library<E>, file: Option<seq<Byte>>, key: Key): Option<E> {
    if file.None? || |file.value| < 8 || FromLe(file.value[..8]) != key then None
    else lib.deserialize(file.value[8..])
  }

  /** The engine, and the key to save it under when it had to be compiled and there is a cache. */
  function BuildEngine<E>(lib: Library<E>, lists: seq<ListEntry>, resources: seq<string>,
                          cached: bool, file: Option<seq<Byte>>): (E, Option<Key>)
  {
    var key := KeyOf(lib, lists);
    var loaded := if cached then LoadCached(lib, file, key) else None;
    if loaded.Some? then (Applied(lib, loaded.value, resources), None)
    else (Applied(lib, Compiled(lib, lists), resources), if cached then Some(key) else None)
  }

  /** What saving an engine built for these lists writes, if the library can serialize it. */
  function FileFor<E>(lib: Library<E>, lists: seq<ListEntry>, resources: seq<string>): Option<seq<Byte>> {
    var body := lib.serialize(Applied(lib, Compiled(lib, lists), resources));
    if body.None? then None else Some(KeyBytes(KeyOf(lib, lists)) + body.value)
  }

  /** Serializing drops the resources and keeps the rest. */
  ghost predicate RoundTrips<E>(lib: Library<E>) {
    forall texts, resources ::
      var body := lib.serialize(Applied(lib, lib.compile(texts), resources));
      body.Some? ==> lib.deserialize(body.value) == Some(lib.compile(texts))
  }

  lemma LoadMeans<E>(lib: Library<E>, bytes: seq<Byte>, key: Key)
    ensures LoadCached(lib, Some(bytes), key) ==
      if |bytes| >= 8 && bytes[..8] == KeyBytes(key) then lib.deserialize(bytes[8..]) else None
  {
    if |bytes| >= 8 { KeyOfFile(key, bytes[..8]); }
  }

  /** Loading what was saved: the compiled engine under its own key, nothing under any other. */
  lemma LoadSaved<E>(lib: Library<E>, saved: seq<ListEntry>, resources: seq<string>, key: Key)
    requires RoundTrips(lib) && FileFor(lib, saved, resources).Some?
    ensures LoadCached(lib, FileFor(lib, saved, resources), key) ==
      if key == KeyOf(lib, saved) then Some(Compiled(lib, saved)) else None
  {
    var file := FileFor(lib, saved, resources).value;
    var body := lib.serialize(Applied(lib, lib.compile(Texts(Ruleset(saved))), resources)).value;
    assert file[..8] == KeyBytes(KeyOf(lib, saved)) && file[8..] == body;
    LoadMeans(lib, file, key);
    BoundOfEight();
    LeRoundTrip(key, 8);
    LeRoundTrip(KeyOf(lib, saved), 8);
  }

  /**
   Built over a cache file saved for other lists, the engine is the one compiled from the
   present lists if and only if the keys differ or the two compile to the same.
   */
  lemma BuildExactIff<E>(lib: Library<E>, lists: seq<ListEntry>, resources: seq<string>,
                         saved: seq<ListEntry>, savedResources: seq<string>)
    requires RoundTrips(lib) && FileFor(lib, saved, savedResources).Some?
    ensures var right := Applied(lib, Compiled(lib, lists), resources);
      BuildEngine(lib, lists, resources, true, FileFor(lib, saved, savedResources)).0 == right <==>
      KeyOf(lib, saved) != KeyOf(lib, lists) || Applied(lib, Compiled(lib, saved), resources) == right
  {
    LoadSaved(lib, saved, savedResources, KeyOf(lib, lists));
  }

  /** The file cannot mislead a start with these lists. */
  ghost predicate Honest<E>(lib: Library<E>, file: Option<seq<Byte>>, lists: seq<ListEntry>) {
    var loaded := LoadCached(lib, file, KeyOf(lib, lists));
    loaded.Some? ==> loaded.value == Compiled(lib, lists)
  }

  /** With no collision, no saved file misleads: absent, short and foreign files load nothing at all. */
  lemma SavedIsHonest<E>(lib: Library<E>, saved: seq<ListEntry>, resources: seq<string>, lists: seq<ListEntry>)
    requires RoundTrips(lib)
    requires KeyOf(lib, saved) == KeyOf(lib, lists) ==> Ruleset(saved) == Ruleset(lists)
    ensures Honest(lib, FileFor(lib, saved, resources), lists)
  {
    if FileFor(lib, saved, resources).Some? { LoadSaved(lib, saved, resources, KeyOf(lib, lists)); }
  }

  /** The file starts with this key, and the library reads the rest. */
  predicate Loads<E>(lib: Library<E>, file: Option<seq<Byte>>, key: Key) {
    file.Some? && |file.value| >= 8 && file.value[..8] == KeyBytes(key) && lib.deserialize(file.value[8..]).Some?
  }

  /** The file was saved for lists that do not collide with these. */
  ghost predicate SavedWithoutCollision<E>(lib: Library<E>, file: Option<seq<Byte>>, lists: seq<ListEntry>) {
    exists saved, resources ::
      FileFor(lib, saved, resources) == file && (KeyOf(lib, saved) == KeyOf(lib, lists) ==> Ruleset(saved) == Ruleset(lists))
  }

  /**
   What may be in the cache file: nothing, too few bytes, any bytes under another key, any
   bytes the library does not read, or a file saved for lists that do not collide.
   */
  ghost predicate Harmless<E>(lib: Library<E>, file: Option<seq<Byte>>, lists: seq<ListEntry>) {
    !Loads(lib, file, KeyOf(lib, lists)) || SavedWithoutCollision(lib, file, lists)
  }

  lemma LoadsIff<E>(lib: Library<E>, file: Option<seq<Byte>>, key: Key)
    ensures LoadCached(lib, file, key).Some? <==> Loads(lib, file, key)
  {
    if file.Some? { LoadMeans(lib, file.value, key); }
  }

  lemma HarmlessIsHonest<E>(lib: Library<E>, file: Option<seq<Byte>>, lists: seq<ListEntry>)
    requires RoundTrips(lib) && Harmless(lib, file, lists)
    ensures Honest(lib, file, lists)
  {
    LoadsIff(lib, file, KeyOf(lib, lists));
    if Loads(lib, file, KeyOf(lib, lists)) {
      var saved, resources :| FileFor(lib, saved, resources) == file &&
        (KeyOf(lib, saved) == KeyOf(lib, lists) ==> Ruleset(saved) == Ruleset(lists));
      SavedIsHonest(lib, saved, resources, lists);
    }
  }

  /**
   Whichever of these the cache file is, the engine is the one compiled from the present
   lists with the resources applied; and it is to be saved exactly if there is a cache and
   its file was of no use.
   */
  lemma BuildOverAnyFile<E>(lib: Library<E>, lists: seq<ListEntry>, resources: seq<string>, cached: bool, file: Option<seq<Byte>>)
    requires RoundTrips(lib) && Harmless(lib, file, lists)
    ensures BuildEngine(lib, lists, resources, cached, file) ==
      (Applied(lib, Compiled(lib, lists), resources),
       if cached && !Loads(lib, file, KeyOf(lib, lists)) then Some(KeyOf(lib, lists)) else None)
  {
    HarmlessIsHonest(lib, file, lists);
    LoadsIff(lib, file, KeyOf(lib, lists));
  }

  /** After a save, a start with the same lists in any order compiles nothing and has the same engine. */
  lemma SecondStartIsCached<E>(lib: Library<E>, saved: seq<ListEntry>, lists: seq<ListEntry>,
                               savedResources: seq<string>, resources: seq<string>)
    requires RoundTrips(lib) && FileFor(lib, saved, savedResources).Some? && multiset(saved) == multiset(lists)
    ensures BuildEngine(lib, lists, resources, true, FileFor(lib, saved, savedResources))
         == (Applied(lib, Compiled(lib, saved), resources), None)
  {
    StoreOrderDoesNotShow(saved, lists);
    LoadSaved(lib, saved, savedResources, KeyOf(lib, lists));
  }
}
