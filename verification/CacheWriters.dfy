/**
 Saving the compiled engine: each writer creates a file beside the cache, writes it piece
 by piece and renames it over the cache; writers run side by side, any step can fail, and
 the process can stop at any point. The name beside the cache carries the writer's key.
 */
module CacheWriters {
  import opened Options
  import opened EngineBuild

  datatype Phase = Start | Writing(inode: nat, done: nat) | Written | Failing | Ended
  datatype Writer = Writer(key: Key, phase: Phase)

  /**
   The names in the directory point at inodes and inodes hold bytes. Two parts only
   remember: `owner` says which key's writers have created or truncated an inode, and
   `spawned` holds the keys of all writers so far.
   */
  datatype State = State(
    cache: Option<nat>,
    tmp: map<Key, nat>,
    data: map<nat, seq<Byte>>,
    owner: map<nat, Key>,
    spawned: set<Key>,
    writers: seq<Writer>)

  datatype Op =
    | Spawn(key: Key)
    | Create(w: nat, inode: nat)
    | Write(w: nat, count: nat)
    | Close(w: nat)
    | Rename(w: nat)
    | Fail(w: nat)
    | Remove(w: nat)
    | Crash

  /** What a reader of the cache file sees. */
  function Content(s: State): Option<seq<Byte>> {
    if s.cache.Some? && s.cache.value in s.data then Some(s.data[s.cache.value]) else None
  }

  /** Bytes `at` to `at + count` of the image written into a file at that place; a gap reads as zeros. */
  function Patch(d: seq<Byte>, image: seq<Byte>, at: nat, count: nat): (r: seq<Byte>)
    requires at + count <= |image|
  {
    seq(if |d| < at + count then at + count else |d|,
        i requires 0 <= i => if at <= i < at + count then image[i] else if i < |d| then d[i] else 0)
  }

  function Turn(s: State, w: nat, phase: Phase): State
    requires w < |s.writers|
  {
    s.(writers := s.writers[w := s.writers[w].(phase := phase)])
  }

  function Unlink(s: State, key: Key): State {
    s.(tmp := s.tmp - {key})
  }

  /** Open for writing: an existing file of that name is truncated, a missing one is made. */
  function CreateStep(s: State, w: nat, inode: nat): State
    requires w < |s.writers|
  {
    var key := s.writers[w].key;
    var i := if key in s.tmp then s.tmp[key] else inode;
    if key !in s.tmp && inode in s.data then s
    else Turn(s, w, Writing(i, 0)).(tmp := s.tmp[key := i], data := s.data[i := []], owner := s.owner[i := key])
  }

  function WriteStep(image: Key -> seq<Byte>, s: State, w: nat, count: nat): State
    requires w < |s.writers| && s.writers[w].phase.Writing?
  {
    var Writer(key, Writing(i, done)) := s.writers[w];
    if i !in s.data || done + count > |image(key)| then s
    else Turn(s, w, Writing(i, done + count)).(data := s.data[i := Patch(s.data[i], image(key), done, count)])
  }

  function RenameStep(s: State, w: nat): State
    requires w < |s.writers|
  {
    var key := s.writers[w].key;
    if key in s.tmp then Unlink(Turn(s, w, Ended), key).(cache := Some(s.tmp[key]))
    else Turn(s, w, Failing)
  }

  function AllEnded(writers: seq<Writer>): (r: seq<Writer>)
    ensures |r| == |writers|
    ensures forall i :: 0 <= i < |r| ==> r[i] == writers[i].(phase := Ended)
  {
    seq(|writers|, i requires 0 <= i < |writers| => writers[i].(phase := Ended))
  }

  /** One step of one writer; a step that is not this writer's next one changes nothing. */
  function Step(image: Key -> seq<Byte>, s: State, op: Op): State {
    if op.Spawn? then s.(writers := s.writers + [Writer(op.key, Start)], spawned := s.spawned + {op.key})
    else if op.Crash? then s.(writers := AllEnded(s.writers))
    else if op.w >= |s.writers| then s
    else
      var Writer(key, phase) := s.writers[op.w];
      match op
      case Create(w, inode) => if phase.Start? then CreateStep(s, w, inode) else s
      case Write(w, count) => if phase.Writing? then WriteStep(image, s, w, count) else s
      case Close(w) => if phase.Writing? && phase.done == |image(key)| then Turn(s, w, Written) else s
      case Rename(w) => if phase.Written? then RenameStep(s, w) else s
      case Fail(w) => if phase.Ended? then s else Turn(s, w, Failing)
      case Remove(w) => if phase.Failing? then Unlink(Turn(s, w, Ended), key) else s
  }

  function Run(image: Key -> seq<Byte>, s: State, ops: seq<Op>): State {
    if ops == [] then s else Step(image, Run(image, s, ops[..|ops| - 1]), ops[|ops| - 1])
  }

  // ----- what every run keeps

  /** The names point at files, and no two at the same one. */
  ghost predicate Files(s: State) {
    && (s.cache.Some? ==> s.cache.value in s.data)
    && (forall k :: k in s.tmp ==> s.tmp[k] in s.data && s.cache != Some(s.tmp[k]))
    && (forall k, l :: k in s.tmp && l in s.tmp && s.tmp[k] == s.tmp[l] ==> k == l)
  }

  /** At a start: any cache file and any left-over files, no writer. */
  ghost predicate Init(s: State) {
    Files(s) && s.owner == map[] && s.spawned == {} && s.writers == []
  }

  /** A copy with bytes missing: cut short, or with zeros where nothing was written. */
  ghost predicate Copy(d: seq<Byte>, image: seq<Byte>) {
    |d| <= |image| && forall i :: 0 <= i < |d| ==> d[i] == image[i] || d[i] == 0
  }

  /** A file a writer has touched is a copy of its image, perhaps with bytes missing. */
  ghost predicate Copies(image: Key -> seq<Byte>, s: State) {
    forall i :: i in s.owner ==> i in s.data && Copy(s.data[i], image(s.owner[i])) && s.owner[i] in s.spawned
  }

  ghost predicate NamesMatch(s: State) {
    forall k :: k in s.tmp && s.tmp[k] in s.owner ==> s.owner[s.tmp[k]] == k
  }

  /** A writer under way writes to a file of its key, and the name of its key is no left-over. */
  ghost predicate UnderWay(s: State, x: Writer) {
    && x.key in s.spawned
    && (x.phase.Writing? ==> x.phase.inode in s.owner && s.owner[x.phase.inode] == x.key)
    && (x.phase.Writing? || x.phase.Written? ==> x.key in s.tmp ==> s.tmp[x.key] in s.owner)
  }

  ghost predicate AllUnderWay(s: State) {
    forall w :: 0 <= w < |s.writers| ==> UnderWay(s, s.writers[w])
  }

  /** The cache is still the file it was, untouched, or one of the writers'. */
  ghost predicate Kept(s0: State, s: State) {
    || (s.cache.Some? && s.cache.value in s.owner)
    || (s.cache == s0.cache && Content(s) == Content(s0))
  }

  ghost predicate Inv(image: Key -> seq<Byte>, s0: State, s: State) {
    Files(s) && Copies(image, s) && NamesMatch(s) && AllUnderWay(s) && Kept(s0, s)
  }

  lemma PatchCopy(d: seq<Byte>, image: seq<Byte>, at: nat, count: nat)
    requires Copy(d, image) && at + count <= |image|
    ensures Copy(Patch(d, image, at, count), image)
  {
  }

  lemma SpawnInv(image: Key -> seq<Byte>, s0: State, s: State, key: Key)
    requires Inv(image, s0, s)
    ensures Inv(image, s0, Step(image, s, Spawn(key)))
  {
    var s' := Step(image, s, Spawn(key));
  }

  lemma CrashInv(image: Key -> seq<Byte>, s0: State, s: State)
    requires Inv(image, s0, s)
    ensures Inv(image, s0, Step(image, s, Crash))
  {
    var s' := Step(image, s, Crash);
  }

  lemma TurnInv(image: Key -> seq<Byte>, s0: State, s: State, w: nat, phase: Phase)
    requires Inv(image, s0, s) && w < |s.writers|
    requires UnderWay(s, s.writers[w].(phase := phase))
    ensures Inv(image, s0, Turn(s, w, phase))
  {
  }

  lemma UnlinkInv(image: Key -> seq<Byte>, s0: State, s: State, key: Key)
    requires Inv(image, s0, s)
    ensures Inv(image, s0, Unlink(s, key))
  {
    var s' := Unlink(s, key);
  }

  /** The new bytes of one file of a writer's own key. */
  lemma DataInv(image: Key -> seq<Byte>, s0: State, s: State, i: nat, d: seq<Byte>)
    requires Inv(image, s0, s) && i in s.owner && Copy(d, image(s.owner[i]))
    ensures Inv(image, s0, s.(data := s.data[i := d]))
  {
    var s' := s.(data := s.data[i := d]);
  }

  /** A file claimed for a key: the key's left-over, or a new one. */
  lemma ClaimInv(image: Key -> seq<Byte>, s0: State, s: State, w: nat, i: nat)
    requires Inv(image, s0, s) && Files(s0) && w < |s.writers|
    requires var key := s.writers[w].key; if key in s.tmp then i == s.tmp[key] else i !in s.data
    ensures var key := s.writers[w].key;
      Inv(image, s0, s.(tmp := s.tmp[key := i], data := s.data[i := []], owner := s.owner[i := key]))
  {
    var key := s.writers[w].key;
    var s' := s.(tmp := s.tmp[key := i], data := s.data[i := []], owner := s.owner[i := key]);
    forall v | 0 <= v < |s'.writers| ensures UnderWay(s', s'.writers[v]) {
      assert UnderWay(s, s.writers[v]);
    }
  }

  lemma StepInv(image: Key -> seq<Byte>, s0: State, s: State, op: Op)
    requires Inv(image, s0, s) && Files(s0)
    ensures Inv(image, s0, Step(image, s, op))
  {
    if op.Spawn? {
      SpawnInv(image, s0, s, op.key);
    } else if op.Crash? {
      CrashInv(image, s0, s);
    } else if op.w < |s.writers| {
      WriterInv(image, s0, s, op);
    }
  }

  lemma CreateInv(image: Key -> seq<Byte>, s0: State, s: State, w: nat, inode: nat)
    requires Inv(image, s0, s) && Files(s0) && w < |s.writers|
    ensures Inv(image, s0, CreateStep(s, w, inode))
  {
    var key := s.writers[w].key;
    var i := if key in s.tmp then s.tmp[key] else inode;
    if key in s.tmp || inode !in s.data {
      ClaimInv(image, s0, s, w, i);
      var s' := s.(tmp := s.tmp[key := i], data := s.data[i := []], owner := s.owner[i := key]);
      TurnInv(image, s0, s', w, Writing(i, 0));
      assert CreateStep(s, w, inode) == Turn(s', w, Writing(i, 0));
    }
  }

  lemma WriteInv(image: Key -> seq<Byte>, s0: State, s: State, w: nat, count: nat)
    requires Inv(image, s0, s) && w < |s.writers| && s.writers[w].phase.Writing?
    ensures Inv(image, s0, WriteStep(image, s, w, count))
  {
    var Writer(key, Writing(i, done)) := s.writers[w];
    assert UnderWay(s, s.writers[w]);
    if done + count <= |image(key)| {
      PatchCopy(s.data[i], image(key), done, count);
      var d := Patch(s.data[i], image(key), done, count);
      DataInv(image, s0, s, i, d);
      TurnInv(image, s0, s.(data := s.data[i := d]), w, Writing(i, done + count));
    }
  }

  lemma RenameInv(image: Key -> seq<Byte>, s0: State, s: State, w: nat)
    requires Inv(image, s0, s) && w < |s.writers| && s.writers[w].phase.Written?
    ensures Inv(image, s0, RenameStep(s, w))
  {
    var key := s.writers[w].key;
    assert UnderWay(s, s.writers[w]);
    if key in s.tmp {
      TurnInv(image, s0, s, w, Ended);
      var s1 := Turn(s, w, Ended);
      UnlinkInv(image, s0, s1, key);
      MoveInv(image, s0, Unlink(s1, key), s.tmp[key]);
    } else {
      TurnInv(image, s0, s, w, Failing);
    }
  }

  lemma MoveInv(image: Key -> seq<Byte>, s0: State, s: State, i: nat)
    requires Inv(image, s0, s) && i in s.owner && forall k :: k in s.tmp ==> s.tmp[k] != i
    ensures Inv(image, s0, s.(cache := Some(i)))
  {
    var s' := s.(cache := Some(i));
    forall v | 0 <= v < |s'.writers| ensures UnderWay(s', s'.writers[v]) {
      assert UnderWay(s, s.writers[v]);
    }
  }

  lemma WriterInv(image: Key -> seq<Byte>, s0: State, s: State, op: Op)
    requires Inv(image, s0, s) && Files(s0) && !op.Spawn? && !op.Crash? && op.w < |s.writers|
    ensures Inv(image, s0, Step(image, s, op))
  {
    var Writer(key, phase) := s.writers[op.w];
    assert UnderWay(s, s.writers[op.w]);
    match op
    case Create(w, inode) => CreateInv(image, s0, s, w, inode);
    case Write(w, count) => if phase.Writing? { WriteInv(image, s0, s, w, count); }
    case Close(w) => if phase.Writing? { TurnInv(image, s0, s, w, Written); }
    case Rename(w) => if phase.Written? { RenameInv(image, s0, s, w); }
    case Fail(w) => TurnInv(image, s0, s, w, Failing);
    case Remove(w) =>
      TurnInv(image, s0, s, w, Ended);
      UnlinkInv(image, s0, Turn(s, w, Ended), key);
  }

  lemma {:induction false} RunInv(image: Key -> seq<Byte>, s0: State, ops: seq<Op>)
    requires Init(s0)
    ensures Inv(image, s0, Run(image, s0, ops))
  {
    if ops != [] {
      RunInv(image, s0, ops[..|ops| - 1]);
      StepInv(image, s0, Run(image, s0, ops[..|ops| - 1]), ops[|ops| - 1]);
    }
  }

  /**
   Whatever the keys, the failures and the moment the process stops, the cache file holds
   what it held before or a copy of a writer's image, perhaps with bytes missing.
   */
  lemma CacheIsPriorOrCopy(image: Key -> seq<Byte>, s0: State, ops: seq<Op>)
    requires Init(s0)
    ensures var s := Run(image, s0, ops);
      Content(s) == Content(s0) || exists k :: k in s.spawned && Content(s).Some? && Copy(Content(s).value, image(k))
  {
    RunInv(image, s0, ops);
  }

  // ----- writers with different keys

  predicate Live(x: Writer) {
    !x.phase.Ended?
  }

  /** No two writers under way have the same key. */
  ghost predicate Apart(s: State) {
    forall v, w :: 0 <= v < w < |s.writers| && Live(s.writers[v]) && Live(s.writers[w]) ==> s.writers[v].key != s.writers[w].key
  }

  ghost predicate NoneOfKey(s: State, key: Key) {
    forall w :: 0 <= w < |s.writers| && Live(s.writers[w]) ==> s.writers[w].key != key
  }

  /** No writer is ever spawned while another of its key is under way. */
  ghost predicate ApartRun(image: Key -> seq<Byte>, s0: State, ops: seq<Op>) {
    ops == [] ||
      (&& ApartRun(image, s0, ops[..|ops| - 1])
       && var op := ops[|ops| - 1];
          (op.Spawn? ==> NoneOfKey(Run(image, s0, ops[..|ops| - 1]), op.key)))
  }

  lemma ApartStep(image: Key -> seq<Byte>, s: State, op: Op)
    requires Apart(s) && (op.Spawn? ==> NoneOfKey(s, op.key))
    ensures Apart(Step(image, s, op))
  {
  }

  /** The writer's file holds what it has written so far, and nothing else. */
  ghost predicate Exact(image: Key -> seq<Byte>, s: State, x: Writer) {
    && (x.phase.Writing? || x.phase.Written? ==> x.key in s.tmp && s.tmp[x.key] in s.data)
    && (x.phase.Writing? ==>
          s.tmp[x.key] == x.phase.inode && x.phase.done <= |image(x.key)| &&
          s.data[x.phase.inode] == image(x.key)[..x.phase.done])
    && (x.phase.Written? ==> s.data[s.tmp[x.key]] == image(x.key))
  }

  ghost predicate AllExact(image: Key -> seq<Byte>, s: State) {
    forall w :: 0 <= w < |s.writers| ==> Exact(image, s, s.writers[w])
  }

  ghost predicate Whole(image: Key -> seq<Byte>, s: State) {
    s.cache.Some? && s.cache.value in s.owner ==> Content(s) == Some(image(s.owner[s.cache.value]))
  }

  lemma PatchPrefix(image: seq<Byte>, at: nat, count: nat)
    requires at + count <= |image|
    ensures Patch(image[..at], image, at, count) == image[..at + count]
  {
  }

  /** A step that only concerns one key leaves the other writers' files alone. */
  lemma OthersExact(image: Key -> seq<Byte>, s: State, s': State, w: nat)
    requires w < |s.writers| && Apart(s) && AllExact(image, s) && Live(s.writers[w])
    requires |s'.writers| == |s.writers| && forall v :: 0 <= v < |s.writers| && v != w ==> s'.writers[v] == s.writers[v]
    requires forall k :: k in s.tmp && s.tmp[k] in s.data && k != s.writers[w].key ==>
      k in s'.tmp && s'.tmp[k] == s.tmp[k] && s.tmp[k] in s'.data && s'.data[s.tmp[k]] == s.data[s.tmp[k]]
    ensures forall v :: 0 <= v < |s.writers| && v != w ==> Exact(image, s', s'.writers[v])
  {
    forall v | 0 <= v < |s.writers| && v != w ensures Exact(image, s', s'.writers[v]) {
      assert Exact(image, s, s.writers[v]);
      if Live(s.writers[v]) {
        assert s.writers[v].key != s.writers[w].key;
      }
    }
  }

  lemma CreateExact(image: Key -> seq<Byte>, s: State, w: nat, inode: nat)
    requires w < |s.writers| && Files(s) && Apart(s) && AllExact(image, s) && Whole(image, s) && s.writers[w].phase.Start?
    ensures AllExact(image, CreateStep(s, w, inode)) && Whole(image, CreateStep(s, w, inode))
  {
    var s' := CreateStep(s, w, inode);
    if s' != s {
      OthersExact(image, s, s', w);
      assert Exact(image, s', s'.writers[w]);
    }
  }

  lemma WriteExact(image: Key -> seq<Byte>, s: State, w: nat, count: nat)
    requires w < |s.writers| && Files(s) && Apart(s) && AllExact(image, s) && Whole(image, s) && s.writers[w].phase.Writing?
    ensures AllExact(image, WriteStep(image, s, w, count)) && Whole(image, WriteStep(image, s, w, count))
  {
    var Writer(key, Writing(i, done)) := s.writers[w];
    var s' := WriteStep(image, s, w, count);
    assert Exact(image, s, s.writers[w]);
    if s' != s {
      OthersExact(image, s, s', w);
      PatchPrefix(image(key), done, count);
      assert Exact(image, s', s'.writers[w]);
    }
  }

  lemma RenameExact(image: Key -> seq<Byte>, s: State, w: nat)
    requires w < |s.writers| && Apart(s) && AllExact(image, s) && Whole(image, s) && NamesMatch(s) && s.writers[w].phase.Written?
    ensures AllExact(image, RenameStep(s, w)) && Whole(image, RenameStep(s, w))
  {
    var s' := RenameStep(s, w);
    assert Exact(image, s, s.writers[w]);
    OthersExact(image, s, s', w);
    assert Exact(image, s', s'.writers[w]);
  }

  lemma TurnExact(image: Key -> seq<Byte>, s: State, w: nat, phase: Phase)
    requires w < |s.writers| && AllExact(image, s) && Whole(image, s) && Exact(image, s, s.writers[w].(phase := phase))
    ensures AllExact(image, Turn(s, w, phase)) && Whole(image, Turn(s, w, phase))
  {
    var s' := Turn(s, w, phase);
    forall v | 0 <= v < |s'.writers| ensures Exact(image, s', s'.writers[v]) {
      assert Exact(image, s, s.writers[v]);
    }
  }

  lemma RemoveExact(image: Key -> seq<Byte>, s: State, w: nat)
    requires w < |s.writers| && Apart(s) && AllExact(image, s) && Whole(image, s) && s.writers[w].phase.Failing?
    ensures var s' := Unlink(Turn(s, w, Ended), s.writers[w].key); AllExact(image, s') && Whole(image, s')
  {
    var s' := Unlink(Turn(s, w, Ended), s.writers[w].key);
    OthersExact(image, s, s', w);
    assert Exact(image, s', s'.writers[w]);
  }

  lemma StepExact(image: Key -> seq<Byte>, s0: State, s: State, op: Op)
    requires Inv(image, s0, s) && Apart(s) && AllExact(image, s) && Whole(image, s)
    ensures AllExact(image, Step(image, s, op)) && Whole(image, Step(image, s, op))
  {
    var s' := Step(image, s, op);
    if op.Spawn? || op.Crash? {
      forall v | 0 <= v < |s'.writers| ensures Exact(image, s', s'.writers[v]) {
        if v < |s.writers| { assert Exact(image, s, s.writers[v]); }
      }
    } else if op.w < |s.writers| {
      WriterExact(image, s, op);
    }
  }

  lemma WriterExact(image: Key -> seq<Byte>, s: State, op: Op)
    requires Files(s) && NamesMatch(s) && Apart(s) && AllExact(image, s) && Whole(image, s)
    requires !op.Spawn? && !op.Crash? && op.w < |s.writers|
    ensures AllExact(image, Step(image, s, op)) && Whole(image, Step(image, s, op))
  {
    var Writer(key, phase) := s.writers[op.w];
    assert Exact(image, s, s.writers[op.w]);
    match op
    case Create(w, inode) => if phase.Start? { CreateExact(image, s, w, inode); }
    case Write(w, count) => if phase.Writing? { WriteExact(image, s, w, count); }
    case Close(w) =>
      if phase.Writing? && phase.done == |image(key)| {
        assert image(key)[..phase.done] == image(key);
        TurnExact(image, s, w, Written);
      }
    case Rename(w) => if phase.Written? { RenameExact(image, s, w); }
    case Fail(w) => TurnExact(image, s, w, Failing);
    case Remove(w) => if phase.Failing? { RemoveExact(image, s, w); }
  }

  lemma {:induction false} RunExact(image: Key -> seq<Byte>, s0: State, ops: seq<Op>)
    requires Init(s0) && ApartRun(image, s0, ops)
    ensures var s := Run(image, s0, ops); AllExact(image, s) && Whole(image, s) && Apart(s)
  {
    if ops != [] {
      var before := ops[..|ops| - 1];
      RunExact(image, s0, before);
      RunInv(image, s0, before);
      StepExact(image, s0, Run(image, s0, before), ops[|ops| - 1]);
      ApartStep(image, Run(image, s0, before), ops[|ops| - 1]);
    }
  }

  /**
   With different keys, however the writers' steps interleave, fail or are cut off, the
   cache file holds what it held before or one writer's whole image.
   */
  lemma CacheIsPriorOrWhole(image: Key -> seq<Byte>, s0: State, ops: seq<Op>)
    requires Init(s0) && ApartRun(image, s0, ops)
    ensures var s := Run(image, s0, ops);
      Content(s) == Content(s0) || exists k :: k in s.spawned && Content(s) == Some(image(k))
  {
    RunInv(image, s0, ops);
    RunExact(image, s0, ops);
  }

  // ----- writers with the same key

  /** The keys of the writers a run spawns, in order. */
  function SpawnKeys(ops: seq<Op>): seq<Key> {
    if ops == [] then []
    else SpawnKeys(ops[..|ops| - 1]) + if ops[|ops| - 1].Spawn? then [ops[|ops| - 1].key] else []
  }

  ghost predicate NoRepeat(ks: seq<Key>) {
    forall p, q :: 0 <= p < q < |ks| ==> ks[p] != ks[q]
  }

  lemma Then(image: Key -> seq<Byte>, s0: State, ops: seq<Op>, op: Op) returns (more: seq<Op>)
    ensures Run(image, s0, more) == Step(image, Run(image, s0, ops), op)
    ensures SpawnKeys(more) == SpawnKeys(ops) + if op.Spawn? then [op.key] else []
  {
    more := ops + [op];
    assert more[..|ops|] == ops;
  }

  lemma StepKeys(image: Key -> seq<Byte>, s: State, op: Op)
    ensures var s' := Step(image, s, op);
      && |s'.writers| == |s.writers| + (if op.Spawn? then 1 else 0)
      && (forall w :: 0 <= w < |s.writers| ==> s'.writers[w].key == s.writers[w].key)
      && (op.Spawn? ==> s'.writers[|s.writers|].key == op.key)
      && s'.spawned == s.spawned + if op.Spawn? then {op.key} else {}
  {
  }

  /** The writers of a run are those spawned, in order. */
  ghost predicate WritersAre(s: State, ks: seq<Key>) {
    && |s.writers| == |ks| && (forall w :: 0 <= w < |ks| ==> s.writers[w].key == ks[w])
    && (forall k :: k in s.spawned <==> k in ks)
  }

  lemma {:induction false} WriterKeys(image: Key -> seq<Byte>, s0: State, ops: seq<Op>)
    requires Init(s0)
    ensures WritersAre(Run(image, s0, ops), SpawnKeys(ops))
  {
    if ops != [] {
      var before := ops[..|ops| - 1];
      WriterKeys(image, s0, before);
      StepKeys(image, Run(image, s0, before), ops[|ops| - 1]);
    }
  }

  lemma {:induction false} NoRepeatApart(image: Key -> seq<Byte>, s0: State, ops: seq<Op>)
    requires Init(s0) && NoRepeat(SpawnKeys(ops))
    ensures ApartRun(image, s0, ops)
  {
    if ops != [] {
      var before, op := ops[..|ops| - 1], ops[|ops| - 1];
      var ks, all := SpawnKeys(before), SpawnKeys(ops);
      assert forall p :: 0 <= p < |ks| ==> all[p] == ks[p];
      NoRepeatApart(image, s0, before);
      WriterKeys(image, s0, before);
      if op.Spawn? {
        var s := Run(image, s0, before);
        forall w | 0 <= w < |s.writers| ensures s.writers[w].key != op.key { assert all[w] != all[|ks|]; }
      }
    }
  }

  /** The writer `w` of this key is in this phase. */
  ghost predicate Is(s: State, w: nat, key: Key, phase: Phase) {
    w < |s.writers| && s.writers[w] == Writer(key, phase)
  }

  /** The name beside the cache points at file `i`. */
  ghost predicate Named(s: State, key: Key, i: nat) {
    key in s.tmp && s.tmp[key] == i && i in s.data
  }

  lemma FirstCreates(image: Key -> seq<Byte>, s: State, p: nat, q: nat, key: Key, inode: nat) returns (i: nat)
    requires p != q && Is(s, p, key, Start) && Is(s, q, key, Start) && (key in s.tmp || inode !in s.data)
    ensures var s' := Step(image, s, Create(p, inode));
      Is(s', p, key, Writing(i, 0)) && Is(s', q, key, Start) && Named(s', key, i)
  {
    i := if key in s.tmp then s.tmp[key] else inode;
    assert Step(image, s, Create(p, inode)) == CreateStep(s, p, inode);
  }

  lemma FirstWrites(image: Key -> seq<Byte>, s: State, p: nat, q: nat, key: Key, i: nat)
    requires p != q && Is(s, p, key, Writing(i, 0)) && Is(s, q, key, Start) && Named(s, key, i)
    ensures var s' := Step(image, s, Write(p, |image(key)|));
      Is(s', p, key, Writing(i, |image(key)|)) && Is(s', q, key, Start) && Named(s', key, i)
  {
    assert Step(image, s, Write(p, |image(key)|)) == WriteStep(image, s, p, |image(key)|);
  }

  lemma FirstCloses(image: Key -> seq<Byte>, s: State, p: nat, q: nat, key: Key, i: nat)
    requires p != q && Is(s, p, key, Writing(i, |image(key)|)) && Is(s, q, key, Start) && Named(s, key, i)
    ensures var s' := Step(image, s, Close(p)); Is(s', p, key, Written) && Is(s', q, key, Start) && Named(s', key, i)
  {
    assert Step(image, s, Close(p)) == Turn(s, p, Written);
  }

  lemma SecondTruncates(image: Key -> seq<Byte>, s: State, p: nat, q: nat, key: Key, i: nat)
    requires p != q && Is(s, p, key, Written) && Is(s, q, key, Start) && Named(s, key, i)
    ensures var s' := Step(image, s, Create(q, i)); Is(s', p, key, Written) && Named(s', key, i) && s'.data[i] == []
  {
    assert Step(image, s, Create(q, i)) == CreateStep(s, q, i);
  }

  lemma FirstRenames(image: Key -> seq<Byte>, s: State, p: nat, key: Key, i: nat)
    requires Is(s, p, key, Written) && Named(s, key, i) && s.data[i] == []
    ensures Content(Step(image, s, Rename(p))) == Some([])
  {
    assert Step(image, s, Rename(p)) == RenameStep(s, p);
  }

  function Spawns(ks: seq<Key>): seq<Op> {
    if ks == [] then [] else Spawns(ks[..|ks| - 1]) + [Spawn(ks[|ks| - 1])]
  }

  lemma {:induction false} AllSpawned(image: Key -> seq<Byte>, s0: State, ks: seq<Key>)
    requires Init(s0)
    ensures var s := Run(image, s0, Spawns(ks));
      && s.tmp == s0.tmp && s.data == s0.data && |s.writers| == |ks|
      && forall w :: 0 <= w < |ks| ==> s.writers[w] == Writer(ks[w], Start)
    ensures SpawnKeys(Spawns(ks)) == ks
  {
    if ks != [] {
      var init := ks[..|ks| - 1];
      AllSpawned(image, s0, init);
      assert Spawns(ks)[..|Spawns(init)|] == Spawns(init);
      assert ks == init + [ks[|ks| - 1]];
    }
  }

  lemma {:induction false} FreshInode(used: set<nat>) returns (i: nat)
    ensures forall j :: j in used ==> j < i
    decreases |used|
  {
    i := 0;
    if used != {} {
      var x :| x in used;
      var k := FreshInode(used - {x});
      i := if x < k then k else x + 1;
      forall j | j in used ensures j < i { if j != x { assert j in used - {x}; } }
    }
  }

  /** Two writers of one key share the name beside the cache: one can publish what the other has just truncated. */
  lemma SharedKeyPublishesEmptyFile(image: Key -> seq<Byte>, s0: State, ks: seq<Key>, p: nat, q: nat)
    requires Init(s0) && p < q < |ks| && ks[p] == ks[q]
    ensures exists ops :: SpawnKeys(ops) == ks && Content(Run(image, s0, ops)) == Some([])
  {
    var key := ks[p];
    AllSpawned(image, s0, ks);
    var inode := FreshInode(s0.data.Keys);
    assert inode !in s0.data;
    var o0 := Spawns(ks);
    var i := FirstCreates(image, Run(image, s0, o0), p, q, key, inode);
    var o1 := Then(image, s0, o0, Create(p, inode));
    FirstWrites(image, Run(image, s0, o1), p, q, key, i);
    var o2 := Then(image, s0, o1, Write(p, |image(key)|));
    FirstCloses(image, Run(image, s0, o2), p, q, key, i);
    var o3 := Then(image, s0, o2, Close(p));
    SecondTruncates(image, Run(image, s0, o3), p, q, key, i);
    var o4 := Then(image, s0, o3, Create(q, i));
    FirstRenames(image, Run(image, s0, o4), p, key, i);
    var o5 := Then(image, s0, o4, Rename(p));
  }

  ghost predicate PriorOrWhole(image: Key -> seq<Byte>, s0: State, s: State) {
    Content(s) == Content(s0) || exists k :: k in s.spawned && Content(s) == Some(image(k))
  }

  /** However the steps interleave and fail, runs that spawn these writers leave the prior content or a whole image. */
  ghost predicate AlwaysWhole(image: Key -> seq<Byte>, s0: State, ks: seq<Key>) {
    forall ops :: SpawnKeys(ops) == ks ==> PriorOrWhole(image, s0, Run(image, s0, ops))
  }

  /** That is so if and only if no two of the writers have the same key. */
  lemma AlwaysWholeIff(image: Key -> seq<Byte>, s0: State, ks: seq<Key>)
    requires Init(s0) && Content(s0) != Some([]) && forall k :: k in ks ==> image(k) != []
    ensures AlwaysWhole(image, s0, ks) <==> NoRepeat(ks)
  {
    if NoRepeat(ks) {
      forall ops | SpawnKeys(ops) == ks ensures PriorOrWhole(image, s0, Run(image, s0, ops)) {
        NoRepeatApart(image, s0, ops);
        CacheIsPriorOrWhole(image, s0, ops);
      }
    } else {
      var p, q :| 0 <= p < q < |ks| && ks[p] == ks[q];
      SharedKeyPublishesEmptyFile(image, s0, ks, p, q);
      var ops :| SpawnKeys(ops) == ks && Content(Run(image, s0, ops)) == Some([]);
      WriterKeys(image, s0, ops);
      assert !PriorOrWhole(image, s0, Run(image, s0, ops));
    }
  }
}
