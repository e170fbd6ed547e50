/** The stored form of a filter list: a source header, an off switch, and a title inside the text. */
module ListText {
  import opened Options
  import opened Ascii
  import opened Text

  datatype ListEntry = ListEntry(name: string, source: string, enabled: bool, text: string)

  const SOURCE_MARK: string := "! source: "
  const DISABLED_MARK: string := "! disabled\n"

  predicate StartsWith(s: string, t: string) {
    |t| <= |s| && s[..|t|] == t
  }

  /** The header written above a stored list. */
  function Header(source: string, enabled: bool): string {
    SOURCE_MARK + (source + "\n") + if enabled then "" else DISABLED_MARK
  }

  /** Source, switch and body of a stored text. */
  function SplitHeader(fallback: string, text: string): (string, bool, string) {
    var (source, body) := SplitSource(fallback, text);
    if StartsWith(body, DISABLED_MARK) then (source, false, body[|DISABLED_MARK|..]) else (source, true, body)
  }

  function SplitSource(fallback: string, text: string): (string, string) {
    if !StartsWith(text, SOURCE_MARK) then (fallback, text)
    else
      var rest := text[|SOURCE_MARK|..];
      var i := IndexOf(rest, IsNewline);
      (rest[..i], if i < |rest| then rest[i + 1..] else "")
  }

  lemma SplitWritten(fallback: string, mark: string, source: string, body: string, text: string)
    requires mark == SOURCE_MARK && text == mark + (source + "\n" + body)
    ensures var rest := source + "\n" + body;
      var i := IndexOf(rest, IsNewline);
      SplitSource(fallback, text) == (rest[..i], if i < |rest| then rest[i + 1..] else "")
  {
    assert text[..|mark|] == mark && text[|mark|..] == source + "\n" + body;
  }

  ghost predicate SingleLine(s: string) {
    forall k :: 0 <= k < |s| ==> !IsNewline(s[k])
  }

  lemma FirstLineSplit(source: string, body: string, rest: string)
    requires rest == source + "\n" + body && SingleLine(source)
    ensures IndexOf(rest, IsNewline) == |source| && rest[..|source|] == source && rest[|source| + 1..] == body
  {
    FirstIndex(rest, IsNewline, 0, |source|);
  }

  lemma BrokenSource(source: string, body: string, rest: string)
    requires rest == source + "\n" + body && !SingleLine(source)
    ensures IndexOf(rest, IsNewline) < |source|
  {
    var k :| 0 <= k < |source| && IsNewline(source[k]);
    assert rest[k] == source[k];
    IndexAtMost(rest, IsNewline, 0, k);
  }

  lemma SourceRoundTrip(fallback: string, source: string, body: string, text: string)
    requires text == SOURCE_MARK + (source + "\n" + body)
    ensures SplitSource(fallback, text).0 == source <==> SingleLine(source)
    ensures SingleLine(source) ==> SplitSource(fallback, text).1 == body
  {
    var rest := source + "\n" + body;
    SplitWritten(fallback, SOURCE_MARK, source, body, text);
    if SingleLine(source) {
      FirstLineSplit(source, body, rest);
    } else {
      BrokenSource(source, body, rest);
    }
  }

  lemma {:induction false} IndexAtMost(s: string, f: char -> bool, i: nat, k: nat)
    requires i <= k < |s| && f(s[k])
    ensures IndexFrom(s, f, i) <= k
    decreases k - i
  {
    if i < k && !f(s[i]) { IndexAtMost(s, f, i + 1, k); }
  }

  /**
   A list read back from disk has the source, the switch and the text it was stored with,
   if and only if its source is a single line and, when it is enabled, its text does not
   itself begin with the mark of a disabled list.
   */
  lemma StoredRoundTripIff(fallback: string, source: string, enabled: bool, text: string)
    ensures SplitHeader(fallback, Header(source, enabled) + text) == (source, enabled, text) <==>
      && SingleLine(source)
      && (enabled ==> !StartsWith(text, DISABLED_MARK))
  {
    var off := if enabled then "" else DISABLED_MARK;
    var body := off + text;
    var all := Header(source, enabled) + text;
    assert all == SOURCE_MARK + (source + "\n" + body);
    SourceRoundTrip(fallback, source, body, all);
    SwitchRoundTrip(enabled, text, body);
  }

  lemma SwitchRoundTrip(enabled: bool, text: string, body: string)
    requires body == (if enabled then "" else DISABLED_MARK) + text
    ensures enabled ==> body == text
    ensures !enabled ==> StartsWith(body, DISABLED_MARK) && body[|DISABLED_MARK|..] == text
  {
  }

  /** An enabled list whose text starts with the mark comes back disabled. */
  lemma MarkedTextComesBackDisabled(fallback: string, source: string, rules: string)
    requires SingleLine(source)
    ensures SplitHeader(fallback, Header(source, true) + (DISABLED_MARK + rules)) == (source, false, rules)
  {
    var body := DISABLED_MARK + rules;
    var all := Header(source, true) + body;
    assert all == SOURCE_MARK + (source + "\n" + body);
    SourceRoundTrip(fallback, source, body, all);
    SwitchRoundTrip(false, rules, body);
  }

  // ----- names

  predicate IsMark(c: char) {
    c == '!' || c == '#'
  }

  /** The title a comment line gives, if it gives one. */
  function TitleIn(line: string): Option<string> {
    if line == "" || !IsMark(line[0]) then None
    else
      var rest := TrimStart(TrimStart(line, IsMark), IsWhite);
      if StartsWith(rest, "Title:") || StartsWith(rest, "title:") then Some(rest[6..]) else None
  }

  function FirstTitle(lines: seq<string>): Option<string> {
    if lines == [] then None
    else if TitleIn(lines[0]).Some? then TitleIn(lines[0])
    else FirstTitle(lines[1..])
  }

  /** The first title among the first thirty lines, unless it is blank. */
  function ListTitle(text: string): Option<string> {
    var lines := Lines(text);
    var t := FirstTitle(if |lines| > 30 then lines[..30] else lines);
    if t.Some? && Trim(t.value, IsWhite) != "" then Some(Trim(t.value, IsWhite)) else None
  }

  predicate NameChar(c: char) {
    'a' <= c <= 'z' || 'A' <= c <= 'Z' || '0' <= c <= '9' || c == '-' || c == '_' || c == '.'
  }

  predicate IsDash(c: char) {
    c == '-'
  }

  function DropTxt(s: string): string {
    if |s| >= 4 && s[|s| - 4..] == ".txt" then DropTxt(s[..|s| - 4]) else s
  }

  /** Every run of other characters becomes one dash. */
  function Dashed(s: string): string {
    if s == "" then ""
    else
      var out, c := Dashed(s[..|s| - 1]), s[|s| - 1];
      if NameChar(c) then out + [c]
      else if out != "" && out[|out| - 1] == '-' then out
      else out + "-"
  }

  function SanitizeName(name: string): string {
    Trim(Dashed(DropTxt(Trim(name, IsWhite))), IsDash)
  }

  /** The list a stored text stands for, named by its title if it has a usable one. */
  function EntryFromText(fallbackName: string, fallbackSource: string, text: string): ListEntry {
    var (source, enabled, body) := SplitHeader(fallbackSource, text);
    var title := ListTitle(body);
    var name := if title.Some? then SanitizeName(title.value) else "";
    ListEntry(if name == "" then fallbackName else name, source, enabled, body)
  }

  /** So what is stored for a list reads back as that list, under the name its text gives it. */
  lemma EntryRoundTrip(fallback: string, origin: string, source: string, enabled: bool, text: string)
    requires SingleLine(source) && (enabled ==> !StartsWith(text, DISABLED_MARK))
    ensures var e := EntryFromText(fallback, origin, Header(source, enabled) + text);
      e.source == source && e.enabled == enabled && e.text == text
  {
    StoredRoundTripIff(origin, source, enabled, text);
  }
}

/**
 Reconciling the stored files: copies of one list are reduced to one, and the other
 copies' files are marked for removal.
 */
module Reconcile {
  import opened Options
  import opened Text
  import opened ListText

  datatype StoredList = StoredList(id: string, origin: string, text: string)

  /** A stored file as the loop sees it: its entry, and whether it sits under its name's own id. */
  datatype Item = Item(id: string, custom: bool, web: bool, canonical: bool, entry: ListEntry, lines: seq<string>)

  /** The rules of a custom list: its lines without the source header, trimmed, blanks left out. */
  function RuleLines(lines: seq<string>): seq<string> {
    if lines == [] then []
    else
      var t := Trim(lines[0], IsWhite);
      (if t == "" then [] else [t]) + RuleLines(lines[1..])
  }

  /** `ownId` is the id a list of a given name is stored under (the name in lower case). */
  function ItemOf(s: StoredList, ownId: string -> string): Item {
    var e := EntryFromText(s.id, s.origin, s.text);
    Item(s.id, s.id == "custom" || s.id == "custom-web", s.id == "custom-web", s.id == ownId(e.name), e,
         RuleLines(Lines(SplitSource(s.origin, s.text).1)))
  }

  function ItemsOf(stored: seq<StoredList>, ownId: string -> string): seq<Item> {
    seq(|stored|, i requires 0 <= i < |stored| => ItemOf(stored[i], ownId))
  }

  predicate Named(x: Item, name: string) {
    !x.custom && x.entry.name == name
  }

  /**
   Of the first `n` files, file `j` is the one that stands for its name: the copy under
   the name's own id if there is one, and otherwise the first copy.
   */
  ghost predicate Survives(xs: seq<Item>, n: nat, j: nat)
    requires n <= |xs|
  {
    && j < n && !xs[j].custom
    && (xs[j].canonical || (NoCanonical(xs, n, xs[j].entry.name) && NoneBefore(xs, j, xs[j].entry.name)))
  }

  ghost predicate NoCanonical(xs: seq<Item>, n: nat, name: string)
    requires n <= |xs|
  {
    forall k :: 0 <= k < n && Named(xs[k], name) ==> !xs[k].canonical
  }

  ghost predicate NoneBefore(xs: seq<Item>, j: nat, name: string)
    requires j <= |xs|
  {
    forall k :: 0 <= k < j ==> !Named(xs[k], name)
  }

  /** Different files have different ids; so one name has at most one canonical copy. */
  ghost predicate Distinct(xs: seq<Item>) {
    && (forall i, j :: 0 <= i < j < |xs| ==> xs[i].id != xs[j].id)
    && (forall i, j :: 0 <= i < j < |xs| && xs[i].entry.name == xs[j].entry.name ==> !xs[i].canonical || !xs[j].canonical)
  }

  lemma DistinctIds(stored: seq<StoredList>, ownId: string -> string)
    requires forall i, j :: 0 <= i < j < |stored| ==> stored[i].id != stored[j].id
    ensures Distinct(ItemsOf(stored, ownId))
  {
    var xs := ItemsOf(stored, ownId);
    forall i, j | 0 <= i < j < |xs|
      ensures xs[i].id != xs[j].id && (xs[i].entry.name == xs[j].entry.name ==> !xs[i].canonical || !xs[j].canonical)
    {
      assert xs[i] == ItemOf(stored[i], ownId) && xs[j] == ItemOf(stored[j], ownId);
      assert stored[i].id != stored[j].id;
    }
  }

  /** One name, one survivor. */
  lemma SurvivorUnique(xs: seq<Item>, n: nat, i: nat, j: nat)
    requires Distinct(xs) && n <= |xs| && Survives(xs, n, i) && Survives(xs, n, j)
    requires xs[i].entry.name == xs[j].entry.name
    ensures i == j
  {
    assert Named(xs[i], xs[j].entry.name) && Named(xs[j], xs[i].entry.name);
  }

  /** The next file under a new name survives, and changes nothing for the others. */
  lemma NextNew(xs: seq<Item>, n: nat, j: nat)
    requires n < |xs| && !xs[n].custom && NoneBefore(xs, n, xs[n].entry.name) && j <= n
    ensures Survives(xs, n + 1, j) <==> j == n || Survives(xs, n, j)
  {
    if j < n && !xs[j].custom {
      assert Named(xs[j], xs[j].entry.name);
      Untouched(xs, n, j);
    }
  }

  lemma Untouched(xs: seq<Item>, n: nat, j: nat)
    requires n < |xs| && j < n && !Named(xs[n], xs[j].entry.name)
    ensures Survives(xs, n + 1, j) <==> Survives(xs, n, j)
  {
  }

  /** The next copy of a known name: the canonical one takes the place, any other is dropped. */
  lemma NextCopy(xs: seq<Item>, n: nat, p: nat, j: nat)
    requires Distinct(xs) && n < |xs| && !xs[n].custom && p < n && Named(xs[p], xs[n].entry.name) && j <= n
    ensures j == n ==> (Survives(xs, n + 1, j) <==> xs[n].canonical)
    ensures j < n && !Named(xs[j], xs[n].entry.name) ==> (Survives(xs, n + 1, j) <==> Survives(xs, n, j))
    ensures j < n && Named(xs[j], xs[n].entry.name) ==> (Survives(xs, n + 1, j) <==> Survives(xs, n, j) && !xs[n].canonical)
  {
    assert Named(xs[n], xs[n].entry.name);
    if j < n && !Named(xs[j], xs[n].entry.name) && !xs[j].custom {
      Untouched(xs, n, j);
    }
  }

  // ----- the loop

  /** The first entry of a name, from place `i` on. */
  function PositionOf(lists: seq<ListEntry>, name: string, i: nat := 0): (r: Option<nat>)
    requires i <= |lists|
    ensures r.Some? ==> i <= r.value < |lists| && lists[r.value].name == name
    ensures forall k :: i <= k < (if r.Some? then r.value else |lists|) ==> lists[k].name != name
    decreases |lists| - i
  {
    if i == |lists| then None
    else if lists[i].name == name then Some(i)
    else PositionOf(lists, name, i + 1)
  }

  function CustomLines(xs: seq<Item>, n: nat): seq<string>
    requires n <= |xs|
  {
    if n == 0 then [] else CustomLines(xs, n - 1) + if xs[n - 1].custom then xs[n - 1].lines else []
  }

  ghost predicate HasName(lists: seq<ListEntry>, name: string) {
    exists k :: 0 <= k < |lists| && lists[k].name == name
  }

  ghost predicate NamesApart(lists: seq<ListEntry>) {
    forall k, l :: 0 <= k < l < |lists| ==> lists[k].name != lists[l].name
  }

  /** Each list entry is that of a survivor among the first `n` files; `at` says of which. */
  ghost predicate Stands(xs: seq<Item>, n: nat, lists: seq<ListEntry>, at: seq<nat>)
    requires n <= |xs|
  {
    |at| == |lists| && forall k :: 0 <= k < |at| ==> Survives(xs, n, at[k]) && lists[k] == xs[at[k]].entry
  }

  ghost predicate Covers(xs: seq<Item>, n: nat, lists: seq<ListEntry>)
    requires n <= |xs|
  {
    forall j :: 0 <= j < n && !xs[j].custom ==> HasName(lists, xs[j].entry.name)
  }

  /** The list entries are those of the survivors among the first `n` files, one for each name. */
  ghost predicate Lists(xs: seq<Item>, n: nat, lists: seq<ListEntry>, at: seq<nat>)
    requires n <= |xs|
  {
    Stands(xs, n, lists, at) && Covers(xs, n, lists) && NamesApart(lists)
  }

  /** The file goes: an old custom file, or a copy that does not stand for its name. */
  ghost predicate Goes(xs: seq<Item>, n: nat, j: nat)
    requires n <= |xs| && j < |xs|
  {
    xs[j].web || (!xs[j].custom && !Survives(xs, n, j))
  }

  /** Every file is kept or removed, and nothing else is removed. */
  ghost predicate Removed(xs: seq<Item>, n: nat, remove: seq<string>)
    requires n <= |xs|
  {
    && (forall j :: 0 <= j < n ==> (xs[j].id in remove <==> Goes(xs, n, j)))
    && (forall r :: r in remove ==> exists j :: 0 <= j < n && xs[j].id == r)
  }

  /** One more file, and with it at most one file more that goes. */
  ghost predicate Drops(xs: seq<Item>, n: nat, dropped: Option<nat>)
    requires n < |xs|
  {
    && (dropped.Some? ==> dropped.value <= n)
    && (forall j :: 0 <= j <= n ==> (Goes(xs, n + 1, j) <==> (j < n && Goes(xs, n, j)) || dropped == Some(j)))
  }

  lemma RemovedStep(xs: seq<Item>, n: nat, remove: seq<string>, dropped: Option<nat>)
    requires Distinct(xs) && n < |xs| && Removed(xs, n, remove) && Drops(xs, n, dropped)
    ensures Removed(xs, n + 1, remove + if dropped.Some? then [xs[dropped.value].id] else [])
  {
    var after := remove + if dropped.Some? then [xs[dropped.value].id] else [];
    assert xs[n].id !in remove;
    forall j | 0 <= j < n + 1 ensures xs[j].id in after <==> Goes(xs, n + 1, j) {
      assert xs[j].id in after <==> xs[j].id in remove || dropped == Some(j);
    }
    forall r | r in after ensures exists j :: 0 <= j < n + 1 && xs[j].id == r {
      if r in remove { var j :| 0 <= j < n && xs[j].id == r; }
    }
  }

  ghost predicate Loaded(xs: seq<Item>, at: seq<nat>, ids: map<string, string>)
    requires forall k :: 0 <= k < |at| ==> at[k] < |xs|
  {
    forall k :: 0 <= k < |at| ==> xs[at[k]].entry.name in ids && ids[xs[at[k]].entry.name] == xs[at[k]].id
  }

  lemma AfterCustom(xs: seq<Item>, n: nat, lists: seq<ListEntry>, at: seq<nat>)
    requires n < |xs| && xs[n].custom && Lists(xs, n, lists, at)
    ensures Lists(xs, n + 1, lists, at)
    ensures Drops(xs, n, if xs[n].web then Some(n) else None)
  {
    forall j | 0 <= j <= n ensures Survives(xs, n + 1, j) <==> j < n && Survives(xs, n, j) {
      if j < n { Untouched(xs, n, j); }
    }
  }

  lemma NewSurvives(xs: seq<Item>, n: nat, lists: seq<ListEntry>)
    requires n < |xs| && !xs[n].custom && !xs[n].web && Covers(xs, n, lists)
    requires !HasName(lists, xs[n].entry.name)
    ensures forall j :: 0 <= j <= n ==> (Survives(xs, n + 1, j) <==> j == n || Survives(xs, n, j))
    ensures Drops(xs, n, None)
  {
    forall j | 0 <= j <= n ensures Survives(xs, n + 1, j) <==> j == n || Survives(xs, n, j) {
      NextNew(xs, n, j);
    }
  }

  lemma HasNameSnoc(lists: seq<ListEntry>, e: ListEntry, name: string)
    ensures HasName(lists + [e], name) <==> HasName(lists, name) || e.name == name
  {
    var after := lists + [e];
    if HasName(lists, name) {
      var k :| 0 <= k < |lists| && lists[k].name == name;
      assert after[k].name == name;
    } else if e.name == name {
      assert after[|lists|].name == name;
    }
  }

  lemma HasNameSwap(lists: seq<ListEntry>, p: nat, e: ListEntry, name: string)
    requires p < |lists| && lists[p].name == e.name && HasName(lists, name)
    ensures HasName(lists[p := e], name)
  {
    var k :| 0 <= k < |lists| && lists[k].name == name;
    assert lists[p := e][k].name == name;
  }

  lemma AfterNew(xs: seq<Item>, n: nat, lists: seq<ListEntry>, at: seq<nat>)
    requires n < |xs| && !xs[n].custom && !xs[n].web && Lists(xs, n, lists, at)
    requires !HasName(lists, xs[n].entry.name)
    ensures Lists(xs, n + 1, lists + [xs[n].entry], at + [n])
    ensures Drops(xs, n, None)
  {
    NewSurvives(xs, n, lists);
    forall j | 0 <= j < n + 1 && !xs[j].custom ensures HasName(lists + [xs[n].entry], xs[j].entry.name) {
      HasNameSnoc(lists, xs[n].entry, xs[j].entry.name);
    }
  }

  lemma CanonicalSurvives(xs: seq<Item>, n: nat, q: nat)
    requires Distinct(xs) && n < |xs| && !xs[n].custom && !xs[n].web && xs[n].canonical
    requires Survives(xs, n, q) && !xs[q].web && xs[q].entry.name == xs[n].entry.name
    ensures forall j :: 0 <= j <= n ==> (Survives(xs, n + 1, j) <==> j == n || (Survives(xs, n, j) && j != q))
    ensures Drops(xs, n, Some(q))
  {
    forall j | 0 <= j <= n ensures Survives(xs, n + 1, j) <==> j == n || (Survives(xs, n, j) && j != q) {
      NextCopy(xs, n, q, j);
      if j < n && Named(xs[j], xs[n].entry.name) && Survives(xs, n, j) { SurvivorUnique(xs, n, j, q); }
    }
  }

  lemma StandsSwap(xs: seq<Item>, n: nat, lists: seq<ListEntry>, at: seq<nat>, p: nat)
    requires n < |xs| && Stands(xs, n, lists, at) && p < |lists| && NamesApart(lists)
    requires forall j :: 0 <= j <= n ==> (Survives(xs, n + 1, j) <==> j == n || (Survives(xs, n, j) && j != at[p]))
    ensures Stands(xs, n + 1, lists[p := xs[n].entry], at[p := n])
  {
    var lists', at' := lists[p := xs[n].entry], at[p := n];
    forall k | 0 <= k < |at'| ensures Survives(xs, n + 1, at'[k]) && lists'[k] == xs[at'[k]].entry {
      if k != p {
        assert lists[k].name != lists[p].name;
        assert Survives(xs, n, at[k]) && lists[k] == xs[at[k]].entry && lists[p] == xs[at[p]].entry;
      }
    }
  }

  /** The canonical copy takes over the place of the copy found before. */
  lemma AfterCanonical(xs: seq<Item>, n: nat, lists: seq<ListEntry>, at: seq<nat>, p: nat)
    requires Distinct(xs) && n < |xs| && !xs[n].custom && !xs[n].web && xs[n].canonical && Lists(xs, n, lists, at)
    requires p < |lists| && lists[p].name == xs[n].entry.name && !xs[at[p]].web
    ensures Lists(xs, n + 1, lists[p := xs[n].entry], at[p := n])
    ensures Drops(xs, n, Some(at[p]))
  {
    CanonicalSurvives(xs, n, at[p]);
    StandsSwap(xs, n, lists, at, p);
    forall j | 0 <= j < n + 1 && !xs[j].custom ensures HasName(lists[p := xs[n].entry], xs[j].entry.name) {
      assert lists[p].name == xs[n].entry.name;
      HasNameSwap(lists, p, xs[n].entry, xs[j].entry.name);
    }
  }

  lemma AfterCopy(xs: seq<Item>, n: nat, lists: seq<ListEntry>, at: seq<nat>, p: nat)
    requires Distinct(xs) && n < |xs| && !xs[n].custom && !xs[n].web && !xs[n].canonical && Lists(xs, n, lists, at)
    requires p < |lists| && lists[p].name == xs[n].entry.name
    ensures Lists(xs, n + 1, lists, at)
    ensures Drops(xs, n, Some(n))
  {
    forall j | 0 <= j <= n ensures Survives(xs, n + 1, j) <==> j < n && Survives(xs, n, j) {
      NextCopy(xs, n, at[p], j);
    }
  }

  lemma LoadedSnoc(xs: seq<Item>, n: nat, lists: seq<ListEntry>, at: seq<nat>, ids: map<string, string>)
    requires n < |xs| && Stands(xs, n, lists, at) && Loaded(xs, at, ids)
    requires !HasName(lists, xs[n].entry.name)
    ensures Loaded(xs, at + [n], ids[xs[n].entry.name := xs[n].id])
  {
    forall k | 0 <= k < |at| ensures xs[at[k]].entry.name != xs[n].entry.name { assert lists[k] == xs[at[k]].entry; }
  }

  lemma LoadedSwap(xs: seq<Item>, n: nat, lists: seq<ListEntry>, at: seq<nat>, ids: map<string, string>, p: nat)
    requires n < |xs| && Stands(xs, n, lists, at) && NamesApart(lists) && Loaded(xs, at, ids)
    requires p < |at| && lists[p].name == xs[n].entry.name
    ensures Loaded(xs, at[p := n], ids[xs[n].entry.name := xs[n].id])
  {
    forall k | 0 <= k < |at| && k != p ensures xs[at[k]].entry.name != xs[n].entry.name {
      assert lists[k].name != lists[p].name;
    }
  }

  /** The loop over the stored files; `at` tells which file each list entry came from. */
  method ReconcileItems(xs: seq<Item>)
    returns (lists: seq<ListEntry>, customLines: seq<string>, remove: seq<string>, ghost at: seq<nat>)
    requires Distinct(xs) && WebIsCustom(xs)
    ensures Lists(xs, |xs|, lists, at)
    ensures Removed(xs, |xs|, remove)
    ensures customLines == CustomLines(xs, |xs|)
  {
    lists, customLines, remove, at := [], [], [], [];
    var ids: map<string, string> := map[];
    for n := 0 to |xs|
      invariant Lists(xs, n, lists, at) && Loaded(xs, at, ids)
      invariant Removed(xs, n, remove)
      invariant customLines == CustomLines(xs, n)
    {
      var x := xs[n];
      if x.custom {
        AfterCustom(xs, n, lists, at);
        RemovedStep(xs, n, remove, if x.web then Some(n) else None);
        customLines := customLines + x.lines;
        remove := remove + if x.web then [x.id] else [];
      } else {
        lists, ids, remove, at := AddList(xs, n, lists, ids, remove, at);
      }
    }
  }

  ghost predicate WebIsCustom(xs: seq<Item>) {
    forall i :: 0 <= i < |xs| && xs[i].web ==> xs[i].custom
  }

  /** One ordinary file: a new list, the canonical copy of a known one, or a copy to drop. */
  method AddList(xs: seq<Item>, n: nat, lists: seq<ListEntry>, ids: map<string, string>, remove: seq<string>, ghost at: seq<nat>)
    returns (lists': seq<ListEntry>, ids': map<string, string>, remove': seq<string>, ghost at': seq<nat>)
    requires Distinct(xs) && n < |xs| && !xs[n].custom && WebIsCustom(xs)
    requires Lists(xs, n, lists, at) && Loaded(xs, at, ids) && Removed(xs, n, remove)
    ensures Lists(xs, n + 1, lists', at') && Loaded(xs, at', ids') && Removed(xs, n + 1, remove')
  {
    lists', ids', remove', at' := lists, ids, remove, at;
    var x := xs[n];
    var p := PositionOf(lists, x.entry.name);
    if p.None? {
      AfterNew(xs, n, lists, at);
      LoadedSnoc(xs, n, lists, at, ids);
      RemovedStep(xs, n, remove, None);
      assert remove + [] == remove;
      ids' := ids[x.entry.name := x.id];
      lists', at' := lists + [x.entry], at + [n];
    } else if x.canonical {
      AfterCanonical(xs, n, lists, at, p.value);
      LoadedSwap(xs, n, lists, at, ids, p.value);
      RemovedStep(xs, n, remove, Some(at[p.value]));
      assert lists[p.value] == xs[at[p.value]].entry;
      if x.entry.name in ids {
        remove' := remove + [ids[x.entry.name]];
      }
      ids' := ids[x.entry.name := x.id];
      lists', at' := lists[p.value := x.entry], at[p.value := n];
    } else {
      AfterCopy(xs, n, lists, at, p.value);
      RemovedStep(xs, n, remove, Some(n));
      remove' := remove + [x.id];
    }
  }

  /**
   Starting from stored files with distinct ids: the lists are those of the survivors, one
   for each name, the files to remove are all the others, and the custom rules are kept in order.
   */
  method ReconcileStored(stored: seq<StoredList>, ownId: string -> string)
    returns (lists: seq<ListEntry>, customLines: seq<string>, remove: seq<string>, ghost at: seq<nat>)
    requires forall i, j :: 0 <= i < j < |stored| ==> stored[i].id != stored[j].id
    ensures Lists(ItemsOf(stored, ownId), |stored|, lists, at)
    ensures Removed(ItemsOf(stored, ownId), |stored|, remove)
    ensures customLines == CustomLines(ItemsOf(stored, ownId), |stored|)
  {
    DistinctIds(stored, ownId);
    var xs := ItemsOf(stored, ownId);
    forall i | 0 <= i < |xs| && xs[i].web ensures xs[i].custom { assert xs[i] == ItemOf(stored[i], ownId); }
    lists, customLines, remove, at := ReconcileItems(xs);
  }

  /** A file is kept exactly if a list entry stands for it or it is the custom list. */
  lemma Partition(xs: seq<Item>, lists: seq<ListEntry>, remove: seq<string>, at: seq<nat>, j: nat)
    requires Distinct(xs) && WebIsCustom(xs)
    requires Lists(xs, |xs|, lists, at) && Removed(xs, |xs|, remove) && j < |xs|
    ensures xs[j].id !in remove <==> (xs[j].custom && !xs[j].web) || j in at
  {
    if !xs[j].custom && Survives(xs, |xs|, j) {
      assert HasName(lists, xs[j].entry.name);
      var k :| 0 <= k < |lists| && lists[k].name == xs[j].entry.name;
      SurvivorUnique(xs, |xs|, at[k], j);
    }
  }

  /** A list stored under its name's own id comes out the same in whatever order the files are read. */
  lemma CanonicalIsOrderFree(xs: seq<Item>, lists: seq<ListEntry>, at: seq<nat>,
                             ys: seq<Item>, lists': seq<ListEntry>, at': seq<nat>, k: nat)
    requires Distinct(ys) && forall x :: x in xs ==> x in ys
    requires Lists(xs, |xs|, lists, at) && Lists(ys, |ys|, lists', at')
    requires k < |lists| && xs[at[k]].canonical
    ensures lists[k] in lists'
  {
    var x := xs[at[k]];
    assert x in xs;
    var j :| 0 <= j < |ys| && ys[j] == x;
    assert Survives(ys, |ys|, j) && HasName(lists', x.entry.name);
    var k' :| 0 <= k' < |lists'| && lists'[k'].name == x.entry.name;
    SurvivorUnique(ys, |ys|, at'[k'], j);
  }

  /** Of the files left, each copy stands for its name. */
  lemma KeptSurvives(xs: seq<Item>, kept: seq<Item>, from: seq<nat>, j: nat)
    requires Distinct(xs) && |kept| == |from| && j < |kept| && !kept[j].custom
    requires forall i :: 0 <= i < |from| ==>
      from[i] < |xs| && kept[i] == xs[from[i]] && (!kept[i].custom ==> Survives(xs, |xs|, from[i]))
    requires forall i, k :: 0 <= i < k < |from| ==> from[i] != from[k]
    ensures Survives(kept, |kept|, j)
  {
    var name := kept[j].entry.name;
    forall k | 0 <= k < |kept| && Named(kept[k], name) ensures k == j {
      SurvivorUnique(xs, |xs|, from[k], from[j]);
    }
  }

  /** `kept` are the stored files that are left, in any order: file `i` of them is file `from[i]` of before. */
  ghost predicate LeftOf(stored: seq<StoredList>, remove: seq<string>, kept: seq<StoredList>, from: seq<nat>) {
    && |kept| == |from|
    && (forall i :: 0 <= i < |from| ==> from[i] < |stored| && kept[i] == stored[from[i]] && kept[i].id !in remove)
    && (forall i, k :: 0 <= i < k < |from| ==> from[i] != from[k])
  }

  /** Once the removed files are gone, reconciling again removes nothing more, in whatever order the rest is read. */
  lemma NothingMoreToRemove(stored: seq<StoredList>, ownId: string -> string, remove: seq<string>,
                            kept: seq<StoredList>, from: seq<nat>, again: seq<string>)
    requires forall i, j :: 0 <= i < j < |stored| ==> stored[i].id != stored[j].id
    requires Removed(ItemsOf(stored, ownId), |stored|, remove) && LeftOf(stored, remove, kept, from)
    requires Removed(ItemsOf(kept, ownId), |kept|, again)
    ensures again == []
  {
    DistinctIds(stored, ownId);
    var xs, ys := ItemsOf(stored, ownId), ItemsOf(kept, ownId);
    forall i | 0 <= i < |from|
      ensures from[i] < |xs| && ys[i] == xs[from[i]] && !ys[i].web && (!ys[i].custom ==> Survives(xs, |xs|, from[i]))
    {
      assert ys[i] == ItemOf(kept[i], ownId) && xs[from[i]] == ItemOf(stored[from[i]], ownId);
      assert xs[from[i]].id !in remove;
      assert !Goes(xs, |xs|, from[i]);
    }
    if again != [] {
      assert again[0] in again;
      var j :| 0 <= j < |ys| && ys[j].id == again[0];
      assert Goes(ys, |ys|, j);
      KeptSurvives(xs, ys, from, j);
    }
  }
}
