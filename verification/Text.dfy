/** ASCII case folding and search, the same on text and on raw bytes (a byte is the character of its value). */
module Ascii {
  import opened Options

  function Lower(c: char): char {
    if 'A' <= c <= 'Z' then (c as int + 32) as char else c
  }

  predicate IsSpace(c: char) {
    c == ' ' || c == '\t' || c == '\n' || c == '\r' || c as int == 12
  }

  /** The needle stands at position `i`, whatever the letter case. */
  predicate At(text: string, needle: string, i: nat) {
    i + |needle| <= |text| && forall k :: 0 <= k < |needle| ==> Lower(text[i + k]) == Lower(needle[k])
  }

  /** The first position at or after `from` where the needle stands. */
  function Find(text: string, needle: string, from: nat): (r: Option<nat>)
    ensures r.Some? ==> from <= r.value && At(text, needle, r.value)
    ensures r.Some? ==> forall i :: from <= i < r.value ==> !At(text, needle, i)
    ensures r.None? ==> forall i :: from <= i ==> !At(text, needle, i)
    decreases |text| - from
  {
    if from + |needle| > |text| then None
    else if At(text, needle, from) then Some(from)
    else Find(text, needle, from + 1)
  }
}

/** Trimming, splitting and joining of text, as the standard library does it. */
module Text {
  import opened Options
  import opened Ascii

  /** Unicode white space. */
  predicate IsWhite(c: char) {
    var n := c as int;
    9 <= n <= 13 || n == 0x20 || n == 0x85 || n == 0xA0 || n == 0x1680 || 0x2000 <= n <= 0x200A ||
    n == 0x2028 || n == 0x2029 || n == 0x202F || n == 0x205F || n == 0x3000
  }

  predicate IsDot(c: char) {
    c == '.'
  }

  function TrimStart(s: string, f: char -> bool): string {
    if s != "" && f(s[0]) then TrimStart(s[1..], f) else s
  }

  function TrimEnd(s: string, f: char -> bool): string {
    if s != "" && f(s[|s| - 1]) then TrimEnd(s[..|s| - 1], f) else s
  }

  function Trim(s: string, f: char -> bool): string {
    TrimEnd(TrimStart(s, f), f)
  }

  ghost predicate Trimmed(s: string, f: char -> bool) {
    s == "" || (!f(s[0]) && !f(s[|s| - 1]))
  }

  lemma {:induction false} TrimEndEnds(s: string, f: char -> bool)
    ensures var t := TrimEnd(s, f); t <= s && (t == "" || !f(t[|t| - 1]))
  {
    if s != "" && f(s[|s| - 1]) { TrimEndEnds(s[..|s| - 1], f); }
  }

  lemma {:induction false} TrimStartStarts(s: string, f: char -> bool)
    ensures var t := TrimStart(s, f); t == "" || !f(t[0])
  {
    if s != "" && f(s[0]) { TrimStartStarts(s[1..], f); }
  }

  lemma TrimTrims(s: string, f: char -> bool)
    ensures Trimmed(Trim(s, f), f)
  {
    TrimStartStarts(s, f);
    TrimEndEnds(TrimStart(s, f), f);
  }

  lemma TrimFixed(s: string, f: char -> bool)
    requires Trimmed(s, f)
    ensures Trim(s, f) == s
  {
  }

  function LowerAll(s: string): (r: string)
    ensures |r| == |s|
    ensures forall i :: 0 <= i < |s| ==> r[i] == Lower(s[i])
  {
    if s == "" then "" else LowerAll(s[..|s| - 1]) + [Lower(s[|s| - 1])]
  }

  predicate Every(s: string, f: char -> bool) {
    forall i :: 0 <= i < |s| ==> f(s[i])
  }

  /** The position of the first character of a kind at or after `i`, or the length when there is none. */
  function IndexFrom(s: string, f: char -> bool, i: nat): (r: nat)
    requires i <= |s|
    ensures i <= r <= |s|
    decreases |s| - i
  {
    if i == |s| || f(s[i]) then i else IndexFrom(s, f, i + 1)
  }

  function IndexOf(s: string, f: char -> bool): (r: nat)
    ensures r <= |s|
  {
    IndexFrom(s, f, 0)
  }

  lemma {:induction false} FirstIndex(s: string, f: char -> bool, i: nat, at: nat)
    requires i <= at < |s| && f(s[at]) && forall k :: i <= k < at ==> !f(s[k])
    ensures IndexFrom(s, f, i) == at
    decreases at - i
  {
    if i < at { FirstIndex(s, f, i + 1, at); }
  }

  lemma {:induction false} NoIndex(s: string, f: char -> bool, i: nat)
    requires i <= |s| && forall k :: i <= k < |s| ==> !f(s[k])
    ensures IndexFrom(s, f, i) == |s|
    decreases |s| - i
  {
    if i < |s| { NoIndex(s, f, i + 1); }
  }

  lemma {:induction false} IndexHits(s: string, f: char -> bool, i: nat)
    requires i <= |s|
    ensures var r := IndexFrom(s, f, i); r < |s| ==> f(s[r])
    decreases |s| - i
  {
    if i < |s| && !f(s[i]) { IndexHits(s, f, i + 1); }
  }

  predicate IsNewline(c: char) {
    c == '\n'
  }

  /** A line without a carriage return at its end. */
  function Chomp(s: string): string {
    if s != "" && s[|s| - 1] == '\r' then s[..|s| - 1] else s
  }

  /** The lines of a text; a final newline does not start another line. */
  function Lines(text: string): seq<string> {
    if text == "" then []
    else
      var i := IndexOf(text, IsNewline);
      [Chomp(text[..i])] + if i < |text| then Lines(text[i + 1..]) else []
  }

  ghost predicate OneLine(s: string) {
    (forall k :: 0 <= k < |s| ==> !IsNewline(s[k])) && (s == "" || s[|s| - 1] != '\r')
  }

  function Join(xs: seq<string>): string {
    if xs == [] then ""
    else if |xs| == 1 then xs[0]
    else xs[0] + "\n" + Join(xs[1..])
  }

  /** Each line with its newline, and then the rest. */
  function Unlines(xs: seq<string>, rest: string): string {
    if xs == [] then rest else xs[0] + "\n" + Unlines(xs[1..], rest)
  }

  lemma {:induction false} JoinIsUnlines(xs: seq<string>, rest: string)
    requires xs != []
    ensures Join(xs) + "\n" + rest == Unlines(xs, rest)
  {
    if |xs| == 1 {
      assert xs[1..] == [];
    } else {
      JoinIsUnlines(xs[1..], rest);
      assert xs[0] + "\n" + Join(xs[1..]) + "\n" + rest == xs[0] + "\n" + (Join(xs[1..]) + "\n" + rest);
    }
  }

  lemma LinesAt(text: string, x: string, rest: string)
    requires OneLine(x) && text == x + "\n" + rest
    ensures Lines(text) == [x] + Lines(rest)
  {
    FirstIndex(text, IsNewline, 0, |x|);
    assert text[..|x|] == x;
    assert text[|x| + 1..] == rest;
  }

  ghost predicate OneLiners(xs: seq<string>) {
    xs == [] || (OneLine(xs[0]) && OneLiners(xs[1..]))
  }

  lemma ConsThen(x: string, xs: seq<string>, rest: seq<string>)
    requires xs != [] && xs[0] == x
    ensures [x] + (xs[1..] + rest) == xs + rest
  {
  }

  /** Reading the lines back undoes writing them. */
  lemma {:induction false} LinesOfUnlines(xs: seq<string>, rest: string)
    requires OneLiners(xs)
    ensures Lines(Unlines(xs, rest)) == xs + Lines(rest)
  {
    if xs == [] {
      assert xs + Lines(rest) == Lines(rest);
    } else {
      var text, tail := Unlines(xs, rest), Unlines(xs[1..], rest);
      assert Lines(text) == [xs[0]] + Lines(tail) by { LinesAt(text, xs[0], tail); }
      LinesOfUnlines(xs[1..], rest);
      ConsThen(xs[0], xs, Lines(rest));
    }
  }
}
