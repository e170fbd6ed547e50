/** Splicing a script and a style sheet into a page. */
module PageSplice {
  import opened Options
  import opened Ascii

  function StyleTag(css: string): string {
    if css == "" then "" else "<style type=\"text/css\">" + css + "</style>"
  }

  function ScriptTag(script: string): string {
    if script == "" then ""
    else "<script>try{\n" + script + "\n}catch(e){}document.currentScript.remove()</script>"
  }

  /** Where the script goes: just past the first tag that starts `<head`, else at the front. */
  ghost predicate IsScriptPoint(html: string, a: nat) {
    if exists h, g :: FirstAt(html, "<head", 0, h) && FirstAt(html, ">", h, g)
    then a > 0 && exists h :: FirstAt(html, "<head", 0, h) && FirstAt(html, ">", h, a - 1)
    else a == 0
  }

  /** Where the style goes: the first `</head>` at or after the script, else the first `</body>`, else right there. */
  ghost predicate IsStylePoint(html: string, a: nat, b: nat) {
    if exists p :: FirstAt(html, "</head>", a, p) then FirstAt(html, "</head>", a, b)
    else if exists p :: FirstAt(html, "</body>", a, p) then FirstAt(html, "</body>", a, b)
    else b == a
  }

  ghost predicate FirstAt(html: string, needle: string, from: nat, i: nat) {
    from <= i && At(html, needle, i) && forall j :: from <= j < i ==> !At(html, needle, j)
  }

  /** The page with the script at `a` and the style at `b`, every other byte in place. */
  function Spliced(html: string, script: string, a: nat, style: string, b: nat): string
    requires a <= b <= |html|
  {
    html[..a] + script + html[a..b] + style + html[b..]
  }

  lemma FindIsFirst(html: string, needle: string, from: nat)
    ensures var r := Find(html, needle, from);
      && (r.Some? ==> FirstAt(html, needle, from, r.value))
      && (forall i: nat :: FirstAt(html, needle, from, i) ==> r == Some(i))
  {
    var r := Find(html, needle, from);
    forall i: nat | FirstAt(html, needle, from, i) ensures r == Some(i) {}
  }

  /** `None` when there is nothing to put in. */
  method InjectIntoHtml(html: string, css: string, script: string) returns (r: Option<string>, ghost a: nat, ghost b: nat)
    ensures r.None? <==> css == "" && script == ""
    ensures r.Some? ==>
      && (if script == "" then a == 0 else IsScriptPoint(html, a))
      && (if css == "" then b == a else IsStylePoint(html, a, b))
      && a <= b <= |html|
      && r.value == Spliced(html, ScriptTag(script), a, StyleTag(css), b)
  {
    if css == "" && script == "" {
      return None, 0, 0;
    }
    var out;
    out, a, b := Splice(html, script != "", ScriptTag(script), css != "", StyleTag(css));
    r := Some(out);
  }

  method Splice(html: string, hasScript: bool, script: string, hasStyle: bool, style: string)
    returns (out: string, ghost a: nat, ghost b: nat)
    requires (!hasScript ==> script == "") && (!hasStyle ==> style == "")
    ensures if hasScript then IsScriptPoint(html, a) else a == 0
    ensures if hasStyle then IsStylePoint(html, a, b) else b == a
    ensures a <= b <= |html| && out == Spliced(html, script, a, style, b)
  {
    var cursor := 0;
    out := "";
    if hasScript {
      var p := AfterHead(html);
      if p.Some? {
        out := html[..p.value];
        cursor := p.value;
      }
      out := out + script;
    }
    a := cursor;
    assert out == html[..a] + script;
    if hasStyle {
      var p := StylePosition(html, cursor);
      if p.Some? {
        out := out + html[cursor..p.value];
        cursor := p.value;
      }
      out := out + style;
    }
    b := cursor;
    assert out == html[..a] + script + html[a..b] + style;
    out := out + html[cursor..];
  }

  method AfterHead(html: string) returns (p: Option<nat>)
    ensures IsScriptPoint(html, if p.Some? then p.value else 0)
    ensures p.Some? ==> p.value <= |html|
  {
    p := None;
    FindIsFirst(html, "<head", 0);
    var h := Find(html, "<head", 0);
    if h.Some? {
      FindIsFirst(html, ">", h.value);
      var g := Find(html, ">", h.value);
      if g.Some? {
        p := Some(g.value + 1);
      }
    }
  }

  method StylePosition(html: string, from: nat) returns (p: Option<nat>)
    requires from <= |html|
    ensures IsStylePoint(html, from, if p.Some? then p.value else from)
    ensures p.Some? ==> from <= p.value <= |html|
  {
    FindIsFirst(html, "</head>", from);
    FindIsFirst(html, "</body>", from);
    p := Find(html, "</head>", from);
    if p.None? {
      p := Find(html, "</body>", from);
    }
  }

  /** Taking the two insertions out again gives back the page byte for byte. */
  lemma SpliceRestores(html: string, script: string, a: nat, style: string, b: nat)
    requires a <= b <= |html|
    ensures var out := Spliced(html, script, a, style, b);
      && |out| == |html| + |script| + |style|
      && out[a..a + |script|] == script
      && out[b + |script|..b + |script| + |style|] == style
      && out[..a] + out[a + |script|..b + |script|] + out[b + |script| + |style|..] == html
  {
    var out := Spliced(html, script, a, style, b);
    assert out[..a] == html[..a];
    assert out[a + |script|..b + |script|] == html[a..b];
    assert out[b + |script| + |style|..] == html[b..];
    assert html == html[..a] + html[a..b] + html[b..];
  }

  /** The points are determined, so there is one spliced page. */
  lemma PointsUnique(html: string, a: nat, a': nat, b: nat, b': nat)
    requires IsScriptPoint(html, a) && IsScriptPoint(html, a')
    requires IsStylePoint(html, a, b) && IsStylePoint(html, a, b')
    ensures a == a' && b == b'
  {
    FindIsFirst(html, "<head", 0);
    var h := Find(html, "<head", 0);
    if h.Some? { FindIsFirst(html, ">", h.value); }
    FindIsFirst(html, "</head>", a);
    FindIsFirst(html, "</body>", a);
  }
}

/** Collecting the class and id names a page carries. */
module PageScan {
  import opened Options
  import opened Ascii

  /** A maximal run of non-space characters. */
  predicate IsWord(s: string, i: nat, j: nat) {
    && i < j <= |s|
    && (forall k :: i <= k < j ==> !IsSpace(s[k]))
    && (i == 0 || IsSpace(s[i - 1]))
    && (j == |s| || IsSpace(s[j]))
  }

  function Words(s: string): set<string> {
    set i, j | 0 <= i < |s| + 1 && 0 <= j < |s| + 1 && IsWord(s, i, j) :: s[i..j]
  }

  /** The value of an attribute whose name ends at `p`: an equals sign, a quote, and up to its match. */
  function Quoted(html: string, p: nat): Option<string> {
    if p + 1 < |html| && html[p] == '=' && (html[p + 1] == '\"' || html[p + 1] == '\'') then
      var end := Find(html, [html[p + 1]], p + 2);
      if end.Some? then Some(html[p + 2..end.value]) else None
    else None
  }

  /** What one occurrence of the attribute name contributes; it must follow a space. */
  function Contribution(html: string, attr: string, split: bool, start: nat): set<string> {
    if !(0 < start <= |html| && IsSpace(html[start - 1])) then {}
    else
      var v := Quoted(html, start + |attr|);
      if v.None? then {}
      else if split then Words(v.value)
      else if v.value != "" then {v.value}
      else {}
  }

  /** The contributions of all occurrences before position `n`. */
  ghost function Gathered(html: string, attr: string, split: bool, n: nat): set<string> {
    if n == 0 then {}
    else Gathered(html, attr, split, n - 1) + if At(html, attr, n - 1) then Contribution(html, attr, split, n - 1) else {}
  }

  lemma {:induction false} GatheredMeans(html: string, attr: string, split: bool, n: nat, w: string)
    ensures w in Gathered(html, attr, split, n) <==>
      exists start :: 0 <= start < n && At(html, attr, start) && w in Contribution(html, attr, split, start)
  {
    if n > 0 { GatheredMeans(html, attr, split, n - 1, w); }
  }

  lemma {:induction false} GatheredSkip(html: string, attr: string, split: bool, a: nat, b: nat)
    requires a <= b && forall i :: a <= i < b ==> !At(html, attr, i)
    ensures Gathered(html, attr, split, b) == Gathered(html, attr, split, a)
  {
    if a < b { GatheredSkip(html, attr, split, a, b - 1); }
  }

  /** A word whose first letter occurs nowhere else in it cannot overlap itself. */
  ghost predicate NoOverlap(attr: string) {
    attr != "" && forall d :: 0 < d < |attr| ==> Lower(attr[d]) != Lower(attr[0])
  }

  lemma NoOtherInside(html: string, attr: string, start: nat, i: nat)
    requires NoOverlap(attr) && At(html, attr, start) && start < i < start + |attr|
    ensures !At(html, attr, i)
  {
    assert Lower(html[start + (i - start)]) == Lower(attr[i - start]);
    assert i + |attr| <= |html| && Lower(html[i + 0]) != Lower(attr[0]) ==> !At(html, attr, i);
  }

  /** Between one hit's name and the next hit there is nothing to gather. */
  lemma NextHit(html: string, attr: string, split: bool, from: nat, start: nat)
    requires NoOverlap(attr) && from <= start && At(html, attr, start)
    requires forall i :: from <= i < start ==> !At(html, attr, i)
    ensures Gathered(html, attr, split, start + |attr|)
         == Gathered(html, attr, split, from) + Contribution(html, attr, split, start)
  {
    GatheredSkip(html, attr, split, from, start);
    forall i | start < i < start + |attr| ensures !At(html, attr, i) { NoOtherInside(html, attr, start, i); }
    GatheredSkip(html, attr, split, start + 1, start + |attr|);
  }

  /** The scanning loop: from each hit it goes on past the name, and loses nothing by that. */
  method Scan(html: string, attr: string, split: bool) returns (out: set<string>)
    requires NoOverlap(attr)
    ensures out == Gathered(html, attr, split, |html|)
  {
    out := {};
    var from := 0;
    while true
      invariant from <= |html| && out == Gathered(html, attr, split, from)
      decreases |html| - from
    {
      var p := Find(html, attr, from);
      if p.None? {
        assert Gathered(html, attr, split, |html|) == out by { GatheredSkip(html, attr, split, from, |html|); }
        return;
      }
      var start := p.value;
      assert Gathered(html, attr, split, start + |attr|) == out + Contribution(html, attr, split, start) by {
        NextHit(html, attr, split, from, start);
      }
      out := out + Contribution(html, attr, split, start);
      from := start + |attr|;
    }
  }

  method HtmlClassesAndIds(html: string) returns (classes: set<string>, ids: set<string>)
    ensures forall w :: w in classes <==>
      exists start :: 0 <= start < |html| && At(html, "class", start) && w in Contribution(html, "class", true, start)
    ensures forall w :: w in ids <==>
      exists start :: 0 <= start < |html| && At(html, "id", start) && w in Contribution(html, "id", false, start)
  {
    classes := Scan(html, "class", true);
    ids := Scan(html, "id", false);
    forall w ensures w in classes <==> exists start ::
      0 <= start < |html| && At(html, "class", start) && w in Contribution(html, "class", true, start)
    { GatheredMeans(html, "class", true, |html|, w); }
    forall w ensures w in ids <==> exists start ::
      0 <= start < |html| && At(html, "id", start) && w in Contribution(html, "id", false, start)
    { GatheredMeans(html, "id", false, |html|, w); }
  }
}
