/**
 The line-based set file: a header of comments, then one line per entry. How an entry is
 parsed and printed is the caller's choice.
 */
module PersistText {
  import opened Options
  import opened Text

  predicate IsHash(c: char) {
    c == '#'
  }

  /** A line without its comment and outer white space. */
  function Clean(line: string): string {
    Trim(line[..IndexOf(line, IsHash)], IsWhite)
  }

  function Formats<T>(xs: seq<T>, format: T -> string): seq<string> {
    if xs == [] then [] else [format(xs[0])] + Formats(xs[1..], format)
  }

  /** What is written: the header, the entries one per line, and a final newline. */
  function FileText<T>(header: seq<string>, xs: seq<T>, format: T -> string): string {
    Join(header) + "\n" + (Join(Formats(xs, format)) + "\n")
  }

  /** Empty lines and lines that do not parse are skipped. */
  function ParseAll<T>(lines: seq<string>, parse: string -> Option<T>): seq<T> {
    if lines == [] then []
    else
      var l := Clean(lines[0]);
      (if l != "" && parse(l).Some? then [parse(l).value] else []) + ParseAll(lines[1..], parse)
  }

  function ParseLines<T>(text: string, parse: string -> Option<T>): seq<T> {
    ParseAll(Lines(text), parse)
  }

  /** An entry whose line comes through the file unchanged and parses back to it. */
  ghost predicate Codable<T>(x: T, parse: string -> Option<T>, format: T -> string) {
    var l := format(x);
    l != "" && OneLine(l) && Clean(l) == l && parse(l) == Some(x)
  }

  ghost predicate AllCodable<T>(xs: seq<T>, parse: string -> Option<T>, format: T -> string) {
    xs == [] || (Codable(xs[0], parse, format) && AllCodable(xs[1..], parse, format))
  }

  /** Every header line is a comment. */
  ghost predicate IsHeader(lines: seq<string>) {
    lines == [] || (OneLine(lines[0]) && lines[0] != "" && lines[0][0] == '#' && IsHeader(lines[1..]))
  }

  lemma CommentIsEmpty(l: string)
    requires l != "" && l[0] == '#'
    ensures Clean(l) == ""
  {
    assert IndexOf(l, IsHash) == 0 && l[..0] == "";
  }

  lemma {:induction false} HeaderVanishes<T>(header: seq<string>, rest: seq<string>, parse: string -> Option<T>)
    requires IsHeader(header)
    ensures ParseAll(header + rest, parse) == ParseAll(rest, parse) && OneLiners(header)
  {
    if header == [] {
      assert header + rest == rest;
    } else {
      HeaderVanishes(header[1..], rest, parse);
      CommentIsEmpty(header[0]);
      assert (header + rest)[0] == header[0] && (header + rest)[1..] == header[1..] + rest;
    }
  }

  lemma {:induction false} FormatsParse<T>(xs: seq<T>, parse: string -> Option<T>, format: T -> string)
    requires AllCodable(xs, parse, format)
    ensures ParseAll(Formats(xs, format), parse) == xs
    ensures OneLiners(Formats(xs, format)) && |Formats(xs, format)| == |xs|
  {
    if xs != [] {
      FormatsParse(xs[1..], parse, format);
      assert Formats(xs, format)[1..] == Formats(xs[1..], format);
      assert xs == [xs[0]] + xs[1..];
    }
  }

  lemma BodyParses<T>(xs: seq<T>, parse: string -> Option<T>, format: T -> string)
    requires AllCodable(xs, parse, format)
    ensures ParseLines(Join(Formats(xs, format)) + "\n", parse) == xs
  {
    var lines := Formats(xs, format);
    var body := Join(lines) + "\n";
    FormatsParse(xs, parse, format);
    if xs == [] {
      LinesAt(body, "", "");
      assert Lines(body) == [""] && [""][1..] == [];
    } else {
      assert body == Join(lines) + "\n" + "";
      JoinIsUnlines(lines, "");
      LinesOfUnlines(lines, "");
      assert lines + [] == lines;
    }
  }

  /** Reading the file back gives exactly the entries that were written. */
  lemma FileRoundTrip<T>(header: seq<string>, xs: seq<T>, parse: string -> Option<T>, format: T -> string)
    requires IsHeader(header) && header != [] && AllCodable(xs, parse, format)
    ensures ParseLines(FileText(header, xs, format), parse) == xs
  {
    var body := Join(Formats(xs, format)) + "\n";
    JoinIsUnlines(header, body);
    HeaderVanishes(header, Lines(body), parse);
    LinesOfUnlines(header, body);
    BodyParses(xs, parse, format);
  }
}
