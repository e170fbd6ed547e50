/** Local DNS records as text: the pattern and answer syntax, one line per record, and the file. */
module RewriteText {
  import opened Options
  import opened Ascii
  import opened Text
  import opened PersistText

  datatype Answer = V4(a: nat, b: nat, c: nat, d: nat) | Cname(host: string)

  datatype Rewrite = Rewrite(domain: string, answer: Answer, enabled: bool)

  // ----- IPv4 addresses

  predicate IsDigit(c: char) {
    '0' <= c <= '9'
  }

  function Digit(n: nat): char
    requires n < 10
  {
    ('0' as int + n) as char
  }

  function DigitValue(c: char): nat {
    if IsDigit(c) then c as int - '0' as int else 0
  }

  /** A number below 256 in decimal, without leading zeros. */
  function ShowOctet(n: nat): string
    requires n < 256
  {
    if n < 10 then [Digit(n)]
    else if n < 100 then [Digit(n / 10), Digit(n % 10)]
    else [Digit(n / 100), Digit(n / 10 % 10), Digit(n % 10)]
  }

  /** One to three digits, no leading zero, below 256. */
  function ParseOctet(s: string): (r: Option<nat>)
    ensures r.Some? ==> r.value < 256
  {
    if !(1 <= |s| <= 3) || !Every(s, IsDigit) || (|s| > 1 && s[0] == '0') then None
    else
      var n := if |s| == 1 then DigitValue(s[0])
        else if |s| == 2 then 10 * DigitValue(s[0]) + DigitValue(s[1])
        else 100 * DigitValue(s[0]) + 10 * DigitValue(s[1]) + DigitValue(s[2]);
      if n < 256 then Some(n) else None
  }

  lemma DigitRoundTrip(n: nat)
    requires n < 10
    ensures IsDigit(Digit(n)) && DigitValue(Digit(n)) == n && (Digit(n) == '0' <==> n == 0)
  {
  }

  lemma DecimalDigits(n: nat)
    requires n < 256
    ensures n / 10 % 10 < 10 && n % 10 < 10 && n / 100 < 10 && n == 100 * (n / 100) + 10 * (n / 10 % 10) + n % 10
  {
    assert n / 10 / 10 == n / 100;
  }

  lemma OctetRoundTrip(n: nat)
    requires n < 256
    ensures ParseOctet(ShowOctet(n)) == Some(n)
    ensures ShowOctet(n) != "" && Every(ShowOctet(n), IsDigit)
  {
    DecimalDigits(n);
    DigitRoundTrip(n % 10);
    DigitRoundTrip(n / 10 % 10);
    if n < 10 {
      assert n % 10 == n;
    } else if n < 100 {
      DigitRoundTrip(n / 10);
    } else {
      DigitRoundTrip(n / 100);
    }
  }

  function ShowV4(x: Answer): string
    requires x.V4? && x.a < 256 && x.b < 256 && x.c < 256 && x.d < 256
  {
    ShowOctet(x.a) + "." + (ShowOctet(x.b) + "." + (ShowOctet(x.c) + "." + ShowOctet(x.d)))
  }

  /** The part before the first dot, and what follows it. */
  function SplitDot(s: string): Option<(string, string)> {
    var i := IndexOf(s, IsDot);
    if i < |s| then Some((s[..i], s[i + 1..])) else None
  }

  function ParseV4(s: string): Option<Answer> {
    var p := SplitDot(s);
    if p.None? then None else
    var q := SplitDot(p.value.1);
    if q.None? then None else
    var r := SplitDot(q.value.1);
    if r.None? then None else
    var a, b, c, d := ParseOctet(p.value.0), ParseOctet(q.value.0), ParseOctet(r.value.0), ParseOctet(r.value.1);
    if a.Some? && b.Some? && c.Some? && d.Some? then Some(V4(a.value, b.value, c.value, d.value)) else None
  }

  lemma SplitDotAt(x: string, rest: string)
    requires Every(x, IsDigit)
    ensures SplitDot(x + "." + rest) == Some((x, rest))
  {
    var s := x + "." + rest;
    FirstIndex(s, IsDot, 0, |x|);
    assert s[..|x|] == x && s[|x| + 1..] == rest;
  }

  lemma V4RoundTrip(x: Answer)
    requires x.V4? && x.a < 256 && x.b < 256 && x.c < 256 && x.d < 256
    ensures ParseV4(ShowV4(x)) == Some(x)
  {
    OctetRoundTrip(x.a);
    OctetRoundTrip(x.b);
    OctetRoundTrip(x.c);
    OctetRoundTrip(x.d);
    SplitDotAt(ShowOctet(x.a), ShowOctet(x.b) + "." + (ShowOctet(x.c) + "." + ShowOctet(x.d)));
    SplitDotAt(ShowOctet(x.b), ShowOctet(x.c) + "." + ShowOctet(x.d));
    SplitDotAt(ShowOctet(x.c), ShowOctet(x.d));
  }

  // ----- host names

  predicate HostChar(c: char) {
    'a' <= c <= 'z' || IsDigit(c) || c == '.' || c == '-' || c == '_'
  }

  lemma HostIsPlain(h: string)
    requires Every(h, HostChar)
    ensures LowerAll(h) == h && Trimmed(h, IsWhite)
  {
  }

  ghost predicate IsHost(h: string) {
    h != "" && Every(h, HostChar) && Trimmed(h, IsDot)
  }

  /** A host, or `*.` and a host, which covers the host and everything under it. */
  ghost predicate IsPattern(p: string) {
    IsHost(p) || (|p| > 2 && p[0] == '*' && p[1] == '.' && IsHost(p[2..]))
  }

  predicate IsWild(p: string) {
    |p| >= 2 && p[0] == '*' && p[1] == '.'
  }

  function NormalizePattern(domain: string): Option<string> {
    var raw := LowerAll(TrimEnd(Trim(domain, IsWhite), IsDot));
    var host := Trim(if IsWild(raw) then raw[2..] else raw, IsDot);
    if host == "" || !Every(host, HostChar) then None
    else Some(if IsWild(raw) then "*." + host else host)
  }

  /** What normalisation lets through is a pattern. */
  lemma NormalizeMeets(domain: string)
    ensures NormalizePattern(domain).Some? ==> IsPattern(NormalizePattern(domain).value)
  {
    var raw := LowerAll(TrimEnd(Trim(domain, IsWhite), IsDot));
    var host := Trim(if IsWild(raw) then raw[2..] else raw, IsDot);
    TrimTrims(if IsWild(raw) then raw[2..] else raw, IsDot);
    assert ("*." + host)[2..] == host;
  }

  lemma NormalizeHost(h: string)
    requires IsHost(h)
    ensures NormalizePattern(h) == Some(h)
  {
    HostIsPlain(h);
    TrimFixed(h, IsWhite);
    TrimFixed(h, IsDot);
    assert HostChar(h[0]);
  }

  lemma NormalizeWild(p: string, h: string)
    requires IsHost(h) && p == "*." + h
    ensures NormalizePattern(p) == Some(p)
  {
    HostIsPlain(h);
    WildIsLower(p, h);
    assert p[|p| - 1] == h[|h| - 1] && p[2..] == h;
    TrimFixed(p, IsWhite);
    assert TrimEnd(p, IsDot) == p;
    TrimFixed(h, IsDot);
  }

  /** And a pattern is left as it is. */
  lemma NormalizeFixed(p: string)
    requires IsPattern(p)
    ensures NormalizePattern(p) == Some(p)
  {
    if IsHost(p) {
      NormalizeHost(p);
    } else {
      assert p == "*." + p[2..];
      NormalizeWild(p, p[2..]);
    }
  }

  lemma WildIsLower(p: string, h: string)
    requires p == "*." + h && LowerAll(h) == h
    ensures LowerAll(p) == p
  {
    forall i | 0 <= i < |p| ensures Lower(p[i]) == p[i] {
      if i >= 2 { assert p[i] == h[i - 2]; }
    }
  }

  // ----- answers

  ghost predicate ValidAnswer(x: Answer) {
    match x
    case V4(a, b, c, d) => a < 256 && b < 256 && c < 256 && d < 256
    case Cname(h) => h != "" && Every(h, HostChar) && h[|h| - 1] != '.' && ParseV4(h).None?
  }

  function Show(x: Answer): string {
    match x
    case V4(a, b, c, d) => if a < 256 && b < 256 && c < 256 && d < 256 then ShowV4(x) else ""
    case Cname(h) => h
  }

  /** An IPv6 address holds a colon, so it fails as a host name too and needs no case of its own. */
  function ParseAnswer(text: string): Option<Answer> {
    var s := TrimEnd(Trim(text, IsWhite), IsDot);
    if s == "" then None
    else if ParseV4(s).Some? then ParseV4(s)
    else if Every(LowerAll(s), HostChar) then Some(Cname(LowerAll(s)))
    else None
  }

  predicate V4Char(c: char) {
    IsDigit(c) || c == '.'
  }

  /** Only digits and dots make an address. */
  lemma V4IsPlain(s: string)
    requires ParseV4(s).Some?
    ensures Every(s, V4Char)
  {
    var p := SplitDot(s).value;
    var q := SplitDot(p.1).value;
    var r := SplitDot(q.1).value;
    SplitParts(q.1, r.0, r.1);
    SplitParts(p.1, q.0, q.1);
    SplitParts(s, p.0, p.1);
  }

  lemma SplitParts(s: string, x: string, rest: string)
    requires SplitDot(s) == Some((x, rest)) && Every(x, IsDigit) && Every(rest, V4Char)
    ensures Every(s, V4Char)
  {
    var i := IndexOf(s, IsDot);
    forall k | 0 <= k < |s| ensures V4Char(s[k]) {
      if k < i {
        assert s[k] == x[k];
      } else if k > i {
        assert s[k] == rest[k - i - 1];
      } else {
        IndexHits(s, IsDot, 0);
      }
    }
  }

  /** Lower-casing makes no address out of something that was none. */
  lemma LowerNoV4(s: string)
    requires ParseV4(s).None?
    ensures ParseV4(LowerAll(s)).None?
  {
    if ParseV4(LowerAll(s)).Some? {
      V4IsPlain(LowerAll(s));
      PlainIsLower(s);
    }
  }

  lemma PlainIsLower(s: string)
    requires Every(LowerAll(s), V4Char)
    ensures LowerAll(s) == s
  {
    forall i | 0 <= i < |s| ensures Lower(s[i]) == s[i] { assert V4Char(LowerAll(s)[i]); }
  }

  /** What parsing lets through is a valid answer. */
  lemma ParseAnswerMeets(text: string)
    ensures ParseAnswer(text).Some? ==> ValidAnswer(ParseAnswer(text).value)
  {
    var s := TrimEnd(Trim(text, IsWhite), IsDot);
    TrimEndEnds(Trim(text, IsWhite), IsDot);
    if s != "" && ParseV4(s).None? {
      LowerNoV4(s);
    }
  }

  lemma ShowIsPlain(x: Answer)
    requires ValidAnswer(x)
    ensures Show(x) != "" && Every(Show(x), HostChar) && Show(x)[|Show(x)| - 1] != '.'
  {
    if x.V4? {
      OctetRoundTrip(x.a);
      OctetRoundTrip(x.b);
      OctetRoundTrip(x.c);
      OctetRoundTrip(x.d);
      V4RoundTrip(x);
      V4IsPlain(ShowV4(x));
      var last := ShowOctet(x.d);
      assert IsDigit(last[|last| - 1]);
      assert ShowV4(x)[|ShowV4(x)| - 1] == last[|last| - 1];
    }
  }

  /** Parsing undoes printing, for every answer that parsing can produce. */
  lemma AnswerRoundTrip(x: Answer)
    requires ValidAnswer(x)
    ensures ParseAnswer(Show(x)) == Some(x)
  {
    var s := Show(x);
    ShowIsPlain(x);
    HostIsPlain(s);
    TrimFixed(s, IsWhite);
    assert TrimEnd(s, IsDot) == s;
    if x.V4? { V4RoundTrip(x); }
  }

  // ----- one line

  ghost predicate ValidRewrite(r: Rewrite) {
    IsPattern(r.domain) && ValidAnswer(r.answer)
  }

  function Format(r: Rewrite): string {
    (if r.enabled then "" else "!") + r.domain + " " + Show(r.answer)
  }

  /** A leading `!` parks the record. */
  function Unmark(line: string): (string, bool) {
    if line != "" && line[0] == '!' then (TrimStart(line[1..], IsWhite), false) else (line, true)
  }

  function ParseLine(line: string): Option<Rewrite> {
    ParseRecord(Unmark(line).0, Unmark(line).1)
  }

  function ParseRecord(l: string, enabled: bool): Option<Rewrite> {
    var i := IndexOf(l, IsWhite);
    if i == |l| then None
    else
      var domain, answer := NormalizePattern(l[..i]), ParseAnswer(l[i + 1..]);
      if domain.Some? && answer.Some? then Some(Rewrite(domain.value, answer.value, enabled)) else None
  }

  predicate PatternChar(c: char) {
    HostChar(c) || c == '*'
  }

  lemma PatternIsPlain(p: string)
    requires IsPattern(p)
    ensures p != "" && Every(p, PatternChar)
  {
    if !IsHost(p) {
      forall i | 0 <= i < |p| ensures PatternChar(p[i]) {
        if i >= 2 { assert p[i] == p[2..][i - 2]; }
      }
    }
  }

  predicate LineChar(c: char) {
    PatternChar(c) || c == ' ' || c == '!'
  }

  lemma FormatIsPlain(r: Rewrite)
    requires ValidRewrite(r)
    ensures Every(Format(r), LineChar) && Format(r) != "" && Trimmed(Format(r), IsWhite)
  {
    PatternIsPlain(r.domain);
    ShowIsPlain(r.answer);
    var mark := if r.enabled then "" else "!";
    var n := |mark|;
    var line, shown := Format(r), Show(r.answer);
    forall i | 0 <= i < |line| ensures LineChar(line[i]) {
      if n <= i < n + |r.domain| { assert line[i] == r.domain[i - n]; }
      else if i > n + |r.domain| { assert line[i] == shown[i - n - |r.domain| - 1]; }
    }
    assert line[|line| - 1] == shown[|shown| - 1];
    assert line[0] == if r.enabled then r.domain[0] else '!';
  }

  lemma PlainLine(line: string)
    requires Every(line, LineChar) && Trimmed(line, IsWhite)
    ensures Clean(line) == line && OneLine(line)
  {
    NoIndex(line, IsHash, 0);
    assert line[..|line|] == line;
    TrimFixed(line, IsWhite);
  }

  lemma CleanFixed(r: Rewrite)
    requires ValidRewrite(r)
    ensures Clean(Format(r)) == Format(r) && OneLine(Format(r))
  {
    FormatIsPlain(r);
    PlainLine(Format(r));
  }

  lemma RecordRoundTrip(r: Rewrite, l: string)
    requires ValidRewrite(r) && l == r.domain + " " + Show(r.answer)
    ensures ParseRecord(l, r.enabled) == Some(r)
  {
    var n := |r.domain|;
    PatternIsPlain(r.domain);
    FirstIndex(l, IsWhite, 0, n);
    assert l[..n] == r.domain && l[n + 1..] == Show(r.answer);
    NormalizeFixed(r.domain);
    AnswerRoundTrip(r.answer);
  }

  /** Reading a record's line gives the record back. */
  lemma LineRoundTrip(r: Rewrite)
    requires ValidRewrite(r)
    ensures ParseLine(Format(r)) == Some(r)
  {
    var body := r.domain + " " + Show(r.answer);
    RecordRoundTrip(r, body);
    StripMark(r, body);
  }

  lemma UnmarkParked(body: string)
    requires body != "" && !IsWhite(body[0])
    ensures Unmark("!" + body) == (body, false)
  {
    assert ("!" + body)[1..] == body;
  }

  lemma StripMark(r: Rewrite, body: string)
    requires ValidRewrite(r) && body == r.domain + " " + Show(r.answer)
    ensures Unmark(Format(r)) == (body, r.enabled)
  {
    assert PatternChar(body[0]) by {
      PatternIsPlain(r.domain);
      assert body[0] == r.domain[0];
    }
    if r.enabled {
      assert Format(r) == body;
    } else {
      assert Format(r) == "!" + body;
      UnmarkParked(body);
    }
  }

  /** A record's line survives the file and reads back as the record. */
  lemma RecordsAreCodable(r: Rewrite)
    requires ValidRewrite(r)
    ensures Codable(r, ParseLine, Format)
  {
    FormatIsPlain(r);
    CleanFixed(r);
    LineRoundTrip(r);
  }
}

/** The store of local records: editing, the file behind it, and which records answer a domain. */
module RewriteStoreSpec {
  import opened Options
  import opened Ordering
  import opened Text
  import opened PersistText
  import opened RewriteText

  // ----- which records may stand together

  predicate SameRecord(r: Rewrite, domain: string, answer: Answer) {
    r.domain == domain && r.answer == answer
  }

  function HasRecord(rs: seq<Rewrite>, domain: string, answer: Answer): bool {
    rs != [] && (SameRecord(rs[0], domain, answer) || HasRecord(rs[1..], domain, answer))
  }

  /** A CNAME excludes every other answer of its pattern. */
  predicate Conflicts(rs: seq<Rewrite>, domain: string, answer: Answer) {
    rs != [] &&
    ((rs[0].domain == domain && (answer.Cname? || rs[0].answer.Cname?)) || Conflicts(rs[1..], domain, answer))
  }

  ghost predicate Compatible(a: Rewrite, b: Rewrite) {
    a.domain == b.domain ==> a.answer != b.answer && a.answer.V4? && b.answer.V4?
  }

  ghost predicate Apart(x: Rewrite, rs: seq<Rewrite>) {
    rs == [] || (Compatible(x, rs[0]) && Apart(x, rs[1..]))
  }

  /** All records valid, all different, and no CNAME beside another answer of its pattern. */
  ghost predicate Good(rs: seq<Rewrite>) {
    rs == [] || (ValidRewrite(rs[0]) && Apart(rs[0], rs[1..]) && Good(rs[1..]))
  }

  // ----- the operations

  function Without(rs: seq<Rewrite>, domain: string, answer: Answer): seq<Rewrite> {
    if rs == [] then []
    else (if SameRecord(rs[0], domain, answer) then [] else [rs[0]]) + Without(rs[1..], domain, answer)
  }

  /** The first such record gets the flag. */
  function Flagged(rs: seq<Rewrite>, domain: string, answer: Answer, enabled: bool): seq<Rewrite> {
    if rs == [] then []
    else if SameRecord(rs[0], domain, answer) then [rs[0].(enabled := enabled)] + rs[1..]
    else [rs[0]] + Flagged(rs[1..], domain, answer, enabled)
  }

  predicate KeyLeq(a: Rewrite, b: Rewrite) {
    PairLeq((a.domain, Show(a.answer)), (b.domain, Show(b.answer)))
  }

  /** A pattern without its `*.`. */
  function Bare(p: string): string {
    if IsWild(p) then Bare(p[2..]) else p
  }

  /** The header is fixed: lines of comment that open the file. */
  datatype State = State(header: seq<string>, entries: seq<Rewrite>, file: Option<string>)

  /** `written` says whether the file write of this call succeeds; a failed one leaves the file as it was. */
  datatype Op =
    | Add(domain: string, answer: string, written: bool)
    | Remove(domain: string, answer: string, written: bool)
    | SetEnabled(domain: string, answer: string, enabled: bool, written: bool)

  /** Memory follows the file: the new list is kept only once it is written. */
  function Commit(s: State, next: seq<Rewrite>, written: bool): State {
    if written then State(s.header, next, Some(FileText(s.header, next, Format))) else s
  }

  function Step(s: State, op: Op): State {
    var domain, answer := NormalizePattern(op.domain), ParseAnswer(op.answer);
    if domain.None? || answer.None? then s
    else
      var d, a := domain.value, answer.value;
      match op
      case Add(_, _, written) =>
        if (a.Cname? && a.host == Bare(d)) || HasRecord(s.entries, d, a) || Conflicts(s.entries, d, a) then s
        else Commit(s, SortBy(KeyLeq, s.entries + [Rewrite(d, a, true)]), written)
      case Remove(_, _, written) =>
        var next := Without(s.entries, d, a);
        if |next| == |s.entries| then s else Commit(s, next, written)
      case SetEnabled(_, _, enabled, written) =>
        var next := Flagged(s.entries, d, a, enabled);
        if next == s.entries then s else Commit(s, next, written)
  }

  function Load(file: Option<string>): seq<Rewrite> {
    if file.Some? then ParseLines(file.value, ParseLine) else []
  }

  function Run(header: seq<string>, ops: seq<Op>): State {
    if ops == [] then State(header, [], None) else Step(Run(header, ops[..|ops| - 1]), ops[|ops| - 1])
  }

  // ----- what the operations keep

  lemma {:induction false} FreeIsApart(rs: seq<Rewrite>, e: Rewrite)
    requires !HasRecord(rs, e.domain, e.answer) && !Conflicts(rs, e.domain, e.answer)
    ensures Apart(e, rs)
  {
    if rs != [] { FreeIsApart(rs[1..], e); }
  }

  lemma {:induction false} ApartSnoc(x: Rewrite, rs: seq<Rewrite>, e: Rewrite)
    requires Apart(x, rs) && Compatible(x, e)
    ensures Apart(x, rs + [e])
  {
    if rs == [] {
      assert rs + [e] == [e] && [e][1..] == [];
    } else {
      ApartSnoc(x, rs[1..], e);
      assert (rs + [e])[1..] == rs[1..] + [e];
    }
  }

  lemma {:induction false} GoodSnoc(rs: seq<Rewrite>, e: Rewrite)
    requires Good(rs) && Apart(e, rs) && ValidRewrite(e)
    ensures Good(rs + [e])
  {
    if rs == [] {
      assert rs + [e] == [e] && [e][1..] == [];
    } else {
      GoodSnoc(rs[1..], e);
      ApartSnoc(rs[0], rs[1..], e);
      assert (rs + [e])[1..] == rs[1..] + [e];
    }
  }

  lemma {:induction false} InsertApart(y: Rewrite, x: Rewrite, rs: seq<Rewrite>)
    requires Apart(y, rs) && Compatible(y, x)
    ensures Apart(y, Insert(KeyLeq, x, rs))
  {
    var r := Insert(KeyLeq, x, rs);
    if rs == [] {
      assert r[1..] == [];
    } else if KeyLeq(x, rs[0]) {
      assert r[1..] == rs;
    } else {
      InsertApart(y, x, rs[1..]);
      assert r[1..] == Insert(KeyLeq, x, rs[1..]);
    }
  }

  lemma {:induction false} InsertGood(x: Rewrite, rs: seq<Rewrite>)
    requires Good(rs) && Apart(x, rs) && ValidRewrite(x)
    ensures Good(Insert(KeyLeq, x, rs))
  {
    var r := Insert(KeyLeq, x, rs);
    if rs == [] {
      assert r[1..] == [];
    } else if KeyLeq(x, rs[0]) {
      assert r[1..] == rs;
    } else {
      InsertGood(x, rs[1..]);
      InsertApart(rs[0], x, rs[1..]);
      assert r[1..] == Insert(KeyLeq, x, rs[1..]);
    }
  }

  lemma {:induction false} SortApart(y: Rewrite, rs: seq<Rewrite>)
    requires Apart(y, rs)
    ensures Apart(y, SortBy(KeyLeq, rs))
  {
    if rs != [] {
      SortApart(y, rs[1..]);
      InsertApart(y, rs[0], SortBy(KeyLeq, rs[1..]));
    }
  }

  lemma {:induction false} SortGood(rs: seq<Rewrite>)
    requires Good(rs)
    ensures Good(SortBy(KeyLeq, rs))
  {
    if rs != [] {
      SortGood(rs[1..]);
      SortApart(rs[0], rs[1..]);
      InsertGood(rs[0], SortBy(KeyLeq, rs[1..]));
    }
  }

  lemma {:induction false} WithoutApart(x: Rewrite, rs: seq<Rewrite>, d: string, a: Answer)
    requires Apart(x, rs)
    ensures Apart(x, Without(rs, d, a))
  {
    if rs != [] {
      WithoutApart(x, rs[1..], d, a);
      var rest := Without(rs[1..], d, a);
      assert Without(rs, d, a) == if SameRecord(rs[0], d, a) then rest else [rs[0]] + rest;
    }
  }

  lemma {:induction false} WithoutGood(rs: seq<Rewrite>, d: string, a: Answer)
    requires Good(rs)
    ensures Good(Without(rs, d, a))
  {
    if rs != [] {
      WithoutGood(rs[1..], d, a);
      WithoutApart(rs[0], rs[1..], d, a);
      var rest := Without(rs[1..], d, a);
      assert Without(rs, d, a) == if SameRecord(rs[0], d, a) then rest else [rs[0]] + rest;
    }
  }

  lemma {:induction false} FlaggedApart(x: Rewrite, rs: seq<Rewrite>, d: string, a: Answer, on: bool)
    requires Apart(x, rs)
    ensures Apart(x, Flagged(rs, d, a, on))
  {
    if rs != [] {
      FlaggedApart(x, rs[1..], d, a, on);
      var r := Flagged(rs, d, a, on);
      assert r[1..] == if SameRecord(rs[0], d, a) then rs[1..] else Flagged(rs[1..], d, a, on);
    }
  }

  lemma {:induction false} ApartAnyFlag(x: Rewrite, rs: seq<Rewrite>, on: bool)
    requires Apart(x, rs)
    ensures Apart(x.(enabled := on), rs)
  {
    if rs != [] { ApartAnyFlag(x, rs[1..], on); }
  }

  lemma {:induction false} FlaggedGood(rs: seq<Rewrite>, d: string, a: Answer, on: bool)
    requires Good(rs)
    ensures Good(Flagged(rs, d, a, on))
  {
    if rs != [] {
      FlaggedGood(rs[1..], d, a, on);
      FlaggedApart(rs[0], rs[1..], d, a, on);
      ApartAnyFlag(rs[0], rs[1..], on);
      var r := Flagged(rs, d, a, on);
      assert r[1..] == if SameRecord(rs[0], d, a) then rs[1..] else Flagged(rs[1..], d, a, on);
    }
  }

  /** The records are good, and the file, once written, holds them. */
  ghost predicate Inv(s: State) {
    Good(s.entries) && s.file == (if s.file.None? && s.entries == [] then None else Some(FileText(s.header, s.entries, Format)))
  }

  lemma StepInv(s: State, op: Op)
    requires Inv(s)
    ensures Inv(Step(s, op))
  {
    NormalizeMeets(op.domain);
    ParseAnswerMeets(op.answer);
    var domain, answer := NormalizePattern(op.domain), ParseAnswer(op.answer);
    if domain.Some? && answer.Some? {
      StepGood(s, op, domain.value, answer.value);
    }
  }

  lemma StepGood(s: State, op: Op, d: string, a: Answer)
    requires Inv(s) && IsPattern(d) && ValidAnswer(a)
    ensures op.Add? && !HasRecord(s.entries, d, a) && !Conflicts(s.entries, d, a) ==>
      Good(SortBy(KeyLeq, s.entries + [Rewrite(d, a, true)]))
    ensures Good(Without(s.entries, d, a))
    ensures op.SetEnabled? ==> Good(Flagged(s.entries, d, a, op.enabled))
  {
    var e := Rewrite(d, a, true);
    if op.Add? && !HasRecord(s.entries, d, a) && !Conflicts(s.entries, d, a) {
      FreeIsApart(s.entries, e);
      GoodSnoc(s.entries, e);
      SortGood(s.entries + [e]);
    }
    WithoutGood(s.entries, d, a);
    if op.SetEnabled? { FlaggedGood(s.entries, d, a, op.enabled); }
  }

  lemma {:induction false} GoodIsCodable(rs: seq<Rewrite>)
    requires Good(rs)
    ensures AllCodable(rs, ParseLine, Format)
  {
    if rs != [] {
      GoodIsCodable(rs[1..]);
      RecordsAreCodable(rs[0]);
    }
  }

  lemma {:induction false} RunInv(header: seq<string>, ops: seq<Op>)
    ensures Inv(Run(header, ops)) && Run(header, ops).header == header
  {
    if ops != [] {
      RunInv(header, ops[..|ops| - 1]);
      StepInv(Run(header, ops[..|ops| - 1]), ops[|ops| - 1]);
    }
  }

  /** The program's header, each line in two parts. */
  function FileHeader(): seq<string> {
    [ "# DNS rewrites (local records)." + " Managed by the admin UI; one",
      "# \"domain answer\" per line. *.dom" + "ain covers the domain and subdomains.",
      "# A leading ! parks the record: " + "kept and listed, never answered." ]
  }

  ghost predicate Unbroken(s: string) {
    forall k :: 0 <= k < |s| ==> !IsNewline(s[k]) && s[k] != '\r'
  }

  lemma CommentLine(a: string, b: string)
    requires a != "" && a[0] == '#' && Unbroken(a) && Unbroken(b)
    ensures OneLine(a + b) && a + b != "" && (a + b)[0] == '#'
  {
  }

  lemma FirstLine()
    ensures var a, b := "# DNS rewrites (local records).", " Managed by the admin UI; one";
      a != "" && a[0] == '#' && Unbroken(a) && Unbroken(b)
  {
  }

  lemma SecondLine()
    ensures var a, b := "# \"domain answer\" per line. *.dom", "ain covers the domain and subdomains.";
      a != "" && a[0] == '#' && Unbroken(a) && Unbroken(b)
  {
  }

  lemma ThirdLine()
    ensures var a, b := "# A leading ! parks the record: ", "kept and listed, never answered.";
      a != "" && a[0] == '#' && Unbroken(a) && Unbroken(b)
  {
  }

  lemma ThreeLines(lines: seq<string>)
    requires |lines| == 3 && forall i :: 0 <= i < 3 ==> OneLine(lines[i]) && lines[i] != "" && lines[i][0] == '#'
    ensures IsHeader(lines)
  {
    assert IsHeader(lines[3..]);
    assert lines[2..][1..] == lines[3..] && IsHeader(lines[2..]);
    assert lines[1..][1..] == lines[2..] && IsHeader(lines[1..]);
  }

  /** The program's own header is one of comments. */
  lemma HeaderIsHeader()
    ensures IsHeader(FileHeader()) && FileHeader() != []
  {
    FirstLine();
    SecondLine();
    ThirdLine();
    CommentLine("# DNS rewrites (local records).", " Managed by the admin UI; one");
    CommentLine("# \"domain answer\" per line. *.dom", "ain covers the domain and subdomains.");
    CommentLine("# A leading ! parks the record: ", "kept and listed, never answered.");
    ThreeLines(FileHeader());
  }

  /**
   After any run of edits from an empty store, with file writes failing wherever they may,
   a restart loads exactly the list that is being served.
   */
  lemma ReloadIsServed(header: seq<string>, ops: seq<Op>)
    requires IsHeader(header) && header != []
    ensures Load(Run(header, ops).file) == Run(header, ops).entries
  {
    var s := Run(header, ops);
    RunInv(header, ops);
    if s.file.Some? {
      GoodIsCodable(s.entries);
      FileRoundTrip(header, s.entries, ParseLine, Format);
    }
  }

  /** And so it does with the header the program writes. */
  lemma OwnFileReloads(ops: seq<Op>)
    ensures Load(Run(FileHeader(), ops).file) == Run(FileHeader(), ops).entries
  {
    HeaderIsHeader();
    ReloadIsServed(FileHeader(), ops);
  }

  // ----- matching

  predicate EndsWith(s: string, t: string) {
    |t| <= |s| && s[|s| - |t|..] == t
  }

  /** `*.host` matches the host and every name under it. */
  predicate PatternMatches(p: string, domain: string) {
    if IsWild(p) then domain == p[2..] || EndsWith(domain, "." + p[2..]) else domain == p
  }

  /** Exact patterns come before wild ones, and longer ones before shorter. */
  predicate SpecLeq(p: string, q: string) {
    if IsWild(p) == IsWild(q) then |p| <= |q| else IsWild(p)
  }

  /** Two patterns that match one domain are ranked strictly. */
  lemma NoTies(p: string, q: string, domain: string)
    requires PatternMatches(p, domain) && PatternMatches(q, domain) && SpecLeq(p, q) && SpecLeq(q, p)
    ensures p == q
  {
    if IsWild(p) {
      assert p[2..] == q[2..] by {
        Tail(p, domain);
        Tail(q, domain);
      }
      SameTail(p, q);
    }
  }

  lemma SameTail(p: string, q: string)
    requires IsWild(p) && IsWild(q) && p[2..] == q[2..]
    ensures p == q
  {
    assert p == p[..2] + p[2..] && q == q[..2] + q[2..];
  }

  lemma Tail(p: string, domain: string)
    requires IsWild(p) && PatternMatches(p, domain)
    ensures |p| - 2 <= |domain| && domain[|domain| - (|p| - 2)..] == p[2..]
  {
    var h := p[2..];
    if domain != h {
      assert ("." + h)[1..] == h;
      assert domain[|domain| - |h|..] == domain[|domain| - |h| - 1..][1..];
    }
  }

  predicate Live(r: Rewrite, domain: string) {
    r.enabled && PatternMatches(r.domain, domain)
  }

  /** The most specific live pattern; among equals the last one seen. */
  function Best(rs: seq<Rewrite>, domain: string): Option<string> {
    if rs == [] then None
    else
      var b, r := Best(rs[..|rs| - 1], domain), rs[|rs| - 1];
      if Live(r, domain) && (b.None? || SpecLeq(b.value, r.domain)) then Some(r.domain) else b
  }

  function Answers(rs: seq<Rewrite>, p: string): seq<Answer> {
    if rs == [] then []
    else (if rs[0].enabled && rs[0].domain == p then [rs[0].answer] else []) + Answers(rs[1..], p)
  }

  function Matching(rs: seq<Rewrite>, domain: string): seq<Answer> {
    var b := Best(rs, domain);
    if b.None? then [] else Answers(rs, b.value)
  }

  /** The best pattern is that of a live record, and every live record ranks no higher. */
  lemma {:induction false} BestIsBest(rs: seq<Rewrite>, domain: string)
    ensures var b := Best(rs, domain);
      && (b.Some? ==> exists i :: 0 <= i < |rs| && Live(rs[i], domain) && rs[i].domain == b.value)
      && (forall i :: 0 <= i < |rs| && Live(rs[i], domain) ==> b.Some? && SpecLeq(rs[i].domain, b.value))
  {
    if rs != [] {
      var init, r := rs[..|rs| - 1], rs[|rs| - 1];
      BestIsBest(init, domain);
      var b0, b := Best(init, domain), Best(rs, domain);
      if b0.Some? {
        var i :| 0 <= i < |init| && Live(init[i], domain) && init[i].domain == b0.value;
        assert rs[i] == init[i];
      }
      forall i | 0 <= i < |rs| && Live(rs[i], domain) ensures b.Some? && SpecLeq(rs[i].domain, b.value) {
        if i < |init| { assert rs[i] == init[i]; }
      }
    }
  }

  /** Only the most specific enabled pattern answers: any other live pattern ranks strictly lower. */
  lemma MostSpecificAnswers(rs: seq<Rewrite>, domain: string, r: Rewrite)
    requires r in rs && Live(r, domain)
    ensures Best(rs, domain).Some? && PatternMatches(Best(rs, domain).value, domain)
    ensures r.domain != Best(rs, domain).value ==> !SpecLeq(Best(rs, domain).value, r.domain)
  {
    BestIsBest(rs, domain);
    var i :| 0 <= i < |rs| && rs[i] == r;
    var b := Best(rs, domain).value;
    if SpecLeq(b, r.domain) { NoTies(b, r.domain, domain); }
  }

  /** The best pattern does not depend on the order of the list. */
  lemma BestIsOrderFree(rs: seq<Rewrite>, qs: seq<Rewrite>, domain: string)
    requires multiset(rs) == multiset(qs)
    ensures Best(rs, domain) == Best(qs, domain)
  {
    BestBelow(rs, qs, domain);
    BestBelow(qs, rs, domain);
    var p, q := Best(rs, domain), Best(qs, domain);
    if p.Some? { NoTies(p.value, q.value, domain); }
  }

  lemma BestBelow(rs: seq<Rewrite>, qs: seq<Rewrite>, domain: string)
    requires multiset(rs) == multiset(qs)
    ensures var p, q := Best(rs, domain), Best(qs, domain);
      p.Some? ==> q.Some? && SpecLeq(p.value, q.value) && PatternMatches(p.value, domain)
  {
    BestIsBest(rs, domain);
    BestIsBest(qs, domain);
    var p := Best(rs, domain);
    if p.Some? {
      var i :| 0 <= i < |rs| && Live(rs[i], domain) && rs[i].domain == p.value;
      assert rs[i] in multiset(qs);
      var j :| 0 <= j < |qs| && qs[j] == rs[i];
    }
  }

  lemma CountCons<T>(x: T, s: seq<T>, y: T)
    ensures multiset([x] + s)[y] == multiset(s)[y] + if x == y then 1 else 0
  {
  }

  lemma {:induction false} AnswersCount(rs: seq<Rewrite>, p: string, a: Answer)
    ensures multiset(Answers(rs, p))[a] == multiset(rs)[Rewrite(p, a, true)]
  {
    if rs != [] {
      AnswersCount(rs[1..], p, a);
      CountCons(rs[0], rs[1..], Rewrite(p, a, true));
      assert rs == [rs[0]] + rs[1..];
      if rs[0].enabled && rs[0].domain == p {
        CountCons(rs[0].answer, Answers(rs[1..], p), a);
      } else {
        assert Answers(rs, p) == Answers(rs[1..], p);
      }
    }
  }

  /** So the same records in another order give the same answers. */
  lemma MatchingIsOrderFree(rs: seq<Rewrite>, qs: seq<Rewrite>, domain: string)
    requires multiset(rs) == multiset(qs)
    ensures multiset(Matching(rs, domain)) == multiset(Matching(qs, domain))
  {
    BestIsOrderFree(rs, qs, domain);
    if Best(rs, domain).Some? {
      var p := Best(rs, domain).value;
      forall a ensures multiset(Answers(rs, p))[a] == multiset(Answers(qs, p))[a] {
        AnswersCount(rs, p, a);
        AnswersCount(qs, p, a);
      }
    }
  }

  // ----- the shape of an answer

  ghost predicate DistinctV4(xs: seq<Answer>) {
    xs == [] || (xs[0].V4? && xs[0] !in xs[1..] && DistinctV4(xs[1..]))
  }

  lemma {:induction false} ApartAnswers(x: Rewrite, rs: seq<Rewrite>)
    requires Apart(x, rs)
    ensures x.answer !in Answers(rs, x.domain) && (x.answer.Cname? ==> Answers(rs, x.domain) == [])
  {
    if rs != [] { ApartAnswers(x, rs[1..]); }
  }

  lemma {:induction false} ShapeOfAnswers(rs: seq<Rewrite>, p: string)
    requires Good(rs)
    ensures var xs := Answers(rs, p); DistinctV4(xs) || (|xs| == 1 && xs[0].Cname?)
  {
    if rs != [] {
      var rest := Answers(rs[1..], p);
      ShapeOfAnswers(rs[1..], p);
      if rs[0].enabled && rs[0].domain == p {
        ApartAnswers(rs[0], rs[1..]);
        assert Answers(rs, p)[1..] == rest;
        NoCnameBeside(rs[0], rs[1..], p);
      } else {
        assert [] + rest == rest;
      }
    }
  }

  lemma {:induction false} NoCnameBeside(x: Rewrite, rs: seq<Rewrite>, p: string)
    requires Apart(x, rs) && x.domain == p
    ensures |Answers(rs, p)| >= 1 ==> Answers(rs, p)[0].V4?
  {
    if rs != [] { NoCnameBeside(x, rs[1..], p); }
  }

  /** In every reachable store a domain is answered by one CNAME, or by distinct addresses, or not at all. */
  lemma OneCnameOrAddresses(header: seq<string>, ops: seq<Op>, domain: string)
    ensures var xs := Matching(Run(header, ops).entries, domain); DistinctV4(xs) || (|xs| == 1 && xs[0].Cname?)
  {
    var rs := Run(header, ops).entries;
    RunInv(header, ops);
    if Best(rs, domain).Some? { ShapeOfAnswers(rs, Best(rs, domain).value); }
  }
}

/** The store object: the served list and the file behind it. */
module RewriteStore {
  import opened Options
  import opened Ordering
  import opened PersistText
  import opened RewriteText
  import opened RewriteStoreSpec

  datatype Result<T> = Ok(value: T) | Err

  class RewriteStore {
    const header: seq<string>
    var entries: seq<Rewrite>
    var file: Option<string>

    ghost function Model(): State
      reads this
    {
      State(header, entries, file)
    }

    constructor Load(header: seq<string>, file: Option<string>)
      ensures Model() == State(header, RewriteStoreSpec.Load(file), file)
    {
      this.header := header;
      entries := if file.Some? then ParseLines(file.value, ParseLine) else [];
      this.file := file;
    }

    /** Write first, and take the new list over only if that worked. */
    method Mutate(next: seq<Rewrite>, written: bool) returns (ok: bool)
      modifies this
      ensures ok == written && Model() == Commit(old(Model()), next, written)
    {
      ok := written;
      if written {
        file := Some(FileText(header, next, Format));
        entries := next;
      }
    }

    method Add(domain: string, answer: string, written: bool) returns (r: Result<()>)
      modifies this
      ensures Model() == Step(old(Model()), RewriteStoreSpec.Add(domain, answer, written))
      ensures var (d, a) := (NormalizePattern(domain), ParseAnswer(answer));
        if d.None? || a.None? || (a.value.Cname? && a.value.host == Bare(d.value)) then r.Err?
        else r.Ok? <==> HasRecord(entries, d.value, a.value)
    {
      var d, a := NormalizePattern(domain), ParseAnswer(answer);
      if d.None? || a.None? || (a.value.Cname? && a.value.host == Bare(d.value)) {
        return Err;
      }
      var e := Rewrite(d.value, a.value, true);
      if HasRecord(entries, e.domain, e.answer) {
        return Ok(());
      }
      if Conflicts(entries, e.domain, e.answer) {
        return Err;
      }
      var next := SortBy(KeyLeq, entries + [e]);
      assert HasRecord(next, e.domain, e.answer) by {
        assert (entries + [e])[|entries|] == e && e in multiset(next);
        InHasRecord(next, e);
      }
      var ok := Mutate(next, written);
      r := if ok then Ok(()) else Err;
    }

    method Remove(domain: string, answer: string, written: bool) returns (r: Result<bool>)
      modifies this
      ensures Model() == Step(old(Model()), RewriteStoreSpec.Remove(domain, answer, written))
      ensures r.Ok? ==> Valid(domain, answer)
      ensures r.Ok? ==> (r.value <==> HasRecord(old(entries), NormalizePattern(domain).value, ParseAnswer(answer).value))
      ensures r.Ok? ==> !HasRecord(entries, NormalizePattern(domain).value, ParseAnswer(answer).value)
    {
      var d, a := NormalizePattern(domain), ParseAnswer(answer);
      if d.None? || a.None? {
        return Err;
      }
      var next := Without(entries, d.value, a.value);
      WithoutMeets(entries, d.value, a.value);
      if |next| == |entries| {
        return Ok(false);
      }
      var ok := Mutate(next, written);
      r := if ok then Ok(true) else Err;
    }

    method SetEnabled(domain: string, answer: string, enabled: bool, written: bool) returns (r: Result<bool>)
      modifies this
      ensures Model() == Step(old(Model()), RewriteStoreSpec.SetEnabled(domain, answer, enabled, written))
      ensures r.Ok? ==> Valid(domain, answer)
      ensures r.Ok? ==> (r.value <==> HasRecord(old(entries), NormalizePattern(domain).value, ParseAnswer(answer).value))
      ensures r == Ok(true) ==>
        FirstFlag(entries, NormalizePattern(domain).value, ParseAnswer(answer).value) == Some(enabled)
    {
      var d, a := NormalizePattern(domain), ParseAnswer(answer);
      if d.None? || a.None? {
        return Err;
      }
      var next := Flagged(entries, d.value, a.value, enabled);
      FlaggedMeets(entries, d.value, a.value, enabled);
      if next == entries {
        return Ok(HasRecord(entries, d.value, a.value));
      }
      var ok := Mutate(next, written);
      r := if ok then Ok(true) else Err;
    }
  }

  predicate Valid(domain: string, answer: string) {
    NormalizePattern(domain).Some? && ParseAnswer(answer).Some?
  }

  /** The flag of the first such record. */
  function FirstFlag(rs: seq<Rewrite>, d: string, a: Answer): Option<bool> {
    if rs == [] then None
    else if SameRecord(rs[0], d, a) then Some(rs[0].enabled)
    else FirstFlag(rs[1..], d, a)
  }

  lemma {:induction false} InHasRecord(rs: seq<Rewrite>, e: Rewrite)
    requires e in rs
    ensures HasRecord(rs, e.domain, e.answer)
  {
    if !SameRecord(rs[0], e.domain, e.answer) { InHasRecord(rs[1..], e); }
  }

  /** Removing leaves no such record, and shortens the list exactly if there was one. */
  lemma {:induction false} WithoutMeets(rs: seq<Rewrite>, d: string, a: Answer)
    ensures !HasRecord(Without(rs, d, a), d, a) && |Without(rs, d, a)| <= |rs|
    ensures |Without(rs, d, a)| < |rs| <==> HasRecord(rs, d, a)
  {
    if rs != [] {
      WithoutMeets(rs[1..], d, a);
      var rest := Without(rs[1..], d, a);
      if SameRecord(rs[0], d, a) {
        assert [] + rest == rest;
      } else {
        assert ([rs[0]] + rest)[1..] == rest;
      }
    }
  }

  /** Flagging sets the flag of the first such record and changes nothing without one. */
  lemma {:induction false} FlaggedMeets(rs: seq<Rewrite>, d: string, a: Answer, enabled: bool)
    ensures FirstFlag(Flagged(rs, d, a, enabled), d, a) == if HasRecord(rs, d, a) then Some(enabled) else None
    ensures !HasRecord(rs, d, a) ==> Flagged(rs, d, a, enabled) == rs
  {
    if rs != [] {
      FlaggedMeets(rs[1..], d, a, enabled);
      var rest := Flagged(rs[1..], d, a, enabled);
      assert rs == [rs[0]] + rs[1..];
      if !SameRecord(rs[0], d, a) { assert ([rs[0]] + rest)[1..] == rest; }
    }
  }
}
