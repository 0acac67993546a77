/** Whole requests built from their parts, what the parser makes of them, and a few written out. */
module HttpWitness {
  import opened Bytes
  import opened HttpParse

  // ---------------------------------------------------------------- a request from its parts

  /** No line end. */
  predicate OneLine(s: string) {
    forall k :: 0 <= k < |s| ==> s[k] != '\r' && s[k] != '\n'
  }

  /** A field name has no colon and no line end, a value no line end. */
  predicate FieldOk(f: Field) {
    OneLine(f.name) && OneLine(f.value) && forall k :: 0 <= k < |f.name| ==> f.name[k] != ':'
  }

  predicate FieldsOk(fields: seq<Field>) {
    forall k :: 0 <= k < |fields| ==> FieldOk(fields[k])
  }

  function LineOf(f: Field): string {
    f.name + ":" + f.value + "\r\n"
  }

  function LinesOf(fields: seq<Field>): string {
    if fields == [] then "" else LineOf(fields[0]) + LinesOf(fields[1..])
  }

  /** The first line, a line for each field, and the empty line. */
  function HeadOf(line: string, fields: seq<Field>): string {
    line + "\r\n" + LinesOf(fields) + "\r\n"
  }

  /** The fields without blanks around their values. */
  function Trimmed(fields: seq<Field>): seq<Field> {
    if fields == [] then [] else [Field(fields[0].name, Trim(fields[0].value))] + Trimmed(fields[1..])
  }

  // ---------------------------------------------------------------- one line in a longer string

  /** Where the parts of a line are. */
  lemma LineBytes(s: string, p: nat, f: Field)
    requires p <= |s| && LineOf(f) <= s[p..]
    ensures
      var colon, cr := p + |f.name|, p + |f.name| + 1 + |f.value|;
      && cr + 1 < |s| && s[p..colon] == f.name && s[colon] == ':' && s[colon + 1..cr] == f.value
      && s[cr] == '\r' && s[cr + 1] == '\n'
  {
    var line := LineOf(f);
    var n, m := |f.name|, |f.name| + 1 + |f.value|;
    var t := s[p..p + |line|];
    assert t == line by {
      assert s[p..][..|line|] == t;
    }
    assert line[..n] == f.name && line[n] == ':' && line[n + 1..m] == f.value && line[m] == '\r' && line[m + 1] == '\n';
    assert t[..n] == s[p..p + n] && t[n + 1..m] == s[p + n + 1..p + m];
    assert t[n] == s[p + n] && t[m] == s[p + m] && t[m + 1] == s[p + m + 1];
  }

  /** The only line end of a line is its last two bytes. */
  lemma LineEnds(s: string, p: nat, f: Field)
    requires p <= |s| && LineOf(f) <= s[p..] && FieldOk(f)
    ensures
      var cr := p + |f.name| + 1 + |f.value|;
      && cr + 1 < |s| && s[cr] == '\r' && IndexOf(s, '\n', p) == cr + 1
      && forall j :: p <= j < cr ==> s[j] != '\r'
  {
    LineBytes(s, p, f);
    var colon, cr := p + |f.name|, p + |f.name| + 1 + |f.value|;
    assert forall j :: p <= j < colon ==> s[j] == s[p..colon][j - p];
    assert forall j :: colon + 1 <= j < cr ==> s[j] == s[colon + 1..cr][j - colon - 1];
    IndexAfter(s, '\n', p, cr + 1);
  }

  /** The line is this field. */
  lemma LineField(s: string, p: nat, f: Field)
    requires p <= |s| && LineOf(f) <= s[p..] && FieldOk(f)
    ensures
      var cr := p + |f.name| + 1 + |f.value|;
      cr + 1 < |s| && s[cr] == '\r' && FieldOf(s, p, cr + 1) == Some(Field(f.name, Trim(f.value)))
  {
    LineBytes(s, p, f);
    var colon := p + |f.name|;
    assert forall j :: p <= j < colon ==> s[j] == s[p..colon][j - p];
    IndexAfter(s, ':', p, colon);
  }

  lemma {:induction false} HeadEndSkip(s: string, i: nat, k: nat)
    requires i <= k <= |s| && forall j :: i <= j < k ==> !EndsHead(s, j)
    ensures HeadEnd(s, i) == HeadEnd(s, k)
    decreases k - i
  {
    if i < k {
      HeadEndSkip(s, i + 1, k);
    }
  }

  /** No head ends before the end of this line, and there only when an empty line follows. */
  lemma HeadEndLine(s: string, p: nat, eol: nat)
    requires p < eol < |s| && s[eol - 1] == '\r' && s[eol] == '\n'
    requires forall j :: p <= j < eol - 1 ==> s[j] != '\r'
    ensures EndsHead(s, eol - 1) ==> HeadEnd(s, p) == Some(eol - 1)
    ensures !EndsHead(s, eol - 1) ==> HeadEnd(s, p) == HeadEnd(s, eol + 1)
  {
    if EndsHead(s, eol - 1) {
      HeadEndSkip(s, p, eol - 1);
    } else {
      HeadEndSkip(s, p, eol + 1);
    }
  }

  // ---------------------------------------------------------------- the lines of a head

  /** One line for each of these fields, from `p` to the empty line that ends the string. */
  ghost predicate Stands(s: string, p: nat, fields: seq<Field>)
    decreases |fields|
  {
    if fields == [] then p + 2 == |s| && s[p] == '\r' && s[p + 1] == '\n'
    else
      && p <= |s| && LineOf(fields[0]) <= s[p..] && FieldOk(fields[0])
      && Stands(s, Next(p, fields[0]), fields[1..])
  }

  function Next(p: nat, f: Field): nat {
    p + |f.name| + |f.value| + 3
  }

  lemma Behind(s: string, p: nat, a: string, b: string, c: string)
    requires p <= |s| && s[p..] == a + b + c
    ensures a <= s[p..] && p + |a| <= |s| && s[p + |a|..] == b + c
  {
    assert s[p..][|a|..] == b + c;
    assert s[p..][|a|..] == s[p + |a|..];
  }

  lemma {:induction false} LinesStand(s: string, p: nat, fields: seq<Field>)
    requires p <= |s| && s[p..] == LinesOf(fields) + "\r\n" && FieldsOk(fields)
    ensures Stands(s, p, fields)
    decreases |fields|
  {
    if fields == [] {
      assert s[p..] == "\r\n";
      assert s[p] == s[p..][0] && s[p + 1] == s[p..][1];
    } else {
      var line, more := LineOf(fields[0]), LinesOf(fields[1..]);
      assert s[p..] == line + more + "\r\n";
      Behind(s, p, line, more, "\r\n");
      LinesStand(s, Next(p, fields[0]), fields[1..]);
    }
  }

  /** The end of the first line, and the field on it. */
  lemma LineAt(s: string, p: nat, fields: seq<Field>) returns (eol: nat)
    requires fields != [] && Stands(s, p, fields)
    ensures p < eol < |s| && eol + 1 == Next(p, fields[0]) && s[eol - 1] == '\r' && s[eol] == '\n'
    ensures IndexOf(s, '\n', p) == eol && forall j :: p <= j < eol - 1 ==> s[j] != '\r'
    ensures FieldOf(s, p, eol) == Some(Field(fields[0].name, Trim(fields[0].value)))
  {
    eol := p + |fields[0].name| + |fields[0].value| + 2;
    LineEnds(s, p, fields[0]);
    LineField(s, p, fields[0]);
  }

  /** A line end does not begin a line, so only the empty line can follow one and end the head. */
  lemma {:induction false} StandsLength(s: string, p: nat, fields: seq<Field>)
    requires Stands(s, p, fields)
    ensures p + 2 <= |s| && (fields != [] ==> s[p] != '\r')
    ensures fields == [] ==> p + 2 == |s| && s[p] == '\r' && s[p + 1] == '\n'
    decreases |fields|
  {
    if fields != [] {
      StandsLength(s, Next(p, fields[0]), fields[1..]);
      assert s[p] == s[p..][0] == LineOf(fields[0])[0];
    }
  }

  /** The fields of such lines. */
  lemma {:induction false} FieldsStand(s: string, p: nat, hi: nat, fields: seq<Field>)
    requires p <= hi && hi + 2 == |s| && Stands(s, p, fields)
    ensures Fields(s, p, hi) == Trimmed(fields)
    decreases |fields|
  {
    if fields != [] {
      var eol := LineAt(s, p, fields);
      StandsLength(s, eol + 1, fields[1..]);
      FieldsStand(s, eol + 1, hi, fields[1..]);
    }
  }

  /** The head ends behind the last line. */
  lemma {:induction false} StandsEnd(s: string, p: nat, fields: seq<Field>)
    requires Stands(s, p, fields) && fields != []
    ensures 4 <= |s| && HeadEnd(s, p) == Some(|s| - 4)
    decreases |fields|
  {
    var rest := fields[1..];
    var eol := LineAt(s, p, fields);
    StandsLength(s, eol + 1, rest);
    HeadEndLine(s, p, eol);
    if rest == [] {
      assert EndsHead(s, eol - 1);
    } else {
      assert !EndsHead(s, eol - 1);
      StandsEnd(s, eol + 1, rest);
    }
  }

  // ---------------------------------------------------------------- whole heads

  lemma FirstBytes(s: string, line: string)
    requires line + "\r\n" <= s && OneLine(line)
    ensures
      var cr := |line|;
      && s[..cr] == line && s[cr] == '\r' && s[cr + 1] == '\n' && IndexOf(s, '\n', 0) == cr + 1
      && forall j :: 0 <= j < cr ==> s[j] != '\r'
  {
    var cr, first := |line|, line + "\r\n";
    assert s[..cr + 2] == first;
    assert s[..cr] == first[..cr] && first[..cr] == line;
    assert forall j :: 0 <= j < cr ==> s[j] == s[..cr][j];
    assert s[cr] == first[cr] && s[cr + 1] == first[cr + 1];
    IndexAfter(s, '\n', 0, cr + 1);
  }

  lemma StartBytes(line: string, fields: seq<Field>, s: string)
    requires OneLine(line) && s == HeadOf(line, fields)
    ensures
      var cr := |line|;
      && cr + 2 <= |s| && s[cr + 2..] == LinesOf(fields) + "\r\n" && s[..cr] == line
      && s[cr] == '\r' && s[cr + 1] == '\n' && IndexOf(s, '\n', 0) == cr + 1
      && forall j :: 0 <= j < cr ==> s[j] != '\r'
  {
    Behind(s, 0, line + "\r\n", LinesOf(fields), "\r\n") by {
      assert s[0..] == s;
    }
    FirstBytes(s, line);
  }

  lemma FirstLineIs(s: string, line: string)
    requires |line| + 2 <= |s| && IndexOf(s, '\n', 0) == |line| + 1 && s[|line|] == '\r' && s[..|line|] == line
    ensures FirstLine(s) == line
  {
  }

  /** The first line of the head, and its fields. */
  lemma HeadFields(line: string, fields: seq<Field>, s: string, lo: nat, hi: nat)
    requires OneLine(line) && FieldsOk(fields) && s == HeadOf(line, fields) && lo == |line| + 2 && |s| == hi + 2
    ensures FirstLine(s) == line && IndexOf(s, '\n', 0) + 1 == lo <= hi
    ensures Fields(s, lo, hi) == Trimmed(fields)
  {
    StartBytes(line, fields, s);
    FirstLineIs(s, line);
    LinesStand(s, lo, fields);
    FieldsFrom(s, lo, hi, fields);
  }

  lemma FieldsFrom(s: string, lo: nat, hi: nat, fields: seq<Field>)
    requires lo <= |s| == hi + 2 && Stands(s, lo, fields)
    ensures lo <= hi && Fields(s, lo, hi) == Trimmed(fields)
  {
    StandsLength(s, lo, fields);
    FieldsStand(s, lo, hi, fields);
  }

  /** Where the head ends. */
  lemma HeadEnds(line: string, fields: seq<Field>, s: string)
    requires OneLine(line) && FieldsOk(fields) && s == HeadOf(line, fields)
    ensures 4 <= |s| && HeadEnd(s, 0) == Some(|s| - 4)
  {
    StartBytes(line, fields, s);
    var lo := |line| + 2;
    LinesStand(s, lo, fields);
    StandsLength(s, lo, fields);
    HeadEndLine(s, 0, lo - 1);
    if fields != [] {
      StandsEnd(s, lo, fields);
    }
  }

  // ---------------------------------------------------------------- whole requests

  /** The parts of a request line, none of which breaks it. */
  predicate PartsOk(verb: string, target: string, version: string) {
    && verb != "" && target != "" && NoSpace(verb) && NoSpace(target)
    && OneLine(verb) && OneLine(target) && OneLine(version) && !("HTTP/" <= verb)
  }

  function LineFrom(verb: string, target: string, version: string): string {
    verb + " " + target + " " + version
  }

  lemma LineFromParts(verb: string, target: string, version: string, line: string)
    requires PartsOk(verb, target, version) && line == LineFrom(verb, target, version)
    ensures OneLine(line) && IsRequestLine(line, verb, target, version) && !("HTTP/" <= line)
  {
    var n := |verb|;
    assert line[..n] == verb && line[n] == ' ';
    assert n >= 5 ==> line[..5] == verb[..5];
  }

  /** Whether the fields of a head refuse it. */
  predicate FieldsRefused(fields: seq<Field>) {
    FirstNames(Values(fields, "transfer-encoding"), "chunked") || LengthRefused(Values(fields, "content-length"))
  }

  /** A message with these parts, fields and body, by their names and tokens. */
  predicate IsRequest(
    s: string, m: Message, verb: string, target: string, version: string, fields: seq<Field>, body: string)
  {
    var connection := Values(fields, "connection");
    && m.line.Request? && Named(m.line.verb, verb) && At(s, m.line.verbRef, verb) && At(s, m.line.target, target)
    && (m.keepAlive <==> version == "HTTP/1.1" && !FirstNames(connection, "close"))
    && (m.upgrade <==> FirstNames(connection, "upgrade") && Values(fields, "upgrade") != [])
    && m.contentLength <= |body| && At(s, m.body, body[..m.contentLength])
    && LengthOf(Values(fields, "content-length")) == Some(m.contentLength)
  }

  predicate At(s: string, span: Span, text: string) {
    span.lo <= span.hi <= |s| && s[span.lo..span.hi] == text
  }

  /** Whether such a head is refused. */
  lemma HeadRefusal(s: string, e: nat, lo: nat, line: string, fields: seq<Field>, head: Option<Message>)
    requires EndsHead(s, e) && FirstLine(s) == line && Readable(line)
    requires IndexOf(s, '\n', 0) + 1 == lo <= e + 2 && Fields(s, lo, e + 2) == fields && head == ParseHead(s, e)
    ensures head == None <==> FieldsRefused(fields)
  {
    RefusedExactly(s, e, lo, line);
  }

  lemma ReadableLine(line: string, verb: string, target: string, version: string)
    requires IsRequestLine(line, verb, target, version) && !("HTTP/" <= line)
    ensures Readable(line)
  {
  }

  /** What the head of such a request reads as. */
  lemma HeadReads(
    verb: string, target: string, version: string, line: string, s: string, e: nat, lo: nat, fields: seq<Field>,
    head: Option<Message>)
    requires IsRequestLine(line, verb, target, version) && !("HTTP/" <= line)
    requires EndsHead(s, e) && FirstLine(s) == line && IndexOf(s, '\n', 0) + 1 == lo <= e + 2
    requires Fields(s, lo, e + 2) == fields && head == ParseHead(s, e)
    ensures head == None <==> FieldsRefused(fields)
    ensures head.Some? ==> Means(s, lo, e + 2, head.value, verb, target, version)
  {
    ReadableLine(line, verb, target, version);
    HeadRefusal(s, e, lo, line, fields, head);
    if head.Some? {
      HeadMeans(s, e, lo, head.value, verb, target, version);
    }
  }

  lemma Framed(s: string, body: string, e: nat, head: Option<Message>, v: Verdict)
    requires |s| == e + 4 && HeadEnd(s, 0) == Some(e) && head == ParseHead(s, e) && v == Parse(s + body)
    ensures v == Frame(|s| + |body|, head)
  {
    HeadStable(s, body, e);
    assert s[..e + 4] == s;
    ParseIs(s + body, e);
  }

  lemma LineAtFront(verb: string, target: string, version: string, text: string)
    requires LineFrom(verb, target, version) <= text
    ensures At(text, Span(0, |verb|), verb) && At(text, Span(|verb| + 1, |verb| + 1 + |target|), target)
  {
    var n, k := |verb|, |verb| + 1 + |target|;
    var line := LineFrom(verb, target, version);
    assert line[..n] == verb && line[n + 1..k] == target;
    assert text[..|line|] == line;
    assert text[0..n] == text[..|line|][..n] && text[n + 1..k] == text[..|line|][n + 1..k];
  }

  lemma BodyAtEnd(s: string, body: string, n: nat)
    requires n <= |body|
    ensures At(s + body, Span(|s|, |s| + n), body[..n])
  {
  }

  lemma MeansRequest(
    verb: string, target: string, version: string, s: string, e: nat, lo: nat, fields: seq<Field>,
    body: string, m: Message)
    requires LineFrom(verb, target, version) <= s && lo <= e + 2 && |s| == e + 4
    requires Fields(s, lo, e + 2) == fields && Means(s, lo, e + 2, m, verb, target, version)
    requires m.contentLength <= |body|
    ensures IsRequest(s + body, m, verb, target, version, fields, body)
  {
    LineAtFront(verb, target, version, s + body);
    BodyAtEnd(s, body, m.contentLength);
  }

  /** What the parser makes of a request with these parts: refused, waiting for its body, or complete. */
  predicate Decided(
    s: string, v: Verdict, verb: string, target: string, version: string, fields: seq<Field>, body: string)
  {
    var size := LengthOf(Values(fields, "content-length"));
    if FieldsRefused(fields) then v == Bad
    else
      && size.Some?
      && if size.value > |body| then v == More
         else v.Done? && IsRequest(s, v.msg, verb, target, version, fields, body)
  }

  /** All that is to know of where the parts of a head are. */
  lemma HeadFacts(line: string, lines: seq<Field>, s: string, lo: nat, fields: seq<Field>) returns (e: nat)
    requires OneLine(line) && FieldsOk(lines)
    requires s == HeadOf(line, lines) && fields == Trimmed(lines) && lo == |line| + 2
    ensures |s| == e + 4 && HeadEnd(s, 0) == Some(e) && FirstLine(s) == line <= s
    ensures IndexOf(s, '\n', 0) + 1 == lo <= e + 2 && Fields(s, lo, e + 2) == fields
  {
    HeadEnds(line, lines, s);
    e := |s| - 4;
    HeadFields(line, lines, s, lo, e + 2);
    LineBegins(line, lines, s);
  }

  /**
   * A request built from its parts, its fields and what follows comes back: it is refused if and
   * only if its fields refuse it, it waits for the rest of its body, and otherwise it is complete, with
   * the method of this name, these parts, the body of the announced size, and the connection kept
   * and the upgrade asked for as the tokens say.
   */
  lemma RequestRoundTrip(verb: string, target: string, version: string, lines: seq<Field>, body: string)
    requires PartsOk(verb, target, version) && FieldsOk(lines)
    ensures
      var s := HeadOf(LineFrom(verb, target, version), lines) + body;
      Decided(s, Parse(s), verb, target, version, Trimmed(lines), body)
  {
    var line := LineFrom(verb, target, version);
    var s, lo, fields := HeadOf(line, lines), |line| + 2, Trimmed(lines);
    LineFromParts(verb, target, version, line);
    var e := HeadFacts(line, lines, s, lo, fields);
    RequestDecides(verb, target, version, line, s, e, lo, fields, body, Parse(s + body));
  }

  lemma LineBegins(line: string, lines: seq<Field>, s: string)
    requires s == HeadOf(line, lines)
    ensures line <= s
  {
  }

  lemma RequestDecides(
    verb: string, target: string, version: string, line: string, s: string, e: nat, lo: nat, fields: seq<Field>,
    body: string, v: Verdict)
    requires line == LineFrom(verb, target, version) <= s && v == Parse(s + body)
    requires IsRequestLine(line, verb, target, version) && !("HTTP/" <= line)
    requires |s| == e + 4 && HeadEnd(s, 0) == Some(e) && FirstLine(s) == line
    requires IndexOf(s, '\n', 0) + 1 == lo <= e + 2 && Fields(s, lo, e + 2) == fields
    ensures Decided(s + body, v, verb, target, version, fields, body)
  {
    var head := ParseHead(s, e);
    HeadReads(verb, target, version, line, s, e, lo, fields, head);
    Framed(s, body, e, head, v);
    if head.Some? {
      BodyDecides(verb, target, version, s, e, lo, fields, body, head.value, v);
    }
  }

  lemma BodyDecides(
    verb: string, target: string, version: string, s: string, e: nat, lo: nat, fields: seq<Field>,
    body: string, m: Message, v: Verdict)
    requires LineFrom(verb, target, version) <= s && lo <= e + 2 && |s| == e + 4
    requires Fields(s, lo, e + 2) == fields && Means(s, lo, e + 2, m, verb, target, version)
    requires v == Frame(|s| + |body|, Some(m)) && !FieldsRefused(fields)
    ensures Decided(s + body, v, verb, target, version, fields, body)
  {
    if m.contentLength <= |body| {
      MeansRequest(verb, target, version, s, e, lo, fields, body, m);
    }
  }

  // ---------------------------------------------------------------- Content-Length fields

  /** Neither blanks nor line ends. */
  predicate Dense(s: string) {
    forall k :: 0 <= k < |s| ==> s[k] > ' '
  }

  predicate AllDense(sizes: seq<string>) {
    forall k :: 0 <= k < |sizes| ==> Dense(sizes[k])
  }

  const LENGTH_NAME := "Content-Length"

  function SizeLines(sizes: seq<string>): seq<Field> {
    if sizes == [] then [] else [Field(LENGTH_NAME, sizes[0])] + SizeLines(sizes[1..])
  }

  /** A request with one Content-Length field for each of these values. */
  function PostOf(sizes: seq<string>): string {
    HeadOf(LineFrom("POST", "/", "HTTP/1.1"), SizeLines(sizes))
  }

  lemma NameOk()
    ensures OneLine(LENGTH_NAME) && forall k :: 0 <= k < |LENGTH_NAME| ==> LENGTH_NAME[k] != ':'
    ensures CiEq(LENGTH_NAME, "content-length") && !CiEq(LENGTH_NAME, "transfer-encoding")
  {
  }

  lemma DenseOk(s: string)
    requires Dense(s)
    ensures Trim(s) == s && OneLine(s)
  {
  }

  /** These fields are the sizes and nothing else. */
  lemma {:induction false} SizeValues(sizes: seq<string>, lines: seq<Field>, fields: seq<Field>)
    requires AllDense(sizes) && lines == SizeLines(sizes) && fields == Trimmed(lines)
    ensures FieldsOk(lines)
    ensures Values(fields, "content-length") == sizes && Values(fields, "transfer-encoding") == []
    decreases |sizes|
  {
    if sizes != [] {
      NameOk();
      DenseOk(sizes[0]);
      var first, more := Field(LENGTH_NAME, sizes[0]), SizeLines(sizes[1..]);
      SizeValues(sizes[1..], more, Trimmed(more));
      assert lines == [first] + more && lines[1..] == more;
      ValuesCons(first, Trimmed(more), "content-length");
      ValuesCons(first, Trimmed(more), "transfer-encoding");
      assert sizes == [sizes[0]] + sizes[1..];
    }
  }

  lemma PostParts()
    ensures PartsOk("POST", "/", "HTTP/1.1")
  {
    assert "POST"[0] != "HTTP/"[0];
  }

  /** A whole request with these fields is refused, or framed with the size they stand for. */
  lemma SizesDecide(sizes: seq<string>, body: string)
    requires AllDense(sizes)
    ensures
      var size, v := LengthOf(sizes), Parse(PostOf(sizes) + body);
      if size == None then v == Bad
      else if size.value <= |body| then v.Done? && v.msg.contentLength == size.value
      else v == More
  {
    var lines := SizeLines(sizes);
    SizeValues(sizes, lines, Trimmed(lines));
    PostParts();
    LengthExact(sizes);
    RequestRoundTrip("POST", "/", "HTTP/1.1", lines, body);
  }

  /**
   * Whole requests on which the parser and the standard disagree: a third value that differs, and an
   * empty value.
   */
  lemma SizesAgainstStandard()
    ensures
      var thrice, empty := ["1", "1", "2"], [""];
      && !StandardSizes(thrice) && !StandardSizes(empty)
      && Parse(PostOf(thrice) + "x").Done? && Parse(PostOf(thrice) + "x").msg.contentLength == 1
      && Parse(PostOf(empty)).Done? && Parse(PostOf(empty)).msg.contentLength == 0
  {
    var thrice, empty := ["1", "1", "2"], [""];
    assert "1"[..0] == "" && "2"[..0] == "";
    assert Decimal("1") == 1 && Decimal("2") == 2;
    assert SizeOf(thrice[2]) == Some(2) && empty[0] == "";
    SizesDecide(thrice, "x");
    SizesDecide(empty, "");
    assert PostOf(empty) + "" == PostOf(empty);
  }

  // ---------------------------------------------------------------- requests written out

  const PLAIN := "GET / HTTP/1.1" + "\r\n" + "\r\n"
  const CLOSING := "GET / HTTP/1.1" + "\r\n" + "Connection: close\r\n" + "\r\n"
  const UPGRADING :=
    "HEAD / HTTP/1.1" + "\r\n" + ("Connection: Upgrade\r\n" + "Upgrade: websocket\r\n") + "\r\n"

  /** A request without body, for which only the names and tokens matter. */
  lemma NoBody(verb: string, lines: seq<Field>, fields: seq<Field>, text: string)
    requires PartsOk(verb, "/", "HTTP/1.1") && FieldsOk(lines) && fields == Trimmed(lines)
    requires Values(fields, "content-length") == [] && Values(fields, "transfer-encoding") == []
    requires text == HeadOf(LineFrom(verb, "/", "HTTP/1.1"), lines)
    ensures Parse(text).Done? && Parse(text).msg.line.Request? && Named(Parse(text).msg.line.verb, verb)
    ensures
      var m, connection := Parse(text).msg, Values(fields, "connection");
      && (m.keepAlive <==> !FirstNames(connection, "close"))
      && (m.upgrade <==> FirstNames(connection, "upgrade") && Values(fields, "upgrade") != [])
  {
    RequestRoundTrip(verb, "/", "HTTP/1.1", lines, "");
    assert text + "" == text;
  }

  lemma GetParts()
    ensures PartsOk("GET", "/", "HTTP/1.1") && PartsOk("HEAD", "/", "HTTP/1.1")
    ensures LineFrom("GET", "/", "HTTP/1.1") == "GET / HTTP/1.1"
    ensures LineFrom("HEAD", "/", "HTTP/1.1") == "HEAD / HTTP/1.1"
  {
    assert "GET"[0] != "HTTP/"[0] && "HEAD"[1] != "HTTP/"[1];
  }

  /** A GET without fields: the connection is kept, and no upgrade is asked for. */
  lemma PlainRequest()
    ensures Parse(PLAIN).Done?
    ensures var m := Parse(PLAIN).msg; m.line.Request? && m.line.verb == GET && m.keepAlive && !m.upgrade
  {
    GetParts();
    assert HeadOf("GET / HTTP/1.1", []) == PLAIN;
    NoBody("GET", [], [], PLAIN);
  }

  const CONNECTION := Field("Connection", " close")
  const CONNECTION_UP := Field("Connection", " Upgrade")
  const UPGRADE_TO := Field("Upgrade", " websocket")

  lemma LineTexts()
    ensures LineOf(CONNECTION) == "Connection: close\r\n"
    ensures LineOf(CONNECTION_UP) == "Connection: Upgrade\r\n"
    ensures LineOf(UPGRADE_TO) == "Upgrade: websocket\r\n"
  {
  }

  lemma NamesOk()
    ensures FieldOk(CONNECTION) && FieldOk(CONNECTION_UP) && FieldOk(UPGRADE_TO)
  {
  }

  lemma ConnectionName(name: string)
    requires name == "Connection"
    ensures CiEq(name, "connection") && !CiEq(name, "content-length")
    ensures !CiEq(name, "transfer-encoding") && !CiEq(name, "upgrade")
  {
  }

  lemma UpgradeName(name: string)
    requires name == "Upgrade"
    ensures CiEq(name, "upgrade") && !CiEq(name, "content-length")
    ensures !CiEq(name, "transfer-encoding") && !CiEq(name, "connection")
  {
  }

  lemma ValueTexts()
    ensures Trim(" close") == "close" && Trim(" Upgrade") == "Upgrade" && Trim(" websocket") == "websocket"
  {
    TrimExactly(" ", "close", "");
    TrimExactly(" ", "Upgrade", "");
    TrimExactly(" ", "websocket", "");
    assert " " + "close" + "" == " close" && " " + "Upgrade" + "" == " Upgrade";
    assert " " + "websocket" + "" == " websocket";
  }

  lemma ValuesOne(f: Field, name: string)
    ensures Values([f], name) == if CiEq(f.name, name) then [f.value] else []
  {
    assert [f][1..] == [];
  }

  /** A GET that asks for the connection to be closed. */
  lemma ClosingRequest()
    ensures Parse(CLOSING).Done?
    ensures var m := Parse(CLOSING).msg; m.line.Request? && m.line.verb == GET && !m.keepAlive && !m.upgrade
  {
    var lines, fields := [CONNECTION], [Field("Connection", "close")];
    ClosingHead(lines, fields);
    TokenOf("close", "close");
    TokenOf("close", "upgrade");
    GetParts();
    NoBody("GET", lines, fields, CLOSING);
  }

  lemma ClosingHead(lines: seq<Field>, fields: seq<Field>)
    requires lines == [CONNECTION] && fields == [Field("Connection", "close")]
    ensures FieldsOk(lines) && Trimmed(lines) == fields && HeadOf("GET / HTTP/1.1", lines) == CLOSING
    ensures Values(fields, "connection") == ["close"]
    ensures Values(fields, "content-length") == Values(fields, "transfer-encoding") == Values(fields, "upgrade") == []
  {
    NamesOk();
    ValueTexts();
    LineTexts();
    assert lines[1..] == [] && LinesOf(lines) == LineOf(CONNECTION) + "" == LineOf(CONNECTION);
    ConnectionName("Connection");
    ValuesOne(fields[0], "connection");
    ValuesOne(fields[0], "content-length");
    ValuesOne(fields[0], "transfer-encoding");
    ValuesOne(fields[0], "upgrade");
  }

  /** A HEAD that asks for an upgrade. */
  lemma UpgradingRequest()
    ensures Parse(UPGRADING).Done?
    ensures var m := Parse(UPGRADING).msg; m.line.Request? && m.line.verb == HEAD && m.keepAlive && m.upgrade
  {
    var lines := [CONNECTION_UP, UPGRADE_TO];
    var fields := [Field("Connection", "Upgrade"), Field("Upgrade", "websocket")];
    UpgradingHead(lines, fields);
    UpgradingValues(fields);
    TokenOf("Upgrade", "close");
    TokenOf("Upgrade", "upgrade");
    GetParts();
    NoBody("HEAD", lines, fields, UPGRADING);
  }

  lemma TrimmedTwo(f: Field, g: Field)
    ensures Trimmed([f, g]) == [Field(f.name, Trim(f.value)), Field(g.name, Trim(g.value))]
  {
    assert [f, g][1..] == [g] && [g][1..] == [];
    assert Trimmed([g]) == [Field(g.name, Trim(g.value))] + Trimmed([]);
  }

  lemma UpgradingHead(lines: seq<Field>, fields: seq<Field>)
    requires lines == [CONNECTION_UP, UPGRADE_TO]
    requires fields == [Field("Connection", "Upgrade"), Field("Upgrade", "websocket")]
    ensures FieldsOk(lines) && Trimmed(lines) == fields && HeadOf("HEAD / HTTP/1.1", lines) == UPGRADING
  {
    NamesOk();
    ValueTexts();
    LineTexts();
    assert lines[1..] == [UPGRADE_TO] && [UPGRADE_TO][1..] == [];
    TrimmedTwo(CONNECTION_UP, UPGRADE_TO);
    assert LinesOf([UPGRADE_TO]) == LineOf(UPGRADE_TO) + "" == LineOf(UPGRADE_TO);
    assert LinesOf(lines) == LineOf(CONNECTION_UP) + LineOf(UPGRADE_TO);
  }

  lemma UpgradingValues(fields: seq<Field>)
    requires fields == [Field("Connection", "Upgrade"), Field("Upgrade", "websocket")]
    ensures Values(fields, "connection") == ["Upgrade"] && Values(fields, "upgrade") == ["websocket"]
    ensures Values(fields, "content-length") == Values(fields, "transfer-encoding") == []
  {
    var f, rest := fields[0], [fields[1]];
    assert fields == [f] + rest;
    ConnectionName("Connection");
    UpgradeName("Upgrade");
    forall name | name in {"connection", "upgrade", "content-length", "transfer-encoding"}
      ensures Values(fields, name) ==
        (if CiEq(f.name, name) then [f.value] else [])
        + (if CiEq(fields[1].name, name) then [fields[1].value] else [])
    {
      ValuesCons(f, rest, name);
      ValuesOne(fields[1], name);
    }
  }

  lemma TokenOf(value: string, token: string)
    requires value in {"close", "Upgrade"} && token in {"close", "upgrade"}
    ensures FirstNames([value], token) <==> (value == "close" <==> token == "close")
  {
    IndexAfter(value, ',', 0, |value|);
    assert Split(value) == [value];
    TrimExactly("", value, "");
    assert "" + value + "" == value;
    TokenLetters(value, token);
  }

  lemma TokenLetters(value: string, token: string)
    requires value in {"close", "Upgrade"} && token in {"close", "upgrade"}
    ensures CiEq(value, token) <==> (value == "close" <==> token == "close")
  {
  }
}
