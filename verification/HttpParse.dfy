/** Framing of HTTP/1.1 messages: start line, header block, and a body counted by Content-Length. */
module HttpParse {
  import opened Bytes

  const SIZE_MAX := 0xFFFF_FFFF_FFFF_FFFF

  /** A range of the input buffer; the source returns a pointer and a length. */
  datatype Span = Span(lo: nat, hi: nat)

  datatype Method = UNKNOWN | GET | HEAD | POST | PUT | DELETE | OPTIONS | PATCH | CONNECT | TRACE

  datatype Line =
    | Request(verb: Method, verbRef: Span, target: Span)
    | Response(code: nat)

  datatype Message = Message(
    line: Line, keepAlive: bool, upgrade: bool, contentLength: nat, headers: Span, body: Span)

  /** Negative, zero and positive results of the source. */
  datatype Verdict = Bad | More | Done(msg: Message)

  // ---------------------------------------------------------------- characters and tokens

  function Lower(c: char): char {
    if 'A' <= c <= 'Z' then c + 32 as char else c
  }

  /** Equal without regard to the case of ASCII letters. */
  predicate CiEq(a: string, b: string) {
    |a| == |b| && forall i :: 0 <= i < |a| ==> Lower(a[i]) == Lower(b[i])
  }

  predicate IsBlank(c: char) {
    c == ' ' || c == '\t'
  }

  /** Two characters that are the same but for the case of an ASCII letter. */
  predicate SameLetter(c: char, d: char) {
    || c == d
    || ('A' <= c <= 'Z' && d as int == c as int + 32) || ('A' <= d <= 'Z' && c as int == d as int + 32)
  }

  lemma CiEqExactly(a: string, b: string)
    ensures CiEq(a, b) <==> |a| == |b| && forall i :: 0 <= i < |a| ==> SameLetter(a[i], b[i])
  {
    forall i | 0 <= i < |a| == |b| ensures Lower(a[i]) == Lower(b[i]) <==> SameLetter(a[i], b[i]) {
    }
  }

  function TrimLeft(s: string): string {
    if s != "" && IsBlank(s[0]) then TrimLeft(s[1..]) else s
  }

  function TrimRight(s: string): string {
    if s != "" && IsBlank(s[|s| - 1]) then TrimRight(s[..|s| - 1]) else s
  }

  function Trim(s: string): string {
    TrimRight(TrimLeft(s))
  }

  predicate AllBlank(s: string) {
    forall i :: 0 <= i < |s| ==> s[i] == ' ' || s[i] == '\t'
  }

  lemma {:induction false} TrimLeftOf(before: string, rest: string)
    requires AllBlank(before) && (rest != "" ==> rest[0] != ' ' && rest[0] != '\t')
    ensures TrimLeft(before + rest) == rest
    decreases |before|
  {
    if before == "" {
      assert before + rest == rest;
    } else {
      assert (before + rest)[1..] == before[1..] + rest;
      TrimLeftOf(before[1..], rest);
    }
  }

  lemma {:induction false} TrimRightOf(rest: string, after: string)
    requires AllBlank(after) && (rest != "" ==> rest[|rest| - 1] != ' ' && rest[|rest| - 1] != '\t')
    ensures TrimRight(rest + after) == rest
    decreases |after|
  {
    if after == "" {
      assert rest + after == rest;
    } else {
      var n := |after| - 1;
      assert (rest + after)[..|rest| + n] == rest + after[..n];
      TrimRightOf(rest, after[..n]);
    }
  }

  /** Spaces and tabs on both sides go, and nothing else. */
  lemma TrimExactly(before: string, s: string, after: string)
    requires AllBlank(before) && AllBlank(after) && s != ""
    requires s[0] != ' ' && s[0] != '\t' && s[|s| - 1] != ' ' && s[|s| - 1] != '\t'
    ensures Trim(before + s + after) == s
  {
    assert before + s + after == before + (s + after) && (s + after)[0] == s[0];
    TrimLeftOf(before, s + after);
    TrimRightOf(s, after);
  }

  /** The first index of `c` at or after `lo`, or the length. */
  function IndexOf(s: string, c: char, lo: nat): (i: nat)
    requires lo <= |s|
    ensures lo <= i <= |s| && (i < |s| ==> s[i] == c)
    ensures forall k :: lo <= k < i ==> s[k] != c
    decreases |s| - lo
  {
    if lo == |s| || s[lo] == c then lo else IndexOf(s, c, lo + 1)
  }

  /** The index of the first `c` at or after `lo` is where a part without `c` ends. */
  lemma IndexAfter(s: string, c: char, lo: nat, i: nat)
    requires lo <= i <= |s| && (i < |s| ==> s[i] == c) && forall k :: lo <= k < i ==> s[k] != c
    ensures IndexOf(s, c, lo) == i
  {
  }

  function Split(s: string): (pieces: seq<string>)
    ensures pieces != []
    decreases |s|
  {
    var i := IndexOf(s, ',', 0);
    if i == |s| then [s] else [s[..i]] + Split(s[i + 1..])
  }

  /** Split on commas, trim, compare without case. */
  predicate HasToken(value: string, token: string) {
    AnyPiece(Split(value), token)
  }

  predicate AnyPiece(pieces: seq<string>, token: string) {
    exists piece :: piece in pieces && CiEq(Trim(piece), token)
  }

  lemma HasTokenFirst(value: string, token: string)
    ensures
      var i := IndexOf(value, ',', 0);
      HasToken(value, token) <==> CiEq(Trim(value[..i]), token) || (i < |value| && HasToken(value[i + 1..], token))
  {
    var i := IndexOf(value, ',', 0);
    if i < |value| {
      PieceOf(value[..i], Split(value[i + 1..]), token);
    } else {
      assert value[..i] == value;
      PieceOf(value, [], token);
      assert [value] + [] == [value];
    }
  }

  lemma PieceOf(first: string, rest: seq<string>, token: string)
    ensures AnyPiece([first] + rest, token) <==> CiEq(Trim(first), token) || AnyPiece(rest, token)
  {
    var all := [first] + rest;
    if CiEq(Trim(first), token) {
      assert all[0] == first;
    }
    if piece :| piece in rest && CiEq(Trim(piece), token) {
      assert piece in all;
    }
  }

  lemma {:induction false} BlankTrimsToNothing(s: string)
    requires forall k :: 0 <= k < |s| ==> IsBlank(s[k])
    ensures Trim(s) == ""
  {
    if s != "" {
      BlankTrimsToNothing(s[1..]);
    }
  }

  /** A first piece of blanks only does not matter for a token that is not empty. */
  lemma SkipBlanks(value: string, k: nat, token: string)
    requires token != "" && k <= |value| && forall j :: 0 <= j < k ==> IsBlank(value[j])
    requires k == |value| || value[k] == ','
    ensures HasToken(value, token) <==> k < |value| && HasToken(value[k + 1..], token)
  {
    IndexAfter(value, ',', 0, k);
    HasTokenFirst(value, token);
    BlankTrimsToNothing(value[..k]);
  }

  method EqualIgnoringCase(a: string, b: string) returns (eq: bool)
    ensures eq <==> CiEq(a, b)
  {
    if |a| != |b| {
      return false;
    }
    for i := 0 to |a|
      invariant forall k :: 0 <= k < i ==> Lower(a[k]) == Lower(b[k])
    {
      if Lower(a[i]) != Lower(b[i]) {
        return false;
      }
    }
    return true;
  }

  /** `value[p..q]` without blanks on either side. */
  method TrimRange(value: string, p0: nat, q0: nat) returns (p: nat, q: nat)
    requires p0 <= q0 <= |value|
    ensures p0 <= p <= q <= q0 && value[p..q] == Trim(value[p0..q0])
    ensures forall k :: q <= k < q0 ==> IsBlank(value[k])
  {
    p, q := p0, q0;
    while p < q && IsBlank(value[p])
      invariant p0 <= p <= q
      invariant TrimLeft(value[p..q]) == TrimLeft(value[p0..q0])
    {
      Shrink(value, p, q);
      p := p + 1;
    }
    assert p < q ==> value[p..q][0] == value[p];
    assert TrimLeft(value[p..q]) == value[p..q];
    while q > p && IsBlank(value[q - 1])
      invariant p <= q <= q0
      invariant TrimRight(value[p..q]) == Trim(value[p0..q0])
      invariant forall k :: q <= k < q0 ==> IsBlank(value[k])
    {
      Shrink(value, p, q);
      q := q - 1;
    }
  }

  method NextComma(value: string, p: nat) returns (comma: nat)
    requires p <= |value|
    ensures p <= comma <= |value| && (comma < |value| ==> value[comma] == ',')
    ensures forall k :: p <= k < comma ==> value[k] != ','
  {
    comma := p;
    while comma < |value| && value[comma] != ','
      invariant p <= comma <= |value|
      invariant forall k :: p <= k < comma ==> value[k] != ','
    {
      comma := comma + 1;
    }
  }

  /**
   * The scanning loop of the source. The cursor restarts just after the trimmed end of a piece, so
   * the blanks that were trimmed are scanned again as an empty piece.
   */
  method ScanForToken(value: string, token: string) returns (found: bool)
    requires token != ""
    ensures found <==> HasToken(value, token)
  {
    var p, end := 0, |value|;
    while p < end
      invariant 0 <= p <= end
      invariant HasToken(value, token) <==> p < end && HasToken(value[p..], token)
      decreases end - p
    {
      var comma := NextComma(value, p);
      PieceAt(value, p, comma, token);
      var lo, hi := TrimRange(value, p, comma);
      var equal := EqualIgnoringCase(value[lo..hi], token);
      if hi - lo == |token| && equal {
        return true;
      }
      Restart(value, p, comma, hi, token);
      p := if hi < end then hi + 1 else hi;
    }
    if value == "" {
      assert Split("") == [""];
    }
    return false;
  }

  lemma PieceAt(value: string, p: nat, comma: nat, token: string)
    requires p <= comma <= |value| && (comma < |value| ==> value[comma] == ',')
    requires forall k :: p <= k < comma ==> value[k] != ','
    ensures HasToken(value[p..], token)
      <==> CiEq(Trim(value[p..comma]), token) || (comma < |value| && HasToken(value[comma + 1..], token))
  {
    var rest := value[p..];
    IndexAfter(rest, ',', 0, comma - p);
    assert rest[..comma - p] == value[p..comma];
    HasTokenFirst(rest, token);
    if comma < |value| {
      assert rest[comma - p + 1..] == value[comma + 1..];
    }
  }

  lemma SkipMore(value: string, lo: nat, comma: nat, token: string)
    requires token != "" && lo <= comma <= |value| && (comma < |value| ==> value[comma] == ',')
    requires forall k :: lo <= k < comma ==> IsBlank(value[k])
    ensures HasToken(value[lo..], token) <==> comma < |value| && HasToken(value[comma + 1..], token)
  {
    var k := comma - lo;
    assert forall j :: 0 <= j < k ==> value[lo..][j] == value[lo + j];
    SkipBlanks(value[lo..], k, token);
    assert comma < |value| ==> value[lo..][k + 1..] == value[comma + 1..];
  }

  /** Restarting after the trimmed end misses nothing and adds nothing. */
  lemma Restart(value: string, p: nat, comma: nat, hi: nat, token: string)
    requires token != "" && p <= hi <= comma <= |value| && (comma < |value| ==> value[comma] == ',')
    requires forall k :: hi <= k < comma ==> IsBlank(value[k])
    ensures
      var next := if hi < |value| then hi + 1 else hi;
      (comma < |value| && HasToken(value[comma + 1..], token))
        <==> (next < |value| && HasToken(value[next..], token))
  {
    if comma < |value| && comma + 1 == |value| {
      NoTokenInNothing(token);
    }
    if hi < comma && hi + 1 < |value| {
      SkipMore(value, hi + 1, comma, token);
    }
  }

  lemma NoTokenInNothing(token: string)
    requires token != ""
    ensures !HasToken("", token)
  {
    SkipBlanks("", 0, token);
  }

  // ---------------------------------------------------------------- header fields

  datatype Field = Field(name: string, value: string)

  ghost predicate Within(span: Span, lo: nat, hi: nat) {
    lo <= span.lo <= span.hi <= hi
  }

  /** Where the line that ends at `eol` stops: a carriage return does not belong to it. */
  function LineEnd(s: string, lo: nat, eol: nat): (end: nat)
    requires lo <= eol <= |s|
    ensures lo <= end <= eol
  {
    if eol > lo && s[eol - 1] == '\r' then eol - 1 else eol
  }

  /** The header fields of the lines in `s[lo..hi]`; lines without a colon are not fields. */
  function Fields(s: string, lo: nat, hi: nat): seq<Field>
    requires lo <= hi <= |s|
    decreases hi - lo
  {
    var eol := IndexOf(s, '\n', lo);
    if eol >= hi then []
    else
      var field, rest := FieldOf(s, lo, eol), Fields(s, eol + 1, hi);
      if field.Some? then [field.value] + rest else rest
  }

  /** The field on the line that ends at `eol`. */
  function FieldOf(s: string, lo: nat, eol: nat): Option<Field>
    requires lo <= eol <= |s|
  {
    var end := LineEnd(s, lo, eol);
    var colon := IndexOf(s, ':', lo);
    if colon < end then Some(Field(s[lo..colon], Trim(s[colon + 1..end]))) else None
  }

  /** The values of the fields with this name, in order. */
  function Values(fields: seq<Field>, name: string): seq<string> {
    if fields == [] then []
    else
      var rest := Values(fields[1..], name);
      if CiEq(fields[0].name, name) then [fields[0].value] + rest else rest
  }

  /** All values of a header in a header block. */
  function Header(s: string, lo: nat, hi: nat, name: string): seq<string>
    requires lo <= hi <= |s|
  {
    Values(Fields(s, lo, hi), name)
  }

  // ---------------------------------------------------------------- numbers

  predicate IsDigit(c: char) {
    '0' <= c <= '9'
  }

  predicate AllDigits(s: string) {
    forall i :: 0 <= i < |s| ==> IsDigit(s[i])
  }

  function DigitOf(c: char): nat
    requires IsDigit(c)
  {
    c as int - '0' as int
  }

  /** The digits by name. */
  lemma DigitExactly(c: char)
    ensures IsDigit(c) <==> exists d: nat :: d < 10 && "0123456789"[d] == c
    ensures forall d: nat :: d < 10 && "0123456789"[d] == c ==> DigitOf(c) == d
  {
    assert IsDigit(c) ==> var d := c as int - '0' as int; 0 <= d < 10 && "0123456789"[d] == c;
  }

  function Decimal(s: string): nat
    requires AllDigits(s)
  {
    if s == "" then 0 else Decimal(s[..|s| - 1]) * 10 + DigitOf(s[|s| - 1])
  }

  /** The size a Content-Length value stands for; a value that does not fit is refused. */
  function SizeOf(s: string): Option<nat> {
    if AllDigits(s) && Decimal(s) <= SIZE_MAX then Some(Decimal(s)) else None
  }

  /** The body size the Content-Length values agree on; only the first two are compared. */
  function LengthOf(sizes: seq<string>): Option<nat> {
    if sizes == [] then Some(0)
    else if |sizes| > 1 && SizeOf(sizes[1]) != SizeOf(sizes[0]) then None
    else SizeOf(sizes[0])
  }

  lemma {:induction false} DecimalGrows(s: string, k: nat)
    requires AllDigits(s) && k <= |s|
    ensures AllDigits(s[..k]) && Decimal(s[..k]) <= Decimal(s)
    decreases |s|
  {
    if k < |s| {
      DecimalGrows(s[..|s| - 1], k);
      assert s[..|s| - 1][..k] == s[..k];
    } else {
      assert s[..k] == s;
    }
  }

  /** Accumulates digit by digit; the guard keeps every step below 2^64. */
  method ReadSize(v: string) returns (r: Option<nat>)
    ensures r == SizeOf(v)
  {
    var cl := 0;
    for i := 0 to |v|
      invariant AllDigits(v[..i]) && cl == Decimal(v[..i]) <= SIZE_MAX
    {
      assert v[..i + 1][..i] == v[..i];
      if !IsDigit(v[i]) {
        return None;
      }
      var digit := DigitOf(v[i]);
      if cl > (SIZE_MAX - digit) / 10 {
        if AllDigits(v) {
          DecimalGrows(v, i + 1);
        }
        return None;
      }
      cl := cl * 10 + digit;
    }
    assert v[..|v|] == v;
    return Some(cl);
  }

  // ---------------------------------------------------------------- messages

  function MethodOf(s: string): Method {
    if s == "GET" then GET
    else if s == "HEAD" then HEAD
    else if s == "POST" then POST
    else if s == "PUT" then PUT
    else if s == "DELETE" then DELETE
    else if s == "OPTIONS" then OPTIONS
    else if s == "PATCH" then PATCH
    else if s == "CONNECT" then CONNECT
    else if s == "TRACE" then TRACE
    else UNKNOWN
  }

  /** The methods by name. */
  function NameOf(m: Method): string
    requires m != UNKNOWN
  {
    match m
    case GET => "GET"
    case HEAD => "HEAD"
    case POST => "POST"
    case PUT => "PUT"
    case DELETE => "DELETE"
    case OPTIONS => "OPTIONS"
    case PATCH => "PATCH"
    case CONNECT => "CONNECT"
    case TRACE => "TRACE"
  }

  /** `s` is the name of `m`, or no name at all. */
  predicate Named(m: Method, s: string) {
    if m != UNKNOWN then s == NameOf(m)
    else s !in {"GET", "HEAD", "POST", "PUT", "DELETE", "OPTIONS", "PATCH", "CONNECT", "TRACE"}
  }

  /** The method of a string is the one of this name, and unknown for every other string. */
  lemma MethodExactly(s: string, m: Method)
    ensures MethodOf(s) == m <==> Named(m, s)
  {
  }

  datatype Start = Start(line: Line, keepAlive: bool)

  function RequestLine(line: string): (r: Option<Start>)
    ensures r.Some? ==>
      && r.value.line.Request?
      && Within(r.value.line.verbRef, 0, |line|) && Within(r.value.line.target, 0, |line|)
  {
    var sp1 := IndexOf(line, ' ', 0);
    if sp1 == |line| || sp1 == 0 then None
    else
      var sp2 := IndexOf(line, ' ', sp1 + 1);
      if sp2 == |line| || sp2 == sp1 + 1 then None
      else Some(Start(Request(MethodOf(line[..sp1]), Span(0, sp1), Span(sp1 + 1, sp2)), line[sp2 + 1..] == "HTTP/1.1"))
  }

  function ResponseLine(line: string): (r: Option<Start>)
    requires "HTTP/" <= line
    ensures r.Some? ==> r.value.line.Response? && r.value.line.code <= 999
  {
    var sp1 := IndexOf(line, ' ', 0);
    if sp1 == |line| then None
    else
      var st := line[sp1 + 1..IndexOf(line, ' ', sp1 + 1)];
      if !(1 <= |st| <= 3) || !AllDigits(st) then None
      else
        assert st[..|st| - 1][..|st[..|st| - 1]|] == st[..|st| - 1];
        ThreeDigits(st);
        assert sp1 >= 5 by {
          assert line[0] == 'H' && line[1] == 'T' && line[2] == 'T' && line[3] == 'P' && line[4] == '/';
        }
        var version := line[5..sp1];
        Some(Start(Response(Decimal(st)), |version| == 3 && version[..2] == "1." && version[2] >= '1'))
  }

  lemma ThreeDigits(s: string)
    requires AllDigits(s) && |s| <= 3
    ensures Decimal(s) <= 999
  {
    if s != "" {
      var a := s[..|s| - 1];
      if a != "" {
        var b := a[..|a| - 1];
        assert b == "" || b[..|b| - 1] == "";
      }
    }
  }

  predicate EndsHead(s: string, i: nat) {
    i + 3 < |s| && s[i] == '\r' && s[i + 1] == '\n' && s[i + 2] == '\r' && s[i + 3] == '\n'
  }

  /** The first blank line at or after `i`. */
  function HeadEnd(s: string, i: nat): (e: Option<nat>)
    requires i <= |s|
    ensures e.Some? ==> i <= e.value && EndsHead(s, e.value)
    ensures forall k :: i <= k < (if e.Some? then e.value else |s|) ==> !EndsHead(s, k)
    decreases |s| - i
  {
    if i + 3 >= |s| then None else if EndsHead(s, i) then Some(i) else HeadEnd(s, i + 1)
  }

  /** The start line is the first line, whatever it ends with. */
  function StartOf(s: string): Option<Start> {
    StartLine(FirstLine(s))
  }

  function FirstLine(s: string): string {
    s[..LineEnd(s, 0, IndexOf(s, '\n', 0))]
  }

  function StartLine(line: string): Option<Start> {
    if "HTTP/" <= line then ResponseLine(line) else RequestLine(line)
  }

  predicate IsChunked(s: string, lo: nat, hi: nat)
    requires lo <= hi <= |s|
  {
    var codings := Header(s, lo, hi, "transfer-encoding");
    codings != [] && HasToken(codings[0], "chunked")
  }

  predicate Closes(s: string, lo: nat, hi: nat)
    requires lo <= hi <= |s|
  {
    var connection := Header(s, lo, hi, "connection");
    connection != [] && HasToken(connection[0], "close")
  }

  predicate Upgrades(s: string, lo: nat, hi: nat)
    requires lo <= hi <= |s|
  {
    var connection := Header(s, lo, hi, "connection");
    connection != [] && HasToken(connection[0], "upgrade") && Header(s, lo, hi, "upgrade") != []
  }

  function BodySize(s: string, lo: nat, hi: nat): Option<nat>
    requires lo <= hi <= |s|
  {
    LengthOf(Header(s, lo, hi, "content-length"))
  }

  /** What a head with these header fields says: a message whose body starts after the blank line. */
  function Assemble(s: string, start: Start, lo: nat, hi: nat): Option<Message>
    requires lo <= hi <= |s|
  {
    var size := BodySize(s, lo, hi);
    if size == None || IsChunked(s, lo, hi) then None
    else Some(Message(
      start.line, start.keepAlive && !Closes(s, lo, hi), Upgrades(s, lo, hi),
      size.value, Span(lo, hi), Span(hi + 2, hi + 2 + size.value)))
  }

  function ParseHead(s: string, e: nat): Option<Message>
    requires EndsHead(s, e)
  {
    var start := StartOf(s);
    assert IndexOf(s, '\n', 0) <= e + 1;
    if start == None then None else Assemble(s, start.value, IndexOf(s, '\n', 0) + 1, e + 2)
  }

  /** The verdict on a buffer of `len` bytes that holds this head. */
  function Frame(len: nat, head: Option<Message>): Verdict {
    if head == None then Bad else if head.value.body.hi > len then More else Done(head.value)
  }

  /** How a head whose blank line is at the index is read. */
  type HeadReader = (string, nat) -> Option<Message>

  function ReadAt(s: string, e: nat): Option<Message> {
    if EndsHead(s, e) then ParseHead(s, e) else None
  }

  /** Only the head, which ends at the first blank line, and the room behind it decide. */
  function ParseBy(read: HeadReader, s: string): Verdict {
    var e := HeadEnd(s, 0);
    if e == None then More else Frame(|s|, read(s[..e.value + 4], e.value))
  }

  function Parse(s: string): Verdict {
    ParseBy(ReadAt, s)
  }

  // ---------------------------------------------------------------- properties of the parse

  /** A head whose first line can be read is what its header fields say. */
  lemma ParseHeadIs(head: string, e: nat, start: Start, lo: nat, r: Option<Message>)
    requires EndsHead(head, e) && lo == IndexOf(head, '\n', 0) + 1 <= e + 2 && StartOf(head) == Some(start)
    requires r == Assemble(head, start, lo, e + 2)
    ensures ParseHead(head, e) == r
  {
  }

  lemma ByHead(read: HeadReader, s: string, e: nat)
    requires HeadEnd(s, 0) == Some(e)
    ensures ParseBy(read, s) == Frame(|s|, read(s[..e + 4], e))
  {
  }

  lemma ReadAtHead(s: string, e: nat)
    requires EndsHead(s, e)
    ensures ReadAt(s, e) == ParseHead(s, e)
  {
  }

  /** A buffer that holds a whole head is what its head says. */
  lemma ParseIs(s: string, e: nat)
    requires HeadEnd(s, 0) == Some(e)
    ensures Parse(s) == Frame(|s|, ParseHead(s[..e + 4], e))
  {
    ByHead(ReadAt, s, e);
    ReadAtHead(s[..e + 4], e);
  }

  lemma {:induction false} HeadEndStable(s: string, t: string, i: nat)
    requires i <= |s| && HeadEnd(s, i).Some?
    ensures HeadEnd(s + t, i) == HeadEnd(s, i)
    decreases |s| - i
  {
    if !EndsHead(s, i) {
      HeadEndStable(s, t, i + 1);
    }
  }

  lemma HeadStable(s: string, t: string, e: nat)
    requires HeadEnd(s, 0) == Some(e)
    ensures HeadEnd(s + t, 0) == Some(e) && (s + t)[..e + 4] == s[..e + 4]
  {
    HeadEndStable(s, t, 0);
  }

  lemma StableBy(read: HeadReader, s: string, t: string)
    requires ParseBy(read, s) != More
    ensures ParseBy(read, s + t) == ParseBy(read, s)
  {
    HeadStable(s, t, HeadEnd(s, 0).value);
  }

  /** A complete or error verdict on a prefix is the verdict, with the same fields, on every longer buffer. */
  lemma ParseStable(s: string, t: string)
    requires Parse(s) != More
    ensures Parse(s + t) == Parse(s)
  {
    StableBy(ReadAt, s, t);
  }

  lemma FitsBy(read: HeadReader, s: string)
    requires ParseBy(read, s).Done?
    ensures ParseBy(read, s).msg.body.hi <= |s|
  {
  }

  lemma ExactBy(read: HeadReader, s: string, k: nat)
    requires ParseBy(read, s).Done? && k < ParseBy(read, s).msg.body.hi <= |s|
    ensures ParseBy(read, s[..k]) == More
  {
    var t := s[..k];
    assert t + s[k..] == s;
    if ParseBy(read, t) != More {
      StableBy(read, t, s[k..]);
      FitsBy(read, t);
    }
  }

  /** A request is never complete before its last byte: every shorter buffer asks for more. */
  lemma ParseExact(s: string, k: nat)
    requires Parse(s).Done? && k < Parse(s).msg.body.hi <= |s|
    ensures Parse(s[..k]) == More
  {
    ExactBy(ReadAt, s, k);
  }

  /** Every returned range lies in the input, in order, and no length underflows. */
  lemma ParseRanges(s: string)
    requires Parse(s).Done?
    ensures
      var m := Parse(s).msg;
      && 0 < m.headers.lo <= m.headers.hi == m.body.lo - 2 && m.body.lo <= m.body.hi <= |s|
      && m.body.hi - m.body.lo == m.contentLength <= SIZE_MAX
      && s[m.headers.hi..m.body.lo] == "\r\n" && EndsHead(s, m.headers.hi - 2)
      && (m.line.Request? ==>
        && Within(m.line.verbRef, 0, m.headers.lo) && m.line.verbRef.lo < m.line.verbRef.hi
        && Within(m.line.target, m.line.verbRef.hi, m.headers.lo) && m.line.target.lo < m.line.target.hi)
  {
    var e := HeadEnd(s, 0).value;
    var head := s[..e + 4];
    assert EndsHead(head, e);
    var eol := IndexOf(head, '\n', 0);
    assert eol <= e + 1;
    assert s[e + 2..e + 4] == "\r\n";
  }

  // ---------------------------------------------------------------- what is refused

  predicate NoSpace(s: string) {
    forall i :: 0 <= i < |s| ==> s[i] != ' '
  }

  /** A request line is a verb, a target and the rest, with one space after each of the first two. */
  predicate IsRequestLine(line: string, verb: string, target: string, version: string) {
    && line == verb + " " + target + " " + version
    && verb != "" && target != "" && NoSpace(verb) && NoSpace(target)
  }

  /** A status line is a version, a space, one to three digits, and nothing or a space behind them. */
  predicate IsStatusLine(line: string, version: string, code: string, rest: string) {
    && line == version + " " + code + rest && NoSpace(version)
    && 1 <= |code| <= 3 && AllDigits(code) && (rest == "" || rest[0] == ' ')
  }

  ghost predicate Readable(line: string) {
    if "HTTP/" <= line then exists version, code, rest :: IsStatusLine(line, version, code, rest)
    else exists verb, target, version :: IsRequestLine(line, verb, target, version)
  }

  /** The parts of a request line are what the parser returns, and the first one names the method. */
  lemma RequestParts(line: string, verb: string, target: string, version: string)
    requires IsRequestLine(line, verb, target, version)
    ensures RequestLine(line).Some?
    ensures
      var n, start := |verb|, RequestLine(line).value;
      && start.line.Request? && Named(start.line.verb, verb)
      && start.line.verbRef == Span(0, n) && start.line.target == Span(n + 1, n + 1 + |target|)
      && (start.keepAlive <==> version == "HTTP/1.1")
  {
    var n, m := |verb|, |verb| + 1 + |target|;
    assert line[..n] == verb && line[n] == ' ' && line[n + 1..m] == target;
    assert line[m] == ' ' && line[m + 1..] == version;
    assert forall k :: 0 <= k < n ==> line[k] == verb[k];
    assert forall k :: n + 1 <= k < m ==> line[k] == target[k - n - 1];
    IndexAfter(line, ' ', 0, n);
    IndexAfter(line, ' ', n + 1, m);
    MethodExactly(verb, MethodOf(verb));
  }

  /** A request line is read if and only if it has these parts. */
  lemma RequestLineExactly(line: string)
    ensures RequestLine(line).Some? <==> exists verb, target, version :: IsRequestLine(line, verb, target, version)
  {
    if RequestLine(line).Some? {
      var sp1 := IndexOf(line, ' ', 0);
      var sp2 := IndexOf(line, ' ', sp1 + 1);
      assert line == line[..sp1] + " " + line[sp1 + 1..sp2] + " " + line[sp2 + 1..];
      assert IsRequestLine(line, line[..sp1], line[sp1 + 1..sp2], line[sp2 + 1..]);
    }
    if verb, target, version :| IsRequestLine(line, verb, target, version) {
      RequestParts(line, verb, target, version);
    }
  }

  lemma StatusParts(line: string, version: string, code: string, rest: string)
    requires "HTTP/" <= line && IsStatusLine(line, version, code, rest)
    ensures ResponseLine(line).Some? && ResponseLine(line).value.line == Response(Decimal(code))
    ensures ResponseLine(line).value.keepAlive <==>
      |version| == 8 && version[..7] == "HTTP/1." && version[7] >= '1'
  {
    var n, m := |version|, |version| + 1 + |code|;
    assert line[n] == ' ' && line[n + 1..m] == code && line[m..] == rest;
    assert forall k :: 0 <= k < n ==> line[k] == version[k];
    assert forall k :: n + 1 <= k < m ==> line[k] == code[k - n - 1];
    assert m < |line| ==> line[m] == rest[0];
    IndexAfter(line, ' ', 0, n);
    IndexAfter(line, ' ', n + 1, m);
    assert line[..n] == version && line[5..n] == version[5..] && |version| >= 5 && version[..5] == "HTTP/";
    if |version| == 8 {
      assert version == version[..5] + version[5..] && version[5..][2] == version[7];
      assert version[..7] == version[..5] + version[5..7] && version[5..][..2] == version[5..7];
      assert "HTTP/1." == "HTTP/" + "1.";
    }
  }

  /** A status line is read if and only if it has these parts. */
  lemma StatusLineExactly(line: string)
    requires "HTTP/" <= line
    ensures ResponseLine(line).Some? <==> exists version, code, rest :: IsStatusLine(line, version, code, rest)
  {
    if ResponseLine(line).Some? {
      var sp1 := IndexOf(line, ' ', 0);
      var sp2 := IndexOf(line, ' ', sp1 + 1);
      assert line == line[..sp1] + " " + line[sp1 + 1..sp2] + line[sp2..];
      assert IsStatusLine(line, line[..sp1], line[sp1 + 1..sp2], line[sp2..]);
    }
    if version, code, rest :| IsStatusLine(line, version, code, rest) {
      StatusParts(line, version, code, rest);
    }
  }

  lemma StartExactly(line: string)
    ensures StartLine(line).Some? <==> Readable(line)
  {
    if "HTTP/" <= line {
      StatusLineExactly(line);
    } else {
      RequestLineExactly(line);
    }
  }

  /** A first size that is not a decimal below 2^64, or a second one that differs from it. */
  predicate LengthRefused(sizes: seq<string>) {
    sizes != [] && (
      || !AllDigits(sizes[0]) || Decimal(sizes[0]) > 0xFFFF_FFFF_FFFF_FFFF
      || (|sizes| > 1 && (!AllDigits(sizes[1]) || Decimal(sizes[1]) != Decimal(sizes[0]))))
  }

  /** A list of Content-Length values is refused exactly then. */
  lemma LengthExact(sizes: seq<string>)
    ensures LengthOf(sizes) == None <==> LengthRefused(sizes)
  {
  }

  lemma NoHead(head: string, e: nat)
    requires EndsHead(head, e) && StartOf(head) == None
    ensures ParseHead(head, e) == None
  {
  }

  lemma AssembleExactly(s: string, start: Start, lo: nat, hi: nat)
    requires lo <= hi <= |s|
    ensures Assemble(s, start, lo, hi) == None <==>
      IsChunked(s, lo, hi) || LengthRefused(Header(s, lo, hi, "content-length"))
  {
    LengthExact(Header(s, lo, hi, "content-length"));
  }

  /**
   * A head is refused if and only if its first line does not have the parts of a request or status
   * line, its first Transfer-Encoding names chunked, or its Content-Length values are refused.
   */
  lemma RefusedExactly(head: string, e: nat, lo: nat, line: string)
    requires EndsHead(head, e) && lo == IndexOf(head, '\n', 0) + 1 <= e + 2 && line == FirstLine(head)
    ensures
      var codings, sizes := Header(head, lo, e + 2, "transfer-encoding"), Header(head, lo, e + 2, "content-length");
      ParseHead(head, e) == None <==>
        !Readable(line) || (codings != [] && HasToken(codings[0], "chunked")) || LengthRefused(sizes)
  {
    StartExactly(line);
    if StartLine(line).Some? {
      ParseHeadIs(head, e, StartLine(line).value, lo, Assemble(head, StartLine(line).value, lo, e + 2));
      AssembleExactly(head, StartLine(line).value, lo, e + 2);
    }
  }

  /** What refuses a head, for fields in `head[lo..hi]`. */
  ghost predicate HeadRefused(head: string, lo: nat, hi: nat)
    requires lo <= hi <= |head|
  {
    var codings, sizes := Header(head, lo, hi, "transfer-encoding"), Header(head, lo, hi, "content-length");
    !Readable(FirstLine(head)) || (codings != [] && HasToken(codings[0], "chunked")) || LengthRefused(sizes)
  }

  lemma HeadRefusedExactly(head: string, e: nat, lo: nat)
    requires EndsHead(head, e) && lo == IndexOf(head, '\n', 0) + 1
    ensures lo <= e + 2 && (ParseHead(head, e) == None <==> HeadRefused(head, lo, e + 2))
  {
    RefusedExactly(head, e, lo, FirstLine(head));
  }

  lemma BadBy(read: HeadReader, s: string, e: nat)
    requires HeadEnd(s, 0) == Some(e)
    ensures ParseBy(read, s) == Bad <==> read(s[..e + 4], e) == None
    ensures ParseBy(read, s) == More ==> read(s[..e + 4], e).Some?
  {
  }

  /** A buffer with a whole head, however long it is, is refused if and only if the head is. */
  lemma BadExactly(s: string, e: nat, head: string, lo: nat)
    requires HeadEnd(s, 0) == Some(e) && head == s[..e + 4] && lo == IndexOf(head, '\n', 0) + 1
    ensures lo <= e + 2 && (Parse(s) == Bad <==> HeadRefused(head, lo, e + 2))
  {
    BadBy(ReadAt, s, e);
    ReadAtHead(head, e);
    HeadRefusedExactly(head, e, lo);
  }

  // ---------------------------------------------------------------- what a request says

  /** The first value of a comma-separated header names this token, in any case. */
  predicate FirstNames(values: seq<string>, token: string) {
    values != [] && HasToken(values[0], token)
  }

  /** What a request line with these parts and the header fields in `head[lo..hi]` say. */
  ghost predicate Means(
    head: string, lo: nat, hi: nat, m: Message, verb: string, target: string, version: string)
    requires lo <= hi <= |head|
  {
    var connection := Header(head, lo, hi, "connection");
    && m.line.Request? && Named(m.line.verb, verb)
    && m.line.verbRef == Span(0, |verb|) && m.line.target == Span(|verb| + 1, |verb| + 1 + |target|)
    && (m.keepAlive <==> version == "HTTP/1.1" && !FirstNames(connection, "close"))
    && (m.upgrade <==> FirstNames(connection, "upgrade") && Header(head, lo, hi, "upgrade") != [])
    && LengthOf(Header(head, lo, hi, "content-length")) == Some(m.contentLength)
    && m.headers == Span(lo, hi) && m.body == Span(hi + 2, hi + 2 + m.contentLength)
  }

  lemma AssembleMeans(
    head: string, start: Start, lo: nat, hi: nat, m: Message, verb: string, target: string, version: string)
    requires lo <= hi <= |head| && Assemble(head, start, lo, hi) == Some(m)
    requires start.line.Request? && Named(start.line.verb, verb)
    requires start.line.verbRef == Span(0, |verb|) && start.line.target == Span(|verb| + 1, |verb| + 1 + |target|)
    requires start.keepAlive <==> version == "HTTP/1.1"
    ensures Means(head, lo, hi, m, verb, target, version)
  {
  }

  /** A head that is not refused is a message that says what the head says. */
  lemma HeadMeans(head: string, e: nat, lo: nat, m: Message, verb: string, target: string, version: string)
    requires EndsHead(head, e) && lo == IndexOf(head, '\n', 0) + 1 <= e + 2 && ParseHead(head, e) == Some(m)
    requires !("HTTP/" <= FirstLine(head)) && IsRequestLine(FirstLine(head), verb, target, version)
    ensures Means(head, lo, e + 2, m, verb, target, version)
  {
    RequestParts(FirstLine(head), verb, target, version);
    var start := StartLine(FirstLine(head)).value;
    var r := Assemble(head, start, lo, e + 2);
    ParseHeadIs(head, e, start, lo, r);
    AssembleMeans(head, start, lo, e + 2, m, verb, target, version);
  }

  /** A complete request in a buffer says what its head says, by the names and tokens in it. */
  lemma RequestSays(s: string, e: nat, head: string, lo: nat, verb: string, target: string, version: string)
    requires HeadEnd(s, 0) == Some(e) && head == s[..e + 4] && lo == IndexOf(head, '\n', 0) + 1
    requires !("HTTP/" <= FirstLine(head)) && IsRequestLine(FirstLine(head), verb, target, version)
    requires Parse(s).Done?
    ensures lo <= e + 2 && Means(head, lo, e + 2, Parse(s).msg, verb, target, version)
  {
    ParseIs(s, e);
    assert IndexOf(head, '\n', 0) <= e + 1;
    HeadMeans(head, e, lo, Parse(s).msg, verb, target, version);
  }

  // ---------------------------------------------------------------- the sizes and the standard

  /** Section 8.6 of RFC 9110 and section 6.3 of RFC 9112: valid sizes, all the same. */
  predicate StandardSizes(sizes: seq<string>) {
    forall k :: 0 <= k < |sizes| ==> sizes[k] != "" && SizeOf(sizes[k]).Some? && SizeOf(sizes[k]) == SizeOf(sizes[0])
  }

  /**
   * The parser agrees with the standard exactly on the lists it refuses and on those without an
   * empty value whose values from the third on repeat the first.
   */
  lemma StandardExactly(sizes: seq<string>)
    ensures (LengthOf(sizes).Some? <==> StandardSizes(sizes)) <==>
      LengthRefused(sizes)
      || ("" !in sizes && forall k :: 2 <= k < |sizes| ==> SizeOf(sizes[k]) == SizeOf(sizes[0]))
  {
    LengthExact(sizes);
    if !LengthRefused(sizes) && "" !in sizes {
      if forall k :: 2 <= k < |sizes| ==> SizeOf(sizes[k]) == SizeOf(sizes[0]) {
        assert |sizes| > 1 ==> SizeOf(sizes[1]) == SizeOf(sizes[0]);
      }
    }
  }

  // ---------------------------------------------------------------- the cursor loops

  /** memchr: the first `c` in `s[lo..hi]`, or `hi`. */
  method Memchr(s: string, c: char, lo: nat, hi: nat) returns (i: nat)
    requires lo <= hi <= |s|
    ensures i == if IndexOf(s, c, lo) < hi then IndexOf(s, c, lo) else hi
  {
    i := lo;
    while i < hi && s[i] != c
      invariant lo <= i <= hi && IndexOf(s, c, lo) == IndexOf(s, c, i)
    {
      i := i + 1;
    }
  }

  /** The value of the n-th field called `name`, scanning line by line. */
  method FindHeader(s: string, lo: nat, hi: nat, name: string, n: nat) returns (value: Option<string>)
    requires lo <= hi <= |s|
    ensures value == Nth(Header(s, lo, hi, name), n)
  {
    var p, nth := lo, n;
    ghost var all := Header(s, lo, hi, name);
    ghost var values := all;
    while p < hi
      invariant lo <= p <= hi && values == Header(s, p, hi, name)
      invariant Nth(all, n) == Nth(values, nth)
      decreases hi - p
    {
      var eol := Memchr(s, '\n', p, hi);
      if eol == hi {
        break;
      }
      ghost var more := Header(s, eol + 1, hi, name);
      HeaderStep(s, p, hi, name, eol, more);
      var v := ReadField(s, p, eol, name);
      if v.Some? {
        if nth == 0 {
          return v;
        }
        nth := nth - 1;
      }
      values := more;
      p := eol + 1;
    }
    assert values == [];
    return None;
  }

  /** The value on the line that ends at `eol`, if it is the field called `name`. */
  function FieldValue(s: string, p: nat, eol: nat, name: string): Option<string>
    requires p <= eol <= |s|
  {
    var field := FieldOf(s, p, eol);
    if field.Some? && CiEq(field.value.name, name) then Some(field.value.value) else None
  }

  method ReadField(s: string, p: nat, eol: nat, name: string) returns (value: Option<string>)
    requires p <= eol <= |s|
    ensures value == FieldValue(s, p, eol, name)
  {
    var end := LineEnd(s, p, eol);
    var colon := Memchr(s, ':', p, end);
    if colon == end {
      return None;
    }
    var v, w := TrimRange(s, colon + 1, end);
    var equal := EqualIgnoringCase(s[p..colon], name);
    return if equal then Some(s[v..w]) else None;
  }

  lemma HeaderStep(s: string, p: nat, hi: nat, name: string, eol: nat, more: seq<string>)
    requires p < hi <= |s| && eol == IndexOf(s, '\n', p) < hi && more == Header(s, eol + 1, hi, name)
    ensures
      var value := FieldValue(s, p, eol, name);
      Header(s, p, hi, name) == if value.Some? then [value.value] + more else more
  {
    var field, rest := FieldOf(s, p, eol), Fields(s, eol + 1, hi);
    if field.Some? {
      ValuesCons(field.value, rest, name);
      assert [] + more == more;
    }
  }

  lemma ValuesCons(field: Field, rest: seq<Field>, name: string)
    ensures Values([field] + rest, name) == (if CiEq(field.name, name) then [field.value] else []) + Values(rest, name)
  {
    assert ([field] + rest)[1..] == rest;
  }

  function Nth<T>(s: seq<T>, n: nat): Option<T> {
    if n < |s| then Some(s[n]) else None
  }

  /** The body size by the first Content-Length, which a second one must repeat. */
  method ReadLength(s: string, lo: nat, hi: nat) returns (size: Option<nat>)
    requires lo <= hi <= |s|
    ensures size == BodySize(s, lo, hi)
  {
    var first := FindHeader(s, lo, hi, "content-length", 0);
    if first == None {
      return Some(0);
    }
    size := ReadSize(first.value);
    if size.Some? {
      var second := FindHeader(s, lo, hi, "content-length", 1);
      if second.Some? {
        var size2 := ReadSize(second.value);
        if size2 != size {
          return None;
        }
      }
    }
  }

  /** Whether the connection is kept, and whether the request asks for an upgrade. */
  method ReadConnection(s: string, lo: nat, hi: nat, default: bool) returns (keepAlive: bool, upgrade: bool)
    requires lo <= hi <= |s|
    ensures keepAlive == (default && !Closes(s, lo, hi)) && upgrade == Upgrades(s, lo, hi)
  {
    keepAlive, upgrade := default, false;
    var connection := FindHeader(s, lo, hi, "connection", 0);
    if connection.Some? {
      upgrade := ScanForToken(connection.value, "upgrade");
      var closes := ScanForToken(connection.value, "close");
      keepAlive := keepAlive && !closes;
    }
    if upgrade {
      var named := FindHeader(s, lo, hi, "upgrade", 0);
      upgrade := named.Some?;
    }
  }

  method ReadChunked(s: string, lo: nat, hi: nat) returns (chunked: bool)
    requires lo <= hi <= |s|
    ensures chunked == IsChunked(s, lo, hi)
  {
    var coding := FindHeader(s, lo, hi, "transfer-encoding", 0);
    chunked := false;
    if coding.Some? {
      chunked := ScanForToken(coding.value, "chunked");
    }
  }

  method ReadStart(s: string) returns (start: Option<Start>)
    ensures start == StartOf(s)
  {
    var eol := Memchr(s, '\n', 0, |s|);
    return StartLine(s[..LineEnd(s, 0, eol)]);
  }

  method ReadHead(s: string, e: nat) returns (r: Option<Message>)
    requires EndsHead(s, e)
    ensures r == ParseHead(s, e)
  {
    var start := ReadStart(s);
    if start == None {
      NoHead(s, e);
      return None;
    }
    var eol := Memchr(s, '\n', 0, |s|);
    r := ReadFields(s, start.value, eol + 1, e + 2);
    ParseHeadIs(s, e, start.value, eol + 1, r);
  }

  method ReadFields(s: string, start: Start, lo: nat, hi: nat) returns (r: Option<Message>)
    requires lo <= hi <= |s|
    ensures r == Assemble(s, start, lo, hi)
  {
    var keepAlive, upgrade := ReadConnection(s, lo, hi, start.keepAlive);
    var size := ReadLength(s, lo, hi);
    if size == None {
      return None;
    }
    var chunked := ReadChunked(s, lo, hi);
    if chunked {
      return None;
    }
    return Some(Message(start.line, keepAlive, upgrade, size.value, Span(lo, hi), Span(hi + 2, hi + 2 + size.value)));
  }

  /** The whole parse, loop by loop. */
  method ParseBuffer(s: string) returns (r: Verdict)
    ensures r == Parse(s)
  {
    var e := 0;
    while e + 3 < |s| && !EndsHead(s, e)
      invariant 0 <= e <= |s| && HeadEnd(s, 0) == HeadEnd(s, e)
    {
      e := e + 1;
    }
    if e + 3 >= |s| {
      return More;
    }
    var head := ReadHead(s[..e + 4], e);
    ParseIs(s, e);
    return Frame(|s|, head);
  }
}
