/** The node's proxy: the request it sends to a hosted app and how it reads the app's response. */
module HttpProxy {
  import opened Sequences
  import opened Text
  import opened HttpMessage

  type Headers = seq<(string, string)>

  datatype HttpResponse = HttpResponse(status: nat, headers: Headers, body: string)

  /* ----- The request ----- */

  function LowerChar(c: char): char {
    if 'A' <= c <= 'Z' then c + ' ' else c
  }

  /** name.to_ascii_lowercase() is `lower`. */
  predicate Folds(name: string, lower: string) {
    |name| == |lower| && forall i :: 0 <= i < |lower| ==> LowerChar(name[i]) == lower[i]
  }

  predicate IsLength(name: string) {
    Folds(name, "content-length")
  }

  /** The fields the proxy sets itself. */
  predicate Own(name: string) {
    Folds(name, "host") || Folds(name, "connection") || IsLength(name)
  }

  function HeaderLine(h: (string, string)): string {
    h.0 + ": " + h.1
  }

  function Kept(headers: Headers): Headers {
    if headers == [] then []
    else
      var h := headers[|headers| - 1];
      Kept(headers[..|headers| - 1]) + (if Own(h.0) then [] else [h])
  }

  function HeaderLines(headers: Headers): seq<string> {
    if headers == [] then [] else [HeaderLine(headers[0])] + HeaderLines(headers[1..])
  }

  const OWN: Headers := [("Host", "tandem"), ("Connection", "close")]

  function AllFields(headers: Headers, body: string): Headers {
    OWN + Kept(headers) + [("Content-Length", Decimal(|body|))]
  }

  function RequestLine(verb: string, path: string): string {
    verb + " " + path + " HTTP/1.1"
  }

  function RequestLines(verb: string, path: string, headers: Headers, body: string): seq<string> {
    [RequestLine(verb, path)] + HeaderLines(AllFields(headers, body))
  }

  lemma {:induction false} UnlinesConcat(a: seq<string>, b: seq<string>)
    ensures Unlines(a + b) == Unlines(a) + Unlines(b)
  {
    if a == [] {
      assert a + b == b;
    } else {
      UnlinesConcat(a[1..], b);
      assert (a + b)[1..] == a[1..] + b;
      assert a[0] + CRLF + (Unlines(a[1..]) + Unlines(b)) == (a[0] + CRLF + Unlines(a[1..])) + Unlines(b);
    }
  }

  lemma UnlinesOne(s: string)
    ensures Unlines([s]) == s + CRLF
  {
    assert [s][1..] == [];
    assert s + CRLF + [] == s + CRLF;
  }

  lemma {:induction false} HeaderLinesConcat(a: Headers, b: Headers)
    ensures HeaderLines(a + b) == HeaderLines(a) + HeaderLines(b)
  {
    if a == [] {
      assert a + b == b && [] + HeaderLines(b) == HeaderLines(b);
    } else {
      HeaderLinesConcat(a[1..], b);
      assert (a + b)[1..] == a[1..] + b && (a + b)[0] == a[0];
      var first := [HeaderLine(a[0])];
      assert HeaderLines(a + b) == first + HeaderLines(a[1..] + b);
      assert first + (HeaderLines(a[1..]) + HeaderLines(b)) == first + HeaderLines(a[1..]) + HeaderLines(b);
    }
  }

  lemma {:induction false} HeaderLinesAre(headers: Headers)
    ensures |HeaderLines(headers)| == |headers|
    ensures forall i :: 0 <= i < |headers| ==> HeaderLines(headers)[i] == HeaderLine(headers[i])
  {
    if headers != [] {
      HeaderLinesAre(headers[1..]);
    }
  }

  lemma AppendField(fields: Headers, h: (string, string))
    ensures Unlines(HeaderLines(fields + [h])) == Unlines(HeaderLines(fields)) + (h.0 + ": " + h.1 + CRLF)
  {
    HeaderLinesConcat(fields, [h]);
    assert HeaderLines([h]) == [HeaderLine(h)];
    UnlinesConcat(HeaderLines(fields), [HeaderLine(h)]);
    UnlinesOne(HeaderLine(h));
  }

  lemma AppendOwn(start: string)
    ensures start + "Host: tandem\r\n" + "Connection: close\r\n" == start + Unlines(HeaderLines(OWN))
  {
    AppendField([], OWN[0]);
    AppendField([OWN[0]], OWN[1]);
    assert [] + [OWN[0]] == [OWN[0]] && [OWN[0]] + [OWN[1]] == OWN;
    var (host, connection) := ("Host: tandem\r\n", "Connection: close\r\n");
    assert OWN[0].0 + ": " + OWN[0].1 + CRLF == host && OWN[1].0 + ": " + OWN[1].1 + CRLF == connection;
    assert Unlines(HeaderLines([])) + host == host;
    assert start + (host + connection) == start + host + connection;
  }

  lemma KeptSnoc(headers: Headers, i: nat)
    requires i < |headers|
    ensures Kept(headers[..i + 1]) == Kept(headers[..i]) + (if Own(headers[i].0) then [] else [headers[i]])
  {
    assert headers[..i + 1][..i] == headers[..i];
  }

  lemma RequestText(verb: string, path: string, headers: Headers, body: string)
    ensures RequestLine(verb, path) + CRLF + Unlines(HeaderLines(AllFields(headers, body))) + CRLF + body
         == Message(RequestLines(verb, path, headers, body), body)
  {
    UnlinesConcat([RequestLine(verb, path)], HeaderLines(AllFields(headers, body)));
    UnlinesOne(RequestLine(verb, path));
  }

  /** Fields the proxy sets itself are left out, and all others are kept, in their order. */
  lemma {:induction false} KeptConcat(a: Headers, b: Headers, h: (string, string))
    ensures Kept(a + b) == Kept(a) + Kept(b)
    ensures Kept([h]) == if Folds(h.0, "host") || Folds(h.0, "connection") || Folds(h.0, "content-length") then [] else [h]
    decreases |b|
  {
    assert [h][..0] == [] && Kept([]) == [];
    if b == [] {
      assert a + b == a;
    } else {
      var (front, last) := (b[..|b| - 1], b[|b| - 1]);
      KeptConcat(a, front, h);
      assert (a + b)[..|a + b| - 1] == a + front && (a + b)[|a + b| - 1] == last;
      var one := if Own(last.0) then [] else [last];
      assert (Kept(a) + Kept(front)) + one == Kept(a) + (Kept(front) + one);
    }
  }

  lemma SandwichLines(own: Headers, kept: Headers, h: (string, string))
    ensures Unlines(HeaderLines(own + kept + [h])) == Unlines(HeaderLines(own)) + Unlines(HeaderLines(kept)) + (h.0 + ": " + h.1 + CRLF)
  {
    AppendField(own + kept, h);
    HeaderLinesConcat(own, kept);
    UnlinesConcat(HeaderLines(own), HeaderLines(kept));
  }

  /** The request byte by byte. */
  lemma RequestLayout(verb: string, path: string, headers: Headers, body: string, own: string, length: string)
    requires own == "Host: tandem\r\nConnection: close\r\n" && length == "Content-Length"
    ensures Message(RequestLines(verb, path, headers, body), body) ==
      (verb + " " + path + " HTTP/1.1") + CRLF + (own + Unlines(HeaderLines(Kept(headers))) + (length + ": " + Decimal(|body|) + CRLF)) + CRLF + body
  {
    RequestText(verb, path, headers, body);
    SandwichLines(OWN, Kept(headers), (length, Decimal(|body|)));
    OwnText(own, "");
    var (first, kept, last, u) := (RequestLine(verb, path), Unlines(HeaderLines(Kept(headers))), length + ": " + Decimal(|body|) + CRLF, Unlines(HeaderLines(OWN)));
    assert Unlines(HeaderLines(AllFields(headers, body))) == u + kept + last;
    assert first + CRLF + (u + kept + last) + CRLF + body == first + CRLF + (own + kept + last) + CRLF + body;
  }

  lemma OwnText(own: string, nothing: string)
    requires own == "Host: tandem\r\nConnection: close\r\n" && nothing == ""
    ensures Unlines(HeaderLines(OWN)) == own
  {
    AppendOwn(nothing);
    var (a, b) := ("Host: tandem\r\n", "Connection: close\r\n");
    assert nothing + a + b == own && nothing + Unlines(HeaderLines(OWN)) == Unlines(HeaderLines(OWN));
  }

  lemma ThenField(start: string, fields: Headers, h: (string, string))
    ensures (start + Unlines(HeaderLines(fields))) + (h.0 + ": " + h.1 + CRLF) == start + Unlines(HeaderLines(fields + [h]))
  {
    AppendField(fields, h);
    var (text, line) := (Unlines(HeaderLines(fields)), h.0 + ": " + h.1 + CRLF);
    assert (start + text) + line == start + (text + line);
  }

  /** The bytes proxy_request writes to the app's socket. */
  method BuildRequest(verb: string, path: string, headers: Headers, body: string) returns (request: string)
    ensures request == Message(RequestLines(verb, path, headers, body), body)
  {
    var start := RequestLine(verb, path) + CRLF;
    AppendOwn(start);
    request := start + "Host: tandem\r\n" + "Connection: close\r\n";
    assert OWN + Kept([]) == OWN;
    for i := 0 to |headers|
      invariant request == start + Unlines(HeaderLines(OWN + Kept(headers[..i])))
    {
      var h := headers[i];
      KeptSnoc(headers, i);
      if Own(h.0) {
        assert Kept(headers[..i]) + [] == Kept(headers[..i]);
      } else {
        ThenField(start, OWN + Kept(headers[..i]), h);
        assert OWN + Kept(headers[..i]) + [h] == OWN + (Kept(headers[..i]) + [h]);
        request := request + (h.0 + ": " + h.1 + CRLF);
      }
    }
    assert headers[..|headers|] == headers;
    ThenField(start, OWN + Kept(headers), ("Content-Length", Decimal(|body|)));
    request := request + ("Content-Length" + ": " + Decimal(|body|) + CRLF);
    RequestText(verb, path, headers, body);
    request := request + CRLF + body;
  }

  predicate FlatHeaders(headers: Headers) {
    forall i :: 0 <= i < |headers| ==> Flat(headers[i].0) && Flat(headers[i].1)
  }

  lemma {:induction false} KeptMembers(headers: Headers)
    ensures forall h :: h in Kept(headers) <==> h in headers && !Own(h.0)
  {
    if headers != [] {
      KeptMembers(headers[..|headers| - 1]);
      assert headers == headers[..|headers| - 1] + [headers[|headers| - 1]];
    }
  }

  lemma KeptAre(headers: Headers, i: nat)
    requires i < |Kept(headers)|
    ensures Kept(headers)[i] in headers && !Own(Kept(headers)[i].0)
  {
    KeptMembers(headers);
    assert Kept(headers)[i] in Kept(headers);
  }

  lemma DecimalIsTrimmed(n: nat)
    ensures Trimmed(Decimal(n)) && Flat(Decimal(n))
  {
    var s := Decimal(n);
    assert IsDigit(s[0]) && IsDigit(s[|s| - 1]);
  }

  lemma RequestLinesFlat(verb: string, path: string, headers: Headers, body: string)
    requires Flat(verb) && Flat(path) && FlatHeaders(headers)
    ensures AllLines(RequestLines(verb, path, headers, body))
  {
    FlatNoCrlf(RequestLine(verb, path));
    var lines := HeaderLines(AllFields(headers, body));
    HeaderLinesAre(AllFields(headers, body));
    forall i | 0 <= i < |lines| ensures IsLine(lines[i]) {
      FieldsFlat(headers, body, i);
    }
  }

  lemma FieldsFlat(headers: Headers, body: string, i: nat)
    requires FlatHeaders(headers) && i < |AllFields(headers, body)|
    ensures IsLine(HeaderLine(AllFields(headers, body)[i]))
  {
    var fields := AllFields(headers, body);
    if 2 <= i < |fields| - 1 {
      KeptAre(headers, i - 2);
      assert fields[i] == Kept(headers)[i - 2];
      var k :| 0 <= k < |headers| && headers[k] == fields[i];
    } else if i < 2 {
      assert fields[i] == OWN[i];
    } else {
      DecimalIsTrimmed(|body|);
    }
    assert Flat(fields[i].0) && Flat(fields[i].1);
    FlatNoCrlf(HeaderLine(fields[i]));
  }

  /**
   Section 2.1 of RFC 9112: a request built from parts without CR and LF splits at its first empty line
   into the request line with the fields sent, and exactly the body.
  */
  lemma RequestSplits(verb: string, path: string, headers: Headers, body: string)
    requires Flat(verb) && Flat(path) && FlatHeaders(headers)
    ensures var m := Message(RequestLines(verb, path, headers, body), body);
      var k := FindSubslice(m, BLANK);
      && k.Some? && k.value + 4 <= |m|
      && SplitLines(m[..k.value]) == RequestLines(verb, path, headers, body)
      && m[k.value + 4..] == body
  {
    RequestLinesFlat(verb, path, headers, body);
    SplitsAtBlank(RequestLines(verb, path, headers, body), body);
    SplitJoined(RequestLines(verb, path, headers, body));
  }

  /* ----- The response ----- */

  /** The fields of the lines after the first; a line without a colon is skipped. */
  function ParseFields(lines: seq<string>): Headers {
    if lines == [] then []
    else
      var f := SplitOnce(lines[0], ':');
      (if f.None? then [] else [(Trim(f.value.0), Trim(f.value.1))]) + ParseFields(lines[1..])
  }

  function ParseStatusCode(line: string): Option<nat> {
    ParseU16(SecondWord(line))
  }

  /** `decode` is the lossy decoding of the head as UTF-8. */
  function ParseResponse(decode: string -> string, raw: string): Option<HttpResponse> {
    var k := FindSubslice(raw, BLANK);
    if k.None? then None
    else
      var lines := SplitLines(decode(raw[..k.value]));
      var status := ParseStatusCode(lines[0]);
      if status.None? then None
      else Some(HttpResponse(status.value, ParseFields(lines[1..]), raw[k.value + 4..]))
  }

  /** parse_http_response, with its loop over the header lines. */
  method ParseHttpResponse(decode: string -> string, raw: string) returns (r: Option<HttpResponse>)
    ensures r == ParseResponse(decode, raw)
  {
    var k := FindSubslice(raw, BLANK);
    if k.None? { return None; }
    var lines := SplitLines(decode(raw[..k.value]));
    var status := ParseStatusCode(lines[0]);
    if status.None? { return None; }
    var headers := CollectFields(lines[1..]);
    r := Some(HttpResponse(status.value, headers, raw[k.value + 4..]));
  }

  method CollectFields(lines: seq<string>) returns (headers: Headers)
    ensures headers == ParseFields(lines)
  {
    headers := [];
    var i := 0;
    while i < |lines|
      invariant i <= |lines|
      invariant headers + ParseFields(lines[i..]) == ParseFields(lines)
    {
      assert lines[i..][1..] == lines[i + 1..];
      ghost var rest := ParseFields(lines[i + 1..]);
      var f := SplitOnce(lines[i], ':');
      if f.Some? {
        var field := (Trim(f.value.0), Trim(f.value.1));
        assert headers + ([field] + rest) == (headers + [field]) + rest;
        headers := headers + [field];
      } else {
        assert [] + rest == rest;
      }
      i := i + 1;
    }
  }

  /** A field as section 5 of RFC 9112 has it: name ":" white space, value, white space. */
  datatype Field = Field(name: string, before: string, value: string, after: string)

  predicate IsToken(s: string) {
    s != [] && NoSpace(s) && ':' !in s
  }

  predicate Blank(s: string) {
    forall i :: 0 <= i < |s| ==> s[i] == ' ' || s[i] == '\t'
  }

  /** Decoding the head as UTF-8 leaves ASCII as it is. */
  predicate Ascii(s: string) {
    forall i :: 0 <= i < |s| ==> s[i] < 128 as char
  }

  predicate WellFormed(f: Field) {
    IsToken(f.name) && Blank(f.before) && Blank(f.after) && Trimmed(f.value) && Flat(f.value)
  }

  function FieldLine(f: Field): string {
    f.name + ":" + f.before + f.value + f.after
  }

  function FieldLines(fields: seq<Field>): seq<string> {
    if fields == [] then [] else [FieldLine(fields[0])] + FieldLines(fields[1..])
  }

  function Pairs(fields: seq<Field>): Headers {
    if fields == [] then [] else [(fields[0].name, fields[0].value)] + Pairs(fields[1..])
  }

  lemma FieldSplits(f: Field)
    requires WellFormed(f)
    ensures SplitOnce(FieldLine(f), ':') == Some((f.name, f.before + f.value + f.after))
  {
    var rest := f.before + f.value + f.after;
    assert FieldLine(f) == f.name + [':'] + rest;
    assert FieldLine(f)[|f.name|] == ':';
    var r := SplitOnce(FieldLine(f), ':').value;
    CutUnique(f.name, rest, r.0, r.1, ':');
  }

  lemma FieldTrims(f: Field)
    requires WellFormed(f)
    ensures Trim(f.name) == f.name && Trim(f.before + f.value + f.after) == f.value
  {
    TrimExact(f.before, f.value, f.after);
    TrimExact([], f.name, []);
    assert [] + f.name + [] == f.name;
  }

  lemma FieldIsLine(f: Field)
    requires WellFormed(f)
    ensures IsLine(FieldLine(f))
  {
    assert Flat(f.name) && Flat(f.before) && Flat(f.value) && Flat(f.after);
    FlatNoCrlf(FieldLine(f));
  }

  lemma {:induction false} FieldLinesAre(fields: seq<Field>)
    requires forall i :: 0 <= i < |fields| ==> WellFormed(fields[i])
    ensures AllLines(FieldLines(fields))
  {
    if fields != [] {
      FieldIsLine(fields[0]);
      FieldLinesAre(fields[1..]);
    }
  }

  lemma {:induction false} FieldsParse(fields: seq<Field>)
    requires forall i :: 0 <= i < |fields| ==> WellFormed(fields[i])
    ensures ParseFields(FieldLines(fields)) == Pairs(fields)
  {
    if fields != [] {
      FieldSplits(fields[0]);
      FieldTrims(fields[0]);
      FieldsParse(fields[1..]);
      assert FieldLines(fields)[1..] == FieldLines(fields[1..]);
    }
  }

  /** Section 4 of RFC 9112: version, one space, three digits, one space, a reason phrase that may be empty. */
  function StatusLine(version: string, code: string, reason: string): string {
    version + " " + code + " " + reason
  }

  predicate IsCode(code: string) {
    |code| == 3 && forall i :: 0 <= i < 3 ==> IsDigit(code[i])
  }

  function CodeValue(code: string): nat
    requires IsCode(code)
  {
    100 * (code[0] - '0') as nat + 10 * (code[1] - '0') as nat + (code[2] - '0') as nat
  }

  lemma CodeParses(code: string)
    requires IsCode(code)
    ensures ParseU16(code) == Some(CodeValue(code))
  {
    var (c1, c2) := (code[..1], code[..2]);
    assert c1[..0] == [] && c2[..1] == c1 && code[..|code| - 1] == c2;
    assert Digits(c1) == Some((code[0] - '0') as nat);
    assert Digits(c2) == Some(10 * (code[0] - '0') as nat + (code[1] - '0') as nat);
  }

  lemma StatusParses(version: string, code: string, reason: string)
    requires version != [] && NoSpace(version) && IsCode(code)
    ensures ParseStatusCode(StatusLine(version, code, reason)) == Some(CodeValue(code))
  {
    var line := StatusLine(version, code, reason);
    var (tail1, tail2) := (" " + code + " " + reason, " " + reason);
    assert line == version + tail1;
    assert [] + line == line;
    TrimStartDrops([], line);
    TakeWordExact(version, tail1);
    assert tail1 == " " + (code + tail2);
    TrimStartDrops(" ", code + tail2);
    TakeWordExact(code, tail2);
    CodeParses(code);
  }

  /**
   From any well-formed response the node recovers the status, every field in order without the white
   space around its value, and the body exactly, even a body that holds empty lines of its own.
  */
  lemma {:induction false} ResponseRoundTrip(decode: string -> string, version: string, code: string, reason: string, fields: seq<Field>, body: string)
    requires KeepsAscii(decode)
    requires version != [] && NoSpace(version) && IsCode(code) && Flat(reason) && Ascii(version) && Ascii(reason)
    requires forall i :: 0 <= i < |fields| ==> WellFormed(fields[i]) && Ascii(fields[i].name) && Ascii(fields[i].value)
    ensures ParseResponse(decode, Message([StatusLine(version, code, reason)] + FieldLines(fields), body))
         == Some(HttpResponse(CodeValue(code), Pairs(fields), body))
  {
    var status := StatusLine(version, code, reason);
    var lines := [status] + FieldLines(fields);
    FieldLinesAre(fields);
    StatusIsLine(version, code, reason);
    assert AllLines(lines) by {
      forall i | 0 <= i < |lines| ensures IsLine(lines[i]) {}
    }
    StatusParses(version, code, reason);
    FieldLinesAscii(fields);
    assert Ascii(code) && Ascii(status);
    LinesAscii(status, FieldLines(fields));
    LinesParse(decode, lines, body, CodeValue(code));
    FieldsParse(fields);
    assert lines[1..] == FieldLines(fields);
  }

  lemma StatusIsLine(version: string, code: string, reason: string)
    requires version != [] && NoSpace(version) && IsCode(code) && Flat(reason)
    ensures IsLine(StatusLine(version, code, reason))
  {
    assert Flat(version) && Flat(code);
    FlatNoCrlf(StatusLine(version, code, reason));
  }

  ghost predicate KeepsAscii(decode: string -> string) {
    forall s :: Ascii(s) ==> decode(s) == s
  }

  lemma {:induction false} JoinedAscii(lines: seq<string>)
    requires lines != [] && forall i :: 0 <= i < |lines| ==> Ascii(lines[i])
    ensures Ascii(Joined(lines))
  {
    if |lines| > 1 { JoinedAscii(lines[1..]); }
  }

  lemma {:induction false} FieldLinesAscii(fields: seq<Field>)
    requires forall i :: 0 <= i < |fields| ==> WellFormed(fields[i]) && Ascii(fields[i].name) && Ascii(fields[i].value)
    ensures forall i :: 0 <= i < |FieldLines(fields)| ==> Ascii(FieldLines(fields)[i])
  {
    if fields != [] {
      FieldLinesAscii(fields[1..]);
      assert Ascii(FieldLine(fields[0]));
    }
  }

  lemma {:induction false} LinesAscii(status: string, lines: seq<string>)
    requires Ascii(status) && forall i :: 0 <= i < |lines| ==> Ascii(lines[i])
    ensures Ascii(Joined([status] + lines))
  {
    JoinedAscii([status] + lines);
  }

  lemma LinesParse(decode: string -> string, lines: seq<string>, body: string, status: nat)
    requires lines != [] && AllLines(lines) && ParseStatusCode(lines[0]) == Some(status)
    requires KeepsAscii(decode) && Ascii(Joined(lines))
    ensures ParseResponse(decode, Message(lines, body)) == Some(HttpResponse(status, ParseFields(lines[1..]), body))
  {
    SplitsAtBlank(lines, body);
    SplitJoined(lines);
  }

  /* ----- One length ----- */

  function AsFields(headers: Headers): seq<Field> {
    if headers == [] then [] else [Field(headers[0].0, " ", headers[0].1, "")] + AsFields(headers[1..])
  }

  lemma {:induction false} AsFieldsLines(headers: Headers)
    ensures FieldLines(AsFields(headers)) == HeaderLines(headers) && Pairs(AsFields(headers)) == headers
    ensures |AsFields(headers)| == |headers|
    ensures forall i :: 0 <= i < |headers| ==> AsFields(headers)[i] == Field(headers[i].0, " ", headers[i].1, "")
  {
    if headers != [] {
      AsFieldsLines(headers[1..]);
      var (n, v) := headers[0];
      assert n + ":" + " " + v + "" == n + ": " + v;
      assert headers == [headers[0]] + headers[1..];
    }
  }

  predicate Sendable(h: (string, string)) {
    IsToken(h.0) && Trimmed(h.1) && Flat(h.1)
  }

  lemma FieldsSendable(headers: Headers, body: string, i: nat)
    requires (forall h :: h in headers ==> Sendable(h)) && i < |AllFields(headers, body)|
    ensures Sendable(AllFields(headers, body)[i])
    ensures IsLength(AllFields(headers, body)[i].0) <==> i == |AllFields(headers, body)| - 1
  {
    var fields := AllFields(headers, body);
    if 2 <= i < |fields| - 1 {
      KeptAre(headers, i - 2);
      assert fields[i] == Kept(headers)[i - 2];
    } else if i < 2 {
      assert fields[i] == OWN[i];
    } else {
      DecimalIsTrimmed(|body|);
    }
  }

  /**
   Read back with the same parser, a request from token names carries exactly one Content-Length: the
   last field, equal to the length of the body.
  */
  lemma OneContentLength(verb: string, path: string, headers: Headers, body: string)
    requires forall h :: h in headers ==> Sendable(h)
    ensures var fields := ParseFields(RequestLines(verb, path, headers, body)[1..]);
      && fields == AllFields(headers, body)
      && (forall i :: 0 <= i < |fields| ==> (IsLength(fields[i].0) <==> i == |fields| - 1))
      && Digits(fields[|fields| - 1].1) == Some(|body|)
  {
    var fields := AllFields(headers, body);
    AsFieldsLines(fields);
    forall i | 0 <= i < |fields|
      ensures WellFormed(AsFields(fields)[i]) && (IsLength(fields[i].0) <==> i == |fields| - 1)
    {
      FieldsSendable(headers, body, i);
    }
    FieldsParse(AsFields(fields));
    assert RequestLines(verb, path, headers, body)[1..] == HeaderLines(fields);
    DecimalRoundTrip(|body|);
  }
}
