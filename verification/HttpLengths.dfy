/**
 How the request the proxy sends is read on the other side, for any fields at all: where its head ends and
 how many Content-Length fields it holds. Section 5 of RFC 9112.
*/
module HttpLengths {
  import opened Sequences
  import opened Text
  import opened HttpMessage
  import opened HttpProxy

  /** The bytes proxy_request writes. */
  function Wire(verb: string, path: string, headers: Headers, body: string): string {
    Message(RequestLines(verb, path, headers, body), body)
  }

  /** A line of a head that reads as a Content-Length field. */
  predicate ReadsAsLength(line: string) {
    var f := SplitOnce(line, ':');
    f.Some? && IsLength(Trim(f.value.0))
  }

  /**
   Split at its first empty line, the text has this request line, exactly this body, and one Content-Length:
   the body's, as last field.
  */
  ghost predicate ReadRight(m: string, first: string, body: string) {
    var k := FindSubslice(m, BLANK);
    && k.Some? && k.value + 4 <= |m| && m[k.value + 4..] == body
    && var lines := SplitLines(m[..k.value]);
      var fields := ParseFields(lines[1..]);
      && lines[0] == first
      && fields != [] && fields[|fields| - 1] == ("Content-Length", Decimal(|body|))
      && forall i :: 0 <= i < |fields| - 1 ==> !IsLength(fields[i].0)
  }

  /** No piece of the field's line, cut where it holds a CRLF, is empty or reads as a Content-Length. */
  predicate Clean(h: (string, string)) {
    forall p :: p in SplitLines(HeaderLine(h)) ==> p != [] && !ReadsAsLength(p)
  }

  /* ----- Pieces ----- */

  /** The lines of the fields as they stand on the wire. */
  function Pieces(headers: Headers): seq<string> {
    if headers == [] then [] else SplitLines(HeaderLine(headers[0])) + Pieces(headers[1..])
  }

  lemma {:induction false} PiecesConcat(a: Headers, b: Headers)
    ensures Pieces(a + b) == Pieces(a) + Pieces(b)
  {
    if a == [] {
      assert a + b == b;
    } else {
      PiecesConcat(a[1..], b);
      assert (a + b)[0] == a[0] && (a + b)[1..] == a[1..] + b;
      var first := SplitLines(HeaderLine(a[0]));
      Regroup(first, Pieces(a[1..]), Pieces(b));
    }
  }

  lemma {:induction false} PiecesUnlines(headers: Headers)
    ensures Unlines(Pieces(headers)) == Unlines(HeaderLines(headers))
    ensures forall p :: p in Pieces(headers) ==> NoCrlf(p)
  {
    if headers != [] {
      var line := HeaderLine(headers[0]);
      SplitPieces(line);
      PiecesUnlines(headers[1..]);
      UnlinesConcat(SplitLines(line), Pieces(headers[1..]));
    }
  }

  lemma {:induction false} PieceOf(headers: Headers, p: string)
    ensures p in Pieces(headers) <==> exists i :: 0 <= i < |headers| && p in SplitLines(HeaderLine(headers[i]))
  {
    if headers != [] {
      PieceOf(headers[1..], p);
      if i :| 0 <= i < |headers| && p in SplitLines(HeaderLine(headers[i])) {
        if i > 0 { assert headers[1..][i - 1] == headers[i]; }
      }
      if i :| 0 <= i < |headers| - 1 && p in SplitLines(HeaderLine(headers[1..][i])) {
        assert headers[1..][i] == headers[i + 1];
      }
    }
  }

  predicate GoodPiece(p: string) {
    p != [] && !ReadsAsLength(p)
  }

  /** All pieces kept are good exactly when each field is the proxy's own or clean. */
  lemma GoodPiecesIff(headers: Headers)
    ensures (forall p :: p in Pieces(Kept(headers)) ==> GoodPiece(p))
      <==> (forall i :: 0 <= i < |headers| ==> Own(headers[i].0) || Clean(headers[i]))
  {
    var kept := Kept(headers);
    KeptMembers(headers);
    if forall p :: p in Pieces(kept) ==> GoodPiece(p) {
      forall i | 0 <= i < |headers| && !Own(headers[i].0) ensures Clean(headers[i]) {
        assert headers[i] in kept;
        forall p | p in SplitLines(HeaderLine(headers[i])) ensures GoodPiece(p) { PieceOf(kept, p); }
      }
    }
    if forall i :: 0 <= i < |headers| ==> Own(headers[i].0) || Clean(headers[i]) {
      forall p | p in Pieces(kept) ensures GoodPiece(p) {
        PieceOf(kept, p);
        var j :| 0 <= j < |kept| && p in SplitLines(HeaderLine(kept[j]));
        KeptAre(headers, j);
        var i :| 0 <= i < |headers| && headers[i] == kept[j];
      }
    }
  }

  /* ----- The lines sent ----- */

  function Tail(body: string): (string, string) {
    ("Content-Length", Decimal(|body|))
  }

  /** The head's lines: the request line, the proxy's own first fields, the pieces kept, and the length. */
  function WireLines(verb: string, path: string, headers: Headers, body: string): seq<string> {
    [RequestLine(verb, path)] + HeaderLines(OWN) + Pieces(Kept(headers)) + [HeaderLine(Tail(body))]
  }

  lemma FlatPieces(h: (string, string))
    requires Flat(h.0) && Flat(h.1)
    ensures NoCrlf(HeaderLine(h)) && SplitLines(HeaderLine(h)) == [HeaderLine(h)]
  {
    FlatNoCrlf(HeaderLine(h));
    OneLine(HeaderLine(h));
  }

  lemma TwoFlatPieces(a: (string, string), b: (string, string))
    requires Flat(a.0) && Flat(a.1) && Flat(b.0) && Flat(b.1)
    ensures Pieces([a, b]) == HeaderLines([a, b]) == [HeaderLine(a), HeaderLine(b)]
    ensures IsLine(HeaderLine(a)) && IsLine(HeaderLine(b))
  {
    FlatPieces(a);
    FlatPieces(b);
    assert [a, b][1..] == [b] && [b][1..] == [];
    assert HeaderLines([b]) == [HeaderLine(b)] + [] && Pieces([b]) == [HeaderLine(b)] + [];
  }

  lemma OwnPieces()
    ensures Pieces(OWN) == HeaderLines(OWN)
    ensures forall l :: l in HeaderLines(OWN) ==> IsLine(l)
  {
    TwoFlatPieces(OWN[0], OWN[1]);
    assert OWN == [OWN[0], OWN[1]];
  }

  lemma TailPieces(body: string)
    ensures Pieces([Tail(body)]) == [HeaderLine(Tail(body))] && IsLine(HeaderLine(Tail(body)))
  {
    DecimalIsTrimmed(|body|);
    FlatPieces(Tail(body));
    assert [Tail(body)][1..] == [] && [HeaderLine(Tail(body))] + [] == [HeaderLine(Tail(body))];
  }

  lemma WireIs(verb: string, path: string, headers: Headers, body: string)
    ensures Wire(verb, path, headers, body) == Message(WireLines(verb, path, headers, body), body)
  {
    var (all, kept, first) := (AllFields(headers, body), Kept(headers), [RequestLine(verb, path)]);
    OwnPieces();
    TailPieces(body);
    PiecesConcat(OWN + kept, [Tail(body)]);
    PiecesConcat(OWN, kept);
    PiecesUnlines(all);
    UnlinesConcat(first, HeaderLines(all));
    UnlinesConcat(first, Pieces(all));
    assert first + Pieces(all) == WireLines(verb, path, headers, body);
  }

  /* ----- Reading it ----- */

  lemma {:induction false} ParseConcat(a: seq<string>, b: seq<string>)
    ensures ParseFields(a + b) == ParseFields(a) + ParseFields(b)
  {
    if a == [] {
      assert a + b == b;
    } else {
      ParseConcat(a[1..], b);
      assert (a + b)[0] == a[0] && (a + b)[1..] == a[1..] + b;
      var f := SplitOnce(a[0], ':');
      var one := if f.None? then [] else [(Trim(f.value.0), Trim(f.value.1))];
      Regroup(one, ParseFields(a[1..]), ParseFields(b));
    }
  }

  lemma {:induction false} ParsedLengths(lines: seq<string>)
    ensures (forall f :: f in ParseFields(lines) ==> !IsLength(f.0)) <==> forall l :: l in lines ==> !ReadsAsLength(l)
  {
    if lines != [] {
      ParsedLengths(lines[1..]);
      assert lines == [lines[0]] + lines[1..];
      var f := SplitOnce(lines[0], ':');
      var one := if f.None? then [] else [(Trim(f.value.0), Trim(f.value.1))];
      assert ParseFields(lines) == one + ParseFields(lines[1..]);
      assert (forall g :: g in one ==> !IsLength(g.0)) <==> !ReadsAsLength(lines[0]) by {
        if f.Some? { assert one[0] in one; }
      }
    }
  }

  /** A field of a token and a plain value reads as itself. */
  lemma SendableReads(h: (string, string))
    requires Sendable(h)
    ensures ParseFields([HeaderLine(h)]) == [h] && (ReadsAsLength(HeaderLine(h)) <==> IsLength(h.0))
  {
    var f := Field(h.0, " ", h.1, "");
    assert FieldLine(f) == HeaderLine(h);
    FieldSplits(f);
    FieldTrims(f);
    assert [HeaderLine(h)][1..] == [];
  }

  lemma {:induction false} SendablesRead(headers: Headers)
    requires forall h :: h in headers ==> Sendable(h)
    ensures ParseFields(HeaderLines(headers)) == headers
  {
    if headers != [] {
      SendableReads(headers[0]);
      SendablesRead(headers[1..]);
      assert headers == [headers[0]] + headers[1..];
      assert HeaderLines(headers) == [HeaderLine(headers[0])] + HeaderLines(headers[1..]);
      ParseConcat([HeaderLine(headers[0])], HeaderLines(headers[1..]));
    }
  }

  lemma OwnSendable(i: nat)
    requires i < |OWN|
    ensures Sendable(OWN[i]) && !IsLength(OWN[i].0)
  {
  }

  /** The proxy's own fields are read back as they are. */
  lemma OwnReads(body: string)
    ensures forall f :: f in ParseFields(HeaderLines(OWN)) ==> !IsLength(f.0)
    ensures ParseFields([HeaderLine(Tail(body))]) == [Tail(body)]
  {
    DecimalIsTrimmed(|body|);
    SendableReads(Tail(body));
    OwnSendable(0);
    OwnSendable(1);
    SendablesRead(OWN);
  }

  lemma LineAmong(first: string, own: seq<string>, pieces: seq<string>, last: string, l: string)
    requires l in [first] + own + pieces + [last]
    ensures l == first || l in own || l in pieces || l == last
  {
  }

  /** No line sent holds a CRLF. */
  lemma LineGood(verb: string, path: string, headers: Headers, body: string, l: string)
    requires NoCrlf(RequestLine(verb, path)) && l in WireLines(verb, path, headers, body)
    ensures NoCrlf(l)
  {
    LineAmong(RequestLine(verb, path), HeaderLines(OWN), Pieces(Kept(headers)), HeaderLine(Tail(body)), l);
    if l == RequestLine(verb, path) {
    } else if l in HeaderLines(OWN) {
      OwnPieces();
    } else if l in Pieces(Kept(headers)) {
      PiecesUnlines(Kept(headers));
    } else {
      TailPieces(body);
    }
  }

  /** With no empty piece, the head ends where it should, and the fields read are those of its lines. */
  lemma NoEmptyPiece(verb: string, path: string, headers: Headers, body: string)
    requires NoCrlf(RequestLine(verb, path)) && [] !in Pieces(Kept(headers))
    ensures var (m, lines) := (Wire(verb, path, headers, body), WireLines(verb, path, headers, body));
      var k := FindSubslice(m, BLANK);
      k.Some? && k.value + 4 <= |m| && SplitLines(m[..k.value]) == lines && m[k.value + 4..] == body
  {
    var lines := WireLines(verb, path, headers, body);
    WireIs(verb, path, headers, body);
    OwnPieces();
    TailPieces(body);
    forall i | 0 <= i < |lines| ensures IsLine(lines[i]) {
      assert lines[i] in lines;
      LineGood(verb, path, headers, body, lines[i]);
    }
    SplitsAtBlank(lines, body);
    SplitJoined(lines);
  }

  /** The first empty one of some lines. */
  lemma {:induction false} FirstEmpty(lines: seq<string>) returns (e: nat)
    requires [] in lines
    ensures e < |lines| && lines[e] == [] && forall i :: 0 <= i < e ==> lines[i] != []
  {
    if lines[0] == [] {
      e := 0;
    } else {
      assert lines == [lines[0]] + lines[1..];
      e := FirstEmpty(lines[1..]);
      assert forall i :: 0 < i <= e ==> lines[i] == lines[1..][i - 1];
      e := e + 1;
    }
  }

  /** An empty piece ends the head early: what follows is read as body. */
  lemma EmptyPieceEnds(verb: string, path: string, headers: Headers, body: string)
    requires NoCrlf(RequestLine(verb, path)) && [] in Pieces(Kept(headers))
    ensures !ReadRight(Wire(verb, path, headers, body), RequestLine(verb, path), body)
  {
    var lines := WireLines(verb, path, headers, body);
    WireIs(verb, path, headers, body);
    assert [] in lines;
    var e := FirstEmpty(lines);
    assert lines[0] == RequestLine(verb, path);
    var (before, after) := (lines[..e], lines[e + 1..]);
    var rest := Unlines(after) + CRLF + body;
    forall i | 0 <= i < |before| ensures IsLine(before[i]) {
      assert lines[i] in lines;
      LineGood(verb, path, headers, body, lines[i]);
    }
    CutAt(lines, e, body);
    SplitsAtBlank(before, rest);
    assert |rest| > |body|;
  }

  lemma CutAt(lines: seq<string>, e: nat, body: string)
    requires e < |lines| && lines[e] == []
    ensures Message(lines, body) == Message(lines[..e], Unlines(lines[e + 1..]) + CRLF + body)
  {
    var (before, after) := (lines[..e], lines[e + 1..]);
    assert lines == before + ([[]] + after);
    UnlinesConcat(before, [[]] + after);
    assert ([[]] + after)[1..] == after && ([[]] + after)[0] == [];
    assert Unlines([[]] + after) == [] + CRLF + Unlines(after);
    var (u, v) := (Unlines(before), Unlines(after));
    assert (u + ([] + CRLF + v)) + CRLF + body == u + CRLF + (v + CRLF + body);
  }

  lemma PairMatches(s: string, i: nat)
    ensures MatchesAt(s, CRLF, i) <==> i < |s| - 1 && s[i] == '\r' && s[i + 1] == '\n'
  {
    if i < |s| - 1 { assert s[i..i + 2] == [s[i], s[i + 1]]; }
  }

  lemma CrlfPairs(s: string)
    ensures NoCrlf(s) <==> forall i :: 0 <= i < |s| - 1 ==> s[i] != '\r' || s[i + 1] != '\n'
  {
    var r := FindFrom(s, CRLF, 0);
    if r.Some? {
      PairMatches(s, r.value);
    } else {
      forall i | 0 <= i < |s| - 1 ensures s[i] != '\r' || s[i + 1] != '\n' { PairMatches(s, i); }
    }
  }

  /** A space between them lets no CRLF begin in one part and end in the other. */
  lemma SpacedPairs(a: string, b: string)
    ensures NoCrlf(a + " " + b) <==> NoCrlf(a) && NoCrlf(b)
  {
    CrlfPairs(a);
    CrlfPairs(b);
    CrlfPairs(a + " " + b);
    var s := a + " " + b;
    assert forall i :: 0 <= i < |a| ==> s[i] == a[i];
    assert forall i :: 0 <= i < |b| ==> s[|a| + 1 + i] == b[i];
    if NoCrlf(s) {
      forall i | 0 <= i < |b| - 1 ensures b[i] != '\r' || b[i + 1] != '\n' {
        assert s[|a| + 1 + i] == b[i] && s[|a| + 1 + (i + 1)] == b[i + 1];
      }
    } else {
      var i :| 0 <= i < |s| - 1 && s[i] == '\r' && s[i + 1] == '\n';
      if i > |a| { assert b[i - |a| - 1] == '\r' && b[i - |a| - 1 + 1] == '\n'; }
    }
  }

  lemma RequestLineFlat(verb: string, path: string)
    ensures NoCrlf(RequestLine(verb, path)) <==> NoCrlf(verb) && NoCrlf(path)
  {
    var version := "HTTP/1.1";
    assert RequestLine(verb, path) == verb + " " + (path + " " + version);
    SpacedPairs(verb, path + " " + version);
    SpacedPairs(path, version);
    assert Flat(version);
    FlatNoCrlf(version);
  }

  /** The first line read holds no CRLF. */
  lemma FirstLineFlat(m: string, first: string, body: string)
    requires ReadRight(m, first, body)
    ensures NoCrlf(first)
  {
    var k := FindSubslice(m, BLANK);
    SplitPieces(m[..k.value]);
    assert first in SplitLines(m[..k.value]);
  }

  /**
   For any method, path and fields, whatever CR, LF, colons or spaces they hold: what is sent is read with
   the request line and the body meant and exactly one Content-Length, the body's, if and only if there is
   no CRLF in the method or the path and every field is one the proxy leaves out or is clean.
  */
  lemma OnlyLengthIff(verb: string, path: string, headers: Headers, body: string)
    ensures ReadRight(Wire(verb, path, headers, body), RequestLine(verb, path), body)
      <==> NoCrlf(verb) && NoCrlf(path) && forall i :: 0 <= i < |headers| ==> Own(headers[i].0) || Clean(headers[i])
  {
    RequestLineFlat(verb, path);
    if !NoCrlf(RequestLine(verb, path)) {
      if ReadRight(Wire(verb, path, headers, body), RequestLine(verb, path), body) {
        FirstLineFlat(Wire(verb, path, headers, body), RequestLine(verb, path), body);
      }
    } else {
      FieldsReadIff(verb, path, headers, body);
    }
  }

  lemma FieldsReadIff(verb: string, path: string, headers: Headers, body: string)
    requires NoCrlf(RequestLine(verb, path))
    ensures ReadRight(Wire(verb, path, headers, body), RequestLine(verb, path), body)
      <==> forall i :: 0 <= i < |headers| ==> Own(headers[i].0) || Clean(headers[i])
  {
    GoodPiecesIff(headers);
    var pieces := Pieces(Kept(headers));
    if [] in pieces {
      EmptyPieceEnds(verb, path, headers, body);
      assert !GoodPiece([]);
    } else {
      NoEmptyPiece(verb, path, headers, body);
      LengthsRead(verb, path, headers, body);
      assert forall p :: p in pieces ==> (GoodPiece(p) <==> !ReadsAsLength(p));
    }
  }

  /** The fields of the lines sent: only those kept can add a length. */
  lemma LengthsRead(verb: string, path: string, headers: Headers, body: string)
    ensures var fields := ParseFields(WireLines(verb, path, headers, body)[1..]);
      && fields != [] && fields[|fields| - 1] == Tail(body)
      && ((forall i :: 0 <= i < |fields| - 1 ==> !IsLength(fields[i].0))
        <==> (forall p :: p in Pieces(Kept(headers)) ==> !ReadsAsLength(p)))
  {
    var (own, pieces, last) := (HeaderLines(OWN), Pieces(Kept(headers)), [HeaderLine(Tail(body))]);
    assert WireLines(verb, path, headers, body)[1..] == own + pieces + last;
    ParseConcat(own + pieces, last);
    ParseConcat(own, pieces);
    OwnReads(body);
    ParsedLengths(pieces);
    var (f, g) := (ParseFields(own), ParseFields(pieces));
    var fields := ParseFields(own + pieces + last);
    assert fields == f + g + [Tail(body)];
    assert fields[..|fields| - 1] == f + g;
    FrontLengths(fields, f + g);
    assert forall x :: x in f + g <==> x in f || x in g;
  }

  lemma FrontLengths(fields: Headers, front: Headers)
    requires fields != [] && fields[..|fields| - 1] == front
    ensures (forall i :: 0 <= i < |fields| - 1 ==> !IsLength(fields[i].0)) <==> forall x :: x in front ==> !IsLength(x.0)
  {
    assert forall i :: 0 <= i < |front| ==> front[i] == fields[i];
    if forall x :: x in front ==> !IsLength(x.0) {
      forall i | 0 <= i < |fields| - 1 ensures !IsLength(fields[i].0) { assert front[i] in front; }
    }
  }

  /* ----- Which fields are clean ----- */

  /** Fields as section 5 of RFC 9112 allows them are always read right. */
  lemma TokensReadRight(verb: string, path: string, headers: Headers, body: string)
    requires NoCrlf(verb) && NoCrlf(path) && forall i :: 0 <= i < |headers| ==> Sendable(headers[i])
    ensures ReadRight(Wire(verb, path, headers, body), RequestLine(verb, path), body)
  {
    forall i | 0 <= i < |headers| && !Own(headers[i].0) ensures Clean(headers[i]) {
      FlatPieces(headers[i]);
      SendableReads(headers[i]);
    }
    OnlyLengthIff(verb, path, headers, body);
  }

  /** The first piece of a line keeps what stands before any CR. */
  lemma FirstPieceStarts(start: string, rest: string)
    requires Flat(start)
    ensures start <= SplitLines(start + rest)[0]
  {
    var line := start + rest;
    var k := FindSubslice(line, CRLF);
    if k.Some? { MatchChar(line, CRLF, k.value, 0); }
  }

  lemma SpacedReads(name: string, spaces: string, line: string)
    requires Trimmed(name) && ':' !in name && AllSpace(spaces) && ':' !in spaces && name + spaces + ":" <= line
    ensures IsLength(name) ==> ReadsAsLength(line)
  {
    var spaced := name + spaces;
    var rest := line[|spaced| + 1..];
    assert line == spaced + [':'] + rest && line[|spaced|] == ':';
    var r := SplitOnce(line, ':').value;
    CutUnique(spaced, rest, r.0, r.1, ':');
    TrimExact([], name, spaces);
    assert [] + name + spaces == spaced;
  }

  lemma SpacedPiece(name: string, spaces: string, value: string)
    requires Trimmed(name) && Flat(name) && ':' !in name && IsLength(name)
    requires AllSpace(spaces) && Flat(spaces) && ':' !in spaces
    ensures !Clean((name + spaces, value))
  {
    var (start, rest) := (name + spaces + ":", " " + value);
    var line := HeaderLine((name + spaces, value));
    assert line == start + rest;
    FirstPieceStarts(start, rest);
    var p := SplitLines(line)[0];
    SpacedReads(name, spaces, p);
    assert p in SplitLines(line);
  }

  /** A name with a space at its end is not left out, yet read as Content-Length. */
  lemma SpacedNameIsSent(name: string, spaced: string, value: string)
    requires name == "Content-Length" && spaced == name + " "
    ensures !Own(spaced) && !Clean((spaced, value))
  {
    SpacedPiece(name, " ", value);
  }

  lemma TwoPieces(a: string, b: string, rest: string)
    requires NoCrlf(a) && NoCrlf(b)
    ensures SplitLines(a + CRLF + (b + CRLF + rest)) == [a, b] + SplitLines(rest)
  {
    FirstPiece(a, b + CRLF + rest);
    FirstPiece(b, rest);
    assert [a] + ([b] + SplitLines(rest)) == [a, b] + SplitLines(rest);
  }

  lemma BrokenLine(verb: string, path: string, version: string, line: string, rest: string)
    requires version == " HTTP/1.1"
    ensures RequestLine(verb, path + version + CRLF + line + CRLF + rest)
         == RequestLine(verb, path) + CRLF + (line + CRLF + (rest + version))
  {
    var (front, mid) := (verb + " " + path + version, CRLF + line + CRLF + rest);
    assert RequestLine(verb, path) == front;
    assert verb + " " + (path + version + CRLF + line + CRLF + rest) + version == front + mid + version;
    assert front + mid + version == front + CRLF + (line + CRLF + (rest + version));
  }

  /** A path with a CRLF in it ends the request line early; here the next line reads as Content-Length. */
  lemma BrokenPathIsSent(verb: string, path: string, version: string, length: (string, string), rest: string)
    requires NoCrlf(verb) && NoCrlf(path) && version == " HTTP/1.1" && Sendable(length) && IsLength(length.0)
    ensures var broken := path + version + CRLF + HeaderLine(length) + CRLF + rest;
      SplitLines(RequestLine(verb, broken)) == [RequestLine(verb, path), HeaderLine(length)] + SplitLines(rest + version)
    ensures ReadsAsLength(HeaderLine(length))
  {
    BrokenLine(verb, path, version, HeaderLine(length), rest);
    RequestLineFlat(verb, path);
    FlatPieces(length);
    TwoPieces(RequestLine(verb, path), HeaderLine(length), rest + version);
    SendableReads(length);
  }

  /** A value with a CRLF in it puts two lines on the wire; here the second reads as Content-Length. */
  lemma BrokenValueIsSent(name: string, value: string, length: (string, string))
    requires Flat(name) && Flat(value) && !Own(name) && Sendable(length) && IsLength(length.0)
    ensures var h := (name, value + CRLF + HeaderLine(length));
      SplitLines(HeaderLine(h)) == [HeaderLine((name, value)), HeaderLine(length)] && !Own(h.0) && !Clean(h)
  {
    var h := (name, value + CRLF + HeaderLine(length));
    assert HeaderLine(h) == HeaderLine((name, value)) + CRLF + HeaderLine(length);
    FlatPieces((name, value));
    FlatPieces(length);
    FirstPiece(HeaderLine((name, value)), HeaderLine(length));
    SendableReads(length);
    assert HeaderLine(length) in SplitLines(HeaderLine(h));
  }
}
