/**
 The HTTP/1.1 the node speaks with a hosted app (RFC 9112): the request it builds and how it reads the
 response. Heads are ASCII, one char a byte.
*/
module HttpMessage {
  import opened Sequences
  import opened Text

  const CRLF := "\r\n"
  const BLANK := "\r\n\r\n"

  predicate MatchesAt(h: string, n: string, i: nat) {
    i + |n| <= |h| && h[i..i + |n|] == n
  }

  lemma MatchChar(h: string, n: string, i: nat, k: nat)
    requires k < |n|
    ensures MatchesAt(h, n, i) ==> h[i + k] == n[k]
  {
    if MatchesAt(h, n, i) {
      assert h[i..i + |n|][k] == h[i + k];
    }
  }

  function FindFrom(h: string, n: string, i: nat): (r: Option<nat>)
    ensures r.Some? ==> i <= r.value && MatchesAt(h, n, r.value) && forall j :: i <= j < r.value ==> !MatchesAt(h, n, j)
    ensures r.None? ==> forall j :: i <= j ==> !MatchesAt(h, n, j)
    decreases |h| - i
  {
    if i + |n| > |h| then None else if MatchesAt(h, n, i) then Some(i) else FindFrom(h, n, i + 1)
  }

  /** The first place where `needle` occurs. */
  function FindSubslice(haystack: string, needle: string): Option<nat> {
    if needle == [] || |haystack| < |needle| then None else FindFrom(haystack, needle, 0)
  }

  lemma FoundAt(h: string, n: string, i: nat)
    requires n != [] && MatchesAt(h, n, i) && forall j :: 0 <= j < i ==> !MatchesAt(h, n, j)
    ensures FindSubslice(h, n) == Some(i)
  {
    var r := FindFrom(h, n, 0);
    assert r.Some?;
    assert MatchesAt(h, n, r.value);
  }

  /* ----- Lines ----- */

  predicate NoCrlf(s: string) {
    FindFrom(s, CRLF, 0).None?
  }

  /** A line that is not empty. */
  predicate IsLine(s: string) {
    s != [] && NoCrlf(s)
  }

  predicate Flat(s: string) {
    '\r' !in s && '\n' !in s
  }

  lemma FlatNoCrlf(s: string)
    requires Flat(s)
    ensures NoCrlf(s)
  {
    var r := FindFrom(s, CRLF, 0);
    if r.Some? { MatchChar(s, CRLF, r.value, 0); }
  }

  predicate AllLines(lines: seq<string>) {
    forall i :: 0 <= i < |lines| ==> IsLine(lines[i])
  }

  function Unlines(lines: seq<string>): string {
    if lines == [] then [] else lines[0] + CRLF + Unlines(lines[1..])
  }

  /** What comes between the lines, without the last line end. */
  function Joined(lines: seq<string>): string
    requires lines != []
  {
    if |lines| == 1 then lines[0] else lines[0] + CRLF + Joined(lines[1..])
  }

  function Message(lines: seq<string>, body: string): string {
    Unlines(lines) + CRLF + body
  }

  lemma {:induction false} JoinedShape(lines: seq<string>)
    requires lines != []
    ensures Unlines(lines) == Joined(lines) + CRLF
  {
    if |lines| == 1 {
      assert lines[1..] == [];
    } else {
      JoinedShape(lines[1..]);
      assert lines[0] + CRLF + (Joined(lines[1..]) + CRLF) == lines[0] + CRLF + Joined(lines[1..]) + CRLF;
    }
  }

  /** A search in `a + CRLF + rest` that a line `a` cannot satisfy goes on in the rest. */
  lemma PastLine(a: string, rest: string, needle: string, j: nat)
    requires IsLine(a) && |needle| >= 2 && needle[0] == '\r' && needle[1] == '\n'
    requires j < |a| || j == |a| + 1
    ensures !MatchesAt(a + CRLF + rest, needle, j)
  {
    var h := a + CRLF + rest;
    MatchChar(h, needle, j, 0);
    MatchChar(h, needle, j, 1);
    if j < |a| {
      assert !MatchesAt(a, CRLF, j);
      assert j + 1 < |a| ==> a[j..j + 2] == [h[j], h[j + 1]];
      assert j + 1 == |a| ==> h[j + 1] == '\r';
    } else {
      assert h[j] == '\n';
    }
  }

  lemma MatchShift(a: string, b: string, needle: string, j: nat)
    ensures MatchesAt(a + b, needle, |a| + j) <==> MatchesAt(b, needle, j)
  {
    if j + |needle| <= |b| {
      assert (a + b)[|a| + j..|a| + j + |needle|] == b[j..j + |needle|];
    }
  }

  /** The blank line of a message is the first CRLFCRLF in it, whatever the body holds. */
  lemma {:induction false} BlankLine(lines: seq<string>, body: string)
    requires lines != [] && AllLines(lines)
    ensures MatchesAt(Message(lines, body), BLANK, |Joined(lines)|)
    ensures forall j :: 0 <= j < |Joined(lines)| ==> !MatchesAt(Message(lines, body), BLANK, j)
    decreases |lines|
  {
    var a := lines[0];
    var h := Message(lines, body);
    var rest := Unlines(lines[1..]) + CRLF + body;
    assert h == a + CRLF + rest;
    if |lines| == 1 {
      assert lines[1..] == [] && rest == CRLF + body;
      assert h == a + (BLANK + body);
      MatchShift(a, BLANK + body, BLANK, 0);
      forall j | 0 <= j < |a| ensures !MatchesAt(h, BLANK, j) {
        PastLine(a, rest, BLANK, j);
      }
    } else {
      BlankLine(lines[1..], body);
      assert rest == Message(lines[1..], body);
      var n := |Joined(lines[1..])|;
      MatchShift(a + CRLF, rest, BLANK, n);
      forall j | 0 <= j < |a| + 2 + n ensures !MatchesAt(h, BLANK, j) {
        if j >= |a| + 2 {
          MatchShift(a + CRLF, rest, BLANK, j - |a| - 2);
        } else if j == |a| {
          NextLineStarts(a, lines[1..], body);
        } else {
          PastLine(a, rest, BLANK, j);
        }
      }
    }
  }

  lemma NextLineStarts(a: string, lines: seq<string>, body: string)
    requires lines != [] && AllLines(lines)
    ensures !MatchesAt(a + CRLF + Message(lines, body), BLANK, |a|)
  {
    var h := a + CRLF + Message(lines, body);
    var b := lines[0];
    assert Message(lines, body) == b + CRLF + (Unlines(lines[1..]) + CRLF + body);
    assert h[|a| + 2] == b[0] && h[|a| + 3] == (b + CRLF)[1];
    MatchChar(h, BLANK, |a|, 2);
    MatchChar(h, BLANK, |a|, 3);
    assert !MatchesAt(b, CRLF, 0);
    assert |b| > 1 ==> b[0..2] == [b[0], b[1]];
  }

  lemma SplitsAtBlank(lines: seq<string>, body: string)
    requires lines != [] && AllLines(lines)
    ensures var (m, n) := (Message(lines, body), |Joined(lines)|);
      FindSubslice(m, BLANK) == Some(n) && n + 4 <= |m| && m[..n] == Joined(lines) && m[n + 4..] == body
  {
    BlankLine(lines, body);
    FoundAt(Message(lines, body), BLANK, |Joined(lines)|);
    JoinedShape(lines);
    assert Message(lines, body) == Joined(lines) + BLANK + body;
  }

  /** Rust's split("\r\n"). */
  function SplitLines(s: string): (lines: seq<string>)
    ensures lines != []
    decreases |s|
  {
    var k := FindSubslice(s, CRLF);
    if k.None? then [s] else [s[..k.value]] + SplitLines(s[k.value + 2..])
  }

  lemma {:induction false} SplitJoined(lines: seq<string>)
    requires lines != [] && AllLines(lines)
    ensures SplitLines(Joined(lines)) == lines
    decreases |lines|
  {
    var a := lines[0];
    var s := Joined(lines);
    if |lines| == 1 {
      assert lines == [a] && FindSubslice(s, CRLF).None?;
    } else {
      var rest := Joined(lines[1..]);
      assert s == a + CRLF + rest;
      assert s[|a|..|a| + 2] == CRLF;
      forall j | 0 <= j < |a| ensures !MatchesAt(s, CRLF, j) {
        PastLine(a, rest, CRLF, j);
      }
      FoundAt(s, CRLF, |a|);
      assert s[..|a|] == a && s[|a| + 2..] == rest;
      SplitJoined(lines[1..]);
      assert lines == [a] + lines[1..];
    }
  }

  lemma OneLine(s: string)
    requires NoCrlf(s)
    ensures SplitLines(s) == [s]
  {
  }

  /** The first piece ends at the first CRLF. */
  lemma FirstPiece(a: string, rest: string)
    requires NoCrlf(a)
    ensures SplitLines(a + CRLF + rest) == [a] + SplitLines(rest)
  {
    var s := a + CRLF + rest;
    assert s[|a|..|a| + 2] == CRLF;
    forall j | 0 <= j < |a| ensures !MatchesAt(s, CRLF, j) {
      PastLine(a, rest, CRLF, j);
    }
    FoundAt(s, CRLF, |a|);
    assert s[..|a|] == a && s[|a| + 2..] == rest;
  }

  /** Splitting loses nothing, and no piece holds a CRLF. */
  lemma {:induction false} SplitPieces(s: string)
    ensures Unlines(SplitLines(s)) == s + CRLF
    ensures forall p :: p in SplitLines(s) ==> NoCrlf(p)
    decreases |s|
  {
    var k := FindSubslice(s, CRLF);
    if k.None? {
      assert [s][1..] == [] && s + CRLF + [] == s + CRLF;
      assert NoCrlf(s);
    } else {
      var (a, rest) := (s[..k.value], s[k.value + 2..]);
      SplitPieces(rest);
      assert s == a + CRLF + rest;
      assert ([a] + SplitLines(rest))[1..] == SplitLines(rest);
      assert a + CRLF + (rest + CRLF) == s + CRLF;
      BeforeFirst(s, k.value);
    }
  }

  lemma BeforeFirst(s: string, k: nat)
    requires k <= |s| && forall j :: 0 <= j < k ==> !MatchesAt(s, CRLF, j)
    ensures NoCrlf(s[..k])
  {
    var r := FindFrom(s[..k], CRLF, 0);
    if r.Some? {
      assert s[..k][r.value..r.value + 2] == s[r.value..r.value + 2];
      assert MatchesAt(s, CRLF, r.value);
    }
  }

  /* ----- Numbers ----- */

  predicate IsDigit(c: char) {
    '0' <= c <= '9'
  }

  function Decimal(n: nat): (s: string)
    ensures s != [] && forall i :: 0 <= i < |s| ==> IsDigit(s[i])
  {
    var digit := '0' + (n % 10) as char;
    if n < 10 then [digit] else Decimal(n / 10) + [digit]
  }

  /** Digits only; the empty text reads as zero here. */
  function Digits(s: string): Option<nat> {
    if s == [] then Some(0)
    else
      var (front, c) := (Digits(s[..|s| - 1]), s[|s| - 1]);
      if front.None? || !IsDigit(c) then None else Some(10 * front.value + (c - '0') as nat)
  }

  /** Rust's parse::<u16>: an optional plus sign, at least one digit, at most 65535. */
  function ParseU16(s: string): Option<nat> {
    var t := if s != [] && s[0] == '+' then s[1..] else s;
    var n := Digits(t);
    if t == [] || n.None? || n.value > 65535 then None else n
  }

  lemma {:induction false} DecimalRoundTrip(n: nat)
    ensures Digits(Decimal(n)) == Some(n)
  {
    var digit := '0' + (n % 10) as char;
    if n < 10 {
      assert [digit][..0] == [];
    } else {
      DecimalRoundTrip(n / 10);
      assert (Decimal(n / 10) + [digit])[..|Decimal(n / 10)|] == Decimal(n / 10);
    }
  }

  /* ----- White space ----- */

  predicate IsSpace(c: char) {
    c == ' ' || c == '\t' || c == '\n' || c == '\r' || c == '\U{0b}' || c == '\U{0c}'
  }

  predicate AllSpace(s: string) {
    forall i :: 0 <= i < |s| ==> IsSpace(s[i])
  }

  predicate NoSpace(s: string) {
    forall i :: 0 <= i < |s| ==> !IsSpace(s[i])
  }

  function TrimStart(s: string): string {
    if s != [] && IsSpace(s[0]) then TrimStart(s[1..]) else s
  }

  function TrimEnd(s: string): string {
    if s != [] && IsSpace(s[|s| - 1]) then TrimEnd(s[..|s| - 1]) else s
  }

  function Trim(s: string): string {
    TrimEnd(TrimStart(s))
  }

  predicate Trimmed(s: string) {
    s == [] || (!IsSpace(s[0]) && !IsSpace(s[|s| - 1]))
  }

  lemma {:induction false} TrimStartDrops(a: string, v: string)
    requires AllSpace(a) && (v == [] || !IsSpace(v[0]))
    ensures TrimStart(a + v) == v
  {
    if a == [] {
      assert a + v == v;
    } else {
      assert (a + v)[1..] == a[1..] + v;
      TrimStartDrops(a[1..], v);
    }
  }

  lemma {:induction false} TrimEndDrops(v: string, b: string)
    requires AllSpace(b) && (v == [] || !IsSpace(v[|v| - 1]))
    ensures TrimEnd(v + b) == v
    decreases |b|
  {
    if b == [] {
      assert v + b == v;
    } else {
      assert (v + b)[..|v + b| - 1] == v + b[..|b| - 1];
      TrimEndDrops(v, b[..|b| - 1]);
    }
  }

  lemma TrimExact(a: string, v: string, b: string)
    requires AllSpace(a) && AllSpace(b) && Trimmed(v)
    ensures Trim(a + v + b) == v
  {
    if v == [] {
      assert a + v + b == (a + b) + [];
      TrimStartDrops(a + b, []);
    } else {
      assert a + v + b == a + (v + b);
      TrimStartDrops(a, v + b);
      TrimEndDrops(v, b);
    }
  }

  /** Up to the first white space, and what follows. */
  function TakeWord(s: string): (string, string) {
    if s == [] || IsSpace(s[0]) then ([], s)
    else var (w, rest) := TakeWord(s[1..]); ([s[0]] + w, rest)
  }

  /** The second word: split_whitespace, next, next. */
  function SecondWord(s: string): string {
    var rest := TakeWord(TrimStart(s)).1;
    TakeWord(TrimStart(rest)).0
  }

  lemma {:induction false} TakeWordExact(w: string, rest: string)
    requires NoSpace(w) && (rest == [] || IsSpace(rest[0]))
    ensures TakeWord(w + rest) == (w, rest)
  {
    if w == [] {
      assert w + rest == rest;
    } else {
      assert (w + rest)[1..] == w[1..] + rest;
      TakeWordExact(w[1..], rest);
      assert w == [w[0]] + w[1..];
    }
  }
}
