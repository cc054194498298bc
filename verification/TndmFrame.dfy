/**
 The frame in which a module travels with its input: "TNDM", the module's length as four
 little-endian bytes, the module, the input. Written by the SDK and the command line, split by the node.
*/
module TndmFrame {
  import opened Sequences
  import opened CompileCache

  const MAGIC := "TNDM"
  const TWO_32 := 0x1_0000_0000

  function LengthBytes(n: nat): (s: string)
    requires n < TWO_32
    ensures |s| == 4
  {
    [(n % 256) as char, (n / 256 % 256) as char, (n / 65536 % 256) as char, (n / 16777216) as char]
  }

  function LengthOf(s: string): nat
    requires |s| == 4
  {
    s[0] as nat + 256 * s[1] as nat + 65536 * s[2] as nat + 16777216 * s[3] as nat
  }

  /** None: a length that does not fit in four bytes raises an error. */
  function Frame(wasm: string, input: string): Option<string> {
    if |wasm| >= TWO_32 then None else Some(MAGIC + LengthBytes(|wasm|) + wasm + input)
  }

  function Split(payload: string): (string, string) {
    if |payload| >= 8 && payload[..4] == MAGIC then
      var n := LengthOf(payload[4..8]);
      if |payload| >= 8 + n then (payload[8..8 + n], payload[8 + n..]) else (payload, "")
    else (payload, "")
  }

  predicate IsComponent(wasm: string) {
    |wasm| >= 8 && wasm[4..8] == COMPONENT_VERSION
  }

  predicate AllBytes(s: string) {
    forall i :: 0 <= i < |s| ==> s[i] < 256 as char
  }

  lemma LengthRoundTrip(n: nat)
    requires n < TWO_32
    ensures LengthOf(LengthBytes(n)) == n
  {
    var (a, b) := (n / 256, n / 65536);
    assert a / 256 == b && b / 256 == n / 16777216;
    assert n == 256 * a + n % 256 && a == 256 * b + a % 256 && b == 256 * (b / 256) + b % 256;
  }

  lemma LengthBytesRoundTrip(s: string)
    requires |s| == 4 && AllBytes(s)
    ensures LengthOf(s) < TWO_32 && LengthBytes(LengthOf(s)) == s
  {
    var (n, b1, b2) := (LengthOf(s), s[1] as nat + 256 * s[2] as nat + 65536 * s[3] as nat, s[2] as nat + 256 * s[3] as nat);
    assert n == 256 * b1 + s[0] as nat && n / 256 == b1;
    assert b1 == 256 * b2 + s[1] as nat && b1 / 256 == b2 && n / 65536 == b2;
    assert b2 / 256 == s[3] as nat && n / 16777216 == s[3] as nat;
  }

  /** The frame byte by byte: four letters, the length with its lowest byte first, the module, the input. */
  lemma FrameLayout(wasm: string, input: string)
    ensures Frame(wasm, input).Some? <==> |wasm| < 0x1_0000_0000
    ensures Frame(wasm, input).Some? ==>
      var p := Frame(wasm, input).value;
      && |p| == 8 + |wasm| + |input| && p[0] == 'T' && p[1] == 'N' && p[2] == 'D' && p[3] == 'M'
      && p[4] as nat + 256 * p[5] as nat + 65536 * p[6] as nat + 16777216 * p[7] as nat == |wasm|
      && p[8..8 + |wasm|] == wasm && p[8 + |wasm|..] == input
  {
    if |wasm| < TWO_32 {
      LengthRoundTrip(|wasm|);
      var p := Frame(wasm, input).value;
      assert p == MAGIC + (LengthBytes(|wasm|) + (wasm + input));
      assert p[4..8] == LengthBytes(|wasm|) && p[4..8][0] == p[4] && p[4..8][1] == p[5] && p[4..8][2] == p[6] && p[4..8][3] == p[7];
    }
  }

  /** The node gets back exactly the pair that was framed. */
  lemma SplitFrame(wasm: string, input: string)
    requires |wasm| < TWO_32
    ensures Split(Frame(wasm, input).value) == (wasm, input)
  {
    LengthRoundTrip(|wasm|);
    var p := Frame(wasm, input).value;
    assert p == MAGIC + (LengthBytes(|wasm|) + (wasm + input));
    assert p[..4] == MAGIC && p[4..8] == LengthBytes(|wasm|);
    assert p[8..8 + |wasm|] == wasm && p[8 + |wasm|..] == input;
  }

  /** A payload is cut into the pair it is the frame of, if there is one, and otherwise passed on whole. */
  lemma SplitExact(payload: string)
    requires AllBytes(payload)
    ensures (exists w, i :: Frame(w, i) == Some(payload)) ==> Frame(Split(payload).0, Split(payload).1) == Some(payload)
    ensures (forall w, i :: Frame(w, i) != Some(payload)) ==> Split(payload) == (payload, "")
  {
    if w, i :| Frame(w, i) == Some(payload) {
      SplitFrame(w, i);
    }
    if |payload| >= 8 && payload[..4] == MAGIC && |payload| >= 8 + LengthOf(payload[4..8]) {
      var (w, i) := Split(payload);
      LengthBytesRoundTrip(payload[4..8]);
      assert payload == payload[..4] + payload[4..8] + w + i;
      assert Frame(w, i) == Some(payload);
    }
  }

  /** A frame cut inside its module is passed on whole; one cut inside its input keeps the module. */
  lemma SplitTruncated(wasm: string, input: string, n: nat)
    requires |wasm| < TWO_32 && n <= 8 + |wasm| + |input|
    ensures var cut := Frame(wasm, input).value[..n];
      Split(cut) == if n < 8 + |wasm| then (cut, "") else (wasm, input[..n - 8 - |wasm|])
  {
    LengthRoundTrip(|wasm|);
    var p := Frame(wasm, input).value;
    var cut := p[..n];
    assert p == MAGIC + (LengthBytes(|wasm|) + (wasm + input));
    if n >= 8 + |wasm| {
      assert cut == MAGIC + LengthBytes(|wasm|) + wasm + input[..n - 8 - |wasm|];
      SplitFrame(wasm, input[..n - 8 - |wasm|]);
    } else if n >= 8 {
      assert p[4..8] == LengthBytes(|wasm|) && cut[4..8] == p[4..8] && cut[..4] == p[..4];
    }
  }

  /**
   A validated artifact reaches the node's runtime unchanged and is run as the kind it was validated as,
   framed or not: its own header can never be taken for a frame.
  */
  lemma ArtifactArrives(wasm: string, input: string, kind: Kind)
    requires ValidateArtifact(wasm) == Some(kind)
    ensures Frame(wasm, input).Some? && Split(Frame(wasm, input).value) == (wasm, input)
    ensures Split(wasm) == (wasm, "")
    ensures IsComponent(Split(wasm).0) <==> kind == Component
  {
    SplitFrame(wasm, input);
    assert wasm[0..4] == wasm[..4];
    assert wasm[..4][0] != MAGIC[0];
    assert CORE_MODULE_VERSION[0] != COMPONENT_VERSION[0];
  }
}
