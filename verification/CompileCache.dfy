/** The compile cache: validation of artifacts, the files of the cache, and compiling through it. */
module CompileCache {
  import opened Sequences
  import opened CompileKey

  datatype Kind = CoreModule | Component

  datatype Artifact = Artifact(bytes: string, kind: Kind, contentHash: string)

  datatype CompileError = Unavailable | Io | BackendFailed(message: string)

  datatype Result = Ok(artifact: Artifact) | Err(error: CompileError)

  const MAX_ARTIFACT_BYTES := 256 * 1024 * 1024
  const WASM_MAGIC := "\0asm"
  const CORE_MODULE_VERSION := "\U{01}\0\0\0"
  const COMPONENT_VERSION := "\U{0d}\0\U{01}\0"

  function DetectKind(bytes: string): Option<Kind> {
    if |bytes| < 8 then None
    else if bytes[0..4] != WASM_MAGIC then None
    else if bytes[4..8] == CORE_MODULE_VERSION then Some(CoreModule)
    else if bytes[4..8] == COMPONENT_VERSION then Some(Component)
    else None
  }

  function ValidateArtifact(bytes: string): Option<Kind> {
    if |bytes| > MAX_ARTIFACT_BYTES then None else DetectKind(bytes)
  }

  /** A backend with the hash it shares with the cache. Its output depends on the request and the sources. */
  datatype Backend = Backend(hash: string -> string, compile: (Request, seq<File>) -> Result)

  /** The hash has no collisions and no newlines; whatever the backend returns went through finalize_artifact. */
  ghost predicate Sound(b: Backend) {
    && (forall x, y :: b.hash(x) == b.hash(y) ==> x == y)
    && (forall x :: OneLine(b.hash(x)))
    && (forall r, files :: b.compile(r, files).Ok? ==> Finalized(b, b.compile(r, files).artifact))
  }

  predicate Finalized(b: Backend, a: Artifact) {
    ValidateArtifact(a.bytes) == Some(a.kind) && a.contentHash == b.hash(a.bytes)
  }

  /** The first bytes, as numbers. */
  predicate StartsWith(bytes: string, codes: seq<int>) {
    |bytes| >= |codes| && forall i :: 0 <= i < |codes| ==> bytes[i] as int == codes[i]
  }

  lemma SliceIs(bytes: string, lo: nat, word: string)
    requires lo + 4 <= |bytes| && |word| == 4
    ensures bytes[lo..lo + 4] == word <==> bytes[lo] == word[0] && bytes[lo + 1] == word[1] && bytes[lo + 2] == word[2] && bytes[lo + 3] == word[3]
  {
    var s := bytes[lo..lo + 4];
    assert s[0] == bytes[lo] && s[1] == bytes[lo + 1] && s[2] == bytes[lo + 2] && s[3] == bytes[lo + 3];
  }

  /** An artifact validates, as a module or as a component, exactly by its size and its first eight bytes. */
  lemma ValidatesIff(bytes: string)
    ensures ValidateArtifact(bytes) == Some(CoreModule) <==>
      |bytes| <= 268435456 && StartsWith(bytes, [0, 0x61, 0x73, 0x6d, 1, 0, 0, 0])
    ensures ValidateArtifact(bytes) == Some(Component) <==>
      |bytes| <= 268435456 && StartsWith(bytes, [0, 0x61, 0x73, 0x6d, 0x0d, 0, 1, 0])
  {
    if |bytes| >= 8 {
      SliceIs(bytes, 0, WASM_MAGIC);
      SliceIs(bytes, 4, CORE_MODULE_VERSION);
      SliceIs(bytes, 4, COMPONENT_VERSION);
      HeaderIs(bytes, 1, 0, 0);
      HeaderIs(bytes, 0x0d, 0, 1);
    }
  }

  lemma HeaderIs(bytes: string, a: int, b: int, c: int)
    requires |bytes| >= 8
    ensures StartsWith(bytes, [0, 0x61, 0x73, 0x6d, a, b, c, 0]) <==>
      bytes[0] as int == 0 && bytes[1] as int == 0x61 && bytes[2] as int == 0x73 && bytes[3] as int == 0x6d
      && bytes[4] as int == a && bytes[5] as int == b && bytes[6] as int == c && bytes[7] as int == 0
  {
    var codes := [0, 0x61, 0x73, 0x6d, a, b, c, 0];
    assert codes[0] == 0 && codes[1] == 0x61 && codes[2] == 0x73 && codes[3] == 0x6d && codes[4] == a && codes[5] == b && codes[6] == c && codes[7] == 0;
  }

  /* ----- The cache as a function of its files ----- */

  function Cached(b: Backend, files: map<string, string>, key: string): Option<Artifact> {
    if key !in files then None
    else
      var kind := ValidateArtifact(files[key]);
      if kind.None? then None else Some(Artifact(files[key], kind.value, b.hash(files[key])))
  }

  function Key(b: Backend, r: Request, source: seq<File>): string {
    b.hash(Material(r, b.hash(SourceMaterial(source))))
  }

  /** How storing a file goes: whole, or with an error that leaves the old file or part of the new one. */
  datatype Write = Whole | Untouched | Partly(kept: nat)

  function Stored(files: map<string, string>, key: string, bytes: string, write: Write): map<string, string> {
    match write
    case Whole => files[key := bytes]
    case Untouched => files
    case Partly(kept) => files[key := if kept <= |bytes| then bytes[..kept] else bytes]
  }

  /** `available`: the toolchain is installed. */
  function CompileOnce(b: Backend, files: map<string, string>, r: Request, source: seq<File>, available: bool, write: Write)
    : (Result, map<string, string>)
  {
    var key := Key(b, r, source);
    var hit := Cached(b, files, key);
    if hit.Some? then (Ok(hit.value), files)
    else if !available then (Err(Unavailable), files)
    else
      var result := b.compile(r, source);
      if result.Err? then (result, files)
      else (if write.Whole? then result else Err(Io), Stored(files, key, result.artifact.bytes, write))
  }

  class BuildCache {
    var files: map<string, string>

    constructor ()
      ensures files == map[]
    {
      files := map[];
    }

    method Get(b: Backend, key: string) returns (r: Option<Artifact>)
      ensures r == Cached(b, files, key)
    {
      r := None;
      if key in files {
        var bytes := files[key];
        var kind := ValidateArtifact(bytes);
        if kind.Some? {
          r := Some(Artifact(bytes, kind.value, b.hash(bytes)));
        }
      }
    }

    method Put(key: string, a: Artifact, write: Write) returns (ok: bool)
      modifies this
      ensures ok == write.Whole? && files == Stored(old(files), key, a.bytes, write)
    {
      ok := write.Whole?;
      match write
      case Whole => files := files[key := a.bytes];
      case Untouched =>
      case Partly(kept) => files := files[key := if kept <= |a.bytes| then a.bytes[..kept] else a.bytes];
    }

    method CompileWithCache(b: Backend, r: Request, source: seq<File>, available: bool, write: Write) returns (result: Result)
      modifies this
      ensures (result, files) == CompileOnce(b, old(files), r, source, available, write)
    {
      var sourceHash := HashSourceDir(b.hash, source);
      var key := KeyFor(b.hash, r, sourceHash);
      var hit := Get(b, key);
      if hit.Some? { return Ok(hit.value); }
      if !available { return Err(Unavailable); }
      result := b.compile(r, source);
      if result.Ok? {
        var ok := Put(key, result.artifact, write);
        if !ok { result := Err(Io); }
      }
    }
  }

  /** What is put comes back exactly, and only under its own key. */
  lemma GetAfterPut(b: Backend, files: map<string, string>, key: string, a: Artifact, other: string)
    requires Finalized(b, a)
    ensures Cached(b, files[key := a.bytes], other) == if other == key then Some(a) else Cached(b, files, other)
  {
    if other == key {
      assert Artifact(a.bytes, a.kind, b.hash(a.bytes)) == a;
    }
  }

  /** A call that finds nothing usable: the backend is asked only if it is there, and its error, or that of the file, comes back. */
  lemma MissEffect(b: Backend, files: map<string, string>, r: Request, source: seq<File>, available: bool, write: Write)
    requires Cached(b, files, Key(b, r, source)) == None
    ensures var ((result, after), made) := (CompileOnce(b, files, r, source, available, write), b.compile(r, source));
      && (!available ==> result == Err(Unavailable) && after == files)
      && (available && made.Err? ==> result == made && after == files)
      && (available && made.Ok? && write == Whole ==> result == made && after == files[Key(b, r, source) := made.artifact.bytes])
      && (available && made.Ok? && write == Untouched ==> result == Err(Io) && after == files)
      && (available && made.Ok? && write.Partly? && write.kept <= |made.artifact.bytes| ==>
           result == Err(Io) && after == files[Key(b, r, source) := made.artifact.bytes[..write.kept]])
  {
  }

  /* ----- Any history ----- */

  /** Calls, files that disappear, and files that are damaged. */
  datatype Event =
    | Call(request: Request, source: seq<File>, available: bool, write: Write)
    | Lose(key: string)
    | Damage(key: string, bytes: string)

  /**
   Fields on one line, keys without '=', sources without NUL, no damage that still passes for WASM, and no
   failed write that leaves eight bytes or more.
  */
  predicate Plain(e: Event) {
    match e
    case Call(r, source, _, write) => Readable(r) && NulFree(source) && (write.Partly? ==> write.kept < 8)
    case Lose(_) => true
    case Damage(_, bytes) => ValidateArtifact(bytes) == None
  }

  function After(b: Backend, files: map<string, string>, e: Event): map<string, string> {
    match e
    case Call(r, source, available, write) => CompileOnce(b, files, r, source, available, write).1
    case Lose(key) => files - {key}
    case Damage(key, bytes) => if key in files then files[key := bytes] else files
  }

  function AfterAll(b: Backend, files: map<string, string>, events: seq<Event>): map<string, string>
    decreases |events|
  {
    if events == [] then files else After(b, AfterAll(b, files, events[..|events| - 1]), events[|events| - 1])
  }

  /** Every file that passes validation is what the backend makes of the request it is stored under. */
  ghost predicate Honest(b: Backend, files: map<string, string>) {
    forall key :: key in files && ValidateArtifact(files[key]).Some? ==> Made(b, key, files[key])
  }

  ghost predicate Made(b: Backend, key: string, bytes: string) {
    exists r, source :: MadeFrom(b, key, bytes, r, source)
  }

  predicate MadeFrom(b: Backend, key: string, bytes: string, r: Request, source: seq<File>) {
    && Readable(r) && NulFree(source) && key == Key(b, r, source)
    && b.compile(r, source).Ok? && b.compile(r, source).artifact.bytes == bytes
  }

  lemma KeyUnique(b: Backend, r1: Request, source1: seq<File>, r2: Request, source2: seq<File>)
    requires Sound(b) && Readable(r1) && Readable(r2) && NulFree(source1) && NulFree(source2)
    requires Key(b, r1, source1) == Key(b, r2, source2)
    ensures r1 == r2 && source1 == source2
  {
    MaterialUnique(r1, b.hash(SourceMaterial(source1)), r2, b.hash(SourceMaterial(source2)));
    SourceMaterialUnique(source1, source2);
  }

  /** On an honest cache a call returns what the backend would. */
  lemma HonestCall(b: Backend, files: map<string, string>, r: Request, source: seq<File>, available: bool, write: Write)
    requires Sound(b) && Honest(b, files) && Readable(r) && NulFree(source)
    ensures var result := CompileOnce(b, files, r, source, available, write).0;
      (result.Ok? || (available && write.Whole?) ==> result == b.compile(r, source))
  {
    var key := Key(b, r, source);
    if Cached(b, files, key).Some? {
      assert Made(b, key, files[key]);
      var r1, source1 :| MadeFrom(b, key, files[key], r1, source1);
      KeyUnique(b, r, source, r1, source1);
      assert Finalized(b, b.compile(r, source).artifact);
    }
  }

  lemma StepHonest(b: Backend, files: map<string, string>, e: Event)
    requires Sound(b) && Honest(b, files) && Plain(e)
    ensures Honest(b, After(b, files, e))
  {
    var after := After(b, files, e);
    forall key | key in after && ValidateArtifact(after[key]).Some?
      ensures Made(b, key, after[key])
    {
      if key in files && files[key] == after[key] {
        assert Made(b, key, files[key]);
      } else {
        assert e.Call?;
        CallMade(b, files, e.request, e.source, e.available, e.write, key);
      }
    }
  }

  /** A file a call changes and that validates is what the backend made. */
  lemma CallMade(b: Backend, files: map<string, string>, r: Request, source: seq<File>, available: bool, write: Write, key: string)
    requires Readable(r) && NulFree(source) && (write.Partly? ==> write.kept < 8)
    requires var after := CompileOnce(b, files, r, source, available, write).1;
      key in after && ValidateArtifact(after[key]).Some? && !(key in files && files[key] == after[key])
    ensures Made(b, key, CompileOnce(b, files, r, source, available, write).1[key])
  {
    assert MadeFrom(b, key, CompileOnce(b, files, r, source, available, write).1[key], r, source);
  }

  /** A failed write is harmless exactly when it leaves fewer than eight bytes, or all of them. */
  lemma PartialWriteIff(b: Backend, files: map<string, string>, r: Request, source: seq<File>, kept: nat)
    requires Sound(b) && Honest(b, files) && Readable(r) && NulFree(source)
    requires Cached(b, files, Key(b, r, source)).None? && b.compile(r, source).Ok?
    ensures Honest(b, CompileOnce(b, files, r, source, true, Partly(kept)).1)
      <==> kept < 8 || kept >= |b.compile(r, source).artifact.bytes|
  {
    var (key, bytes) := (Key(b, r, source), b.compile(r, source).artifact.bytes);
    var after := CompileOnce(b, files, r, source, true, Partly(kept)).1;
    assert Finalized(b, b.compile(r, source).artifact);
    if kept < 8 || kept >= |bytes| {
      assert |after[key]| < 8 || after[key] == bytes;
      forall k | k in after && ValidateArtifact(after[k]).Some? ensures Made(b, k, after[k]) {
        if k == key { assert MadeFrom(b, key, bytes, r, source); } else { assert Made(b, k, files[k]); }
      }
    } else {
      var part := bytes[..kept];
      assert part[0..4] == bytes[0..4] && part[4..8] == bytes[4..8];
      assert after[key] == part && ValidateArtifact(part).Some?;
      if Honest(b, after) {
        assert Made(b, key, part);
        var r1, source1 :| MadeFrom(b, key, part, r1, source1);
        KeyUnique(b, r, source, r1, source1);
      }
    }
  }

  lemma {:induction false} HistoryHonest(b: Backend, events: seq<Event>)
    requires Sound(b) && forall i :: 0 <= i < |events| ==> Plain(events[i])
    ensures Honest(b, AfterAll(b, map[], events))
    decreases |events|
  {
    if events != [] {
      HistoryHonest(b, events[..|events| - 1]);
      StepHonest(b, AfterAll(b, map[], events[..|events| - 1]), events[|events| - 1]);
    }
  }

  /**
   Over any history, whatever compiling through the cache returns is exactly what the backend would
   return now: bytes, kind and content hash; and it errs only as the backend would, or because the
   backend is missing or the cache cannot be written.
  */
  lemma CacheAgreesWithBackend(b: Backend, events: seq<Event>, r: Request, source: seq<File>, available: bool, write: Write)
    requires Sound(b) && (forall i :: 0 <= i < |events| ==> Plain(events[i])) && Readable(r) && NulFree(source)
    ensures var result := CompileOnce(b, AfterAll(b, map[], events), r, source, available, write).0;
      && (result.Ok? ==> result == b.compile(r, source))
      && (available && write.Whole? ==> result == b.compile(r, source))
  {
    HistoryHonest(b, events);
    HonestCall(b, AfterAll(b, map[], events), r, source, available, write);
  }

  /** Validation reads eight bytes: a file cut short is a miss only if it lost part of those. */
  lemma TruncationNoticedIff(b: Backend, files: map<string, string>, key: string, n: nat)
    requires key in files && Cached(b, files, key).Some? && n <= |files[key]|
    ensures Cached(b, files[key := files[key][..n]], key).None? <==> n < 8
    ensures n >= 8 ==> Cached(b, files[key := files[key][..n]], key).value.bytes == files[key][..n]
  {
    var bytes := files[key];
    if n >= 8 {
      assert bytes[..n][0..4] == bytes[0..4] && bytes[..n][4..8] == bytes[4..8];
    }
  }

  /* ----- What is stored is used ----- */

  /** Neither loses nor damages the file under this key. */
  predicate Spares(e: Event, key: string) {
    match e
    case Call(_, _, _, _) => true
    case Lose(k) => k != key
    case Damage(k, _) => k != key
  }

  /** A call that returned an artifact and could write leaves it in the cache, whatever the cache held. */
  lemma CallStores(b: Backend, files: map<string, string>, r: Request, source: seq<File>, available: bool, a: Artifact)
    requires Sound(b) && CompileOnce(b, files, r, source, available, Whole).0 == Ok(a)
    ensures Cached(b, CompileOnce(b, files, r, source, available, Whole).1, Key(b, r, source)) == Some(a)
  {
    var key := Key(b, r, source);
    if Cached(b, files, key).None? { GetAfterPut(b, files, key, a, key); }
  }

  lemma StepSpares(b: Backend, files: map<string, string>, e: Event, key: string, a: Artifact)
    requires Cached(b, files, key) == Some(a) && Spares(e, key)
    ensures Cached(b, After(b, files, e), key) == Some(a)
  {
  }

  lemma {:induction false} StaysCached(b: Backend, files: map<string, string>, events: seq<Event>, key: string, a: Artifact)
    requires Cached(b, files, key) == Some(a) && forall i :: 0 <= i < |events| ==> Spares(events[i], key)
    ensures Cached(b, AfterAll(b, files, events), key) == Some(a)
    decreases |events|
  {
    if events != [] {
      StaysCached(b, files, events[..|events| - 1], key, a);
      StepSpares(b, AfterAll(b, files, events[..|events| - 1]), events[|events| - 1], key, a);
    }
  }

  /**
   Once a call returned an artifact and its file could be written, the same request and sources get that
   artifact from every later call, with the toolchain or without, and no file is written for it, as long as
   its file is neither lost nor damaged. Other calls, of any kind, make no difference.
  */
  lemma CompiledOnce(b: Backend, files: map<string, string>, r: Request, source: seq<File>, available: bool, a: Artifact,
                     events: seq<Event>, later: bool, write: Write)
    requires Sound(b) && CompileOnce(b, files, r, source, available, Whole).0 == Ok(a)
    requires forall i :: 0 <= i < |events| ==> Spares(events[i], Key(b, r, source))
    ensures var after := AfterAll(b, CompileOnce(b, files, r, source, available, Whole).1, events);
      CompileOnce(b, after, r, source, later, write) == (Ok(a), after)
  {
    CallStores(b, files, r, source, available, a);
    StaysCached(b, CompileOnce(b, files, r, source, available, Whole).1, events, Key(b, r, source), a);
  }
}
