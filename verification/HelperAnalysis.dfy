/**
 The static analysis of tasks and their helpers: a depth-first search with a cache of finished
 helpers and a set of helpers in progress. Whatever was analysed before and in whatever order, the
 diagnostics of a function are the ones a reachability specification assigns to it.
*/
module HelperAnalysis {

  type Key = string

  /** A global name a function reads: a module-level value, a helper of the same module, or anything else. */
  datatype Read = Value(name: string, immutable: bool) | Helper(name: string, key: Key) | Foreign(name: string)

  /** What analysis sees of a function; `source` tells whether its source was found. */
  datatype Function = Function(source: bool, captures: seq<string>, globals: seq<Read>, calls: seq<string>)

  type Program = map<Key, Function>

  datatype Code = OuterCapture | MutableGlobal | BadHelper | UnroutedCall | NoSource | Recursive
  datatype Diagnostic = Diagnostic(code: Code, subject: string)

  /** Every helper read is a function of the module. */
  predicate Closed(p: Program) {
    forall k, i :: k in p && 0 <= i < |p[k].globals| && p[k].globals[i].Helper? ==> p[k].globals[i].key in p
  }

  /* ----- The specification: reachability ----- */

  predicate Edge(p: Program, a: Key, b: Key) {
    && a in p && b in p && p[a].source
    && exists i :: 0 <= i < |p[a].globals| && p[a].globals[i].Helper? && p[a].globals[i].key == b
  }

  /** A function that violates the rules by itself. */
  predicate Direct(f: Function) {
    || !f.source || f.captures != [] || f.calls != []
    || exists i :: 0 <= i < |f.globals| && f.globals[i].Value? && !f.globals[i].immutable
  }

  ghost predicate IsPath(p: Program, path: seq<Key>, a: Key, b: Key) {
    && path != [] && path[0] == a && path[|path| - 1] == b
    && (forall i :: 0 <= i < |path| ==> path[i] in p)
    && forall i :: 0 <= i < |path| - 1 ==> Edge(p, path[i], path[i + 1])
  }

  ghost predicate Reaches(p: Program, a: Key, b: Key) {
    exists path :: IsPath(p, path, a, b)
  }

  /** `a` reaches `b` in at least one step. */
  ghost predicate StepsTo(p: Program, a: Key, b: Key) {
    exists path :: |path| >= 2 && IsPath(p, path, a, b)
  }

  /** `k` can reach a function that violates the rules, or a call cycle. */
  ghost predicate Bad(p: Program, k: Key) {
    exists v :: v in p && Reaches(p, k, v) && (Direct(p[v]) || StepsTo(p, v, v))
  }

  function Captured(names: seq<string>): seq<Diagnostic> {
    if names == [] then [] else [Diagnostic(OuterCapture, names[0])] + Captured(names[1..])
  }

  function Unrouted(calls: seq<string>): seq<Diagnostic> {
    if calls == [] then [] else [Diagnostic(UnroutedCall, calls[0])] + Unrouted(calls[1..])
  }

  ghost function ReadDiagnostics(p: Program, r: Read): seq<Diagnostic> {
    match r
    case Value(name, immutable) => if immutable then [] else [Diagnostic(MutableGlobal, name)]
    case Helper(name, key) => if Bad(p, key) then [Diagnostic(BadHelper, name)] else []
    case Foreign(_) => []
  }

  ghost function ReadsDiagnostics(p: Program, globals: seq<Read>): seq<Diagnostic> {
    if globals == [] then [] else ReadDiagnostics(p, globals[0]) + ReadsDiagnostics(p, globals[1..])
  }

  /** The diagnostics a function must get, from the call graph alone. */
  ghost function Expected(p: Program, k: Key): seq<Diagnostic>
    requires k in p
  {
    if !p[k].source then [Diagnostic(NoSource, k)]
    else Captured(p[k].captures) + ReadsDiagnostics(p, p[k].globals) + Unrouted(p[k].calls)
  }

  /* ----- Paths ----- */

  lemma JoinPaths(p: Program, path1: seq<Key>, a: Key, b: Key, path2: seq<Key>, c: Key)
    requires IsPath(p, path1, a, b) && IsPath(p, path2, b, c)
    ensures IsPath(p, path1 + path2[1..], a, c)
  {
    var path := path1 + path2[1..];
    forall i | 0 <= i < |path| - 1 ensures Edge(p, path[i], path[i + 1]) {
      if i < |path1| - 1 {
        assert Edge(p, path1[i], path1[i + 1]);
      } else {
        assert Edge(p, path2[i - |path1| + 1], path2[i - |path1| + 2]);
      }
    }
  }

  lemma EdgeSteps(p: Program, a: Key, b: Key)
    requires Edge(p, a, b)
    ensures StepsTo(p, a, b)
  {
    assert IsPath(p, [a, b], a, b);
  }

  lemma StepsTransitive(p: Program, a: Key, b: Key, c: Key)
    requires StepsTo(p, a, b) && Edge(p, b, c)
    ensures StepsTo(p, a, c)
  {
    var path :| |path| >= 2 && IsPath(p, path, a, b);
    assert IsPath(p, [b, c], b, c);
    JoinPaths(p, path, a, b, [b, c], c);
  }

  lemma DirectIsBad(p: Program, k: Key)
    requires k in p && Direct(p[k])
    ensures Bad(p, k)
  {
    assert IsPath(p, [k], k, k);
  }

  lemma CycleIsBad(p: Program, k: Key)
    requires k in p && StepsTo(p, k, k)
    ensures Bad(p, k)
  {
    assert IsPath(p, [k], k, k);
  }

  lemma CallerIsBad(p: Program, a: Key, b: Key)
    requires Edge(p, a, b) && Bad(p, b)
    ensures Bad(p, a)
  {
    var v :| v in p && Reaches(p, b, v) && (Direct(p[v]) || StepsTo(p, v, v));
    var path :| IsPath(p, path, b, v);
    assert IsPath(p, [a, b], a, b);
    JoinPaths(p, [a, b], a, b, path, v);
  }

  /** A bad function violates the rules itself or calls a bad one. */
  lemma BadHasCause(p: Program, k: Key)
    requires k in p && Bad(p, k)
    ensures Direct(p[k]) || exists b :: Edge(p, k, b) && Bad(p, b)
  {
    var v :| v in p && Reaches(p, k, v) && (Direct(p[v]) || StepsTo(p, v, v));
    var path :| IsPath(p, path, k, v);
    if |path| >= 2 {
      var b := path[1];
      assert Edge(p, path[0], path[1]);
      assert IsPath(p, path[1..], b, v) by {
        forall i | 0 <= i < |path| - 2 ensures Edge(p, path[1..][i], path[1..][i + 1]) {
          assert Edge(p, path[i + 1], path[i + 2]);
        }
      }
      assert Edge(p, k, b) && Bad(p, b);
    } else if !Direct(p[v]) {
      var cycle :| |cycle| >= 2 && IsPath(p, cycle, v, v);
      var b := cycle[1];
      assert Edge(p, cycle[0], cycle[1]);
      var back := cycle[1..];
      assert IsPath(p, back, b, v) by {
        forall i | 0 <= i < |back| - 1 ensures Edge(p, back[i], back[i + 1]) {
          assert Edge(p, cycle[i + 1], cycle[i + 2]);
        }
      }
      assert IsPath(p, [v, b], v, b);
      JoinPaths(p, back, b, v, [v, b], b);
      CycleIsBad(p, b);
      assert Edge(p, k, b) && Bad(p, b);
    }
  }

  lemma {:induction false} ReadsEmpty(p: Program, globals: seq<Read>)
    ensures ReadsDiagnostics(p, globals) == [] <==> forall i :: 0 <= i < |globals| ==> ReadDiagnostics(p, globals[i]) == []
  {
    if globals != [] {
      ReadsEmpty(p, globals[1..]);
      assert globals == [globals[0]] + globals[1..];
    }
  }

  /** An error is reported exactly for functions that can reach a violation or a cycle. */
  lemma ErrorIffBad(p: Program, k: Key)
    requires Closed(p) && k in p
    ensures Expected(p, k) != [] <==> Bad(p, k)
  {
    var f := p[k];
    if f.source {
      ReadsEmpty(p, f.globals);
      if Bad(p, k) {
        BadHasCause(p, k);
        if !Direct(f) {
          var b :| Edge(p, k, b) && Bad(p, b);
          var i :| 0 <= i < |f.globals| && f.globals[i].Helper? && f.globals[i].key == b;
          assert ReadDiagnostics(p, f.globals[i]) != [];
        }
      } else {
        forall i | 0 <= i < |f.globals| ensures ReadDiagnostics(p, f.globals[i]) == [] {
          if f.globals[i].Helper? && Bad(p, f.globals[i].key) {
            CallerIsBad(p, k, f.globals[i].key);
          }
          if f.globals[i].Value? && !f.globals[i].immutable {
            DirectIsBad(p, k);
          }
        }
        if Direct(f) { DirectIsBad(p, k); }
      }
    } else {
      DirectIsBad(p, k);
    }
  }

  /* ----- Which diagnostics, and about what ----- */

  lemma {:induction false} CapturedAre(names: seq<string>)
    ensures |Captured(names)| == |names| && forall i :: 0 <= i < |names| ==> Captured(names)[i] == Diagnostic(OuterCapture, names[i])
  {
    if names != [] { CapturedAre(names[1..]); }
  }

  lemma {:induction false} UnroutedAre(calls: seq<string>)
    ensures |Unrouted(calls)| == |calls| && forall i :: 0 <= i < |calls| ==> Unrouted(calls)[i] == Diagnostic(UnroutedCall, calls[i])
  {
    if calls != [] { UnroutedAre(calls[1..]); }
  }

  /** A read that is reported: of a value that can change, or of a helper that reaches a violation or a cycle. */
  ghost predicate Reported(p: Program, r: Read, d: Diagnostic) {
    || (r.Value? && !r.immutable && d == Diagnostic(MutableGlobal, r.name))
    || (r.Helper? && Bad(p, r.key) && d == Diagnostic(BadHelper, r.name))
  }

  ghost predicate Silent(p: Program, r: Read) {
    r.Foreign? || (r.Value? && r.immutable) || (r.Helper? && !Bad(p, r.key))
  }

  /** `at` says which read each diagnostic is about: each reported read has one, and they are in order. */
  ghost predicate Matches(p: Program, globals: seq<Read>, diagnostics: seq<Diagnostic>, at: seq<nat>) {
    && |at| == |diagnostics|
    && (forall i :: 0 <= i < |at| ==> at[i] < |globals| && Reported(p, globals[at[i]], diagnostics[i]))
    && (forall i, j :: 0 <= i < j < |at| ==> at[i] < at[j])
    && forall k: nat :: k < |globals| && k !in at ==> Silent(p, globals[k])
  }

  lemma {:induction false} ReadsAre(p: Program, globals: seq<Read>) returns (at: seq<nat>)
    ensures Matches(p, globals, ReadsDiagnostics(p, globals), at)
    decreases |globals|
  {
    if globals == [] {
      at := [];
    } else {
      var (front, last) := (globals[..|globals| - 1], globals[|globals| - 1]);
      var before := ReadsAre(p, front);
      assert globals == front + [last];
      ReadsSnoc(p, front, last);
      at := before + (if ReadDiagnostics(p, last) == [] then [] else [|front|]);
      MatchesSnoc(p, front, last, ReadsDiagnostics(p, front), before);
    }
  }

  lemma {:induction false} ReadsSnoc(p: Program, globals: seq<Read>, r: Read)
    ensures ReadsDiagnostics(p, globals + [r]) == ReadsDiagnostics(p, globals) + ReadDiagnostics(p, r)
  {
    if globals == [] {
      assert ([] + [r])[1..] == [] && ReadDiagnostics(p, r) + [] == ReadDiagnostics(p, r);
    } else {
      ReadsSnoc(p, globals[1..], r);
      assert (globals + [r])[0] == globals[0] && (globals + [r])[1..] == globals[1..] + [r];
      var first := ReadDiagnostics(p, globals[0]);
      assert first + (ReadsDiagnostics(p, globals[1..]) + ReadDiagnostics(p, r)) == first + ReadsDiagnostics(p, globals[1..]) + ReadDiagnostics(p, r);
    }
  }

  lemma MatchesSnoc(p: Program, front: seq<Read>, last: Read, diagnostics: seq<Diagnostic>, at: seq<nat>)
    requires Matches(p, front, diagnostics, at)
    ensures Matches(p, front + [last], diagnostics + ReadDiagnostics(p, last), at + (if ReadDiagnostics(p, last) == [] then [] else [|front|]))
  {
    var (globals, at') := (front + [last], at + (if ReadDiagnostics(p, last) == [] then [] else [|front|]));
    assert ReadDiagnostics(p, last) != [] ==> at'[|at|] == |front|;
    forall k: nat | k < |globals| && k !in at' ensures Silent(p, globals[k]) {
      if k < |front| { assert k !in at; }
    }
  }

  /**
   The diagnostics of a function, one by one: without source, that alone; else one for each captured variable,
   one for each reported read, and one for each unrouted call, each kind in its order and about its own name.
  */
  lemma DiagnosticsAre(p: Program, k: Key) returns (found: seq<Diagnostic>, at: seq<nat>)
    requires k in p
    ensures !p[k].source ==> Expected(p, k) == [Diagnostic(NoSource, k)]
    ensures p[k].source ==> var (c, u) := (|p[k].captures|, |p[k].calls|);
      && |Expected(p, k)| == c + |found| + u && Expected(p, k)[c..c + |found|] == found
      && (forall i :: 0 <= i < c ==> Expected(p, k)[i] == Diagnostic(OuterCapture, p[k].captures[i]))
      && (forall i :: 0 <= i < u ==> Expected(p, k)[c + |found| + i] == Diagnostic(UnroutedCall, p[k].calls[i]))
      && Matches(p, p[k].globals, found, at)
  {
    var f := p[k];
    CapturedAre(f.captures);
    UnroutedAre(f.calls);
    found := ReadsDiagnostics(p, f.globals);
    at := ReadsAre(p, f.globals);
  }

  /* ----- The memoised search ----- */

  method CaptureDiagnostics(names: seq<string>) returns (diagnostics: seq<Diagnostic>)
    ensures diagnostics == Captured(names)
  {
    diagnostics := [];
    for i := 0 to |names|
      invariant Captured(names) == diagnostics + Captured(names[i..])
    {
      assert names[i..][1..] == names[i + 1..];
      diagnostics := diagnostics + [Diagnostic(OuterCapture, names[i])];
    }
  }

  method CallDiagnostics(calls: seq<string>) returns (diagnostics: seq<Diagnostic>)
    ensures diagnostics == Unrouted(calls)
  {
    diagnostics := [];
    for i := 0 to |calls|
      invariant Unrouted(calls) == diagnostics + Unrouted(calls[i..])
    {
      assert calls[i..][1..] == calls[i + 1..];
      diagnostics := diagnostics + [Diagnostic(UnroutedCall, calls[i])];
    }
  }

  class AnalysisContext {
    const program: Program
    var helperCache: map<Key, seq<Diagnostic>>
    var helperStack: set<Key>

    constructor (program: Program)
      requires Closed(program)
      ensures this.program == program && Valid() && helperStack == {}
    {
      this.program := program;
      helperCache, helperStack := map[], {};
    }

    /** Whatever is cached is what the specification assigns. */
    ghost predicate Valid()
      reads this
    {
      && Closed(program) && helperStack <= program.Keys
      && forall k :: k in helperCache ==> k in program && helperCache[k] == Expected(program, k)
    }

    /** _analyze_helper: from the cache, as recursive when in progress, or by analysing it now. */
    method AnalyzeHelper(name: string, k: Key) returns (diagnostics: seq<Diagnostic>)
      requires Valid() && k in program
      requires forall s :: s in helperStack ==> StepsTo(program, s, k)
      modifies this
      ensures Valid() && helperStack == old(helperStack)
      ensures diagnostics == Expected(program, k) || (k in helperStack && diagnostics == [Diagnostic(Recursive, name)])
      ensures diagnostics != [] <==> Bad(program, k)
      decreases |program.Keys - helperStack|, 0
    {
      ErrorIffBad(program, k);
      if k in helperCache {
        return helperCache[k];
      }
      if k in helperStack {
        CycleIsBad(program, k);
        return [Diagnostic(Recursive, name)];
      }
      ghost var before := program.Keys - helperStack;
      helperStack := helperStack + {k};
      assert program.Keys - helperStack == before - {k};
      diagnostics := AnalyzeFunction(k);
      helperStack := helperStack - {k};
      helperCache := helperCache[k := diagnostics];
    }

    /** The loop over a function's globals: stale values, and helpers that have errors. */
    method AnalyzeGlobals(k: Key) returns (diagnostics: seq<Diagnostic>)
      requires Valid() && k in program && program[k].source
      requires forall s :: s in helperStack ==> s == k || StepsTo(program, s, k)
      modifies this
      ensures Valid() && helperStack == old(helperStack)
      ensures diagnostics == ReadsDiagnostics(program, program[k].globals)
      decreases |program.Keys - helperStack|, 1
    {
      var globals := program[k].globals;
      diagnostics := [];
      for i := 0 to |globals|
        invariant Valid() && helperStack == old(helperStack)
        invariant ReadsDiagnostics(program, globals) == diagnostics + ReadsDiagnostics(program, globals[i..])
      {
        assert globals[i..][1..] == globals[i + 1..];
        var found := AnalyzeGlobal(k, i);
        assert diagnostics + (found + ReadsDiagnostics(program, globals[i + 1..])) ==
               (diagnostics + found) + ReadsDiagnostics(program, globals[i + 1..]);
        diagnostics := diagnostics + found;
      }
    }

    method AnalyzeGlobal(k: Key, i: nat) returns (diagnostics: seq<Diagnostic>)
      requires Valid() && k in program && program[k].source && i < |program[k].globals|
      requires forall s :: s in helperStack ==> s == k || StepsTo(program, s, k)
      modifies this
      ensures Valid() && helperStack == old(helperStack)
      ensures diagnostics == ReadDiagnostics(program, program[k].globals[i])
      decreases |program.Keys - helperStack|, 1, 0
    {
      match program[k].globals[i]
      case Value(name, immutable) =>
        diagnostics := if immutable then [] else [Diagnostic(MutableGlobal, name)];
      case Helper(name, key) =>
        assert Edge(program, k, key);
        EdgeSteps(program, k, key);
        forall s | s in helperStack ensures StepsTo(program, s, key) {
          if s != k { StepsTransitive(program, s, k, key); }
        }
        var helperDiagnostics := AnalyzeHelper(name, key);
        diagnostics := if helperDiagnostics != [] then [Diagnostic(BadHelper, name)] else [];
      case Foreign(_) =>
        diagnostics := [];
    }

    /** _analyze_function: the function's own violations, and one more for each helper that has any. */
    method AnalyzeFunction(k: Key) returns (diagnostics: seq<Diagnostic>)
      requires Valid() && k in program
      requires forall s :: s in helperStack ==> s == k || StepsTo(program, s, k)
      modifies this
      ensures Valid() && helperStack == old(helperStack)
      ensures diagnostics == Expected(program, k)
      decreases |program.Keys - helperStack|, 2
    {
      var f := program[k];
      if !f.source {
        return [Diagnostic(NoSource, k)];
      }
      var captured := CaptureDiagnostics(f.captures);
      var found := AnalyzeGlobals(k);
      var unrouted := CallDiagnostics(f.calls);
      diagnostics := captured + found + unrouted;
    }

    /** analyze_tasks: any tasks, in any order, with any cache left from before. */
    method AnalyzeTasks(tasks: seq<Key>) returns (reports: seq<seq<Diagnostic>>)
      requires Valid() && helperStack == {} && forall t :: t in tasks ==> t in program
      modifies this
      ensures Valid() && helperStack == {}
      ensures |reports| == |tasks| && forall i :: 0 <= i < |tasks| ==> reports[i] == Expected(program, tasks[i])
      ensures forall i :: 0 <= i < |tasks| ==> (reports[i] != [] <==> Bad(program, tasks[i]))
    {
      reports := [];
      for i := 0 to |tasks|
        invariant Valid() && helperStack == {} && |reports| == i
        invariant forall j :: 0 <= j < i ==> reports[j] == Expected(program, tasks[j])
      {
        var report := AnalyzeFunction(tasks[i]);
        reports := reports + [report];
      }
      forall i | 0 <= i < |tasks| { ErrorIffBad(program, tasks[i]); }
    }
  }
}
