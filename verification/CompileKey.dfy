/**
 What a compiled artifact is cached under: the key material built from a request and the hash of its
 sources, and the options and the source listing that go into it.
*/
module CompileKey {
  import opened Sequences
  import opened Text

  datatype Shape = Compute | Serve

  /** Options as their sorted map lists them. */
  type Options = seq<(string, string)>

  datatype Request = Request(
    language: string,
    entryModule: string,
    entryFunction: string,
    shape: Shape,
    options: Options)

  function ShapeText(shape: Shape): string {
    if shape.Compute? then "compute" else "serve"
  }

  function Lines(options: Options): string {
    if options == [] then "" else options[0].0 + "=" + options[0].1 + "\n" + Lines(options[1..])
  }

  function Material(r: Request, sourceHash: string): string {
    r.language + "\n" + (r.entryModule + "\n" + (r.entryFunction + "\n" + (ShapeText(r.shape) + "\n" + (Lines(r.options) + sourceHash))))
  }

  lemma {:induction false} LinesSnoc(options: Options, o: (string, string))
    ensures Lines(options + [o]) == Lines(options) + (o.0 + "=" + o.1 + "\n")
  {
    if options == [] {
      assert (options + [o])[1..] == [];
      assert Lines([]) == "";
    } else {
      LinesSnoc(options[1..], o);
      assert (options + [o])[1..] == options[1..] + [o];
      var first := options[0].0 + "=" + options[0].1 + "\n";
      assert first + (Lines(options[1..]) + (o.0 + "=" + o.1 + "\n")) == first + Lines(options[1..]) + (o.0 + "=" + o.1 + "\n");
    }
  }

  lemma HeadFirst(r: Request, sourceHash: string)
    ensures r.language + "\n" + r.entryModule + "\n" + r.entryFunction + "\n" + ShapeText(r.shape) + "\n" + Lines(r.options) + sourceHash
         == Material(r, sourceHash)
  {
    var tail := Lines(r.options) + sourceHash;
    var h3 := r.language + "\n" + r.entryModule + "\n" + r.entryFunction + "\n";
    var h2 := r.language + "\n" + r.entryModule + "\n";
    assert (h3 + ShapeText(r.shape) + "\n" + Lines(r.options)) + sourceHash == h3 + (ShapeText(r.shape) + "\n" + tail);
    assert h3 + (ShapeText(r.shape) + "\n" + tail) == h2 + (r.entryFunction + "\n" + (ShapeText(r.shape) + "\n" + tail));
  }

  method KeyFor(hash: string -> string, r: Request, sourceHash: string) returns (key: string)
    ensures key == hash(Material(r, sourceHash))
  {
    var head := r.language + "\n" + r.entryModule + "\n" + r.entryFunction + "\n" + ShapeText(r.shape) + "\n";
    var material := head;
    for i := 0 to |r.options|
      invariant material == head + Lines(r.options[..i])
    {
      LinesSnoc(r.options[..i], r.options[i]);
      assert r.options[..i + 1] == r.options[..i] + [r.options[i]];
      material := material + r.options[i].0 + "=" + r.options[i].1 + "\n";
    }
    assert r.options[..|r.options|] == r.options;
    material := material + sourceHash;
    HeadFirst(r, sourceHash);
    key := hash(material);
  }

  /* ----- Unique decoding ----- */

  predicate OneLine(s: string) {
    '\n' !in s
  }

  predicate OptionsReadable(options: Options) {
    forall i :: 0 <= i < |options| ==> OneLine(options[i].0) && '=' !in options[i].0 && OneLine(options[i].1)
  }

  predicate Readable(r: Request) {
    OneLine(r.language) && OneLine(r.entryModule) && OneLine(r.entryFunction) && OptionsReadable(r.options)
  }

  lemma {:induction false} LinesUnique(a: Options, s: string, b: Options, t: string)
    requires OptionsReadable(a) && OptionsReadable(b) && OneLine(s) && OneLine(t)
    requires Lines(a) + s == Lines(b) + t
    ensures a == b && s == t
    decreases |a| + |b|
  {
    if a != [] && b != [] {
      var (line1, line2) := (a[0].0 + "=" + a[0].1, b[0].0 + "=" + b[0].1);
      assert Lines(a) + s == line1 + ['\n'] + (Lines(a[1..]) + s);
      assert Lines(b) + t == line2 + ['\n'] + (Lines(b[1..]) + t);
      CutUnique(line1, Lines(a[1..]) + s, line2, Lines(b[1..]) + t, '\n');
      assert line1 == a[0].0 + ['='] + a[0].1 && line2 == b[0].0 + ['='] + b[0].1;
      CutUnique(a[0].0, a[0].1, b[0].0, b[0].1, '=');
      LinesUnique(a[1..], s, b[1..], t);
      assert a == [a[0]] + a[1..] && b == [b[0]] + b[1..];
    } else if a != [] {
      assert Lines(b) + t == t;
      LinesHaveNewline(a, s);
    } else if b != [] {
      assert Lines(a) + s == s;
      LinesHaveNewline(b, t);
    } else {
      assert Lines(a) + s == s && Lines(b) + t == t;
    }
  }

  lemma LinesHaveNewline(a: Options, s: string)
    requires a != []
    ensures !OneLine(Lines(a) + s)
  {
    var line := a[0].0 + "=" + a[0].1;
    assert (Lines(a) + s)[|line|] == '\n';
  }

  /** The material determines the request and the source hash: nothing that is keyed is ever confused. */
  lemma MaterialUnique(r1: Request, h1: string, r2: Request, h2: string)
    requires Readable(r1) && Readable(r2) && OneLine(h1) && OneLine(h2)
    ensures Material(r1, h1) == Material(r2, h2) ==> r1 == r2 && h1 == h2
  {
    if Material(r1, h1) == Material(r2, h2) {
      var (d1, d2) := (Lines(r1.options) + h1, Lines(r2.options) + h2);
      var (c1, c2) := (ShapeText(r1.shape) + "\n" + d1, ShapeText(r2.shape) + "\n" + d2);
      var (b1, b2) := (r1.entryFunction + "\n" + c1, r2.entryFunction + "\n" + c2);
      CutUnique(r1.language, r1.entryModule + "\n" + b1, r2.language, r2.entryModule + "\n" + b2, '\n');
      CutUnique(r1.entryModule, b1, r2.entryModule, b2, '\n');
      CutUnique(r1.entryFunction, c1, r2.entryFunction, c2, '\n');
      CutUnique(ShapeText(r1.shape), d1, ShapeText(r2.shape), d2, '\n');
      LinesUnique(r1.options, h1, r2.options, h2);
    }
  }

  /* ----- When keys are confused ----- */

  /** The rows of a text that starts with `c` and goes on with these. */
  function Before(c: char, rows: seq<string>): (r: seq<string>)
    requires rows != []
    ensures r != []
  {
    if c == '\n' then [[]] + rows else [[c] + rows[0]] + rows[1..]
  }

  /** The text between newlines. */
  function Rows(s: string): (r: seq<string>)
    ensures r != []
  {
    if s == [] then [[]] else Before(s[0], Rows(s[1..]))
  }

  lemma BeforeConcat(c: char, r: seq<string>, t: seq<string>)
    requires r != []
    ensures Before(c, r + t) == Before(c, r) + t
  {
  }

  lemma {:induction false} RowsConcat(a: string, b: string)
    ensures Rows(a + "\n" + b) == Rows(a) + Rows(b)
  {
    var all := a + "\n" + b;
    if a == [] {
      assert all[1..] == b;
    } else {
      assert all[1..] == a[1..] + "\n" + b;
      RowsConcat(a[1..], b);
      BeforeConcat(a[0], Rows(a[1..]), Rows(b));
    }
  }

  lemma {:induction false} OneRow(s: string)
    ensures OneLine(s) <==> |Rows(s)| == 1
    ensures OneLine(s) ==> Rows(s) == [s]
  {
    if s != [] {
      OneRow(s[1..]);
      assert s == [s[0]] + s[1..];
    }
  }

  function OptionRows(options: Options): seq<string> {
    if options == [] then [] else [options[0].0 + "=" + options[0].1] + OptionRows(options[1..])
  }

  lemma {:induction false} OptionRowsAre(options: Options)
    ensures |OptionRows(options)| == |options|
    ensures forall i :: 0 <= i < |options| ==> OptionRows(options)[i] == options[i].0 + "=" + options[i].1
  {
    if options != [] { OptionRowsAre(options[1..]); }
  }

  lemma {:induction false} LinesRows(options: Options, h: string)
    requires OptionsReadable(options) && OneLine(h)
    ensures Rows(Lines(options) + h) == OptionRows(options) + [h]
  {
    if options == [] {
      assert Lines(options) + h == h;
      OneRow(h);
    } else {
      var line := options[0].0 + "=" + options[0].1;
      assert Lines(options) + h == line + "\n" + (Lines(options[1..]) + h);
      RowsConcat(line, Lines(options[1..]) + h);
      OneRow(line);
      LinesRows(options[1..], h);
      assert [line] + (OptionRows(options[1..]) + [h]) == [line] + OptionRows(options[1..]) + [h];
    }
  }

  /** The key material row by row. */
  lemma MaterialRows(r: Request, h: string)
    requires OptionsReadable(r.options) && OneLine(h)
    ensures Rows(Material(r, h)) == Rows(r.language) + (Rows(r.entryModule) + (Rows(r.entryFunction)
      + ([ShapeText(r.shape)] + (OptionRows(r.options) + [h]))))
  {
    var d := Lines(r.options) + h;
    var c := ShapeText(r.shape) + "\n" + d;
    var b := r.entryFunction + "\n" + c;
    LinesRows(r.options, h);
    OneRow(ShapeText(r.shape));
    RowsConcat(ShapeText(r.shape), d);
    RowsConcat(r.entryFunction, c);
    RowsConcat(r.entryModule, b);
    RowsConcat(r.language, r.entryModule + "\n" + b);
  }

  predicate OneLineFields(r: Request) {
    OneLine(r.language) && OneLine(r.entryModule) && OneLine(r.entryFunction)
  }

  /** An option's row has an '=' and a shape has none: another request's shape cannot stand among the options. */
  lemma SameMaterialOneLine(r1: Request, h1: string, r2: Request, h2: string)
    requires OptionsReadable(r1.options) && OneLine(h1) && OptionsReadable(r2.options) && OneLine(h2)
    requires Material(r1, h1) == Material(r2, h2) && OneLineFields(r1)
    ensures OneLineFields(r2)
  {
    MaterialRows(r1, h1);
    MaterialRows(r2, h2);
    OneRow(r1.language);
    OneRow(r1.entryModule);
    OneRow(r1.entryFunction);
    OneRow(r2.language);
    OneRow(r2.entryModule);
    OneRow(r2.entryFunction);
    RowsAt(r1, h1);
    RowsAt(r2, h2);
  }

  lemma StackedAt(l: seq<string>, m: seq<string>, f: seq<string>, x: string, o: seq<string>, h: string)
    ensures var (rows, at) := (l + (m + (f + ([x] + (o + [h])))), |l| + |m| + |f|);
      && |rows| == at + |o| + 2 && rows[at] == x
      && forall i :: at < i < at + 1 + |o| ==> rows[i] == o[i - at - 1]
  {
  }

  /** Where the rows of the key material stand. */
  lemma RowsAt(r: Request, h: string)
    requires OptionsReadable(r.options) && OneLine(h)
    ensures var (rows, at) := (Rows(Material(r, h)), |Rows(r.language)| + |Rows(r.entryModule)| + |Rows(r.entryFunction)|);
      && |rows| == at + |r.options| + 2 && '=' !in rows[at]
      && forall i :: at < i < at + 1 + |r.options| ==> '=' in rows[i]
  {
    MaterialRows(r, h);
    OptionRowsAre(r.options);
    var (l, m, f, o) := (Rows(r.language), Rows(r.entryModule), Rows(r.entryFunction), OptionRows(r.options));
    var rows := Rows(Material(r, h));
    var at := |l| + |m| + |f|;
    StackedAt(l, m, f, ShapeText(r.shape), o, h);
    forall i | at < i < at + 1 + |r.options| ensures '=' in rows[i] {
      assert rows[i][|r.options[i - at - 1].0|] == '=';
    }
  }

  /** A newline before the function's end can be read as the end of another field. */
  lemma NewlinesConfuse(x: string, y: string, z: string, r: Request, h: string)
    ensures Material(r.(entryModule := x + "\n" + y, entryFunction := z), h)
         == Material(r.(entryModule := x, entryFunction := y + "\n" + z), h)
    ensures Material(r.(language := x + "\n" + y, entryModule := z), h)
         == Material(r.(language := x, entryModule := y + "\n" + z), h)
  {
    var rest := "\n" + (ShapeText(r.shape) + "\n" + (Lines(r.options) + h));
    Shift(x, y, z, rest);
    Shift(x, y, z, "\n" + (r.entryFunction + rest));
    assert z + "\n" + rest[1..] == z + rest && (y + "\n" + z) + "\n" + rest[1..] == (y + "\n" + z) + rest;
    assert r.entryFunction + "\n" + rest[1..] == r.entryFunction + rest;
  }

  lemma Shift(x: string, y: string, z: string, rest: string)
    ensures (x + "\n" + y) + "\n" + (z + rest) == x + "\n" + ((y + "\n" + z) + rest)
  {
  }

  /** Another request and source hash with the same key material. */
  predicate Confused(r: Request, h: string, r2: Request, h2: string) {
    OneLine(h2) && (r2, h2) != (r, h) && Material(r2, h2) == Material(r, h)
  }

  /** A request with a newline in a field, and another one. */
  lemma ConfusedWith(r: Request, h: string) returns (r2: Request)
    requires !OneLineFields(r)
    ensures r2 != r && Material(r2, h) == Material(r, h) && r2.options == r.options
  {
    if !OneLine(r.language) {
      var (x, y) := SplitOnce(r.language, '\n').value;
      r2 := r.(language := x, entryModule := y + "\n" + r.entryModule);
      NewlinesConfuse(x, y, r.entryModule, r, h);
      assert r.(language := x + "\n" + y, entryModule := r.entryModule) == r;
    } else if !OneLine(r.entryModule) {
      var (x, y) := SplitOnce(r.entryModule, '\n').value;
      r2 := r.(entryModule := x, entryFunction := y + "\n" + r.entryFunction);
      NewlinesConfuse(x, y, r.entryFunction, r, h);
      assert r.(entryModule := x + "\n" + y, entryFunction := r.entryFunction) == r;
    } else {
      var (x, y) := SplitOnce(r.entryFunction, '\n').value;
      r2 := r.(entryModule := r.entryModule + "\n" + x, entryFunction := y);
      NewlinesConfuse(r.entryModule, x, y, r, h);
      assert r.(entryModule := r.entryModule, entryFunction := x + "\n" + y) == r;
    }
  }

  /** Among requests whose options are readable only newlines in language, module or function confuse. */
  lemma ReadableConfusedIff(r: Request, h: string)
    requires OptionsReadable(r.options) && OneLine(h)
    ensures (exists r2: Request, h2 :: OptionsReadable(r2.options) && Confused(r, h, r2, h2)) <==> !OneLineFields(r)
  {
    if r2: Request, h2 :| OptionsReadable(r2.options) && Confused(r, h, r2, h2) {
      if OneLineFields(r) {
        SameMaterialOneLine(r, h, r2, h2);
        MaterialUnique(r, h, r2, h2);
      }
    }
    if !OneLineFields(r) {
      var r2 := ConfusedWith(r, h);
      assert Confused(r, h, r2, h);
    }
  }

  /**
   An '=' in a key can be read as the key's end: whatever options stand around it, the two requests share
   the key material, and if the one listing is sorted and the shorter key follows those before it, so is
   the other.
  */
  lemma EqualsConfuse(r: Request, h: string, before: Options, x: string, y: string, z: string, after: Options)
    ensures Material(r.(options := before + [(x + "=" + y, z)] + after), h)
         == Material(r.(options := before + [(x, y + "=" + z)] + after), h)
    ensures SortedOptions(before + [(x + "=" + y, z)] + after) && (forall o :: o in before ==> Less(o.0, x)) ==>
      SortedOptions(before + [(x, y + "=" + z)] + after)
  {
    var (long, short) := (x + "=" + y, y + "=" + z);
    LinesConcat(before + [(long, z)], after);
    LinesConcat(before + [(x, short)], after);
    LinesSnoc(before, (long, z));
    LinesSnoc(before, (x, short));
    assert long + "=" + z + "\n" == x + "=" + short + "\n";
    if SortedOptions(before + [(long, z)] + after) && forall o :: o in before ==> Less(o.0, x) {
      ShorterKeySorted(before, x, y, z, after);
    }
  }

  lemma {:induction false} LinesConcat(a: Options, b: Options)
    ensures Lines(a + b) == Lines(a) + Lines(b)
  {
    if a == [] {
      assert a + b == b;
    } else {
      LinesConcat(a[1..], b);
      assert (a + b)[1..] == a[1..] + b;
      var first := a[0].0 + "=" + a[0].1 + "\n";
      assert first + (Lines(a[1..]) + Lines(b)) == first + Lines(a[1..]) + Lines(b);
    }
  }

  lemma {:induction false} PrefixLess(x: string, y: string)
    requires y != []
    ensures Less(x, x + y)
  {
    if x != [] {
      assert (x + y)[1..] == x[1..] + y;
      PrefixLess(x[1..], y);
    }
  }

  lemma ShorterKeySorted(before: Options, x: string, y: string, z: string, after: Options)
    requires SortedOptions(before + [(x + "=" + y, z)] + after) && forall o :: o in before ==> Less(o.0, x)
    ensures SortedOptions(before + [(x, y + "=" + z)] + after)
  {
    var (long, all) := (x + "=" + y, before + [(x + "=" + y, z)] + after);
    var all2 := before + [(x, y + "=" + z)] + after;
    var n := |before|;
    assert x + "=" + y == x + ("=" + y);
    PrefixLess(x, "=" + y);
    assert forall i :: 0 <= i < |all| && i != n ==> all2[i] == all[i];
    forall i, j | 0 <= i < j < |all2| ensures Less(all2[i].0, all2[j].0) {
      assert Less(all[i].0, all[j].0);
      if j == n {
        assert all2[i] == before[i] && before[i] in before;
      } else if i == n {
        LessTransitive(x, long, all[j].0);
      }
    }
  }

  /* ----- Options from the command line ----- */

  function Get(options: Options, key: string): Option<string> {
    if options == [] then None
    else if options[0].0 == key then Some(options[0].1)
    else Get(options[1..], key)
  }

  /** Insertion into the sorted map. */
  function Set(options: Options, key: string, value: string): Options {
    if options == [] then [(key, value)]
    else if options[0].0 == key then [(key, value)] + options[1..]
    else if Less(key, options[0].0) then [(key, value)] + options
    else [options[0]] + Set(options[1..], key, value)
  }

  predicate SortedOptions(options: Options) {
    forall i, j :: 0 <= i < j < |options| ==> Less(options[i].0, options[j].0)
  }

  lemma {:induction false} SetMembers(options: Options, key: string, value: string)
    ensures forall o :: o in Set(options, key, value) ==> o == (key, value) || o in options
  {
    if options != [] {
      SetMembers(options[1..], key, value);
      assert options == [options[0]] + options[1..];
    }
  }

  predicate Below(key: string, options: Options) {
    forall o :: o in options ==> Less(key, o.0)
  }

  lemma SortedFront(o: (string, string), rest: Options)
    ensures SortedOptions([o] + rest) <==> SortedOptions(rest) && Below(o.0, rest)
  {
    var all := [o] + rest;
    assert forall j :: 0 <= j < |rest| ==> all[j + 1] == rest[j];
    if SortedOptions(all) {
      forall x | x in rest ensures Less(o.0, x.0) {
        var j :| 0 <= j < |rest| && rest[j] == x;
        assert Less(all[0].0, all[j + 1].0);
      }
    }
  }

  lemma {:induction false} SetKeepsSorted(options: Options, key: string, value: string)
    requires SortedOptions(options)
    ensures SortedOptions(Set(options, key, value))
  {
    if options == [] {
    } else {
      var (o, rest) := (options[0], options[1..]);
      assert options == [o] + rest;
      SortedFront(o, rest);
      LessTotal(key, o.0);
      if o.0 == key {
        SortedFront((key, value), rest);
      } else if Less(key, o.0) {
        forall x | x in options ensures Less(key, x.0) {
          if x != o { LessTransitive(key, o.0, x.0); }
        }
        SortedFront((key, value), options);
      } else {
        SetKeepsSorted(rest, key, value);
        SetMembers(rest, key, value);
        SortedFront(o, Set(rest, key, value));
      }
    }
  }

  lemma {:induction false} SetThenGet(options: Options, key: string, value: string, other: string)
    ensures Get(Set(options, key, value), other) == if other == key then Some(value) else Get(options, other)
  {
    if options != [] {
      SetThenGet(options[1..], key, value, other);
      assert ([(key, value)] + options)[1..] == options;
      assert ([(key, value)] + options[1..])[1..] == options[1..];
      assert ([options[0]] + Set(options[1..], key, value))[1..] == Set(options[1..], key, value);
    }
  }

  lemma {:induction false} GetFromMember(options: Options, i: nat)
    requires SortedOptions(options) && i < |options|
    ensures Get(options, options[i].0) == Some(options[i].1)
  {
    if i > 0 {
      LessTotal(options[0].0, options[i].0);
      assert forall j :: 0 <= j < |options| - 1 ==> options[1..][j] == options[j + 1];
      GetFromMember(options[1..], i - 1);
    }
  }

  lemma {:induction false} GetIsMember(options: Options, key: string)
    requires Get(options, key).Some?
    ensures exists i :: 0 <= i < |options| && options[i].0 == key
  {
    if options[0].0 != key {
      GetIsMember(options[1..], key);
      var i :| 0 <= i < |options[1..]| && options[1..][i].0 == key;
      assert options[i + 1].0 == key;
    }
  }

  /** The same options are always listed, and so hashed, the same way, in whatever order they were given. */
  lemma {:induction false} SameOptionsSameListing(a: Options, b: Options)
    requires SortedOptions(a) && SortedOptions(b)
    requires forall key :: Get(a, key) == Get(b, key)
    ensures a == b
    decreases |a|
  {
    if a == [] || b == [] {
      if a != [] { GetFromMember(a, 0); }
      if b != [] { GetFromMember(b, 0); }
    } else {
      SameFirst(a, b);
      forall key ensures Get(a[1..], key) == Get(b[1..], key) {
        TailWithoutHead(a);
        TailWithoutHead(b);
        assert Get(a, key) == Get(b, key);
      }
      assert forall j :: 0 <= j < |a| - 1 ==> a[1..][j] == a[j + 1];
      assert forall j :: 0 <= j < |b| - 1 ==> b[1..][j] == b[j + 1];
      SameOptionsSameListing(a[1..], b[1..]);
      assert a == [a[0]] + a[1..] && b == [b[0]] + b[1..];
    }
  }

  lemma TailWithoutHead(a: Options)
    requires SortedOptions(a) && a != []
    ensures Get(a[1..], a[0].0) == None
  {
    if Get(a[1..], a[0].0).Some? {
      GetIsMember(a[1..], a[0].0);
      var i :| 0 <= i < |a[1..]| && a[1..][i].0 == a[0].0;
      LessTotal(a[0].0, a[i + 1].0);
    }
  }

  lemma SameFirst(a: Options, b: Options)
    requires SortedOptions(a) && SortedOptions(b) && a != [] && b != []
    requires forall key :: Get(a, key) == Get(b, key)
    ensures a[0] == b[0]
  {
    GetFromMember(a, 0);
    GetFromMember(b, 0);
    GetIsMember(b, a[0].0);
    GetIsMember(a, b[0].0);
    var i :| 0 <= i < |b| && b[i].0 == a[0].0;
    var j :| 0 <= j < |a| && a[j].0 == b[0].0;
    LessTotal(a[0].0, b[0].0);
  }

  /** What the last `--option key=value` for a key says. */
  function LastValue(pairs: seq<string>, key: string): Option<string>
    decreases |pairs|
  {
    if pairs == [] then None
    else
      var p := SplitOnce(pairs[|pairs| - 1], '=');
      if p.Some? && p.value.0 == key then Some(p.value.1) else LastValue(pairs[..|pairs| - 1], key)
  }

  /** Accepted exactly when every pair has an '='; the keys then hold none, and the last value of a key wins. */
  method ParseOptions(pairs: seq<string>) returns (r: Option<Options>)
    ensures r.Some? <==> forall i :: 0 <= i < |pairs| ==> '=' in pairs[i]
    ensures r.Some? ==> SortedOptions(r.value) && forall i :: 0 <= i < |r.value| ==> '=' !in r.value[i].0
    ensures r.Some? ==> forall key :: Get(r.value, key) == LastValue(pairs, key)
  {
    var options: Options := [];
    for i := 0 to |pairs|
      invariant forall k :: 0 <= k < i ==> '=' in pairs[k]
      invariant SortedOptions(options) && forall k :: 0 <= k < |options| ==> '=' !in options[k].0
      invariant forall key :: Get(options, key) == LastValue(pairs[..i], key)
    {
      var p := SplitOnce(pairs[i], '=');
      if p.None? { return None; }
      ghost var before := options;
      options := Set(options, p.value.0, p.value.1);
      SetKeepsSorted(before, p.value.0, p.value.1);
      SetMembers(before, p.value.0, p.value.1);
      forall k | 0 <= k < |options| ensures '=' !in options[k].0 {
        assert options[k] in options;
      }
      assert pairs[..i + 1][..i] == pairs[..i];
      forall key ensures Get(options, key) == LastValue(pairs[..i + 1], key) {
        SetThenGet(before, p.value.0, p.value.1, key);
      }
    }
    assert pairs[..|pairs|] == pairs;
    r := Some(options);
  }

  /* ----- The source listing ----- */

  datatype File = File(path: string, contents: string)

  function SourceMaterial(files: seq<File>): string {
    if files == [] then "" else files[0].path + "\0" + files[0].contents + "\0" + SourceMaterial(files[1..])
  }

  predicate NulFree(files: seq<File>) {
    forall i :: 0 <= i < |files| ==> '\0' !in files[i].path && '\0' !in files[i].contents
  }

  /** Among sources without NUL bytes every rename and every edit changes the material. */
  lemma {:induction false} SourceMaterialUnique(a: seq<File>, b: seq<File>)
    requires NulFree(a) && NulFree(b)
    ensures SourceMaterial(a) == SourceMaterial(b) ==> a == b
    decreases |a|
  {
    if a != [] && b != [] && SourceMaterial(a) == SourceMaterial(b) {
      var (x, y) := (SourceMaterial(a[1..]), SourceMaterial(b[1..]));
      var (s, t) := (a[0].contents + ['\0'] + x, b[0].contents + ['\0'] + y);
      assert SourceMaterial(a) == a[0].path + ['\0'] + s;
      assert SourceMaterial(b) == b[0].path + ['\0'] + t;
      CutUnique(a[0].path, s, b[0].path, t, '\0');
      CutUnique(a[0].contents, x, b[0].contents, y, '\0');
      SourceMaterialUnique(a[1..], b[1..]);
      assert a == [a[0]] + a[1..] && b == [b[0]] + b[1..];
    }
  }

  /** One file's contents can read like the end of it and a second file. */
  lemma NulsConfuse(p: string, c: string, q: string, d: string, rest: seq<File>)
    ensures SourceMaterial([File(p, c + "\0" + q + "\0" + d)] + rest) == SourceMaterial([File(p, c), File(q, d)] + rest)
  {
    var (one, two) := ([File(p, c + "\0" + q + "\0" + d)] + rest, [File(p, c), File(q, d)] + rest);
    assert one[1..] == rest && two[1..][1..] == rest && two[1..][0] == File(q, d);
    var m := SourceMaterial(rest);
    assert SourceMaterial(two[1..]) == q + "\0" + d + "\0" + m;
    assert p + "\0" + (c + "\0" + q + "\0" + d) + "\0" + m == p + "\0" + c + "\0" + (q + "\0" + d + "\0" + m);
  }

  /** Which texts are paths of source files, and their order; paths never hold a NUL. */
  datatype Naming = Naming(isPath: string -> bool, before: (string, string) -> bool)

  ghost predicate Names(n: Naming) {
    forall p :: n.isPath(p) ==> '\0' !in p
  }

  /** A listing as the directory walk makes it: paths of source files, in order. */
  predicate Tree(n: Naming, files: seq<File>) {
    && (forall i :: 0 <= i < |files| ==> n.isPath(files[i].path))
    && forall i, j :: 0 <= i < j < |files| ==> n.before(files[i].path, files[j].path)
  }

  /** Between two NULs of the contents stands the path of a file that would come later. */
  predicate HidesFile(n: Naming, f: File, i: nat, j: nat) {
    && i < j < |f.contents| && f.contents[i] == '\0' && f.contents[j] == '\0'
    && n.isPath(f.contents[i + 1..j]) && n.before(f.path, f.contents[i + 1..j])
  }

  ghost predicate Collides(n: Naming, a: seq<File>, b: seq<File>) {
    Tree(n, b) && b != a && SourceMaterial(b) == SourceMaterial(a)
  }

  /**
   A source tree shares its hash with another one exactly when it has two files or more, which read like
   one with NULs in it, or its one file hides a second between two NULs. A single NUL never matters.
  */
  lemma TreeCollidesIff(n: Naming, a: seq<File>)
    requires Names(n) && Tree(n, a)
    ensures (exists b :: Collides(n, a, b)) <==> |a| >= 2 || (|a| == 1 && exists i: nat, j: nat :: HidesFile(n, a[0], i, j))
  {
    if |a| >= 2 {
      var merged := [File(a[0].path, a[0].contents + "\0" + a[1].path + "\0" + a[1].contents)];
      NulsConfuse(a[0].path, a[0].contents, a[1].path, a[1].contents, a[2..]);
      assert a == [a[0], a[1]] + a[2..];
      assert Collides(n, a, merged + a[2..]);
    } else if |a| == 1 {
      if i: nat, j: nat :| HidesFile(n, a[0], i, j) {
        var c := a[0].contents;
        var b := [File(a[0].path, c[..i]), File(c[i + 1..j], c[j + 1..])];
        NulsConfuse(a[0].path, c[..i], c[i + 1..j], c[j + 1..], []);
        assert c == c[..i] + "\0" + c[i + 1..j] + "\0" + c[j + 1..];
        assert b + [] == b && [File(a[0].path, c)] + [] == a;
        assert Collides(n, a, b);
      }
      assert a == [a[0]] && n.isPath(a[0].path);
      if b: seq<File> :| Collides(n, a, b) {
        assert b != [] ==> n.isPath(b[0].path);
        if |b| <= 1 { OneFileUnique(a[0], b); } else { SecondFileHidden(n, a[0], b); }
      }
    } else {
      assert forall b :: b != [] ==> |SourceMaterial(b)| > 0;
    }
  }

  /** A listing of at most one file that reads like `f` alone is `f` alone. */
  lemma OneFileUnique(f: File, b: seq<File>)
    requires '\0' !in f.path && (b != [] ==> '\0' !in b[0].path)
    requires SourceMaterial(b) == SourceMaterial([f]) && |b| <= 1
    ensures b == [f]
  {
    assert [f] == [f] + [];
    FirstFile(f, [], b);
    assert b == [b[0]] && b[1..] == [];
    DropNul(f.contents, b[0].contents, SourceMaterial([]));
  }

  lemma DropNul(a: string, b: string, nothing: string)
    requires nothing == [] && a + "\0" + nothing == b + "\0" + nothing
    ensures a == b
  {
    assert (a + "\0" + nothing)[..|a|] == a && (b + "\0" + nothing)[..|b|] == b;
  }

  lemma FileText(p: string, c: string, rest: string)
    ensures p + "\0" + c + "\0" + rest == p + "\0" + (c + "\0" + rest)
  {
  }

  /** The first path is the same, and so is all that follows it. */
  lemma FirstFile(f: File, more: seq<File>, b: seq<File>)
    requires '\0' !in f.path && (b != [] ==> '\0' !in b[0].path)
    requires SourceMaterial(b) == SourceMaterial([f] + more)
    ensures b != [] && b[0].path == f.path
    ensures f.contents + "\0" + SourceMaterial(more) == b[0].contents + "\0" + SourceMaterial(b[1..])
  {
    assert ([f] + more)[1..] == more;
    var m := f.contents + "\0" + SourceMaterial(more);
    FileText(f.path, f.contents, SourceMaterial(more));
    assert SourceMaterial([f] + more) == f.path + "\0" + m;
    assert |SourceMaterial([f] + more)| > 0 && b != [];
    var m2 := b[0].contents + "\0" + SourceMaterial(b[1..]);
    FileText(b[0].path, b[0].contents, SourceMaterial(b[1..]));
    CutUnique(f.path, m, b[0].path, m2, '\0');
  }

  /** Two NULs in a text, with text behind them, stand where their parts end. */
  lemma TwoCuts(contents: string, c: string, q: string, d: string)
    requires contents + "\0" == c + "\0" + (q + "\0" + d) && d != []
    ensures var (i, j) := (|c|, |c| + 1 + |q|);
      j < |contents| && contents[i] == '\0' && contents[j] == '\0' && contents[i + 1..j] == q
  {
    var (i, j, m) := (|c|, |c| + 1 + |q|, contents + "\0");
    assert m[i] == '\0' && m[j] == '\0' && m[i + 1..j] == q;
    assert contents == m[..|contents|];
  }

  lemma SecondFileHidden(n: Naming, f: File, b: seq<File>)
    requires Names(n) && '\0' !in f.path && Tree(n, b) && |b| >= 2 && SourceMaterial(b) == SourceMaterial([f])
    ensures HidesFile(n, f, |b[0].contents|, |b[0].contents| + 1 + |b[1].path|)
  {
    assert [f] == [f] + [] && n.isPath(b[0].path);
    FirstFile(f, [], b);
    var d := b[1].contents + "\0" + SourceMaterial(b[1..][1..]);
    assert f.contents + "\0" + SourceMaterial([]) == f.contents + "\0";
    FileText(b[1].path, b[1].contents, SourceMaterial(b[1..][1..]));
    assert SourceMaterial(b[1..]) == b[1].path + "\0" + d;
    TwoCuts(f.contents, b[0].contents, b[1].path, d);
    assert n.isPath(b[1].path) && n.before(b[0].path, b[1].path);
  }

  predicate TwoNuls(f: File) {
    exists i, j :: 0 <= i < j < |f.contents| && f.contents[i] == '\0' && f.contents[j] == '\0'
  }

  ghost predicate NulFreePaths(files: seq<File>) {
    forall i :: 0 <= i < |files| ==> '\0' !in files[i].path
  }

  /** Whatever the paths and their order: two files or more, or two NULs in the one. */
  lemma ListingCollidesIff(a: seq<File>)
    requires NulFreePaths(a)
    ensures (exists b :: NulFreePaths(b) && b != a && SourceMaterial(b) == SourceMaterial(a))
      <==> |a| >= 2 || (|a| == 1 && TwoNuls(a[0]))
  {
    var n := ANY_PATH;
    TreeCollidesIff(n, a);
    if b: seq<File> :| NulFreePaths(b) && b != a && SourceMaterial(b) == SourceMaterial(a) {
      assert Collides(n, a, b);
    }
    if b: seq<File> :| Collides(n, a, b) {
      assert NulFreePaths(b);
    }
    if |a| == 1 { TwoNulsHide(a[0]); }
  }

  const ANY_PATH := Naming(p => '\0' !in p, (p, q) => true)

  lemma TwoNulsHide(f: File)
    ensures TwoNuls(f) <==> exists i: nat, j: nat :: HidesFile(ANY_PATH, f, i, j)
  {
    var c := f.contents;
    if i, j :| 0 <= i < j < |c| && c[i] == '\0' && c[j] == '\0' {
      assert c[i + 1..][j - i - 1] == '\0';
      var q := SplitOnce(c[i + 1..], '\0').value.0;
      assert c[i + 1..i + 1 + |q|] == q && c[i + 1 + |q|] == c[i + 1..][|q|];
      assert HidesFile(ANY_PATH, f, i, i + 1 + |q|);
    }
  }

  lemma {:induction false} SourceMaterialSnoc(files: seq<File>, f: File)
    ensures SourceMaterial(files + [f]) == SourceMaterial(files) + (f.path + "\0" + f.contents + "\0")
  {
    var last := f.path + "\0" + f.contents + "\0";
    if files == [] {
      assert (files + [f])[1..] == [];
      assert SourceMaterial([f]) == last + "";
    } else {
      SourceMaterialSnoc(files[1..], f);
      assert (files + [f])[1..] == files[1..] + [f];
      var first := files[0].path + "\0" + files[0].contents + "\0";
      assert first + (SourceMaterial(files[1..]) + last) == first + SourceMaterial(files[1..]) + last;
    }
  }

  method HashSourceDir(hash: string -> string, files: seq<File>) returns (h: string)
    ensures h == hash(SourceMaterial(files))
  {
    var material := "";
    for i := 0 to |files|
      invariant material == SourceMaterial(files[..i])
    {
      SourceMaterialSnoc(files[..i], files[i]);
      assert files[..i + 1] == files[..i] + [files[i]];
      material := material + (files[i].path + "\0" + files[i].contents + "\0");
    }
    assert files[..|files|] == files;
    h := hash(material);
  }
}
