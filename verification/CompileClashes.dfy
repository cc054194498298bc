/**
 When two compile requests share a cache key, for any requests at all: no field and no option is taken to be
 free of newlines or '='. The material is cut at its last newline, where the source hash starts, and at the
 newline before the shape.
*/
module CompileClashes {
  import opened Sequences
  import opened Text
  import opened CompileKey

  function Row(o: (string, string)): string {
    o.0 + "=" + o.1
  }

  predicate TwoEquals(t: string) {
    exists i, j :: 0 <= i < j < |t| && t[i] == '=' && t[j] == '='
  }

  /** One of the rows of `t` is the shape `s`, `a` and `c` are what stands around it, and `c` can be read as options. */
  predicate HoldsShape(t: string, a: string, s: Shape, c: string) {
    "\n" + t == a + "\n" + ShapeText(s) + c && (c == [] || (c[0] == '\n' && '=' in c))
  }

  /** One option whose text can be read in another way: with two '=' or more, or with a shape as one of its rows. */
  ghost predicate Ambiguous(o: (string, string)) {
    TwoEquals(Row(o)) || exists a, s, c :: HoldsShape(Row(o), a, s, c)
  }

  /** All of the material before the shape and its newline. */
  function Head(r: Request): string {
    r.language + "\n" + (r.entryModule + "\n" + r.entryFunction)
  }

  /** The shape, its newline and the options. */
  function Tail(r: Request): string {
    ShapeText(r.shape) + "\n" + Lines(r.options)
  }

  lemma MaterialParts(r: Request, h: string)
    ensures Material(r, h) == (Head(r) + "\n" + Tail(r)) + h
  {
    PartsText(r.language, r.entryModule, r.entryFunction, ShapeText(r.shape), Lines(r.options), h);
  }

  lemma PartsText(l: string, m: string, f: string, s: string, d: string, h: string)
    ensures l + "\n" + (m + "\n" + (f + "\n" + (s + "\n" + (d + h)))) == (l + "\n" + (m + "\n" + f) + "\n" + (s + "\n" + d)) + h
  {
  }

  lemma {:induction false} LinesEnd(options: Options)
    requires options != []
    ensures var d := Lines(options); |d| >= 2 && d[|d| - 1] == '\n' && '=' in d[..|d| - 1]
  {
    var (row, d) := (Row(options[0]), Lines(options));
    assert d == row + "\n" + Lines(options[1..]);
    assert row[|options[0].0|] == '=' && d[|options[0].0|] == '=';
    assert d[..|d| - 1][|options[0].0|] == '=';
    if |options| > 1 { LinesEnd(options[1..]); }
  }

  lemma TailEnds(r: Request)
    ensures Tail(r) != [] && Tail(r)[|Tail(r)| - 1] == '\n'
  {
    if r.options != [] { LinesEnd(r.options); }
  }

  /** Only one cut has no newline after it. */
  lemma LastCut(p: string, h: string, q: string, k: string)
    requires p + h == q + k && OneLine(h) && OneLine(k)
    requires p != [] && p[|p| - 1] == '\n' && q != [] && q[|q| - 1] == '\n'
    ensures p == q && h == k
  {
    var whole := p + h;
    assert whole[|p| - 1] == '\n' && whole[|q| - 1] == '\n';
    assert forall i :: |p| <= i < |whole| ==> whole[i] == h[i - |p|];
    assert forall i :: |q| <= i < |whole| ==> whole[i] == k[i - |q|];
    assert |p| == |q|;
    assert p == whole[..|p|] && q == whole[..|q|] && h == whole[|p|..] && k == whole[|q|..];
  }

  lemma SameHash(r: Request, h: string, r2: Request, h2: string)
    requires OneLine(h) && OneLine(h2) && Material(r, h) == Material(r2, h2)
    ensures h2 == h && Head(r) + "\n" + Tail(r) == Head(r2) + "\n" + Tail(r2)
  {
    MaterialParts(r, h);
    MaterialParts(r2, h2);
    TailEnds(r);
    TailEnds(r2);
    LastCut(Head(r) + "\n" + Tail(r), h, Head(r2) + "\n" + Tail(r2), h2);
  }

  /** A text that starts with three one-line fields cut into three fields in another way: the cut is later. */
  lemma HeadCut(l: string, m: string, f: string, w: string, l2: string, m2: string, f2: string, w2: string)
    returns (y: Option<string>)
    requires OneLine(l) && OneLine(m) && OneLine(f)
    requires var (x, x2) := (l + "\n" + (m + "\n" + f), l2 + "\n" + (m2 + "\n" + f2)); x + "\n" + w == x2 + "\n" + w2
    ensures y.None? ==> l2 == l && m2 == m && f2 == f && w2 == w
    ensures y.Some? ==> l2 + "\n" + (m2 + "\n" + f2) == l + "\n" + (m + "\n" + f) + "\n" + y.value && w == y.value + "\n" + w2
  {
    var (x, x2) := (l + "\n" + (m + "\n" + f), l2 + "\n" + (m2 + "\n" + f2));
    var whole := x + "\n" + w;
    var (p, q) := (|l|, |l| + 1 + |m|);
    FieldNewlines(l, m, f, w);
    assert whole[|l2|] == '\n' && whole[|l2| + 1 + |m2|] == '\n' && whole[|x2|] == '\n' by { ThreeNewlines(l2, m2, f2, w2); }
    if |x2| == |x| {
      SameFields(l, m, f, w, l2, m2, f2, w2);
      y := None;
    } else {
      assert |x2| > |x|;
      y := Some(whole[|x| + 1..|x2|]);
      LaterCut(x, w, x2, w2);
    }
  }

  lemma ThreeNewlines(l: string, m: string, f: string, w: string)
    ensures var x := l + "\n" + (m + "\n" + f); var whole := x + "\n" + w;
      whole[|l|] == '\n' && whole[|l| + 1 + |m|] == '\n' && whole[|x|] == '\n'
  {
  }

  lemma FieldNewlines(l: string, m: string, f: string, w: string)
    requires OneLine(l) && OneLine(m) && OneLine(f)
    ensures var x := l + "\n" + (m + "\n" + f); var whole := x + "\n" + w;
      forall i :: 0 <= i < |x| ==> (whole[i] == '\n' <==> i == |l| || i == |l| + 1 + |m|)
  {
    var x := l + "\n" + (m + "\n" + f);
    var whole := x + "\n" + w;
    forall i | 0 <= i < |x| ensures whole[i] == '\n' <==> i == |l| || i == |l| + 1 + |m| {
      assert whole[i] == x[i];
      if i < |l| { assert x[i] == l[i]; }
      else if |l| < i < |l| + 1 + |m| { assert x[i] == m[i - |l| - 1]; }
      else if i > |l| + 1 + |m| { assert x[i] == f[i - |l| - |m| - 2]; }
    }
  }

  lemma SameFields(l: string, m: string, f: string, w: string, l2: string, m2: string, f2: string, w2: string)
    requires |l2| == |l| && |m2| == |m| && |f2| == |f|
    requires l + "\n" + (m + "\n" + f) + "\n" + w == l2 + "\n" + (m2 + "\n" + f2) + "\n" + w2
    ensures l2 == l && m2 == m && f2 == f && w2 == w
  {
    var whole := l + "\n" + (m + "\n" + f) + "\n" + w;
    var (i, j, k) := (|l| + 1, |l| + |m| + 2, |l| + |m| + |f| + 3);
    assert l == whole[..|l|] && m == whole[i..i + |m|] && f == whole[j..j + |f|] && w == whole[k..];
    assert l2 == whole[..|l|] && m2 == whole[i..i + |m|] && f2 == whole[j..j + |f|] && w2 == whole[k..];
  }

  lemma LaterCut(x: string, w: string, x2: string, w2: string)
    requires x + "\n" + w == x2 + "\n" + w2 && |x2| > |x|
    ensures var y := (x + "\n" + w)[|x| + 1..|x2|]; x2 == x + "\n" + y && w == y + "\n" + w2
  {
    var whole := x + "\n" + w;
    var y := whole[|x| + 1..|x2|];
    assert x2 == whole[..|x2|] && whole[..|x|] == x && whole[|x|] == '\n';
    assert whole[|x| + 1..] == w && whole[|x2|] == '\n' && w2 == whole[|x2| + 1..];
    assert w == whole[|x| + 1..|x2|] + whole[|x2|..];
  }

  /* ----- Only these are confused ----- */

  lemma NoOptionsUnique(r: Request, h: string, r2: Request, h2: string)
    requires OneLineFields(r) && r.options == [] && OneLine(h) && OneLine(h2) && Material(r2, h2) == Material(r, h)
    ensures (r2, h2) == (r, h)
  {
    SameHash(r, h, r2, h2);
    var s := ShapeText(r.shape);
    assert Tail(r) == s + "\n";
    var y := HeadCut(r.language, r.entryModule, r.entryFunction, Tail(r), r2.language, r2.entryModule, r2.entryFunction, Tail(r2));
    TailEnds(r2);
    assert y.None? by {
      if y.Some? { OneNewline(s, y.value, Tail(r2)); }
    }
    assert s + ['\n'] + [] == ShapeText(r2.shape) + ['\n'] + Lines(r2.options);
    CutUnique(s, [], ShapeText(r2.shape), Lines(r2.options), '\n');
    if r2.options != [] { LinesEnd(r2.options); }
  }

  lemma OneNewline(s: string, y: string, w: string)
    requires OneLine(s) && w != []
    ensures s + "\n" != y + "\n" + w
  {
    if |y| < |s| {
      assert (s + "\n")[|y|] != (y + "\n" + w)[|y|];
    }
  }

  lemma SameCut(p: (string, string), o: (string, string))
    requires Row(p) == Row(o)
    ensures |p.0| == |o.0| ==> p == o
  {
    var (t, u) := (Row(p), Row(o));
    assert t[..|p.0|] == p.0 && t[|p.0| + 1..] == p.1;
    assert u[..|o.0|] == o.0 && u[|o.0| + 1..] == o.1;
    assert p == (p.0, p.1) && o == (o.0, o.1);
  }

  /** Two listings of one text: two options or more have an '=' each, and one is cut at one of them. */
  lemma OneOptionTwoEquals(o: (string, string), options: Options)
    requires Lines(options) == Row(o) + "\n" && options != [o]
    ensures TwoEquals(Row(o))
  {
    var t := Row(o);
    assert options != [];
    var (p, rest) := (options[0], options[1..]);
    assert Lines(options) == Row(p) + "\n" + Lines(rest);
    assert t[|o.0|] == '=' && Row(p)[|p.0|] == '=';
    if rest == [] {
      assert options == [p] && Row(p) + "\n" == t + "\n";
      assert Row(p) == (Row(p) + "\n")[..|Row(p)|] && t == (t + "\n")[..|t|];
      SameCut(p, o);
      assert t[|p.0|] == '=';
    } else {
      LinesEnd(rest);
      var d := Lines(rest);
      var j :| 0 <= j < |d| - 1 && d[j] == '=';
      var k := |Row(p)| + 1 + j;
      assert (t + "\n")[k] == '=' && (t + "\n")[|p.0|] == '=';
      assert k < |t| && t[k] == '=' && t[|p.0|] == '=';
    }
  }

  lemma NotBefore(s: string, t: string, y: string, z: string)
    requires OneLine(s) && s + t == y + "\n" + z
    ensures |y| >= |s|
  {
    assert (s + t)[|y|] == '\n';
    assert forall i :: 0 <= i < |s| ==> (s + t)[i] == s[i] && s[i] in s;
  }

  lemma CutBoth(s: string, t: string, y: string, z: string)
    requires s + t == y + z && |y| >= |s|
    ensures t == y[|s|..] + z
  {
    assert t == (s + t)[|s|..] && y[|s|..] + z == (y + z)[|s|..];
  }

  /** A text behind a one-line row, cut after the row. */
  lemma CutAfterRow(s: string, t: string, y: string, x: string, d: string) returns (a: string)
    requires OneLine(s) && s + "\n" + (t + "\n") == y + "\n" + (x + d)
    ensures "\n" + t + "\n" == a + "\n" + x + d
  {
    var (t1, z) := ("\n" + t + "\n", "\n" + (x + d));
    assert s + "\n" + (t + "\n") == s + t1 && y + "\n" + (x + d) == y + z;
    NotBefore(s, t1, y, x + d);
    CutBoth(s, t1, y, z);
    a := y[|s|..];
    assert a + z == a + "\n" + x + d;
  }

  /** The text read as the end of a field, a shape and options holds a shape as one of its rows. */
  lemma ShapeInside(s: string, t: string, y: string, s2: Shape, options: Options)
    requires OneLine(s) && s + "\n" + (t + "\n") == y + "\n" + (ShapeText(s2) + "\n" + Lines(options))
    ensures exists a, c :: HoldsShape(t, a, s2, c)
  {
    var (x, d) := (ShapeText(s2), "\n" + Lines(options));
    assert x + "\n" + Lines(options) == x + d;
    var a := CutAfterRow(s, t, y, x, d);
    if options != [] { LinesEnd(options); }
    var c := d[..|d| - 1];
    assert d == c + "\n";
    assert ("\n" + t) + "\n" == (a + "\n" + x + c) + "\n";
    SameFront("\n" + t, a + "\n" + x + c);
    if options != [] {
      assert c == "\n" + Lines(options)[..|Lines(options)| - 1];
    }
    assert HoldsShape(t, a, s2, c);
  }

  lemma SameFront(a: string, b: string)
    requires a + "\n" == b + "\n"
    ensures a == b
  {
    assert a == (a + "\n")[..|a|] && b == (b + "\n")[..|b|];
  }

  lemma OneOptionAmbiguous(r: Request, h: string, r2: Request, h2: string)
    requires OneLineFields(r) && OneLine(h) && |r.options| == 1 && Confused(r, h, r2, h2)
    ensures Ambiguous(r.options[0])
  {
    SameHash(r, h, r2, h2);
    var (s, o) := (ShapeText(r.shape), r.options[0]);
    assert r.options == [o] && Lines(r.options) == Row(o) + "\n";
    var y := HeadCut(r.language, r.entryModule, r.entryFunction, Tail(r), r2.language, r2.entryModule, r2.entryFunction, Tail(r2));
    if y.None? {
      CutUnique(s, Lines(r.options), ShapeText(r2.shape), Lines(r2.options), '\n');
      OneOptionTwoEquals(o, r2.options);
    } else {
      ShapeInside(s, Row(o), y.value, r2.shape, r2.options);
    }
  }

  /* ----- All of these are ----- */

  /** The first two options, merged into one with a newline in its value. */
  function Merged(options: Options): Options
    requires |options| >= 2
  {
    [(options[0].0, options[0].1 + "\n" + Row(options[1]))] + options[2..]
  }

  /**
   Any two options can be read as one, whose value holds a newline: keys and fields stay as the command
   line lets them be.
  */
  lemma MergedConfuses(r: Request, h: string)
    requires SortedOptions(r.options) && OneLine(h) && |r.options| >= 2
    ensures var r2 := r.(options := Merged(r.options));
      SortedOptions(r2.options) && Confused(r, h, r2, h) && forall i :: 0 <= i < |r2.options| ==> exists o :: o in r.options && o.0 == r2.options[i].0
  {
    var (options, merged) := (r.options, Merged(r.options));
    MergedLines(options);
    assert |merged| < |options| && merged[0].0 == options[0].0;
    assert forall i :: 0 < i < |merged| ==> merged[i] == options[i + 1];
    forall i | 0 <= i < |merged| ensures exists o :: o in options && o.0 == merged[i].0 {
      assert (if i == 0 then options[0] else options[i + 1]) in options;
    }
  }

  lemma LinesFront(o: (string, string), rest: Options)
    ensures Lines([o] + rest) == Row(o) + "\n" + Lines(rest)
  {
    assert ([o] + rest)[1..] == rest;
  }

  lemma MergedFront(o: (string, string), p: (string, string), rest: Options)
    ensures Lines([(o.0, o.1 + "\n" + Row(p))] + rest) == Lines([o] + ([p] + rest))
  {
    LinesFront(o, [p] + rest);
    LinesFront(p, rest);
    LinesFront((o.0, o.1 + "\n" + Row(p)), rest);
    MergedText(o.0, o.1, Row(p), Lines(rest));
  }

  lemma MergedLines(options: Options)
    requires |options| >= 2
    ensures Lines(Merged(options)) == Lines(options)
  {
    MergedFront(options[0], options[1], options[2..]);
    assert options == [options[0]] + ([options[1]] + options[2..]);
  }

  lemma MergedText(k: string, v: string, row: string, rest: string)
    ensures (k + "=" + v) + "\n" + (row + "\n" + rest) == (k + "=" + (v + "\n" + row)) + "\n" + rest
  {
  }

  lemma OneLineText(o: (string, string))
    ensures Lines([o]) == Row(o) + "\n"
  {
    LinesFront(o, []);
    assert [o] + [] == [o] && Lines([]) == [];
  }

  /** One option with a second '=' in its text, cut there. */
  lemma EqualsShift(r: Request, h: string) returns (r2: Request)
    requires OneLine(h) && |r.options| == 1 && TwoEquals(Row(r.options[0]))
    ensures SortedOptions(r2.options) && Confused(r, h, r2, h)
  {
    var o := r.options[0];
    var t := Row(o);
    var i, j :| 0 <= i < j < |t| && t[i] == '=' && t[j] == '=';
    var k := if i == |o.0| then j else i;
    var p := (t[..k], t[k + 1..]);
    assert t == t[..k] + [t[k]] + t[k + 1..];
    assert Row(p) == t && p != o;
    r2 := r.(options := [p]);
    assert r.options == [o];
    OneLineText(o);
    OneLineText(p);
    assert r2.options[0] != r.options[0];
  }

  /** What stands after the shape, as options. */
  function ReadAs(c: string): Options
    requires c == [] || (c[0] == '\n' && '=' in c)
  {
    if c == [] then []
    else
      assert '=' in c[1..];
      [SplitOnce(c[1..], '=').value]
  }

  lemma ReadAsLines(c: string)
    requires c == [] || (c[0] == '\n' && '=' in c)
    ensures "\n" + Lines(ReadAs(c)) == c + "\n"
  {
    if c != [] {
      assert '=' in c[1..];
      var p := SplitOnce(c[1..], '=').value;
      assert Row(p) == c[1..];
      OneLineText(p);
      assert c == "\n" + c[1..];
    }
  }

  function Moved(r: Request, a: string, s: Shape, options: Options): Request {
    Request(r.language, r.entryModule, r.entryFunction + "\n" + ShapeText(r.shape) + a, s, options)
  }

  lemma MovedHead(r: Request, a: string, s: Shape, options: Options)
    ensures Head(Moved(r, a, s, options)) == Head(r) + "\n" + ShapeText(r.shape) + a
  {
  }

  /** One option with a shape among its rows: the function's name goes on up to it. */
  lemma ShapeShift(r: Request, h: string, a: string, s: Shape, c: string) returns (r2: Request)
    requires OneLine(h) && |r.options| == 1 && HoldsShape(Row(r.options[0]), a, s, c)
    ensures SortedOptions(r2.options) && Confused(r, h, r2, h)
  {
    var (t, x, d) := (Row(r.options[0]), ShapeText(r.shape), Lines(ReadAs(c)));
    r2 := Moved(r, a, s, ReadAs(c));
    ReadAsLines(c);
    MovedHead(r, a, s, ReadAs(c));
    assert Lines(r.options) == t + "\n";
    MaterialParts(r, h);
    MaterialParts(r2, h);
    assert "\n" + t == a + "\n" + ShapeText(s) + c;
    ShiftText(Head(r), x, t, a, ShapeText(s), c, d);
    assert |r2.entryFunction| > |r.entryFunction|;
  }

  lemma ShiftText(head: string, x: string, t: string, a: string, s: string, c: string, d: string)
    requires "\n" + t == a + "\n" + s + c && "\n" + d == c + "\n"
    ensures head + "\n" + (x + "\n" + (t + "\n")) == (head + "\n" + x + a) + "\n" + (s + "\n" + d)
  {
    var front := head + "\n" + x;
    assert head + "\n" + (x + "\n" + (t + "\n")) == front + ("\n" + t) + "\n";
    Reassociate(front, a, s, c, d);
  }

  lemma Reassociate(front: string, a: string, s: string, c: string, d: string)
    requires "\n" + d == c + "\n"
    ensures front + (a + "\n" + s + c) + "\n" == (front + a) + "\n" + (s + "\n" + d)
  {
    assert front + (a + "\n" + s + c) + "\n" == front + a + "\n" + s + (c + "\n");
    assert front + a + "\n" + s + ("\n" + d) == (front + a) + "\n" + (s + "\n" + d);
  }

  /**
   A request shares its key material with another one exactly when a field holds a newline, or it has two
   options or more, or the one it has can be read in another way.
  */
  lemma ConfusedIff(r: Request, h: string)
    requires SortedOptions(r.options) && OneLine(h)
    ensures (exists r2: Request, h2 :: SortedOptions(r2.options) && Confused(r, h, r2, h2))
      <==> !OneLineFields(r) || |r.options| >= 2 || (|r.options| == 1 && Ambiguous(r.options[0]))
  {
    if r2: Request, h2 :| SortedOptions(r2.options) && Confused(r, h, r2, h2) {
      if OneLineFields(r) && r.options == [] {
        NoOptionsUnique(r, h, r2, h2);
      } else if OneLineFields(r) && |r.options| == 1 {
        OneOptionAmbiguous(r, h, r2, h2);
      }
    }
    if !OneLineFields(r) {
      var r2 := ConfusedWith(r, h);
      assert Confused(r, h, r2, h);
    } else if |r.options| >= 2 {
      MergedConfuses(r, h);
    } else if |r.options| == 1 && Ambiguous(r.options[0]) {
      var r2 := AmbiguousConfuses(r, h);
    }
  }

  lemma AmbiguousConfuses(r: Request, h: string) returns (r2: Request)
    requires OneLine(h) && |r.options| == 1 && Ambiguous(r.options[0])
    ensures SortedOptions(r2.options) && Confused(r, h, r2, h)
  {
    if TwoEquals(Row(r.options[0])) {
      r2 := EqualsShift(r, h);
    } else {
      var a, s, c :| HoldsShape(Row(r.options[0]), a, s, c);
      r2 := ShapeShift(r, h, a, s, c);
    }
  }
}
