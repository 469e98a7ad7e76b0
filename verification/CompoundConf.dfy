/**
 Compound configuration files: nested "name { ... }" blocks of parameters. The
 parser remembers the lines on which each compound starts and ends, so that a
 compound can be cut out of its file without touching the rest of it.
 */
module CompoundConf {
  import opened ConfText
  import opened SeqFacts

  type Params = seq<(string, Value)>

  datatype Compound = Compound(name: string, params: Params, objects: seq<Compound>, lineStart: nat, lineEnd: nat)

  /** The compound that is being read, and those it is in, outermost first. */
  datatype Cursor = Cursor(cur: Compound, parents: seq<Compound>)

  function Top(path: string): Cursor { Cursor(Compound(path, [], [], 0, 0), []) }

  // ---- parsing -------------------------------------------------------------

  function AddParam(z: Cursor, k: string, v: Value): Cursor {
    z.(cur := z.cur.(params := z.cur.params + [(k, v)]))
  }

  function AddObject(z: Cursor, c: Compound): Cursor {
    z.(cur := z.cur.(objects := z.cur.objects + [c]))
  }

  function Enter(z: Cursor, name: string, n: nat): Cursor {
    Cursor(Compound(name, [], [], n, 0), z.parents + [z.cur])
  }

  /** The cursor one level up. */
  function Outer(z: Cursor): Cursor
    requires z.parents != []
  {
    Cursor(z.parents[|z.parents| - 1], z.parents[..|z.parents| - 1])
  }

  function Leave(z: Cursor, n: nat): Cursor
    requires z.parents != []
  {
    AddObject(Outer(z), z.cur.(lineEnd := n))
  }

  /** What line n does to the cursor. */
  function Step(z: Cursor, raw: string, n: nat): Cursor {
    match Classify(raw, z.parents != [])
    case Blank => z
    case Close => Leave(z, n)
    case Open(name) => Enter(z, name, n)
    case Param(k, v) => AddParam(z, k, v)
  }

  /** What these lines do, the first of them being line n + 1. */
  function Fold(z: Cursor, lines: seq<string>, n: nat): Cursor
    decreases |lines|
  {
    if lines == [] then z else Fold(Step(z, lines[0], n + 1), lines[1..], n + 1)
  }

  /** How many lines open a compound, and how many close one: a line can only close what is open. */
  function Brackets(lines: seq<string>): (b: (nat, nat))
    ensures b.0 >= b.1
  {
    if lines == [] then (0, 0)
    else
      var (begun, ended) := Brackets(lines[..|lines| - 1]);
      match Classify(lines[|lines| - 1], begun > ended)
      case Open(_) => (begun + 1, ended)
      case Close => (begun, ended + 1)
      case _ => (begun, ended)
  }

  /** Every compound that is begun is ended. */
  predicate Balanced(lines: seq<string>) { Brackets(lines).0 == Brackets(lines).1 }

  /**
   parse_conf: what is returned is the compound that the end of the file is in.
   That is the file itself if and only if every compound is ended.
   */
  method ParseConf(path: string, lines: seq<string>) returns (result: Compound)
    ensures result == Fold(Top(path), lines, 0).cur
    ensures result.lineStart == 0 && result.name == path <==> Balanced(lines)
    ensures Balanced(lines) <==> Fold(Top(path), lines, 0).parents == []
  {
    hide Fold, Classify, Balanced;
    WholeIff(path, lines);
    var cur, parents := Compound(path, [], [], 0, 0), [];
    FoldNothing(Top(path), 0);
    for i := 0 to |lines|
      invariant Cursor(cur, parents) == Fold(Top(path), lines[..i], 0)
    {
      FoldSnoc(Top(path), lines, i, 0);
      match Classify(lines[i], parents != []) {
        case Blank =>
        case Close =>
          cur := cur.(lineEnd := i + 1);
          var parent := parents[|parents| - 1];
          cur, parents := parent.(objects := parent.objects + [cur]), parents[..|parents| - 1];
        case Open(name) =>
          parents := parents + [cur];
          cur := Compound(name, [], [], i + 1, 0);
        case Param(k, v) =>
          cur := cur.(params := cur.params + [(k, v)]);
      }
    }
    assert lines[..|lines|] == lines;
    return cur;
  }

  lemma FoldNothing(z: Cursor, n: nat)
    ensures Fold(z, [], n) == z
  {
  }

  lemma {:induction false} FoldAppend(z: Cursor, a: seq<string>, b: seq<string>, n: nat)
    ensures Fold(z, a + b, n) == Fold(Fold(z, a, n), b, n + |a|)
    decreases |a|
  {
    hide Step;
    if a == [] {
      assert a + b == b;
    } else {
      assert (a + b)[1..] == a[1..] + b;
      FoldAppend(Step(z, a[0], n + 1), a[1..], b, n + 1);
    }
  }

  lemma FoldSnoc(z: Cursor, lines: seq<string>, i: nat, n: nat)
    requires i < |lines|
    ensures Fold(z, lines[..i + 1], n) == Step(Fold(z, lines[..i], n), lines[i], n + i + 1)
  {
    hide Step;
    assert lines[..i + 1] == lines[..i] + [lines[i]];
    FoldAppend(z, lines[..i], [lines[i]], n);
    var w := Fold(z, lines[..i], n);
    FoldOne(w, lines[i], n + i);
  }

  lemma FoldOne(z: Cursor, line: string, n: nat)
    ensures Fold(z, [line], n) == Step(z, line, n + 1)
  {
    hide Step;
    FoldNothing(Step(z, line, n + 1), n + 1);
  }

  // ---- what the line numbers mean ------------------------------------------

  /** The compounds inside c, at any depth. */
  ghost predicate Inside(c: Compound, d: Compound) { Among(c, d.objects) }

  ghost predicate Among(c: Compound, objects: seq<Compound>)
    decreases objects
  {
    exists i :: 0 <= i < |objects| && (c == objects[i] || Among(c, objects[i].objects))
  }

  ghost function After(path: string, lines: seq<string>, k: nat): Cursor
    requires k <= |lines|
  {
    Fold(Top(path), lines[..k], 0)
  }

  /** c starts on its first line, and on its last line it is added to what was there before its first. */
  ghost predicate Spans(path: string, lines: seq<string>, k: nat, c: Compound)
    requires k <= |lines|
  {
    && 1 <= c.lineStart < c.lineEnd <= k
    && After(path, lines, c.lineEnd) == AddObject(After(path, lines, c.lineStart - 1), c)
  }

  lemma AmongMore(c: Compound, objects: seq<Compound>, d: Compound)
    ensures Among(c, objects + [d]) <==> Among(c, objects) || c == d || Among(c, d.objects)
  {
    var all := objects + [d];
    if Among(c, objects) {
      var i :| 0 <= i < |objects| && (c == objects[i] || Among(c, objects[i].objects));
      assert all[i] == objects[i];
    }
    assert all[|objects|] == d;
    if Among(c, all) {
      var i :| 0 <= i < |all| && (c == all[i] || Among(c, all[i].objects));
      assert i < |objects| ==> all[i] == objects[i];
    }
  }

  ghost predicate SpansAll(path: string, lines: seq<string>, k: nat)
    requires k <= |lines|
  {
    && (var z := After(path, lines, k);
        z.parents != [] ==> 1 <= z.cur.lineStart <= k && Outer(z) == After(path, lines, z.cur.lineStart - 1))
    && forall c :: Inside(c, After(path, lines, k).cur) ==> Spans(path, lines, k, c)
  }

  lemma {:induction false} LinesSpan(path: string, lines: seq<string>, k: nat)
    requires k <= |lines|
    ensures SpansAll(path, lines, k)
    decreases k
  {
    hide Fold, Classify, Among;
    if k == 0 {
      assert lines[..0] == [];
      FoldNothing(Top(path), 0);
      NothingInside();
    } else {
      LinesSpan(path, lines, k - 1);
      FoldSnoc(Top(path), lines, k - 1, 0);
      var z := After(path, lines, k - 1);
      match Classify(lines[k - 1], z.parents != [])
      case Blank =>
        SameSpans(path, lines, k);
      case Param(_, _) =>
        SameSpans(path, lines, k);
      case Open(name) =>
        NothingInside();
        assert Outer(Enter(z, name, k)) == z;
      case Close =>
        LinesSpan(path, lines, z.cur.lineStart - 1);
        ClosedSpans(path, lines, k);
    }
  }

  lemma SameSpans(path: string, lines: seq<string>, k: nat)
    requires 1 <= k <= |lines| && SpansAll(path, lines, k - 1)
    requires var z, w := After(path, lines, k - 1), After(path, lines, k);
             w.parents == z.parents && w.cur == z.cur.(params := w.cur.params)
    ensures SpansAll(path, lines, k)
  {
    hide Among, After;
    var z, w := After(path, lines, k - 1), After(path, lines, k);
    forall d | Inside(d, w.cur) ensures Spans(path, lines, k, d) {
      assert Inside(d, z.cur);
    }
  }

  lemma NothingInside()
    ensures forall c :: !Among(c, [])
  {
  }

  lemma ClosedSpans(path: string, lines: seq<string>, k: nat)
    requires 1 <= k <= |lines| && SpansAll(path, lines, k - 1)
    requires var z := After(path, lines, k - 1);
             z.parents != [] && After(path, lines, k) == Leave(z, k) && SpansAll(path, lines, z.cur.lineStart - 1)
    ensures SpansAll(path, lines, k)
  {
    hide Fold, Among, After;
    var z := After(path, lines, k - 1);
    var c := z.cur.(lineEnd := k);
    var before := After(path, lines, z.cur.lineStart - 1);
    assert After(path, lines, k) == AddObject(before, c);
    forall d | Inside(d, After(path, lines, k).cur) ensures Spans(path, lines, k, d) {
      AmongMore(d, before.cur.objects, c);
      assert Inside(d, before.cur) || d == c || Inside(d, z.cur);
    }
  }

  // ---- files that end inside a compound ------------------------------------

  /** The compound that stands for the file. */
  function RootOf(z: Cursor): Compound { if z.parents == [] then z.cur else z.parents[0] }

  lemma StepRoot(z: Cursor, raw: string, n: nat)
    ensures RootOf(Step(z, raw, n)).name == RootOf(z).name && RootOf(Step(z, raw, n)).lineStart == RootOf(z).lineStart
  {
    hide Classify;
  }

  lemma {:induction false} FoldBrackets(path: string, lines: seq<string>, k: nat)
    requires k <= |lines|
    ensures var z, b := After(path, lines, k), Brackets(lines[..k]);
            |z.parents| == b.0 - b.1 && RootOf(z).name == path && RootOf(z).lineStart == 0
    decreases k
  {
    hide Fold, Classify;
    if k == 0 {
      assert lines[..0] == [];
      FoldNothing(Top(path), 0);
    } else {
      FoldBrackets(path, lines, k - 1);
      FoldSnoc(Top(path), lines, k - 1, 0);
      StepRoot(After(path, lines, k - 1), lines[k - 1], k);
      assert lines[..k][..k - 1] == lines[..k - 1];
    }
  }

  lemma WholeIff(path: string, lines: seq<string>)
    ensures var z := Fold(Top(path), lines, 0);
            && (Balanced(lines) <==> z.parents == [])
            && (z.cur.lineStart == 0 && z.cur.name == path <==> Balanced(lines))
  {
    hide Fold, Among, Brackets;
    assert lines[..|lines|] == lines;
    FoldBrackets(path, lines, |lines|);
    LinesSpan(path, lines, |lines|);
  }

  /** A file of two lines that never closes its compound reads as that compound. */
  lemma Unclosed(path: string)
    ensures var lines := ["a {", "b = c"];
            !Balanced(lines) && Fold(Top(path), lines, 0).cur == Compound("a", [("b", Text("c"))], [], 1, 0)
  {
    hide Fold, Balanced, Classify;
    var z := Top(path);
    var inside := Enter(z, "a", 1);
    assert "" + "a" + " {" == "a {" && "" + "b" + " = " + "c" == "b = c";
    NameBack("", "a", false);
    ParamBack("", "b", "c", true);
    CleanTexts();
    FoldAppend(z, ["a {"], ["b = c"], 0);
    FoldOne(z, "a {", 0);
    FoldOne(inside, "b = c", 1);
    assert ["a {"] + ["b = c"] == ["a {", "b = c"];
    WholeIff(path, ["a {", "b = c"]);
  }

  lemma CleanTexts()
    ensures CleanName("a", false) && CleanKey("b", true) && CleanValue("c")
  {
    RStripNothing("a");
    RStripNothing("b");
    RStripNothing("c");
  }

  // ---- cutting a compound out of its file ----------------------------------

  /** c without the compounds in it that start on line s. */
  function Without(c: Compound, s: nat): Compound
    decreases c
  {
    c.(objects := WithoutAll(c.objects, s))
  }

  function WithoutAll(objects: seq<Compound>, s: nat): seq<Compound>
    decreases objects
  {
    if objects == [] then []
    else
      var last := objects[|objects| - 1];
      WithoutAll(objects[..|objects| - 1], s) + if last.lineStart == s then [] else [Without(last, s)]
  }

  /** How many compounds in c start on line s. */
  function Count(c: Compound, s: nat): nat
    decreases c
  {
    CountAll(c.objects, s)
  }

  function CountAll(objects: seq<Compound>, s: nat): nat
    decreases objects
  {
    if objects == [] then 0
    else
      var last := objects[|objects| - 1];
      CountAll(objects[..|objects| - 1], s) + (if last.lineStart == s then 1 else 0) + Count(last, s)
  }

  /** c without its line numbers: what the file says. */
  function Plain(c: Compound): Compound
    decreases c
  {
    Compound(c.name, c.params, PlainAll(c.objects), 0, 0)
  }

  function PlainAll(objects: seq<Compound>): seq<Compound>
    decreases objects
  {
    if objects == [] then [] else PlainAll(objects[..|objects| - 1]) + [Plain(objects[|objects| - 1])]
  }

  lemma WithoutMore(objects: seq<Compound>, d: Compound, s: nat)
    ensures WithoutAll(objects + [d], s) == WithoutAll(objects, s) + if d.lineStart == s then [] else [Without(d, s)]
  {
    assert (objects + [d])[..|objects|] == objects;
  }

  lemma PlainMore(objects: seq<Compound>, d: Compound)
    ensures PlainAll(objects + [d]) == PlainAll(objects) + [Plain(d)]
  {
    assert (objects + [d])[..|objects|] == objects;
  }

  lemma CountMore(objects: seq<Compound>, d: Compound, s: nat)
    ensures CountAll(objects + [d], s) == CountAll(objects, s) + (if d.lineStart == s then 1 else 0) + Count(d, s)
  {
    assert (objects + [d])[..|objects|] == objects;
  }

  /** w says what c says, less what starts on line s. */
  ghost predicate Lacks(c: Compound, w: Compound, s: nat) { Plain(Without(c, s)) == Plain(w) }

  ghost predicate CursorLacks(z: Cursor, w: Cursor, s: nat) {
    && Lacks(z.cur, w.cur, s)
    && |z.parents| == |w.parents| && forall i :: 0 <= i < |z.parents| ==> Lacks(z.parents[i], w.parents[i], s)
  }

  /** No open compound starts on line s. */
  ghost predicate Free(z: Cursor, s: nat) {
    z.cur.lineStart != s && forall i :: 0 <= i < |z.parents| ==> z.parents[i].lineStart != s
  }

  lemma LacksParam(c: Compound, w: Compound, s: nat, p: (string, Value))
    requires Lacks(c, w, s)
    ensures Lacks(c.(params := c.params + [p]), w.(params := w.params + [p]), s)
  {
    hide WithoutAll, PlainAll;
  }

  lemma LacksObject(c: Compound, w: Compound, s: nat, d: Compound, e: Compound)
    requires Lacks(c, w, s) && Lacks(d, e, s) && d.lineStart != s
    ensures Lacks(c.(objects := c.objects + [d]), w.(objects := w.objects + [e]), s)
  {
    hide WithoutAll, PlainAll;
    WithoutMore(c.objects, d, s);
    PlainMore(WithoutAll(c.objects, s), Without(d, s));
    PlainMore(w.objects, e);
  }

  lemma LacksEnd(c: Compound, w: Compound, s: nat, n: nat, m: nat)
    requires Lacks(c, w, s)
    ensures Lacks(c.(lineEnd := n), w.(lineEnd := m), s)
  {
    hide WithoutAll, PlainAll;
  }

  lemma LacksNew(name: string, s: nat, n: nat, m: nat)
    ensures Lacks(Compound(name, [], [], n, 0), Compound(name, [], [], m, 0), s)
  {
  }

  lemma StepLacks(z: Cursor, w: Cursor, s: nat, raw: string, n: nat, m: nat)
    requires CursorLacks(z, w, s) && Free(z, s) && n != s
    ensures CursorLacks(Step(z, raw, n), Step(w, raw, m), s) && Free(Step(z, raw, n), s)
  {
    hide Classify, Lacks;
    match Classify(raw, z.parents != [])
    case Blank =>
    case Param(k, v) => LacksParam(z.cur, w.cur, s, (k, v));
    case Open(name) => LacksNew(name, s, n, m);
    case Close =>
      LacksEnd(z.cur, w.cur, s, n, m);
      LacksObject(Outer(z).cur, Outer(w).cur, s, z.cur.(lineEnd := n), w.cur.(lineEnd := m));
  }

  lemma {:induction false} FoldLacks(z: Cursor, w: Cursor, s: nat, lines: seq<string>, n: nat, m: nat)
    requires CursorLacks(z, w, s) && Free(z, s) && n >= s
    ensures CursorLacks(Fold(z, lines, n), Fold(w, lines, m), s)
    decreases |lines|
  {
    hide CursorLacks, Free, Step;
    if lines != [] {
      StepLacks(z, w, s, lines[0], n + 1, m + 1);
      FoldLacks(Step(z, lines[0], n + 1), Step(w, lines[0], m + 1), s, lines[1..], n + 1, m + 1);
    }
  }

  // ---- line numbers only grow ----------------------------------------------

  ghost predicate UpTo(c: Compound, k: nat)
    decreases c
  {
    c.lineStart <= k && AllUpTo(c.objects, k)
  }

  ghost predicate AllUpTo(objects: seq<Compound>, k: nat)
    decreases objects
  {
    forall i :: 0 <= i < |objects| ==> UpTo(objects[i], k)
  }

  lemma {:induction false} UpToMore(c: Compound, k: nat, m: nat)
    requires UpTo(c, k) && k <= m
    ensures UpTo(c, m)
    decreases c
  {
    forall i | 0 <= i < |c.objects| ensures UpTo(c.objects[i], m) {
      UpToMore(c.objects[i], k, m);
    }
  }

  ghost predicate CursorUpTo(z: Cursor, k: nat) {
    UpTo(z.cur, k) && forall i :: 0 <= i < |z.parents| ==> UpTo(z.parents[i], k)
  }

  lemma StepUpTo(z: Cursor, raw: string, k: nat)
    requires CursorUpTo(z, k)
    ensures CursorUpTo(Step(z, raw, k + 1), k + 1)
  {
    hide Classify;
    UpToMore(z.cur, k, k + 1);
    forall i | 0 <= i < |z.parents| ensures UpTo(z.parents[i], k + 1) {
      UpToMore(z.parents[i], k, k + 1);
    }
    match Classify(raw, z.parents != [])
    case Blank =>
    case Param(_, _) =>
    case Open(name) => NewUpTo(name, k + 1);
    case Close => UpToObject(Outer(z).cur, z.cur.(lineEnd := k + 1), k + 1);
  }

  lemma NewUpTo(name: string, k: nat)
    ensures UpTo(Compound(name, [], [], k, 0), k)
  {
    var c := Compound(name, [], [], k, 0);
    assert AllUpTo(c.objects, k);
  }

  lemma UpToObject(c: Compound, d: Compound, k: nat)
    requires UpTo(c, k) && UpTo(d, k)
    ensures UpTo(c.(objects := c.objects + [d]), k)
  {
  }

  lemma {:induction false} FoldUpTo(path: string, lines: seq<string>, k: nat)
    requires k <= |lines|
    ensures CursorUpTo(After(path, lines, k), k)
    decreases k
  {
    hide Fold, Step;
    if k == 0 {
      assert lines[..0] == [];
      FoldNothing(Top(path), 0);
      NewUpTo(path, 0);
    } else {
      FoldUpTo(path, lines, k - 1);
      FoldSnoc(Top(path), lines, k - 1, 0);
      StepUpTo(After(path, lines, k - 1), lines[k - 1], k - 1);
    }
  }

  lemma {:induction false} NoneStart(objects: seq<Compound>, k: nat, s: nat)
    requires AllUpTo(objects, k) && k < s
    ensures WithoutAll(objects, s) == objects && CountAll(objects, s) == 0
    decreases objects
  {
    if objects != [] {
      var last := objects[|objects| - 1];
      var rest := objects[..|objects| - 1];
      assert UpTo(last, k);
      NoneStart(rest, k, s);
      NoneStart(last.objects, k, s);
      assert rest + [last] == objects;
    }
  }

  lemma NoneLacks(c: Compound, k: nat, s: nat)
    requires UpTo(c, k) && k < s
    ensures Lacks(c, c, s) && Count(c, s) == 0
  {
    NoneStart(c.objects, k, s);
  }

  // ---- one compound to a line ----------------------------------------------

  /** How many compounds, closed or open, start on line s. */
  ghost function CountOpen(z: Cursor, s: nat): nat
    decreases |z.parents|
  {
    Count(z.cur, s) + (if z.cur.lineStart == s then 1 else 0) + if z.parents == [] then 0 else CountOpen(Outer(z), s)
  }

  lemma {:induction false} NoneOpen(z: Cursor, k: nat, s: nat)
    requires CursorUpTo(z, k) && k < s
    ensures CountOpen(z, s) == 0
    decreases |z.parents|
  {
    hide UpTo, Count;
    NoneLacks(z.cur, k, s);
    NotStarting(z.cur, k, s);
    if z.parents != [] { NoneOpen(Outer(z), k, s); }
  }

  lemma NotStarting(c: Compound, k: nat, s: nat)
    requires UpTo(c, k) && k < s
    ensures c.lineStart != s
  {
  }

  lemma StepCounts(z: Cursor, raw: string, k: nat, s: nat)
    requires CursorUpTo(z, k) && CountOpen(z, s) <= 1
    ensures CountOpen(Step(z, raw, k + 1), s) <= 1
  {
    hide Classify, CountAll, UpTo;
    match Classify(raw, z.parents != [])
    case Blank =>
    case Param(k, v) =>
      assert z.parents != [] ==> Outer(AddParam(z, k, v)) == Outer(z);
    case Open(name) =>
      NothingCounted(s);
      assert Outer(Enter(z, name, k + 1)) == z;
      if k + 1 == s { NoneOpen(z, k, s); }
    case Close =>
      var out := Outer(z);
      CountMore(out.cur.objects, z.cur.(lineEnd := k + 1), s);
      assert out.parents != [] ==> Outer(Leave(z, k + 1)) == Outer(out);
  }

  lemma NothingCounted(s: nat)
    ensures CountAll([], s) == 0
  {
  }

  lemma {:induction false} FoldCounts(path: string, lines: seq<string>, k: nat, s: nat)
    requires k <= |lines| && s > 0
    ensures CountOpen(After(path, lines, k), s) <= 1
    decreases k
  {
    hide Fold, Step;
    if k == 0 {
      assert lines[..0] == [];
      FoldNothing(Top(path), 0);
      NothingCounted(s);
    } else {
      FoldCounts(path, lines, k - 1, s);
      FoldSnoc(Top(path), lines, k - 1, 0);
      FoldUpTo(path, lines, k - 1);
      StepCounts(After(path, lines, k - 1), lines[k - 1], k - 1, s);
    }
  }

  lemma {:induction false} CountsInside(c: Compound, objects: seq<Compound>)
    requires Among(c, objects)
    ensures CountAll(objects, c.lineStart) >= 1
    decreases objects
  {
    var rest, last := objects[..|objects| - 1], objects[|objects| - 1];
    assert objects == rest + [last];
    AmongMore(c, rest, last);
    if Among(c, rest) {
      CountsInside(c, rest);
    } else if c != last {
      CountsInside(c, last.objects);
    }
  }

  // ---- the law -------------------------------------------------------------

  lemma LacksAtEnd(path: string, lines: seq<string>, c: Compound)
    requires Spans(path, lines, |lines|, c)
    ensures var z, w := After(path, lines, c.lineEnd), After(path, lines, c.lineStart - 1);
            CursorLacks(z, w, c.lineStart) && Free(z, c.lineStart)
  {
    hide Fold, Lacks, UpTo, After;
    var s := c.lineStart;
    var w := After(path, lines, s - 1);
    FoldUpTo(path, lines, s - 1);
    NoneLacks(w.cur, s - 1, s);
    NotStarting(w.cur, s - 1, s);
    forall i | 0 <= i < |w.parents| ensures Lacks(w.parents[i], w.parents[i], s) && w.parents[i].lineStart != s {
      NoneLacks(w.parents[i], s - 1, s);
      NotStarting(w.parents[i], s - 1, s);
    }
    LacksLast(w.cur, c);
  }

  lemma LacksLast(w: Compound, c: Compound)
    requires Lacks(w, w, c.lineStart)
    ensures Lacks(w.(objects := w.objects + [c]), w, c.lineStart)
  {
    hide WithoutAll, PlainAll;
    WithoutMore(w.objects, c, c.lineStart);
    assert Without(w.(objects := w.objects + [c]), c.lineStart) == Without(w, c.lineStart);
  }

  /**
   In a file whose compounds are all closed, deleting the lines of a compound
   gives a file that reads as the same tree without that compound, and without
   that one only.
   */
  lemma DeleteLines(path: string, lines: seq<string>, c: Compound)
    requires Balanced(lines) && Inside(c, Fold(Top(path), lines, 0).cur)
    ensures var tree := Fold(Top(path), lines, 0).cur;
            && 1 <= c.lineStart < c.lineEnd <= |lines| && Count(tree, c.lineStart) == 1
            && (var rest := Fold(Top(path), lines[..c.lineStart - 1] + lines[c.lineEnd..], 0);
                rest.parents == [] && Plain(rest.cur) == Plain(Without(tree, c.lineStart)))
  {
    hide Fold, Plain, Without, Inside, Count, Spans, Balanced;
    WholeIff(path, lines);
    var s, e, z := c.lineStart, c.lineEnd, Fold(Top(path), lines, 0);
    CompoundSpans(path, lines, c);
    assert lines == lines[..e] + lines[e..];
    FoldAppend(Top(path), lines[..e], lines[e..], 0);
    FoldAppend(Top(path), lines[..s - 1], lines[e..], 0);
    LacksAtEnd(path, lines, c);
    FoldLacks(After(path, lines, e), After(path, lines, s - 1), s, lines[e..], e, s - 1);
  }

  lemma CompoundSpans(path: string, lines: seq<string>, c: Compound)
    requires Fold(Top(path), lines, 0).parents == [] && Inside(c, Fold(Top(path), lines, 0).cur)
    ensures Spans(path, lines, |lines|, c) && 1 <= c.lineStart < c.lineEnd <= |lines|
    ensures Count(Fold(Top(path), lines, 0).cur, c.lineStart) == 1
  {
    hide Fold, Among, CountAll;
    assert lines[..|lines|] == lines;
    LinesSpan(path, lines, |lines|);
    FoldCounts(path, lines, |lines|, c.lineStart);
    CountsInside(c, Fold(Top(path), lines, 0).cur.objects);
  }
}
