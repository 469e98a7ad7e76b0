/** Printing a compound configuration, and reading back what was printed. */
module CompoundPrint {
  import opened ConfText
  import opened CompoundConf
  import opened SeqFacts

  // ---- printing ------------------------------------------------------------

  function Blanks(n: int): (s: string)
    ensures AllSpaces(s) && OneLine(s) && |s| == if n <= 0 then 0 else n
    ensures forall i :: 0 <= i < |s| ==> s[i] == ' '
  {
    if n <= 0 then "" else Blanks(n - 1) + " "
  }

  /** Only texts can be printed: a parameter that had no '=' cannot. */
  predicate Printable(c: Compound)
    decreases c
  {
    (forall i :: 0 <= i < |c.params| ==> c.params[i].1.Text?) && forall i :: 0 <= i < |c.objects| ==> Printable(c.objects[i])
  }

  /** write_conf: nesting is 0 for the file itself, and 4 more for every level. */
  function Print(c: Compound, nesting: nat): string
    requires Printable(c)
    decreases c
  {
    (if nesting > 0 then "\n" + Blanks(nesting - 4) + c.name + " {\n" else "")
    + PrintParams(c.params, nesting)
    + PrintObjects(c.objects, nesting + 4)
    + (if nesting > 0 then Blanks(nesting - 4) + "}\n" else "")
  }

  function PrintParams(params: Params, nesting: nat): string
    requires forall i :: 0 <= i < |params| ==> params[i].1.Text?
  {
    if params == [] then ""
    else
      var (key, value) := params[|params| - 1];
      PrintParams(params[..|params| - 1], nesting) + Blanks(nesting) + (key + " = " + value.text + "\n")
  }

  function PrintObjects(objects: seq<Compound>, nesting: nat): string
    requires forall i :: 0 <= i < |objects| ==> Printable(objects[i])
    decreases objects
  {
    if objects == [] then ""
    else PrintObjects(objects[..|objects| - 1], nesting) + Print(objects[|objects| - 1], nesting)
  }

  function WithOne(name: string, key: string, value: string, objects: seq<Compound>): Compound {
    Compound(name, [(key, Text(value))], objects, 0, 0)
  }

  lemma OnePrinted(name: string, key: string, value: string, objects: seq<Compound>, nesting: nat)
    requires forall i :: 0 <= i < |objects| ==> Printable(objects[i])
    ensures Printable(WithOne(name, key, value, objects))
    ensures Print(WithOne(name, key, value, objects), nesting)
            == (if nesting > 0 then "\n" + Blanks(nesting - 4) + name + " {\n" else "")
               + (Blanks(nesting) + (key + " = " + value + "\n")) + PrintObjects(objects, nesting + 4)
               + (if nesting > 0 then Blanks(nesting - 4) + "}\n" else "")
  {
    hide Blanks, PrintObjects, PrintParams;
    OneParam(key, value, nesting);
  }

  /** A file with a parameter, and a compound in a compound. */
  lemma PrintExample(path: string)
    ensures var d := WithOne("d", "e", "f", []);
            var b := WithOne("b", "c", "2", [d]);
            var file := WithOne(path, "a", "1", [b]);
            && Printable(d) && Printable(b) && Printable(file)
            && Print(file, 0) == "a = 1\n" + ("\nb {\n    c = 2\n" + "\n    d {\n        e = f\n    }\n" + "}\n")
  {
    hide Print, Printable, PrintObjects, WithOne;
    InnerPrinted();
    var d := WithOne("d", "e", "f", []);
    MiddlePrinted(d);
    var b := WithOne("b", "c", "2", [d]);
    OuterPrinted(path, b);
  }

  lemma InnerPrinted()
    ensures var d := WithOne("d", "e", "f", []); Printable(d) && Print(d, 8) == "\n    d {\n        e = f\n    }\n"
  {
    hide Blanks, Print, Printable, PrintObjects, WithOne;
    Indents();
    OnePrinted("d", "e", "f", [], 8);
    NoObjects(12);
  }

  lemma MiddlePrinted(d: Compound)
    requires Printable(d)
    ensures var b := WithOne("b", "c", "2", [d]); Printable(b) && Print(b, 4) == "\nb {\n    c = 2\n" + Print(d, 8) + "}\n"
  {
    hide Blanks, Print, Printable, PrintObjects, WithOne;
    Indents();
    OnePrinted("b", "c", "2", [d], 4);
    OneObject(d, 8);
  }

  lemma OuterPrinted(path: string, b: Compound)
    requires Printable(b)
    ensures var file := WithOne(path, "a", "1", [b]); Printable(file) && Print(file, 0) == "a = 1\n" + Print(b, 4)
  {
    hide Blanks, Print, Printable, PrintObjects, WithOne;
    Indents();
    OnePrinted(path, "a", "1", [b], 0);
    OneObject(b, 4);
  }

  lemma Indents()
    ensures Blanks(0) == "" && Blanks(4) == "    " && Blanks(8) == "        "
  {
  }

  lemma NoObjects(nesting: nat)
    ensures PrintObjects([], nesting) == ""
  {
  }

  lemma OneParam(key: string, value: string, nesting: nat)
    ensures PrintParams([(key, Text(value))], nesting) == Blanks(nesting) + (key + " = " + value + "\n")
  {
    var params: Params := [(key, Text(value))];
    assert params[..0] == [];
    assert "" + Blanks(nesting) == Blanks(nesting);
  }

  lemma OneObject(c: Compound, nesting: nat)
    requires Printable(c)
    ensures PrintObjects([c], nesting) == Print(c, nesting)
  {
    hide Print;
    assert [c][..0] == [];
    NoObjects(nesting);
    assert "" + Print(c, nesting) == Print(c, nesting);
  }

  // ---- the printed text as lines -------------------------------------------

  predicate EndsLine(c: char) { c == '\n' || c == '\r' }

  predicate OneLine(s: string) { '\n' !in s && '\r' !in s }

  /** The index of the first character that ends a line, or |s|. */
  function LineEnd(s: string): (k: nat)
    ensures k <= |s| && (k < |s| ==> EndsLine(s[k]))
    ensures forall j :: 0 <= j < k ==> !EndsLine(s[j])
  {
    if s == [] || EndsLine(s[0]) then 0 else 1 + LineEnd(s[1..])
  }

  /** The lines of a text, as a file is read line by line: "\n", "\r" and "\r\n" all end a line. */
  function TextLines(s: string): seq<string> {
    if s == [] then []
    else
      var k := LineEnd(s);
      if k == |s| then [s]
      else [s[..k]] + TextLines(s[if s[k] == '\r' && k + 1 < |s| && s[k + 1] == '\n' then k + 2 else k + 1..])
  }

  function Unlines(lines: seq<string>): string {
    if lines == [] then "" else Unlines(lines[..|lines| - 1]) + lines[|lines| - 1] + "\n"
  }

  lemma {:induction false} UnlinesAppend(a: seq<string>, b: seq<string>)
    ensures Unlines(a + b) == Unlines(a) + Unlines(b)
    decreases |b|
  {
    if b == [] {
      assert a + b == a;
    } else {
      assert (a + b)[..|a + b| - 1] == a + b[..|b| - 1];
      UnlinesAppend(a, b[..|b| - 1]);
    }
  }

  lemma UnlinesOne(line: string)
    ensures Unlines([line]) == line + "\n"
  {
    assert [line][..0] == [];
  }

  ghost predicate NoNewlines(lines: seq<string>) { forall i :: 0 <= i < |lines| ==> OneLine(lines[i]) }

  lemma {:induction false} LinesBack(lines: seq<string>)
    requires NoNewlines(lines)
    ensures TextLines(Unlines(lines)) == lines
    decreases |lines|
  {
    hide Unlines, TextLines;
    if lines == [] {
      assert Unlines([]) == "" && TextLines("") == [] by { NoLines(); }
    } else {
      var rest := lines[1..];
      assert lines == [lines[0]] + rest;
      UnlinesAppend([lines[0]], rest);
      UnlinesOne(lines[0]);
      LinesBack(rest);
      TextStep(lines[0], '\n', Unlines(rest));
    }
  }

  lemma NoLines()
    ensures Unlines([]) == "" && TextLines("") == []
  {
  }

  lemma TextStep(line: string, c: char, rest: string)
    requires OneLine(line) && EndsLine(c) && (c == '\r' && rest != "" ==> rest[0] != '\n')
    ensures TextLines(line + [c] + rest) == [line] + TextLines(rest)
  {
    hide LineEnd, OneLine;
    var s := line + [c] + rest;
    LineEndAt(line, c, rest);
    assert s[..|line|] == line && s[|line| + 1..] == rest;
    assert rest != "" ==> s[|line| + 1] == rest[0];
  }

  lemma LineEndAt(line: string, c: char, rest: string)
    requires OneLine(line) && EndsLine(c)
    ensures LineEnd(line + [c] + rest) == |line|
  {
    var s := line + [c] + rest;
    assert s[|line|] == c && forall j :: 0 <= j < |line| ==> s[j] == line[j];
  }

  function Head(c: Compound, nesting: nat): seq<string> { ["", Blanks(nesting - 4) + c.name + " {"] }

  function ObjectLines(c: Compound, nesting: nat): seq<string>
    requires Printable(c)
    decreases c
  {
    Head(c, nesting) + ParamLines(c.params, nesting) + ObjectsLines(c.objects, nesting + 4) + [Blanks(nesting - 4) + "}"]
  }

  function ParamLines(params: Params, nesting: nat): seq<string>
    requires forall i :: 0 <= i < |params| ==> params[i].1.Text?
  {
    if params == [] then []
    else
      var (key, value) := params[|params| - 1];
      ParamLines(params[..|params| - 1], nesting) + [Blanks(nesting) + key + " = " + value.text]
  }

  function ObjectsLines(objects: seq<Compound>, nesting: nat): seq<string>
    requires forall i :: 0 <= i < |objects| ==> Printable(objects[i])
    decreases objects
  {
    if objects == [] then []
    else ObjectsLines(objects[..|objects| - 1], nesting) + ObjectLines(objects[|objects| - 1], nesting)
  }

  lemma {:induction false} ParamsPrinted(params: Params, nesting: nat)
    requires forall i :: 0 <= i < |params| ==> params[i].1.Text?
    ensures PrintParams(params, nesting) == Unlines(ParamLines(params, nesting))
  {
    hide Blanks, Unlines;
    NoLines();
    if params != [] {
      var rest := params[..|params| - 1];
      var (key, value) := params[|params| - 1];
      var line := Blanks(nesting) + key + " = " + value.text;
      ParamsPrinted(rest, nesting);
      UnlinesAppend(ParamLines(rest, nesting), [line]);
      UnlinesOne(line);
      assert Blanks(nesting) + (key + " = " + value.text + "\n") == line + "\n";
      Associate(PrintParams(rest, nesting), Blanks(nesting), key + " = " + value.text + "\n");
    }
  }

  lemma {:induction false} ObjectPrinted(c: Compound, nesting: nat)
    requires Printable(c) && nesting > 0
    ensures Print(c, nesting) == Unlines(ObjectLines(c, nesting))
    decreases c
  {
    hide Blanks, Unlines, PrintObjects, PrintParams, ObjectsLines, ParamLines;
    ParamsPrinted(c.params, nesting);
    ObjectsPrinted(c.objects, nesting + 4);
    HeadPrinted(c, nesting);
    var last := Blanks(nesting - 4) + "}";
    var h, p, o := Head(c, nesting), ParamLines(c.params, nesting), ObjectsLines(c.objects, nesting + 4);
    UnlinesOne(last);
    UnlinesAppend(h, p);
    UnlinesAppend(h + p, o);
    UnlinesAppend(h + p + o, [last]);
    assert last + "\n" == Blanks(nesting - 4) + "}\n";
  }

  lemma HeadPrinted(c: Compound, nesting: nat)
    ensures Unlines(Head(c, nesting)) == "\n" + Blanks(nesting - 4) + c.name + " {\n"
  {
    hide Blanks, Unlines;
    var line := Blanks(nesting - 4) + c.name + " {";
    assert Head(c, nesting) == [""] + [line];
    UnlinesAppend([""], [line]);
    UnlinesOne("");
    UnlinesOne(line);
    assert "" + "\n" + (line + "\n") == "\n" + Blanks(nesting - 4) + c.name + " {\n";
  }

  lemma {:induction false} ObjectsPrinted(objects: seq<Compound>, nesting: nat)
    requires nesting > 0 && forall i :: 0 <= i < |objects| ==> Printable(objects[i])
    ensures PrintObjects(objects, nesting) == Unlines(ObjectsLines(objects, nesting))
    decreases objects
  {
    hide Unlines, Print, ObjectLines, Printable;
    NoLines();
    if objects != [] {
      var rest, last := objects[..|objects| - 1], objects[|objects| - 1];
      ObjectsPrinted(rest, nesting);
      ObjectPrinted(last, nesting);
      UnlinesAppend(ObjectsLines(rest, nesting), ObjectLines(last, nesting));
    }
  }

  /** The file: no head and no end, and parameters at the margin. */
  lemma FilePrinted(c: Compound)
    requires Printable(c)
    ensures Print(c, 0) == Unlines(ParamLines(c.params, 0) + ObjectsLines(c.objects, 4))
  {
    hide Blanks, Unlines, PrintObjects, PrintParams, ObjectsLines, ParamLines;
    ParamsPrinted(c.params, 0);
    ObjectsPrinted(c.objects, 4);
    UnlinesAppend(ParamLines(c.params, 0), ObjectsLines(c.objects, 4));
  }

  // ---- reading it back -----------------------------------------------------

  predicate CleanParams(params: Params, nested: bool) {
    forall i :: 0 <= i < |params| ==>
      && params[i].1.Text? && CleanKey(params[i].0, nested) && CleanValue(params[i].1.text)
      && OneLine(params[i].0) && OneLine(params[i].1.text)
  }

  /** A tree whose texts survive: those at the top of the file may start with '}', the others may not. */
  predicate WellFormed(c: Compound, nested: bool)
    decreases c
  {
    && CleanParams(c.params, nested)
    && forall i :: 0 <= i < |c.objects| ==>
         CleanName(c.objects[i].name, nested) && OneLine(c.objects[i].name) && WellFormed(c.objects[i], true)
  }

  predicate WellFormedObjects(objects: seq<Compound>, nested: bool) {
    forall i :: 0 <= i < |objects| ==>
      CleanName(objects[i].name, nested) && OneLine(objects[i].name) && WellFormed(objects[i], true)
  }

  lemma {:induction false} WellFormedPrints(c: Compound, nested: bool)
    requires WellFormed(c, nested)
    ensures Printable(c)
    decreases c
  {
    forall i | 0 <= i < |c.objects| ensures Printable(c.objects[i]) {
      WellFormedPrints(c.objects[i], true);
    }
  }

  lemma ObjectsPrint(objects: seq<Compound>, nested: bool)
    requires WellFormedObjects(objects, nested)
    ensures forall i :: 0 <= i < |objects| ==> Printable(objects[i])
  {
    forall i | 0 <= i < |objects| ensures Printable(objects[i]) {
      WellFormedPrints(objects[i], true);
    }
  }

  lemma {:induction false} FoldParams(z: Cursor, params: Params, nesting: nat, n: nat)
    requires CleanParams(params, z.parents != [])
    ensures Fold(z, ParamLines(params, nesting), n) == z.(cur := z.cur.(params := z.cur.params + params))
    decreases |params|
  {
    hide Fold, Classify, CleanKey, CleanValue, Blanks;
    FoldNothing(z, n);
    if params != [] {
      var rest := params[..|params| - 1];
      var (key, value) := params[|params| - 1];
      var line := Blanks(nesting) + key + " = " + value.text;
      var before := ParamLines(rest, nesting);
      FoldParams(z, rest, nesting, n);
      FoldAppend(z, before, [line], n);
      FoldOne(Fold(z, before, n), line, n + |before|);
      ParamBack(Blanks(nesting), key, value.text, z.parents != []);
      assert z.cur.params + rest + [(key, value)] == z.cur.params + params;
    }
  }

  lemma FoldHead(z: Cursor, c: Compound, nesting: nat, n: nat)
    requires CleanName(c.name, z.parents != [])
    ensures Fold(z, Head(c, nesting), n) == Enter(z, c.name, n + 2)
  {
    hide Fold, CleanName, Blanks;
    var line := Blanks(nesting - 4) + c.name + " {";
    assert Head(c, nesting) == [""] + [line];
    FoldAppend(z, [""], [line], n);
    FoldOne(z, "", n);
    FoldOne(z, line, n + 1);
    NameBack(Blanks(nesting - 4), c.name, z.parents != []);
  }

  lemma FoldEnd(z: Cursor, nesting: nat, n: nat)
    requires z.parents != []
    ensures Fold(z, [Blanks(nesting - 4) + "}"], n) == Leave(z, n + 1)
  {
    hide Fold, Blanks, LStrip, RStrip;
    var indent := Blanks(nesting - 4);
    FoldOne(z, indent + "}", n);
    Spaces(indent);
    LStripAppend(indent, "}");
    assert LStrip(indent) + "}" == "}";
    RStripNothing("}");
  }

  /** Reading a printed compound adds it to the compound that is being read. */
  lemma {:induction false} FoldObject(z: Cursor, c: Compound, nesting: nat, n: nat) returns (d: Compound)
    requires CleanName(c.name, z.parents != []) && WellFormed(c, true)
    ensures Printable(c) && Fold(z, ObjectLines(c, nesting), n) == AddObject(z, d) && Plain(d) == Plain(c)
    decreases c
  {
    hide Fold, Blanks, CleanName, Plain, PlainAll, ObjectsLines, ParamLines, Printable, CleanParams;
    WellFormedPrints(c, true);
    ObjectsPrint(c.objects, true);
    var h, p, o := Head(c, nesting), ParamLines(c.params, nesting), ObjectsLines(c.objects, nesting + 4);
    var end := [Blanks(nesting - 4) + "}"];
    FoldAppend(z, h + p + o, end, n);
    FoldAppend(z, h + p, o, n);
    FoldAppend(z, h, p, n);
    FoldHead(z, c, nesting, n);
    var inside := Enter(z, c.name, n + 2);
    FoldParams(inside, c.params, nesting, n + 2);
    var filled := inside.(cur := inside.cur.(params := [] + c.params));
    var ds := FoldObjects(filled, c.objects, nesting + 4, n + |h + p|);
    var full := filled.(cur := filled.cur.(objects := [] + ds));
    FoldEnd(full, nesting, n + |h + p + o|);
    d := full.cur.(lineEnd := n + |h + p + o| + 1);
    assert Outer(full) == z;
    assert Fold(z, ObjectLines(c, nesting), n) == AddObject(z, d);
    assert [] + ds == ds;
    PlainSame(d, c);
  }

  lemma PlainSame(d: Compound, c: Compound)
    requires d.name == c.name && d.params == c.params && PlainAll(d.objects) == PlainAll(c.objects)
    ensures Plain(d) == Plain(c)
  {
  }

  lemma {:induction false} FoldObjects(z: Cursor, objects: seq<Compound>, nesting: nat, n: nat) returns (ds: seq<Compound>)
    requires WellFormedObjects(objects, z.parents != [])
    ensures forall i :: 0 <= i < |objects| ==> Printable(objects[i])
    ensures Fold(z, ObjectsLines(objects, nesting), n) == z.(cur := z.cur.(objects := z.cur.objects + ds))
    ensures PlainAll(ds) == PlainAll(objects)
    decreases objects
  {
    hide Fold, CleanName, Plain, PlainAll, ObjectLines, Printable, WellFormed;
    ObjectsPrint(objects, z.parents != []);
    if objects == [] {
      ds := [];
      FoldNothing(z, n);
    } else {
      var rest, last := objects[..|objects| - 1], objects[|objects| - 1];
      var before := ObjectsLines(rest, nesting);
      var ds0 := FoldObjects(z, rest, nesting, n);
      FoldAppend(z, before, ObjectLines(last, nesting), n);
      var w := z.(cur := z.cur.(objects := z.cur.objects + ds0));
      var d := FoldObject(w, last, nesting, n + |before|);
      ds := ds0 + [d];
      assert w.cur.objects + [d] == z.cur.objects + ds;
      PlainMore(ds0, d);
      PlainMore(rest, last);
      assert rest + [last] == objects;
    }
  }

  /** Names, keys and values that are each on one line, below c. */
  predicate OneLiners(c: Compound)
    decreases c
  {
    && OneLineParams(c.params)
    && forall i :: 0 <= i < |c.objects| ==> OneLine(c.objects[i].name) && OneLiners(c.objects[i])
  }

  predicate OneLineParams(params: Params) {
    forall i :: 0 <= i < |params| ==> OneLine(params[i].0) && (params[i].1.Text? ==> OneLine(params[i].1.text))
  }

  lemma {:induction false} WellFormedOneLine(c: Compound, nested: bool)
    requires WellFormed(c, nested)
    ensures OneLiners(c)
    decreases c
  {
    hide CleanKey, CleanValue, CleanName;
    forall i | 0 <= i < |c.objects| ensures OneLine(c.objects[i].name) && OneLiners(c.objects[i]) {
      WellFormedOneLine(c.objects[i], true);
    }
  }

  lemma {:induction false} ParamsHaveNoNewlines(params: Params, nesting: nat)
    requires OneLineParams(params) && forall i :: 0 <= i < |params| ==> params[i].1.Text?
    ensures NoNewlines(ParamLines(params, nesting))
  {
    hide Blanks;
    if params != [] {
      ParamsHaveNoNewlines(params[..|params| - 1], nesting);
    }
  }

  lemma {:induction false} ObjectHasNoNewlines(c: Compound, nesting: nat)
    requires OneLine(c.name) && OneLiners(c) && Printable(c)
    ensures NoNewlines(ObjectLines(c, nesting))
    decreases c
  {
    hide Blanks, ParamLines, ObjectsLines;
    ParamsHaveNoNewlines(c.params, nesting);
    ObjectsHaveNoNewlines(c.objects, nesting + 4);
  }

  lemma {:induction false} ObjectsHaveNoNewlines(objects: seq<Compound>, nesting: nat)
    requires forall i :: 0 <= i < |objects| ==> OneLine(objects[i].name) && OneLiners(objects[i]) && Printable(objects[i])
    ensures NoNewlines(ObjectsLines(objects, nesting))
    decreases objects
  {
    hide ObjectLines, OneLiners, Printable;
    if objects != [] {
      ObjectsHaveNoNewlines(objects[..|objects| - 1], nesting);
      ObjectHasNoNewlines(objects[|objects| - 1], nesting);
    }
  }

  /** The lines of a printed file whose texts are each on one line. */
  lemma FileLines(c: Compound)
    requires Printable(c) && OneLiners(c)
    ensures TextLines(Print(c, 0)) == ParamLines(c.params, 0) + ObjectsLines(c.objects, 4)
  {
    hide Print, TextLines, Unlines, ParamLines, ObjectsLines;
    FilePrinted(c);
    ParamsHaveNoNewlines(c.params, 0);
    ObjectsHaveNoNewlines(c.objects, 4);
    LinesBack(ParamLines(c.params, 0) + ObjectsLines(c.objects, 4));
  }

  /** Reading what was printed gives the tree back, with all its compounds closed. */
  lemma PrintedBack(c: Compound, path: string)
    requires WellFormed(c, false)
    ensures Printable(c)
    ensures var z := Fold(Top(path), TextLines(Print(c, 0)), 0);
            z.parents == [] && Plain(z.cur) == Plain(c.(name := path))
  {
    hide Fold, Plain, PlainAll, Print, TextLines, Unlines, ParamLines, ObjectsLines, Printable, CleanParams, CleanName;
    WellFormedPrints(c, false);
    ObjectsPrint(c.objects, false);
    WellFormedOneLine(c, false);
    FileLines(c);
    var p, o := ParamLines(c.params, 0), ObjectsLines(c.objects, 4);
    FoldAppend(Top(path), p, o, 0);
    FoldParams(Top(path), c.params, 0, 0);
    var z := Top(path).(cur := Top(path).cur.(params := [] + c.params));
    var ds := FoldObjects(z, c.objects, 4, |p|);
    assert [] + ds == ds;
    PlainSame(z.cur.(objects := [] + ds), c.(name := path));
  }
}
