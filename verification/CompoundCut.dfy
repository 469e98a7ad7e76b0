/**
 Cutting a compound out of a configuration file by its line numbers. The parser
 counts lines that "\n", "\r" and "\r\n" end; sed, which deletes them, only those
 that "\n" ends.
 */
module CompoundCut {
  import opened ConfText
  import opened CompoundConf
  import opened CompoundPrint

  function Parse(path: string, text: string): Cursor { Fold(Top(path), TextLines(text), 0) }

  /** The size of the first line, with what ends it. */
  function LineSize(s: string): (k: nat)
    requires s != ""
    ensures 0 < k <= |s| && LineEnd(s) <= k
  {
    var k := LineEnd(s);
    if k == |s| then k else if s[k] == '\r' && k + 1 < |s| && s[k + 1] == '\n' then k + 2 else k + 1
  }

  /** Where the first n lines end. */
  function Taken(s: string, n: nat): (k: nat)
    ensures k <= |s|
    decreases n
  {
    if n == 0 || s == "" then 0 else LineSize(s) + Taken(s[LineSize(s)..], n - 1)
  }

  /** The same for a line as sed counts it. */
  function SedSize(s: string): (k: nat)
    requires s != ""
    ensures 0 < k <= |s| && (k < |s| ==> s[k - 1] == '\n') && forall j :: 0 <= j < k - 1 ==> s[j] != '\n'
  {
    if s[0] == '\n' || |s| == 1 then 1 else 1 + SedSize(s[1..])
  }

  function SedTaken(s: string, n: nat): (k: nat)
    ensures k <= |s|
    decreases n
  {
    if n == 0 || s == "" then 0 else SedSize(s) + SedTaken(s[SedSize(s)..], n - 1)
  }

  /** sed 'from,tod': a last line at or before the first one deletes the first one only. */
  function Sed(text: string, from: nat, to: nat): string
    requires 1 <= from
  {
    text[..SedTaken(text, from - 1)] + text[SedTaken(text, if to <= from then from else to)..]
  }

  /** No "\r" that starts before k ends a line by itself. */
  predicate NoLoneReturn(s: string, k: nat)
    requires k <= |s|
  {
    forall i :: 0 <= i < k && s[i] == '\r' ==> i + 1 < |s| && s[i + 1] == '\n'
  }

  // ---- the parser's lines --------------------------------------------------

  lemma FirstLine(s: string)
    requires s != ""
    ensures TextLines(s) == [s[..LineEnd(s)]] + TextLines(s[LineSize(s)..])
  {
    hide LineEnd;
    if LineEnd(s) == |s| {
      assert s[|s|..] == "" && s[..|s|] == s;
      NoLines();
    }
  }

  lemma NothingTaken(n: nat)
    ensures Taken("", n) == SedTaken("", n) == 0
  {
  }

  lemma TakeLine(s: string, n: nat)
    requires s != ""
    ensures Taken(s, n + 1) == LineSize(s) + Taken(s[LineSize(s)..], n)
    ensures SedTaken(s, n + 1) == SedSize(s) + SedTaken(s[SedSize(s)..], n)
  {
    hide LineSize, SedSize;
  }

  /** What follows the first n lines are the other lines. */
  lemma {:induction false} RestLines(s: string, n: nat)
    requires n <= |TextLines(s)|
    ensures TextLines(s[Taken(s, n)..]) == TextLines(s)[n..]
    ensures n < |TextLines(s)| <==> Taken(s, n) < |s|
    decreases n
  {
    hide TextLines, LineSize, LineEnd, Taken;
    NoLines();
    NothingTaken(n);
    if n == 0 {
      assert Taken(s, 0) == 0 by { TakeNothing(s); }
      assert s[0..] == s;
      if s != "" { FirstLine(s); }
    } else {
      assert s != "";
      FirstLine(s);
      TakeLine(s, n - 1);
      var rest := s[LineSize(s)..];
      RestLines(rest, n - 1);
      assert rest[Taken(rest, n - 1)..] == s[Taken(s, n)..];
    }
  }

  lemma TakeNothing(s: string)
    ensures Taken(s, 0) == SedTaken(s, 0) == 0
  {
  }

  /** The first n lines are read as such whatever follows them, if a newline ends the last of them. */
  lemma {:induction false} FirstLines(s: string, n: nat, b: string)
    requires n <= |TextLines(s)| && Taken(s, n) < |s| && NoLoneReturn(s, Taken(s, n))
    ensures TextLines(s[..Taken(s, n)] + b) == TextLines(s)[..n] + TextLines(b)
    decreases n
  {
    hide TextLines, Taken, LineSize, LineEnd, NoLoneReturn;
    if n == 0 {
      TakeNothing(s);
      assert s[..0] + b == b;
    } else {
      var k := LineSize(s);
      var rest := s[k..];
      FirstLine(s);
      TakeLine(s, n - 1);
      LaterReturns(s, k, Taken(rest, n - 1));
      FirstLines(rest, n - 1, b);
      var more := rest[..Taken(rest, n - 1)] + b;
      assert s[..Taken(s, n)] + b == s[..k] + more;
      SameFirst(s, Taken(s, n), more);
      FirstLine(s[..k] + more);
      assert (s[..k] + more)[k..] == more;
      assert (s[..k] + more)[..LineEnd(s)] == s[..LineEnd(s)];
    }
  }

  lemma LaterReturns(s: string, k: nat, m: nat)
    requires k + m <= |s|
    ensures NoLoneReturn(s, k + m) <==> NoLoneReturn(s, k) && NoLoneReturn(s[k..], m)
  {
    var t := s[k..];
    assert forall i :: k <= i < |s| ==> s[i] == t[i - k];
    if NoLoneReturn(s, k + m) {
      forall i | 0 <= i < m && t[i] == '\r' ensures i + 1 < |t| && t[i + 1] == '\n' {
        assert s[k + i] == '\r';
      }
    }
  }

  lemma SameFirst(s: string, t: nat, more: string)
    requires s != "" && LineSize(s) <= t < |s| && NoLoneReturn(s, t)
    ensures var r := s[..LineSize(s)] + more;
            LineEnd(r) == LineEnd(s) && LineSize(r) == LineSize(s)
  {
    var k := LineEnd(s);
    var r := s[..LineSize(s)] + more;
    assert forall j :: 0 <= j < LineSize(s) ==> r[j] == s[j];
    assert s[k] == '\r' ==> s[k + 1] == '\n';
    FirstEnd(r, k);
  }

  lemma {:induction false} FirstEnd(s: string, k: nat)
    requires k < |s| && EndsLine(s[k]) && forall j :: 0 <= j < k ==> !EndsLine(s[j])
    ensures LineEnd(s) == k
  {
  }

  // ---- the parser's lines and sed's ----------------------------------------

  /** One more line goes further, unless there is none. */
  lemma {:induction false} SedFurther(s: string, n: nat)
    ensures SedTaken(s, n) < SedTaken(s, n + 1) || SedTaken(s, n) == SedTaken(s, n + 1) == |s|
    decreases n
  {
    hide SedSize;
    if s != "" && n > 0 { SedFurther(s[SedSize(s)..], n - 1); }
  }

  /** A first line that a lone "\r" ends: sed's goes on behind it. */
  lemma SedPast(s: string, k: nat, n: nat)
    requires 0 < k < |s| && (forall j :: 0 <= j < k ==> s[j] != '\n')
    ensures SedTaken(s, n + 1) == k + SedTaken(s[k..], n + 1)
  {
    hide SedTaken, SedSize;
    var t := s[k..];
    SizePast(s, k);
    TakeLine(s, n);
    TakeLine(t, n);
    assert s[SedSize(s)..] == t[SedSize(t)..];
  }

  lemma {:induction false} SizePast(s: string, k: nat)
    requires k < |s| && (forall j :: 0 <= j < k ==> s[j] != '\n')
    ensures SedSize(s) == k + SedSize(s[k..])
    decreases k
  {
    if k == 0 {
      assert s[0..] == s;
    } else {
      SizePast(s[1..], k - 1);
      assert s[1..][k - 1..] == s[k..];
    }
  }

  /** The first line is the same for both, or a lone "\r" ends the parser's. */
  lemma SizesOf(s: string)
    requires s != ""
    ensures LineSize(s) <= SedSize(s)
    ensures NoLoneReturn(s, LineSize(s)) ==> LineSize(s) == SedSize(s)
    ensures !NoLoneReturn(s, LineSize(s)) ==> forall j :: 0 <= j < LineSize(s) ==> s[j] != '\n'
  {
    hide LineEnd, SedSize;
    var k := LineEnd(s);
    assert forall j :: 0 <= j < k ==> !EndsLine(s[j]);
    if k == |s| {
      SedSizeIs(s, |s|);
    } else if s[k] == '\n' {
      SedSizeIs(s, k + 1);
    } else if k + 1 < |s| && s[k + 1] == '\n' {
      SedSizeIs(s, k + 2);
    } else {
      assert LineSize(s) == k + 1 && s[k] == '\r';
      assert !NoLoneReturn(s, k + 1);
      assert SedSize(s) >= k + 1;
    }
  }

  lemma SedSizeIs(s: string, k: nat)
    requires 0 < k <= |s| && (s[k - 1] == '\n' || k == |s|) && forall j :: 0 <= j < k - 1 ==> s[j] != '\n'
    ensures SedSize(s) == k
  {
    hide SedSize;
  }

  /**
   sed's first n lines end where the parser's do, or later. Before the end of the
   text they end at the same place if and only if no lone "\r" stands before it.
   */
  lemma {:induction false} SameEnd(s: string, n: nat)
    ensures Taken(s, n) <= SedTaken(s, n)
    ensures Taken(s, n) < |s| ==> (SedTaken(s, n) == Taken(s, n) <==> NoLoneReturn(s, Taken(s, n)))
    decreases n
  {
    hide Taken, SedTaken, LineSize, SedSize, NoLoneReturn;
    TakeNothing(s);
    NothingTaken(n);
    if n == 0 || s == "" {
      NoReturns(s);
    } else {
      var k := LineSize(s);
      var t := s[k..];
      TakeLine(s, n - 1);
      LaterReturns(s, k, Taken(t, n - 1));
      SameEnd(t, n - 1);
      SizesOf(s);
      if !NoLoneReturn(s, k) && k < |s| {
        SedPast(s, k, n - 1);
        SedFurther(t, n - 1);
      }
    }
  }

  lemma NoReturns(s: string)
    ensures NoLoneReturn(s, 0)
  {
  }

  // ---- the law -------------------------------------------------------------

  /** sed deletes the text of the compound, from its first character to its last. */
  predicate CutsExactly(text: string, c: Compound)
    requires c.lineStart >= 1
  {
    SedTaken(text, c.lineStart - 1) == Taken(text, c.lineStart - 1) && SedTaken(text, c.lineEnd) == Taken(text, c.lineEnd)
  }

  /** No lone "\r" stands before the end of the compound, or before its start if it ends the file. */
  predicate Straight(text: string, c: Compound)
    requires c.lineStart >= 1
  {
    NoLoneReturn(text, Taken(text, if Taken(text, c.lineEnd) == |text| then c.lineStart - 1 else c.lineEnd))
  }

  /**
   In a file whose compounds are all closed, sed deletes exactly the text of a
   compound if and only if no lone "\r" is in the way. Then the file reads as the
   same tree without that compound, and without that one only.
   */
  lemma DeleteCompound(path: string, text: string, c: Compound)
    requires Balanced(TextLines(text)) && Inside(c, Parse(path, text).cur)
    ensures var tree := Parse(path, text).cur;
            1 <= c.lineStart < c.lineEnd <= |TextLines(text)| && Count(tree, c.lineStart) == 1
    ensures CutsExactly(text, c) <==> Straight(text, c)
    ensures Straight(text, c) ==>
              var rest := Parse(path, Sed(text, c.lineStart, c.lineEnd));
              rest.parents == [] && Plain(rest.cur) == Plain(Without(Parse(path, text).cur, c.lineStart))
  {
    hide Fold, Plain, Without, Inside, Count, Balanced, TextLines, Taken, SedTaken, NoLoneReturn;
    var lines, s, e := TextLines(text), c.lineStart, c.lineEnd;
    DeleteLines(path, lines, c);
    RestLines(text, s - 1);
    RestLines(text, e);
    SameEnd(text, s - 1);
    SameEnd(text, e);
    FewerReturns(text, s - 1, e);
    if Straight(text, c) {
      FirstLines(text, s - 1, text[Taken(text, e)..]);
      assert Sed(text, s, e) == text[..Taken(text, s - 1)] + text[Taken(text, e)..];
    }
  }

  lemma FewerReturns(s: string, m: nat, n: nat)
    requires m <= n
    ensures Taken(s, m) <= Taken(s, n) && (NoLoneReturn(s, Taken(s, n)) ==> NoLoneReturn(s, Taken(s, m)))
  {
    TakenMore(s, m, n);
  }

  lemma {:induction false} TakenMore(s: string, m: nat, n: nat)
    requires m <= n
    ensures Taken(s, m) <= Taken(s, n)
    decreases m
  {
    hide LineSize;
    if s != "" && m > 0 { TakenMore(s[LineSize(s)..], m - 1, n - 1); }
  }

  // ---- a file that is cut in the wrong place -------------------------------

  /** A file as sed sees it, and as the parser does. */
  const SED_LINES: seq<string> := ["x = 1\ry = 2", "a {", "b = c", "}", "d {", "e = f", "}"]
  const PARSED_LINES: seq<string> := ["x = 1", "y = 2", "a {", "b = c", "}", "d {", "e = f", "}"]

  function Block(name: string, key: string, value: string): seq<string> { [name + " {", key + " = " + value, "}"] }

  function Child(name: string, key: string, value: string, from: nat): Compound {
    Compound(name, [(key, Text(value))], [], from, from + 2)
  }

  /**
   A lone "\r" in front of two compounds: to delete the first one sed takes out
   its parameter, its end and the head of the second one. What is left is the
   first one, with the parameter of the second.
   */
  lemma Shifted(path: string)
    ensures var text, a, d := Unlines(SED_LINES), Child("a", "b", "c", 3), Child("d", "e", "f", 6);
            var tree := Parse(path, text).cur;
            && Balanced(TextLines(text)) && tree.objects == [a, d] && Inside(a, tree) && !Straight(text, a)
            && Parse(path, Sed(text, a.lineStart, a.lineEnd)).cur.objects == [Child("a", "e", "f", 3)]
  {
    hide Balanced, TextLines, Unlines, Inside, Straight, Sed, Fold;
    var text, a, d := Unlines(SED_LINES), Child("a", "b", "c", 3), Child("d", "e", "f", 6);
    ShiftedText();
    ShiftedTree(path);
    ShiftedRest(path);
    WholeIff(path, PARSED_LINES);
    InsideFirst(Parse(path, text).cur, a);
    NotStraight(text, a);
  }

  lemma InsideFirst(tree: Compound, a: Compound)
    requires tree.objects != [] && tree.objects[0] == a
    ensures Inside(a, tree)
  {
  }

  /** The text begins with a line that "\r" ends. */
  lemma ShiftedText()
    ensures TextLines(Unlines(SED_LINES)) == PARSED_LINES
    ensures "x = 1\ry" <= Unlines(SED_LINES)
    ensures TextLines(Unlines(SED_LINES[..2] + SED_LINES[5..])) == PARSED_LINES[..3] + PARSED_LINES[6..]
  {
    hide Unlines, TextLines;
    ReturnLine(SED_LINES[1..]);
    ReturnLine(SED_LINES[1..2] + SED_LINES[5..]);
    assert ["x = 1\ry = 2"] + SED_LINES[1..] == SED_LINES;
    assert ["x = 1", "y = 2"] + SED_LINES[1..] == PARSED_LINES;
    assert ["x = 1\ry = 2"] + (SED_LINES[1..2] + SED_LINES[5..]) == SED_LINES[..2] + SED_LINES[5..];
    assert ["x = 1", "y = 2"] + (SED_LINES[1..2] + SED_LINES[5..]) == PARSED_LINES[..3] + PARSED_LINES[6..];
  }

  lemma ReturnLine(more: seq<string>)
    requires NoNewlines(more)
    ensures "x = 1\ry" <= Unlines(["x = 1\ry = 2"] + more)
    ensures TextLines(Unlines(["x = 1\ry = 2"] + more)) == ["x = 1", "y = 2"] + more
  {
    hide Unlines, TextLines;
    var rest := Unlines(more);
    UnlinesAppend(["x = 1\ry = 2"], more);
    UnlinesAppend(["y = 2"], more);
    UnlinesOne("x = 1\ry = 2");
    UnlinesOne("y = 2");
    assert "x = 1\ry = 2" + "\n" == "x = 1" + ['\r'] + ("y = 2" + "\n");
    LinesBack(["y = 2"] + more);
    var next := "y = 2" + "\n" + rest;
    assert next[0] == 'y' && Unlines(["x = 1\ry = 2"] + more) == "x = 1" + ['\r'] + next;
    assert ["x = 1"] + (["y = 2"] + more) == ["x = 1", "y = 2"] + more;
    TextStep("x = 1", '\r', next);
  }

  lemma NotStraight(text: string, c: Compound)
    requires "x = 1\ry" <= text && c.lineStart >= 2 && c.lineEnd >= 1
    ensures !Straight(text, c)
  {
    hide Taken;
    assert text == "x = 1" + ['\r'] + text[6..] && text[6] == 'y';
    LineEndAt("x = 1", '\r', text[6..]);
    TakeLine(text, 0);
    assert text[5] == '\r' && Taken(text, 1) >= 6;
    TakenMore(text, 1, c.lineStart - 1);
    TakenMore(text, 1, c.lineEnd);
  }

  lemma ShiftedTree(path: string)
    ensures var z := Fold(Top(path), PARSED_LINES, 0);
            z.parents == [] && z.cur.objects == [Child("a", "b", "c", 3), Child("d", "e", "f", 6)]
    ensures var z := Fold(Top(path), PARSED_LINES[..3] + PARSED_LINES[6..], 0);
            z.parents == [] && z.cur.objects == [Child("a", "e", "f", 3)]
  {
    hide Fold;
    var z := AddParam(AddParam(Top(path), "x", Text("1")), "y", Text("2"));
    TwoParams(path);
    var p, a, d, ad := PARSED_LINES[..2], Block("a", "b", "c"), Block("d", "e", "f"), Block("a", "e", "f");
    assert "a" + " {" == "a {" && "d" + " {" == "d {" && "b" + " = " + "c" == "b = c" && "e" + " = " + "f" == "e = f";
    assert PARSED_LINES == p + a + d && PARSED_LINES[..3] + PARSED_LINES[6..] == p + ad;
    FoldAppend(Top(path), p, a, 0);
    FoldAppend(Top(path), p + a, d, 0);
    FoldAppend(Top(path), p, ad, 0);
    BlockRead(z, "a", "b", "c", 2);
    BlockRead(AddObject(z, Child("a", "b", "c", 3)), "d", "e", "f", 5);
    BlockRead(z, "a", "e", "f", 2);
  }

  predicate Letter(s: string) { |s| == 1 && (s[0] == '1' || s[0] == '2' || 'a' <= s[0] <= 'z') }

  lemma CleanLetter(s: string)
    requires Letter(s)
    ensures CleanName(s, false) && CleanKey(s, false) && CleanKey(s, true) && CleanValue(s)
  {
    RStripNothing(s);
  }

  lemma TwoParams(path: string)
    ensures Fold(Top(path), PARSED_LINES[..2], 0) == AddParam(AddParam(Top(path), "x", Text("1")), "y", Text("2"))
  {
    hide Fold, Classify;
    CleanLetter("x");
    CleanLetter("1");
    CleanLetter("y");
    CleanLetter("2");
    ParamBack("", "x", "1", false);
    ParamBack("", "y", "2", false);
    assert "" + "x" + " = " + "1" == "x = 1" && "" + "y" + " = " + "2" == "y = 2";
    assert PARSED_LINES[..2] == ["x = 1"] + ["y = 2"];
    FoldAppend(Top(path), ["x = 1"], ["y = 2"], 0);
    FoldOne(Top(path), "x = 1", 0);
    FoldOne(AddParam(Top(path), "x", Text("1")), "y = 2", 1);
  }

  lemma BlockRead(z: Cursor, name: string, key: string, value: string, n: nat)
    requires z.parents == [] && Letter(name) && Letter(key) && Letter(value)
    ensures Fold(z, Block(name, key, value), n) == AddObject(z, Child(name, key, value, n + 1))
  {
    hide Fold, Classify, Letter, CleanKey, CleanName, CleanValue;
    CleanLetter(name);
    CleanLetter(key);
    CleanLetter(value);
    NameBack("", name, false);
    ParamBack("", key, value, true);
    EndRead();
    assert "" + name + " {" == name + " {" && "" + key + " = " + value == key + " = " + value;
    var h, p, inside := name + " {", key + " = " + value, Enter(z, name, n + 1);
    assert Block(name, key, value) == [h] + [p] + ["}"];
    FoldAppend(z, [h] + [p], ["}"], n);
    FoldAppend(z, [h], [p], n);
    FoldOne(z, h, n);
    FoldOne(inside, p, n + 1);
    var full := AddParam(inside, key, Text(value));
    FoldOne(full, "}", n + 2);
    assert Outer(full) == z && full.cur.params == [(key, Text(value))];
    assert full.cur.(lineEnd := n + 3) == Child(name, key, value, n + 1);
  }

  lemma EndRead()
    ensures Classify("}", true) == Close
  {
    RStripNothing("}");
  }

  /** Deleting sed's lines 3 to 5. */
  lemma ShiftedRest(path: string)
    ensures Sed(Unlines(SED_LINES), 3, 5) == Unlines(SED_LINES[..2] + SED_LINES[5..])
  {
    hide Unlines, SedTaken;
    var a, m, b := SED_LINES[..2], SED_LINES[2..5], SED_LINES[5..];
    assert SED_LINES == a + m + b && SED_LINES == a + (m + b);
    UnlinesAppend(a + m, b);
    UnlinesAppend(a, m + b);
    UnlinesAppend(a, b);
    SedUnlines(a, Unlines(m + b));
    SedUnlines(a + m, Unlines(b));
  }

  lemma SedLine(line: string, rest: string, n: nat)
    requires '\n' !in line
    ensures SedTaken(line + "\n" + rest, n + 1) == |line| + 1 + SedTaken(rest, n)
  {
    hide SedTaken, SedSize;
    var s := line + "\n" + rest;
    assert s[|line| + 1..] == rest && s[|line|] == '\n' && forall j :: 0 <= j < |line| ==> s[j] == line[j];
    SedSizeIs(s, |line| + 1);
    TakeLine(s, n);
  }

  /** Lines with a newline after each are sed's lines. */
  lemma {:induction false} SedUnlines(a: seq<string>, b: string)
    requires forall i :: 0 <= i < |a| ==> '\n' !in a[i]
    ensures SedTaken(Unlines(a) + b, |a|) == |Unlines(a)|
    decreases |a|
  {
    hide Unlines, SedTaken;
    if a == [] {
      NoLines();
      TakeNothing(b);
      assert Unlines(a) + b == b;
    } else {
      var line, rest := a[0], a[1..];
      assert a == [line] + rest;
      UnlinesAppend([line], rest);
      UnlinesOne(line);
      assert Unlines(a) + b == line + "\n" + (Unlines(rest) + b);
      SedLine(line, Unlines(rest) + b, |rest|);
      SedUnlines(rest, b);
    }
  }
}
