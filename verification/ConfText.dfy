/** The lines of a compound configuration file: what each means, and which texts survive being printed and read back. */
module ConfText {

  /** What Python strips, among the characters of latin1. */
  predicate IsSpace(c: char) {
    9 <= c as int <= 13 || 28 <= c as int <= 32 || c as int == 133 || c as int == 160
  }

  /** They are tab, the line and page ends, the separators, space, next line and the space that does not break. */
  lemma SpacesAre(c: char)
    ensures IsSpace(c) <==> c as int in [9, 10, 11, 12, 13, 28, 29, 30, 31, 32, 133, 160]
  {
  }

  function LStrip(s: string): (r: string)
    ensures |r| <= |s|
    ensures r != [] ==> !IsSpace(r[0])
  {
    if s != [] && IsSpace(s[0]) then LStrip(s[1..]) else s
  }

  function RStrip(s: string): (r: string)
    ensures r <= s
    ensures r != [] ==> !IsSpace(r[|r| - 1])
  {
    if s != [] && IsSpace(s[|s| - 1]) then RStrip(s[..|s| - 1]) else s
  }

  function Strip(s: string): (r: string)
    ensures |r| <= |s|
  {
    RStrip(LStrip(s))
  }

  function RStripSemicolons(s: string): (r: string)
    ensures r <= s
    ensures r != [] ==> r[|r| - 1] != ';'
  {
    if s != [] && s[|s| - 1] == ';' then RStripSemicolons(s[..|s| - 1]) else s
  }

  /** The index of the first '=', or |s|. */
  function FindEquals(s: string): (k: nat)
    ensures k <= |s| && (k < |s| ==> s[k] == '=') && '=' !in s[..k]
  {
    if s == [] || s[0] == '=' then 0
    else assert s[1..][..FindEquals(s[1..])] == s[..1 + FindEquals(s[1..])][1..]; 1 + FindEquals(s[1..])
  }

  datatype Value = Text(text: string) | True

  datatype Line = Blank | Close | Open(name: string) | Param(key: string, value: Value)

  /** What a line means, at the top of the file or inside a compound. */
  function Classify(raw: string, nested: bool): (r: Line)
    ensures r.Close? ==> nested
  {
    var line := Strip(raw);
    if line == [] || line[0] == '#' then Blank
    else if line[0] == '}' && nested then Close
    else if line[|line| - 1] == '{' then Open(Strip(line[..|line| - 1]))
    else
      var k := FindEquals(line);
      if k == |line| then Param(line, True)
      else Param(RStrip(line[..k]), Text(RStripSemicolons(LStrip(line[k + 1..]))))
  }

  // ---- stripping -----------------------------------------------------------

  lemma {:induction false} LStripAppend(a: string, b: string)
    requires b != [] && !IsSpace(b[0])
    ensures LStrip(a + b) == LStrip(a) + b
  {
    if a == [] {
      assert a + b == b;
    } else if IsSpace(a[0]) {
      assert (a + b)[1..] == a[1..] + b;
      LStripAppend(a[1..], b);
    }
  }

  lemma {:induction false} RStripAppend(a: string, b: string)
    requires a != [] && !IsSpace(a[|a| - 1])
    ensures RStrip(a + b) == a + RStrip(b)
  {
    if b == [] {
      assert a + b == a;
    } else if IsSpace(b[|b| - 1]) {
      assert (a + b)[..|a + b| - 1] == a + b[..|b| - 1];
      RStripAppend(a, b[..|b| - 1]);
    }
  }

  /** It does not matter which end is stripped first. */
  lemma {:induction false} StripEitherWay(s: string)
    ensures LStrip(RStrip(s)) == Strip(s)
  {
    var r := RStrip(s);
    if r == [] {
      AllSpace(s);
    } else {
      var b := s[|r|..];
      assert s == r + b;
      var l := LStrip(r);
      LStripEnds(r);
      LeadingSpace(r, b);
      assert LStrip(s) == l + b;
      RStripAppend(l, b);
      RStripAppend(r, b);
    }
  }

  /** A string that is stripped to nothing from one end is so from the other. */
  lemma {:induction false} AllSpace(s: string)
    requires RStrip(s) == []
    ensures LStrip(s) == []
  {
    if s != [] {
      AllSpace(s[..|s| - 1]);
      LStripSpaces(s[..|s| - 1], s[|s| - 1..]);
      assert s == s[..|s| - 1] + s[|s| - 1..];
    }
  }

  lemma {:induction false} LStripSpaces(a: string, b: string)
    requires LStrip(a) == []
    ensures LStrip(a + b) == LStrip(b)
  {
    if a == [] {
      assert a + b == b;
    } else {
      assert (a + b)[1..] == a[1..] + b;
      LStripSpaces(a[1..], b);
    }
  }

  lemma {:induction false} RStripSpaces(a: string, b: string)
    requires RStrip(b) == []
    ensures RStrip(a + b) == RStrip(a)
  {
    if b == [] {
      assert a + b == a;
    } else {
      assert (a + b)[..|a + b| - 1] == a + b[..|b| - 1];
      RStripSpaces(a, b[..|b| - 1]);
    }
  }

  lemma {:induction false} LStripEnds(r: string)
    requires r != [] && !IsSpace(r[|r| - 1])
    ensures LStrip(r) != [] && LStrip(r)[|LStrip(r)| - 1] == r[|r| - 1]
  {
    if IsSpace(r[0]) {
      LStripEnds(r[1..]);
    }
  }

  lemma {:induction false} LeadingSpace(r: string, b: string)
    requires LStrip(r) != []
    ensures LStrip(r + b) == LStrip(r) + b
  {
    if IsSpace(r[0]) {
      assert (r + b)[1..] == r[1..] + b;
      LeadingSpace(r[1..], b);
    }
  }

  predicate AllSpaces(s: string) { forall i :: 0 <= i < |s| ==> IsSpace(s[i]) }

  lemma {:induction false} Spaces(s: string)
    requires AllSpaces(s)
    ensures LStrip(s) == [] && RStrip(s) == []
  {
    if s != [] {
      Spaces(s[1..]);
      Spaces(s[..|s| - 1]);
    }
  }

  /** The end of a stripped line: what comes after '=' can be stripped on its own. */
  lemma ParamStripped(indent: string, key: string, value: string)
    requires AllSpaces(indent)
    ensures Strip(indent + key + " = " + value) == LStrip(key + " ") + "=" + RStrip(" " + value)
  {
    var k, v := key + " ", " " + value;
    assert indent + key + " = " + value == indent + k + ("=" + v);
    LStripAppend(indent + k, "=" + v);
    Spaces(indent);
    LStripSpaces(indent, k);
    var a := LStrip(k) + "=";
    assert LStrip(k) + ("=" + v) == a + v;
    RStripAppend(a, v);
  }

  lemma StripKey(key: string)
    ensures RStrip(LStrip(key + " ")) == Strip(key)
  {
    Spaces(" ");
    StripEitherWay(key + " ");
    RStripSpaces(key, " ");
    StripEitherWay(key);
  }

  lemma StripValue(value: string)
    ensures LStrip(RStrip(" " + value)) == Strip(value)
  {
    Spaces(" ");
    StripEitherWay(" " + value);
    LStripSpaces(" ", value);
  }

  lemma FirstEquals(a: string, b: string)
    requires '=' !in a
    ensures FindEquals(a + "=" + b) == |a|
  {
    var s := a + "=" + b;
    assert s[|a|] == '=' && s[..|a|] == a;
    assert forall i :: |a| < i <= |s| ==> s[|a|] in s[..i];
  }

  predicate Starts(s: string, c: char) { s != [] && s[0] == c }

  predicate Ends(s: string, c: char) { s != [] && s[|s| - 1] == c }

  /** Texts that a parameter, or the head of a compound, keeps when printed and read back. */
  predicate CleanKey(key: string, nested: bool) {
    Strip(key) == key && '=' !in key && !Starts(key, '#') && !(nested && Starts(key, '}'))
  }

  predicate CleanValue(value: string) {
    Strip(value) == value && !Ends(value, ';') && !Ends(value, '{')
  }

  predicate CleanName(name: string, nested: bool) {
    Strip(name) == name && !Starts(name, '#') && !(nested && Starts(name, '}'))
  }

  lemma {:induction false} RStripStarts(k: string)
    requires k != [] && !IsSpace(k[0])
    ensures RStrip(k) != [] && RStrip(k)[0] == k[0]
  {
    if IsSpace(k[|k| - 1]) { RStripStarts(k[..|k| - 1]); }
  }

  /** The first character of the stripped line of a parameter. */
  lemma ParamStarts(key: string, rest: string, c: char)
    requires c != '='
    ensures Starts(LStrip(key + " ") + "=" + rest, c) <==> Starts(Strip(key), c)
  {
    var k := LStrip(key + " ");
    StripKey(key);
    if k != [] {
      RStripStarts(k);
      assert (k + "=" + rest)[0] == k[0];
    } else {
      assert (k + "=" + rest)[0] == '=';
    }
  }

  /** Its last. */
  lemma ParamEnds(before: string, value: string, c: char)
    requires c != '='
    ensures Ends(before + "=" + RStrip(" " + value), c) <==> Ends(Strip(value), c)
  {
    var v := RStrip(" " + value);
    var line := before + "=" + v;
    StripValue(value);
    if v != [] {
      LStripEnds(v);
      assert line[|line| - 1] == v[|v| - 1];
    } else {
      assert line[|line| - 1] == '=';
    }
  }

  lemma KeyEquals(key: string)
    ensures '=' in LStrip(key + " ") <==> '=' in key
  {
    LStripKeeps(key + " ", '=');
    assert '=' in key + " " <==> '=' in key;
  }

  lemma {:induction false} LStripKeeps(s: string, c: char)
    requires !IsSpace(c)
    ensures c in LStrip(s) <==> c in s
  {
    if s != [] && IsSpace(s[0]) {
      LStripKeeps(s[1..], c);
      assert s == [s[0]] + s[1..];
    }
  }

  /** How a printed parameter is read when its key has no '='. */
  lemma ParamRead(indent: string, key: string, value: string, nested: bool)
    requires AllSpaces(indent) && '=' !in key
    requires !Starts(Strip(key), '#') && !(nested && Starts(Strip(key), '}')) && !Ends(Strip(value), '{')
    ensures Classify(indent + key + " = " + value, nested) == Param(Strip(key), Text(RStripSemicolons(Strip(value))))
  {
    hide Strip, LStrip, RStrip, RStripSemicolons, FindEquals, AllSpaces;
    var k, v := LStrip(key + " "), RStrip(" " + value);
    var line := k + "=" + v;
    ParamStripped(indent, key, value);
    ParamStarts(key, v, '#');
    ParamStarts(key, v, '}');
    ParamEnds(k, value, '{');
    KeyEquals(key);
    FirstEquals(k, v);
    StripKey(key);
    StripValue(value);
    assert line[..|k|] == k && line[|k| + 1..] == v;
  }

  /** A key that is read back has no '='. */
  lemma KeyReadHasNoEquals(raw: string, nested: bool)
    ensures match Classify(raw, nested) case Param(k, Text(_)) => '=' !in k case _ => true
  {
    hide Strip, RStripSemicolons, LStrip;
  }

  /** A printed parameter is read back as it was exactly when its key and value are clean. */
  lemma ParamBack(indent: string, key: string, value: string, nested: bool)
    requires AllSpaces(indent)
    ensures Classify(indent + key + " = " + value, nested) == Param(key, Text(value)) <==> CleanKey(key, nested) && CleanValue(value)
  {
    hide Strip, LStrip, RStrip, RStripSemicolons, FindEquals, AllSpaces, Classify;
    var line := indent + key + " = " + value;
    KeyReadHasNoEquals(line, nested);
    if '=' !in key {
      if Starts(Strip(key), '#') || (nested && Starts(Strip(key), '}')) || Ends(Strip(value), '{') {
        ParamRejected(indent, key, value, nested);
      } else {
        ParamRead(indent, key, value, nested);
        SemicolonsBack(value);
      }
    }
  }

  lemma ParamRejected(indent: string, key: string, value: string, nested: bool)
    requires AllSpaces(indent)
    requires Starts(Strip(key), '#') || (nested && Starts(Strip(key), '}')) || Ends(Strip(value), '{')
    ensures !Classify(indent + key + " = " + value, nested).Param?
  {
    hide Strip, LStrip, RStrip, RStripSemicolons, FindEquals, AllSpaces;
    var k, v := LStrip(key + " "), RStrip(" " + value);
    ParamStripped(indent, key, value);
    ParamStarts(key, v, '#');
    ParamStarts(key, v, '}');
    ParamEnds(k, value, '{');
  }

  lemma SemicolonsBack(value: string)
    ensures RStripSemicolons(Strip(value)) == value <==> Strip(value) == value && !Ends(value, ';')
  {
    hide Strip;
  }

  /** The printed head of a compound is read back as it was exactly when its name is clean. */
  lemma NameBack(indent: string, name: string, nested: bool)
    requires AllSpaces(indent)
    ensures Classify(indent + name + " {", nested) == Open(name) <==> CleanName(name, nested)
  {
    hide LStrip, RStrip, RStripSemicolons, FindEquals, AllSpaces;
    var k := LStrip(name + " ");
    assert indent + name + " {" == indent + (name + " ") + "{";
    LStripAppend(indent + (name + " "), "{");
    Spaces(indent);
    LStripSpaces(indent, name + " ");
    RStripNothing(k + "{");
    assert Strip(indent + name + " {") == k + "{" && (k + "{")[..|k|] == k;
    StripKey(name);
    StripTwice(name);
    if k != [] { RStripStarts(k); }
  }

  lemma RStripNothing(s: string)
    requires s != [] && !IsSpace(s[|s| - 1])
    ensures RStrip(s) == s
  {
  }

  lemma StripTwice(name: string)
    ensures Strip(LStrip(name + " ")) == Strip(name)
  {
    hide RStrip;
    LStripTwice(name + " ");
    StripKey(name);
  }

  lemma LStripTwice(s: string)
    ensures LStrip(LStrip(s)) == LStrip(s)
  {
  }
}
