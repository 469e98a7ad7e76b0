/**
 Exactly which trees come back when they are printed and read: the well-formed
 ones. Reading may take a printed line for something else, but a tree has only
 so many parameters and compounds: if they all come back, and are all closed,
 then no line was misread.
 */
module CompoundExact {
  import opened ConfText
  import opened CompoundConf
  import opened CompoundPrint

  // ---- counting in trees ---------------------------------------------------

  datatype What = AnyParam | BareParam | AnyObject

  function Bare(params: Params): nat {
    if params == [] then 0
    else Bare(params[..|params| - 1]) + if params[|params| - 1].1.True? then 1 else 0
  }

  /** How many parameters, parameters without '=', or compounds are in c, at any depth. */
  function Weigh(c: Compound, w: What): nat
    decreases c
  {
    (match w case AnyParam => |c.params| case BareParam => Bare(c.params) case AnyObject => 0) + WeighAll(c.objects, w)
  }

  function WeighAll(objects: seq<Compound>, w: What): nat
    decreases objects
  {
    if objects == [] then 0
    else
      WeighAll(objects[..|objects| - 1], w) + (if w.AnyObject? then 1 else 0) + Weigh(objects[|objects| - 1], w)
  }

  /** The same for everything read so far; open compounds count too. */
  ghost function WeighCursor(z: Cursor, w: What): nat
    decreases |z.parents|
  {
    Weigh(z.cur, w) + if z.parents == [] then 0 else (if w.AnyObject? then 1 else 0) + WeighCursor(Outer(z), w)
  }

  datatype LineKind = KBlank | KClose | KOpen | KText | KBare

  function KindOf(l: Line): LineKind {
    match l
    case Blank => KBlank
    case Close => KClose
    case Open(_) => KOpen
    case Param(_, v) => if v.True? then KBare else KText
  }

  function Gain(k: LineKind, w: What): nat {
    match w
    case AnyParam => if k.KText? || k.KBare? then 1 else 0
    case BareParam => if k.KBare? then 1 else 0
    case AnyObject => if k.KOpen? then 1 else 0
  }

  lemma BareMore(params: Params, p: (string, Value))
    ensures Bare(params + [p]) == Bare(params) + if p.1.True? then 1 else 0
  {
    assert (params + [p])[..|params|] == params;
  }

  lemma WeighMore(objects: seq<Compound>, d: Compound, w: What)
    ensures WeighAll(objects + [d], w) == WeighAll(objects, w) + (if w.AnyObject? then 1 else 0) + Weigh(d, w)
  {
    assert (objects + [d])[..|objects|] == objects;
  }

  lemma WeighNew(name: string, n: nat, w: What)
    ensures Weigh(Compound(name, [], [], n, 0), w) == 0
  {
  }

  lemma WeighParam(c: Compound, p: (string, Value), w: What)
    ensures Weigh(c.(params := c.params + [p]), w) == Weigh(c, w) + Gain(if p.1.True? then KBare else KText, w)
  {
    hide WeighAll, Bare;
    BareMore(c.params, p);
  }

  lemma WeighObject(c: Compound, d: Compound, n: nat, w: What)
    ensures Weigh(c.(objects := c.objects + [d.(lineEnd := n)]), w) == Weigh(c, w) + (if w.AnyObject? then 1 else 0) + Weigh(d, w)
  {
    hide WeighAll, Bare;
    WeighMore(c.objects, d.(lineEnd := n), w);
  }

  lemma EnterWeighs(z: Cursor, name: string, n: nat, w: What)
    ensures WeighCursor(Enter(z, name, n), w) == WeighCursor(z, w) + Gain(KOpen, w)
  {
    hide Weigh;
    WeighNew(name, n, w);
    assert Outer(Enter(z, name, n)) == z;
  }

  lemma LeaveWeighs(z: Cursor, n: nat, w: What)
    requires z.parents != []
    ensures WeighCursor(Leave(z, n), w) == WeighCursor(z, w)
  {
    hide Weigh;
    var out := Outer(z);
    WeighObject(out.cur, z.cur, n, w);
    assert out.parents != [] ==> Outer(Leave(z, n)) == Outer(out);
  }

  lemma ParamWeighs(z: Cursor, k: string, v: Value, w: What)
    ensures WeighCursor(AddParam(z, k, v), w) == WeighCursor(z, w) + Gain(if v.True? then KBare else KText, w)
  {
    hide Weigh;
    WeighParam(z.cur, (k, v), w);
    assert z.parents != [] ==> Outer(AddParam(z, k, v)) == Outer(z);
  }

  lemma StepWeighs(z: Cursor, raw: string, n: nat, w: What)
    ensures WeighCursor(Step(z, raw, n), w) == WeighCursor(z, w) + Gain(KindOf(Classify(raw, z.parents != [])), w)
  {
    hide Classify, WeighCursor, Enter, Leave, AddParam;
    match Classify(raw, z.parents != [])
    case Blank =>
    case Param(k, v) => ParamWeighs(z, k, v, w);
    case Open(name) => EnterWeighs(z, name, n, w);
    case Close => LeaveWeighs(z, n, w);
  }

  // ---- what lines are meant as, and read as --------------------------------

  datatype Sort = ABlank | AHead | AParam | AnEnd

  /** Where a line of sort s was read as k. */
  function Cells(z: Cursor, lines: seq<string>, sorts: seq<Sort>, n: nat, s: Sort, k: LineKind): nat
    requires |lines| == |sorts|
    decreases |lines|
  {
    if lines == [] then 0
    else
      (if sorts[0] == s && KindOf(Classify(lines[0], z.parents != [])) == k then 1 else 0)
      + Cells(Step(z, lines[0], n + 1), lines[1..], sorts[1..], n + 1, s, k)
  }

  function SortCount(sorts: seq<Sort>, s: Sort): nat {
    if sorts == [] then 0 else (if sorts[0] == s then 1 else 0) + SortCount(sorts[1..], s)
  }

  /** What a printed line of each sort can be read as. */
  predicate Allowed(s: Sort, k: LineKind) {
    match s
    case ABlank => k.KBlank?
    case AHead => k.KBlank? || k.KClose? || k.KOpen?
    case AParam => !k.KBare?
    case AnEnd => k.KClose? || k.KBare?
  }

  predicate Right(s: Sort, k: LineKind) {
    match s case ABlank => k.KBlank? case AHead => k.KOpen? case AParam => k.KText? case AnEnd => k.KClose?
  }

  /** However they are nested, these lines can only be read in the allowed ways. */
  ghost predicate AllAllowed(lines: seq<string>, sorts: seq<Sort>) {
    |lines| == |sorts|
    && forall i, nested :: 0 <= i < |lines| ==> Allowed(sorts[i], KindOf(Classify(lines[i], nested)))
  }

  /** Every line is read as it was meant. */
  ghost predicate Reads(z: Cursor, lines: seq<string>, sorts: seq<Sort>, n: nat)
    requires |lines| == |sorts|
    decreases |lines|
  {
    lines != [] ==>
      && Right(sorts[0], KindOf(Classify(lines[0], z.parents != [])))
      && Reads(Step(z, lines[0], n + 1), lines[1..], sorts[1..], n + 1)
  }

  lemma {:induction false} RowSums(z: Cursor, lines: seq<string>, sorts: seq<Sort>, n: nat, s: Sort)
    requires |lines| == |sorts|
    ensures SortCount(sorts, s)
         == Cells(z, lines, sorts, n, s, KBlank) + Cells(z, lines, sorts, n, s, KClose) + Cells(z, lines, sorts, n, s, KOpen)
            + Cells(z, lines, sorts, n, s, KText) + Cells(z, lines, sorts, n, s, KBare)
    decreases |lines|
  {
    hide Step, Classify;
    if lines != [] { RowSums(Step(z, lines[0], n + 1), lines[1..], sorts[1..], n + 1, s); }
  }

  /** How many lines were read as k. */
  function Column(z: Cursor, lines: seq<string>, sorts: seq<Sort>, n: nat, k: LineKind): nat
    requires |lines| == |sorts|
  {
    Cells(z, lines, sorts, n, ABlank, k) + Cells(z, lines, sorts, n, AHead, k)
    + Cells(z, lines, sorts, n, AParam, k) + Cells(z, lines, sorts, n, AnEnd, k)
  }

  lemma {:induction false} ColumnWeighs(z: Cursor, lines: seq<string>, sorts: seq<Sort>, n: nat, w: What)
    requires |lines| == |sorts|
    ensures WeighCursor(Fold(z, lines, n), w) == WeighCursor(z, w)
            + match w
              case AnyParam => Column(z, lines, sorts, n, KText) + Column(z, lines, sorts, n, KBare)
              case BareParam => Column(z, lines, sorts, n, KBare)
              case AnyObject => Column(z, lines, sorts, n, KOpen)
    decreases |lines|
  {
    hide Step, Classify, WeighCursor;
    if lines != [] {
      StepWeighs(z, lines[0], n + 1, w);
      ColumnWeighs(Step(z, lines[0], n + 1), lines[1..], sorts[1..], n + 1, w);
    }
  }

  lemma {:induction false} ColumnDepth(z: Cursor, lines: seq<string>, sorts: seq<Sort>, n: nat)
    requires |lines| == |sorts|
    ensures |Fold(z, lines, n).parents| == |z.parents| + Column(z, lines, sorts, n, KOpen) - Column(z, lines, sorts, n, KClose)
    decreases |lines|
  {
    hide Classify;
    if lines != [] {
      ColumnDepth(Step(z, lines[0], n + 1), lines[1..], sorts[1..], n + 1);
    }
  }

  lemma {:induction false} NeverRead(z: Cursor, lines: seq<string>, sorts: seq<Sort>, n: nat, s: Sort, k: LineKind)
    requires AllAllowed(lines, sorts) && !Allowed(s, k)
    ensures Cells(z, lines, sorts, n, s, k) == 0
    decreases |lines|
  {
    hide Step, Classify, Allowed;
    if lines != [] { NeverRead(Step(z, lines[0], n + 1), lines[1..], sorts[1..], n + 1, s, k); }
  }

  lemma {:induction false} NoneMisread(z: Cursor, lines: seq<string>, sorts: seq<Sort>, n: nat)
    requires |lines| == |sorts|
    requires forall s, k :: !Right(s, k) ==> Cells(z, lines, sorts, n, s, k) == 0
    ensures Reads(z, lines, sorts, n)
    decreases |lines|
  {
    hide Step, Classify, Right;
    if lines != [] {
      var k0 := KindOf(Classify(lines[0], z.parents != []));
      assert Right(sorts[0], k0) || Cells(z, lines, sorts, n, sorts[0], k0) == 0;
      var w := Step(z, lines[0], n + 1);
      forall s, k | !Right(s, k) ensures Cells(w, lines[1..], sorts[1..], n + 1, s, k) == 0 {
        assert Cells(z, lines, sorts, n, s, k) == 0;
      }
      NoneMisread(w, lines[1..], sorts[1..], n + 1);
    }
  }

  /** The counting argument. */
  lemma AllRead(z: Cursor, lines: seq<string>, sorts: seq<Sort>, n: nat, p: nat, c: nat)
    requires |lines| == |sorts| && AllAllowed(lines, sorts)
    requires SortCount(sorts, AParam) == p && SortCount(sorts, AHead) == SortCount(sorts, AnEnd) == c
    requires Column(z, lines, sorts, n, KText) + Column(z, lines, sorts, n, KBare) == p
    requires Column(z, lines, sorts, n, KBare) == 0
    requires Column(z, lines, sorts, n, KOpen) == Column(z, lines, sorts, n, KClose) == c
    ensures Reads(z, lines, sorts, n)
  {
    hide Cells, AllAllowed, Reads;
    RowSums(z, lines, sorts, n, ABlank);
    RowSums(z, lines, sorts, n, AHead);
    RowSums(z, lines, sorts, n, AParam);
    RowSums(z, lines, sorts, n, AnEnd);
    forall s, k | !Allowed(s, k) ensures Cells(z, lines, sorts, n, s, k) == 0 {
      NeverRead(z, lines, sorts, n, s, k);
    }
    assert Cells(z, lines, sorts, n, AnEnd, KClose) == c;
    forall s, k | !Right(s, k) ensures Cells(z, lines, sorts, n, s, k) == 0 {
    }
    NoneMisread(z, lines, sorts, n);
  }

  // ---- the lines of a printed tree -----------------------------------------

  function ParamSorts(n: nat): (s: seq<Sort>)
    ensures |s| == n && forall i :: 0 <= i < n ==> s[i] == AParam
  {
    seq(n, _ => AParam)
  }

  function ObjectSorts(c: Compound): seq<Sort>
    decreases c
  {
    [ABlank, AHead] + ParamSorts(|c.params|) + ObjectsSorts(c.objects) + [AnEnd]
  }

  function ObjectsSorts(objects: seq<Compound>): seq<Sort>
    decreases objects
  {
    if objects == [] then [] else ObjectsSorts(objects[..|objects| - 1]) + ObjectSorts(objects[|objects| - 1])
  }

  lemma {:induction false} SortsAppend(a: seq<Sort>, b: seq<Sort>, s: Sort)
    ensures SortCount(a + b, s) == SortCount(a, s) + SortCount(b, s)
    decreases |a|
  {
    if a == [] {
      assert a + b == b;
    } else {
      assert (a + b)[1..] == a[1..] + b;
      SortsAppend(a[1..], b, s);
    }
  }

  lemma {:induction false} ParamSortCount(n: nat, s: Sort)
    ensures SortCount(ParamSorts(n), s) == if s.AParam? then n else 0
  {
    if n > 0 {
      ParamSortCount(n - 1, s);
      assert ParamSorts(n)[1..] == ParamSorts(n - 1);
    }
  }

  /** What a sort of line stands for in the tree. */
  function Stands(s: Sort): What { if s.AParam? then AnyParam else AnyObject }

  lemma {:induction false} ObjectSortCount(c: Compound, s: Sort)
    requires s != ABlank
    ensures SortCount(ObjectSorts(c), s) == Weigh(c, Stands(s)) + if s.AParam? then 0 else 1
    decreases c
  {
    hide WeighAll, ObjectsSorts, SortCount, Bare;
    var a, p, o, e := [ABlank, AHead], ParamSorts(|c.params|), ObjectsSorts(c.objects), [AnEnd];
    SortsAppend(a + p + o, e, s);
    SortsAppend(a + p, o, s);
    SortsAppend(a, p, s);
    ParamSortCount(|c.params|, s);
    ObjectsSortCount(c.objects, s);
    EdgeSorts(s);
  }

  lemma EdgeSorts(s: Sort)
    ensures SortCount([ABlank, AHead], s) == if s == ABlank || s == AHead then 1 else 0
    ensures SortCount([AnEnd], s) == if s == AnEnd then 1 else 0
  {
    assert [ABlank, AHead][1..] == [AHead] && [AHead][1..] == [] && [AnEnd][1..] == [];
    assert SortCount([AHead], s) == if s == AHead then 1 else 0;
  }

  lemma {:induction false} ObjectsSortCount(objects: seq<Compound>, s: Sort)
    requires s != ABlank
    ensures SortCount(ObjectsSorts(objects), s) == WeighAll(objects, Stands(s))
    decreases objects
  {
    hide Weigh, ObjectSorts;
    if objects != [] {
      var rest, last := objects[..|objects| - 1], objects[|objects| - 1];
      ObjectsSortCount(rest, s);
      ObjectSortCount(last, s);
      SortsAppend(ObjectsSorts(rest), ObjectSorts(last), s);
    }
  }

  // ---- how they can be read ------------------------------------------------

  lemma HeadKinds(indent: string, name: string, nested: bool)
    requires AllSpaces(indent)
    ensures Allowed(AHead, KindOf(Classify(indent + name + " {", nested)))
  {
    hide LStrip, RStrip, FindEquals, RStripSemicolons, AllSpaces;
    var k := LStrip(name + " ");
    assert indent + name + " {" == indent + (name + " ") + "{";
    LStripAppend(indent + (name + " "), "{");
    Spaces(indent);
    LStripSpaces(indent, name + " ");
    RStripNothing(k + "{");
    assert Strip(indent + name + " {") == k + "{";
  }

  lemma EndKinds(indent: string, nested: bool)
    requires AllSpaces(indent)
    ensures Allowed(AnEnd, KindOf(Classify(indent + "}", nested)))
  {
    hide LStrip, RStrip, RStripSemicolons, AllSpaces;
    Spaces(indent);
    LStripAppend(indent, "}");
    assert LStrip(indent) + "}" == "}";
    RStripNothing("}");
    assert "}"[1..] == "";
    assert FindEquals("") == 0;
  }

  lemma ParamKinds(indent: string, key: string, value: string, nested: bool)
    requires AllSpaces(indent)
    ensures Allowed(AParam, KindOf(Classify(indent + key + " = " + value, nested)))
  {
    hide Strip, LStrip, RStrip, RStripSemicolons, AllSpaces;
    var k, v := LStrip(key + " "), RStrip(" " + value);
    ParamStripped(indent, key, value);
    var line := k + "=" + v;
    assert line[|k|] == '=';
    assert line[..|line|] == line;
  }

  lemma AllowedAppend(a: seq<string>, b: seq<string>, s: seq<Sort>, t: seq<Sort>)
    requires AllAllowed(a, s) && AllAllowed(b, t)
    ensures AllAllowed(a + b, s + t)
  {
    hide Classify, Allowed, KindOf;
  }

  lemma {:induction false} ParamsAllowed(params: Params, nesting: nat)
    requires forall i :: 0 <= i < |params| ==> params[i].1.Text?
    ensures AllAllowed(ParamLines(params, nesting), ParamSorts(|params|))
  {
    hide Classify, Allowed, KindOf, Blanks;
    if params != [] {
      var rest := params[..|params| - 1];
      var (key, value) := params[|params| - 1];
      ParamsAllowed(rest, nesting);
      var line := Blanks(nesting) + key + " = " + value.text;
      forall nested ensures Allowed(AParam, KindOf(Classify(line, nested))) {
        ParamKinds(Blanks(nesting), key, value.text, nested);
      }
      AllowedAppend(ParamLines(rest, nesting), [line], ParamSorts(|rest|), [AParam]);
      assert ParamSorts(|rest|) + [AParam] == ParamSorts(|params|);
    }
  }

  lemma HeadAllowed(c: Compound, nesting: nat)
    ensures AllAllowed(Head(c, nesting), [ABlank, AHead]) && AllAllowed([Blanks(nesting - 4) + "}"], [AnEnd])
  {
    hide Blanks, Allowed, KindOf;
    var indent := Blanks(nesting - 4);
    forall nested
      ensures Allowed(ABlank, KindOf(Classify("", nested))) && Allowed(AHead, KindOf(Classify(indent + c.name + " {", nested)))
              && Allowed(AnEnd, KindOf(Classify(indent + "}", nested)))
    {
      HeadKinds(indent, c.name, nested);
      EndKinds(indent, nested);
      NothingBlank(nested);
    }
    hide Classify;
  }

  lemma NothingBlank(nested: bool)
    ensures Allowed(ABlank, KindOf(Classify("", nested)))
  {
  }

  lemma {:induction false} ObjectAllowed(c: Compound, nesting: nat)
    requires Printable(c)
    ensures AllAllowed(ObjectLines(c, nesting), ObjectSorts(c))
    decreases c
  {
    hide AllAllowed, Blanks, ParamLines, ObjectsLines, ObjectsSorts;
    var h, p, o := Head(c, nesting), ParamLines(c.params, nesting), ObjectsLines(c.objects, nesting + 4);
    HeadAllowed(c, nesting);
    ParamsAllowed(c.params, nesting);
    ObjectsAllowed(c.objects, nesting + 4);
    AllowedAppend(h, p, [ABlank, AHead], ParamSorts(|c.params|));
    AllowedAppend(h + p, o, [ABlank, AHead] + ParamSorts(|c.params|), ObjectsSorts(c.objects));
    AllowedAppend(h + p + o, [Blanks(nesting - 4) + "}"], [ABlank, AHead] + ParamSorts(|c.params|) + ObjectsSorts(c.objects), [AnEnd]);
  }

  lemma {:induction false} ObjectsAllowed(objects: seq<Compound>, nesting: nat)
    requires forall i :: 0 <= i < |objects| ==> Printable(objects[i])
    ensures AllAllowed(ObjectsLines(objects, nesting), ObjectsSorts(objects))
    decreases objects
  {
    hide ObjectLines, ObjectSorts, Printable, Classify, Allowed, KindOf;
    if objects != [] {
      var rest, last := objects[..|objects| - 1], objects[|objects| - 1];
      ObjectsAllowed(rest, nesting);
      ObjectAllowed(last, nesting);
      AllowedAppend(ObjectsLines(rest, nesting), ObjectLines(last, nesting), ObjectsSorts(rest), ObjectSorts(last));
    }
  }

  // ---- a tree whose lines are all read as they were meant -------------------

  lemma {:induction false} ReadsAppend(z: Cursor, a: seq<string>, b: seq<string>, s: seq<Sort>, t: seq<Sort>, n: nat)
    requires |a| == |s| && |b| == |t| && Reads(z, a + b, s + t, n)
    ensures Reads(z, a, s, n) && Reads(Fold(z, a, n), b, t, n + |a|)
    decreases |a|
  {
    hide Step, Classify, Right, KindOf;
    if a == [] {
      assert a + b == b && s + t == t;
    } else {
      assert (a + b)[1..] == a[1..] + b && (s + t)[1..] == s[1..] + t;
      ReadsAppend(Step(z, a[0], n + 1), a[1..], b, s[1..], t, n + 1);
    }
  }

  lemma ReadsOne(z: Cursor, line: string, s: Sort, n: nat)
    requires Reads(z, [line], [s], n)
    ensures Right(s, KindOf(Classify(line, z.parents != [])))
  {
    hide Step, Classify, Right, KindOf;
  }

  /** The parameters are read as many as they are; if they are read as they were, they were clean. */
  lemma {:induction false} ParamsReadBack(z: Cursor, params: Params, nesting: nat, n: nat) returns (ps: Params)
    requires OneLineParams(params) && forall i :: 0 <= i < |params| ==> params[i].1.Text?
    requires |ParamLines(params, nesting)| == |params| && Reads(z, ParamLines(params, nesting), ParamSorts(|params|), n)
    ensures Fold(z, ParamLines(params, nesting), n) == z.(cur := z.cur.(params := z.cur.params + ps))
    ensures ps == params ==> CleanParams(params, z.parents != [])
    decreases |params|
  {
    hide Fold, Classify, CleanKey, CleanValue, Blanks, Reads;
    if params == [] {
      ps := [];
      FoldNothing(z, n);
    } else {
      var rest := params[..|params| - 1];
      var (key, value) := params[|params| - 1];
      var line := Blanks(nesting) + key + " = " + value.text;
      var before := ParamLines(rest, nesting);
      assert ParamSorts(|params|) == ParamSorts(|rest|) + [AParam];
      ReadsAppend(z, before, [line], ParamSorts(|rest|), [AParam], n);
      var qs := ParamsReadBack(z, rest, nesting, n);
      FoldAppend(z, before, [line], n);
      var w := Fold(z, before, n);
      ReadsOne(w, line, AParam, n + |before|);
      FoldOne(w, line, n + |before|);
      var l := Classify(line, z.parents != []);
      ps := qs + [(l.key, l.value)];
      assert z.cur.params + qs + [(l.key, l.value)] == z.cur.params + ps;
      ParamBack(Blanks(nesting), key, value.text, z.parents != []);
      if ps == params {
        assert qs == rest && (l.key, l.value) == params[|params| - 1];
      }
    }
  }

  lemma HeadReadBack(z: Cursor, c: Compound, nesting: nat, n: nat) returns (name: string)
    requires Reads(z, Head(c, nesting), [ABlank, AHead], n)
    ensures Fold(z, Head(c, nesting), n) == Enter(z, name, n + 2)
    ensures name == c.name <==> CleanName(c.name, z.parents != [])
  {
    hide Fold, Classify, CleanName, Blanks, Reads;
    var line := Blanks(nesting - 4) + c.name + " {";
    assert Head(c, nesting) == [""] + [line] && [ABlank, AHead] == [ABlank] + [AHead];
    ReadsAppend(z, [""], [line], [ABlank], [AHead], n);
    ReadsOne(z, "", ABlank, n);
    FoldAppend(z, [""], [line], n);
    FoldOne(z, "", n);
    ReadsOne(z, line, AHead, n + 1);
    FoldOne(z, line, n + 1);
    NameBack(Blanks(nesting - 4), c.name, z.parents != []);
    name := Classify(line, z.parents != []).name;
  }

  lemma EndReadBack(z: Cursor, line: string, n: nat)
    requires Reads(z, [line], [AnEnd], n)
    ensures z.parents != [] && Fold(z, [line], n) == Leave(z, n + 1)
  {
    hide Fold, Classify, Reads;
    ReadsOne(z, line, AnEnd, n);
    FoldOne(z, line, n);
  }

  lemma {:induction false} LinesMatch(c: Compound, nesting: nat)
    requires Printable(c)
    ensures |ParamLines(c.params, nesting)| == |c.params|
    ensures |ObjectsLines(c.objects, nesting + 4)| == |ObjectsSorts(c.objects)|
  {
    hide Classify, Allowed, KindOf, Printable, ParamLines, ObjectsLines, ObjectsSorts;
    assert (forall i :: 0 <= i < |c.params| ==> c.params[i].1.Text?) && forall i :: 0 <= i < |c.objects| ==> Printable(c.objects[i]) by {
      PrintableParts(c);
    }
    ParamsAllowed(c.params, nesting);
    ObjectsAllowed(c.objects, nesting + 4);
  }

  lemma PrintableParts(c: Compound)
    requires Printable(c)
    ensures forall i :: 0 <= i < |c.params| ==> c.params[i].1.Text?
    ensures forall i :: 0 <= i < |c.objects| ==> Printable(c.objects[i])
  {
  }

  /** The same for a compound. */
  lemma {:induction false} ObjectReadBack(z: Cursor, c: Compound, nesting: nat, n: nat) returns (d: Compound)
    requires Printable(c) && OneLiners(c) && |ObjectLines(c, nesting)| == |ObjectSorts(c)|
    requires Reads(z, ObjectLines(c, nesting), ObjectSorts(c), n)
    ensures Fold(z, ObjectLines(c, nesting), n) == AddObject(z, d)
    ensures Plain(d) == Plain(c) ==> CleanName(c.name, z.parents != []) && WellFormed(c, true)
    decreases c, 1
  {
    hide Fold, Blanks, CleanName, Plain, PlainAll, ObjectsLines, ParamLines, Printable, CleanParams, Reads, ObjectsSorts;
    PrintableParts(c);
    LinesMatch(c, nesting);
    var h, p, o := Head(c, nesting), ParamLines(c.params, nesting), ObjectsLines(c.objects, nesting + 4);
    var end := [Blanks(nesting - 4) + "}"];
    var sh, sp, so := [ABlank, AHead], ParamSorts(|c.params|), ObjectsSorts(c.objects);
    ReadsAppend(z, h + p + o, end, sh + sp + so, [AnEnd], n);
    ReadsAppend(z, h + p, o, sh + sp, so, n);
    ReadsAppend(z, h, p, sh, sp, n);
    FoldAppend(z, h + p + o, end, n);
    FoldAppend(z, h + p, o, n);
    FoldAppend(z, h, p, n);
    var name := HeadReadBack(z, c, nesting, n);
    var inside := Enter(z, name, n + 2);
    var ps := ParamsReadBack(inside, c.params, nesting, n + 2);
    var filled := inside.(cur := inside.cur.(params := [] + ps));
    var ds := ObjectsReadBack(filled, c.objects, nesting + 4, n + |h + p|);
    var full := filled.(cur := filled.cur.(objects := [] + ds));
    EndReadBack(full, end[0], n + |h + p + o|);
    d := full.cur.(lineEnd := n + |h + p + o| + 1);
    assert Outer(full) == z;
    assert [] + ds == ds && [] + ps == ps;
    if Plain(d) == Plain(c) { SamePlain(d, c); }
  }

  lemma SamePlain(d: Compound, c: Compound)
    requires Plain(d) == Plain(c)
    ensures d.name == c.name && d.params == c.params && PlainAll(d.objects) == PlainAll(c.objects)
  {
  }

  lemma {:induction false} ObjectsReadBack(z: Cursor, objects: seq<Compound>, nesting: nat, n: nat) returns (ds: seq<Compound>)
    requires forall i :: 0 <= i < |objects| ==> Printable(objects[i]) && OneLine(objects[i].name) && OneLiners(objects[i])
    requires |ObjectsLines(objects, nesting)| == |ObjectsSorts(objects)| && Reads(z, ObjectsLines(objects, nesting), ObjectsSorts(objects), n)
    ensures Fold(z, ObjectsLines(objects, nesting), n) == z.(cur := z.cur.(objects := z.cur.objects + ds))
    ensures PlainAll(ds) == PlainAll(objects) ==> WellFormedObjects(objects, z.parents != [])
    decreases objects, 0
  {
    hide Fold, CleanName, Plain, PlainAll, ObjectLines, ObjectSorts, Printable, WellFormed, OneLiners, Reads, AllAllowed;
    if objects == [] {
      ds := [];
      FoldNothing(z, n);
    } else {
      var rest, last := objects[..|objects| - 1], objects[|objects| - 1];
      var before := ObjectsLines(rest, nesting);
      SameLengths(rest, last, nesting);
      ReadsAppend(z, before, ObjectLines(last, nesting), ObjectsSorts(rest), ObjectSorts(last), n);
      var ds0 := ObjectsReadBack(z, rest, nesting, n);
      FoldAppend(z, before, ObjectLines(last, nesting), n);
      var w := z.(cur := z.cur.(objects := z.cur.objects + ds0));
      var d := ObjectReadBack(w, last, nesting, n + |before|);
      ds := ds0 + [d];
      assert w.cur.objects + [d] == z.cur.objects + ds;
      if PlainAll(ds) == PlainAll(objects) {
        PlainMore(ds0, d);
        PlainMore(rest, last);
        assert rest + [last] == objects;
        LastSame(PlainAll(ds0), Plain(d), PlainAll(rest), Plain(last));
      }
    }
  }

  lemma LastSame(a: seq<Compound>, x: Compound, b: seq<Compound>, y: Compound)
    requires a + [x] == b + [y]
    ensures a == b && x == y
  {
    assert |a| == |b| && (a + [x])[..|a|] == a && (b + [y])[..|b|] == b;
    assert (a + [x])[|a|] == x && (b + [y])[|b|] == y;
  }

  lemma SameLengths(rest: seq<Compound>, last: Compound, nesting: nat)
    requires (forall i :: 0 <= i < |rest| ==> Printable(rest[i])) && Printable(last)
    ensures |ObjectsLines(rest, nesting)| == |ObjectsSorts(rest)| && |ObjectLines(last, nesting)| == |ObjectSorts(last)|
  {
    hide Classify, Allowed, KindOf, Printable, ObjectLines, ObjectSorts;
    ObjectsAllowed(rest, nesting);
    ObjectAllowed(last, nesting);
  }

  // ---- what is read is on one line -----------------------------------------

  lemma {:induction false} TextLinesOneLine(s: string)
    ensures NoNewlines(TextLines(s))
    decreases |s|
  {
    hide LineEnd;
    if s != [] {
      var k := LineEnd(s);
      assert OneLine(s[..k]);
      if k < |s| {
        TextLinesOneLine(s[if s[k] == '\r' && k + 1 < |s| && s[k + 1] == '\n' then k + 2 else k + 1..]);
      } else {
        assert s[..k] == s;
      }
    }
  }

  lemma {:induction false} LStripOneLine(s: string)
    requires OneLine(s)
    ensures OneLine(LStrip(s))
  {
    if s != [] && IsSpace(s[0]) { LStripOneLine(s[1..]); }
  }

  lemma StripOneLine(s: string)
    requires OneLine(s)
    ensures OneLine(Strip(s))
  {
    LStripOneLine(s);
  }

  predicate OneLineTexts(l: Line) {
    match l case Open(name) => OneLine(name) case Param(k, v) => OneLine(k) && (v.Text? ==> OneLine(v.text)) case _ => true
  }

  lemma ClassifyOneLine(raw: string, nested: bool)
    requires OneLine(raw)
    ensures OneLineTexts(Classify(raw, nested))
  {
    hide Strip, LStrip, RStrip, RStripSemicolons, FindEquals;
    var line := Strip(raw);
    StripOneLine(raw);
    if line != [] {
      StripOneLine(line[..|line| - 1]);
      var k := FindEquals(line);
      if k < |line| { LStripOneLine(line[k + 1..]); }
    }
  }

  ghost predicate CursorOneLiners(z: Cursor) {
    && OneLiners(z.cur) && (z.parents != [] ==> OneLine(z.cur.name))
    && forall i :: 0 <= i < |z.parents| ==> OneLiners(z.parents[i]) && (i > 0 ==> OneLine(z.parents[i].name))
  }

  lemma OneLinersMore(c: Compound, d: Compound)
    requires OneLiners(c) && OneLine(d.name) && OneLiners(d)
    ensures OneLiners(c.(objects := c.objects + [d]))
  {
    hide OneLine, OneLineParams;
  }

  lemma OneLinersNew(name: string, n: nat)
    ensures OneLiners(Compound(name, [], [], n, 0))
  {
    var c := Compound(name, [], [], n, 0);
    assert |c.objects| == 0;
  }

  lemma OneLinersEnd(c: Compound, n: nat)
    requires OneLiners(c)
    ensures OneLiners(c.(lineEnd := n))
  {
    hide OneLine, OneLineParams;
  }

  lemma OneLinersParam(c: Compound, k: string, v: Value)
    requires OneLiners(c) && OneLine(k) && (v.Text? ==> OneLine(v.text))
    ensures OneLiners(c.(params := c.params + [(k, v)]))
  {
    hide OneLine;
  }

  lemma StepOneLiners(z: Cursor, raw: string, n: nat)
    requires CursorOneLiners(z) && OneLine(raw)
    ensures CursorOneLiners(Step(z, raw, n))
  {
    hide Classify, OneLine, OneLiners;
    ClassifyOneLine(raw, z.parents != []);
    match Classify(raw, z.parents != [])
    case Blank =>
    case Param(k, v) => OneLinersParam(z.cur, k, v);
    case Open(name) => OneLinersNew(name, n);
    case Close =>
      OneLinersEnd(z.cur, n);
      OneLinersMore(Outer(z).cur, z.cur.(lineEnd := n));
  }

  lemma {:induction false} FoldOneLiners(z: Cursor, lines: seq<string>, n: nat)
    requires CursorOneLiners(z) && NoNewlines(lines)
    ensures CursorOneLiners(Fold(z, lines, n))
    decreases |lines|
  {
    hide Step, CursorOneLiners, OneLine;
    if lines != [] {
      StepOneLiners(z, lines[0], n + 1);
      FoldOneLiners(Step(z, lines[0], n + 1), lines[1..], n + 1);
    }
  }

  // ---- what does not depend on line numbers --------------------------------

  lemma {:induction false} PlainAt(objects: seq<Compound>)
    ensures |PlainAll(objects)| == |objects| && forall i :: 0 <= i < |objects| ==> PlainAll(objects)[i] == Plain(objects[i])
    decreases |objects|
  {
    hide Plain;
    if objects != [] { PlainAt(objects[..|objects| - 1]); }
  }

  lemma {:induction false} PlainOneLiners(c: Compound)
    ensures OneLiners(Plain(c)) <==> OneLiners(c)
    decreases c
  {
    PlainAt(c.objects);
    forall i | 0 <= i < |c.objects| ensures OneLiners(Plain(c.objects[i])) <==> OneLiners(c.objects[i]) {
      PlainOneLiners(c.objects[i]);
    }
    hide PlainAll;
    var d := Plain(c);
    assert OneLiners(d) <==> OneLineParams(c.params) && forall i :: 0 <= i < |c.objects| ==> OneLine(d.objects[i].name) && OneLiners(d.objects[i]);
  }

  lemma {:induction false} PlainWeighs(c: Compound, w: What)
    ensures Weigh(Plain(c), w) == Weigh(c, w)
    decreases c, 1
  {
    hide PlainAll, WeighAll, Bare;
    PlainWeighsAll(c.objects, w);
  }

  lemma {:induction false} PlainWeighsAll(objects: seq<Compound>, w: What)
    ensures WeighAll(PlainAll(objects), w) == WeighAll(objects, w)
    decreases objects, 0
  {
    hide Plain, Weigh;
    if objects != [] {
      var rest, last := objects[..|objects| - 1], objects[|objects| - 1];
      PlainWeighsAll(rest, w);
      PlainWeighs(last, w);
      WeighMore(PlainAll(rest), Plain(last), w);
    }
  }

  lemma {:induction false} PrintableBare(c: Compound)
    requires Printable(c)
    ensures Weigh(c, BareParam) == 0
    decreases c, 1
  {
    hide WeighAll, Bare;
    NoBare(c.params);
    PrintableBareAll(c.objects);
  }

  lemma {:induction false} NoBare(params: Params)
    requires forall i :: 0 <= i < |params| ==> params[i].1.Text?
    ensures Bare(params) == 0
  {
    if params != [] { NoBare(params[..|params| - 1]); }
  }

  lemma {:induction false} PrintableBareAll(objects: seq<Compound>)
    requires forall i :: 0 <= i < |objects| ==> Printable(objects[i])
    ensures WeighAll(objects, BareParam) == 0
    decreases objects, 0
  {
    hide Printable, Weigh;
    if objects != [] {
      PrintableBareAll(objects[..|objects| - 1]);
      PrintableBare(objects[|objects| - 1]);
    }
  }

  // ---- the law, both ways --------------------------------------------------

  /** What was printed has been read back. */
  ghost predicate ReadBack(c: Compound, path: string)
    requires Printable(c)
  {
    var z := Fold(Top(path), TextLines(Print(c, 0)), 0);
    z.parents == [] && Plain(z.cur) == Plain(c.(name := path))
  }

  lemma ReadBackOneLine(c: Compound, path: string)
    requires Printable(c) && ReadBack(c, path)
    ensures OneLiners(c)
  {
    hide Fold, Plain, Print, TextLines, OneLine;
    var lines := TextLines(Print(c, 0));
    var z := Fold(Top(path), lines, 0);
    TextLinesOneLine(Print(c, 0));
    FoldOneLiners(Top(path), lines, 0);
    PlainOneLiners(z.cur);
    PlainOneLiners(c.(name := path));
  }

  lemma FileSorts(c: Compound)
    requires Printable(c)
    ensures var sorts := ParamSorts(|c.params|) + ObjectsSorts(c.objects);
            && AllAllowed(ParamLines(c.params, 0) + ObjectsLines(c.objects, 4), sorts)
            && SortCount(sorts, AParam) == Weigh(c, AnyParam)
            && SortCount(sorts, AHead) == SortCount(sorts, AnEnd) == Weigh(c, AnyObject)
  {
    hide AllAllowed, ParamLines, ObjectsLines, ObjectsSorts, SortCount, WeighAll, Bare;
    ParamsAllowed(c.params, 0);
    ObjectsAllowed(c.objects, 4);
    AllowedAppend(ParamLines(c.params, 0), ObjectsLines(c.objects, 4), ParamSorts(|c.params|), ObjectsSorts(c.objects));
    forall s | s != ABlank
      ensures SortCount(ParamSorts(|c.params|) + ObjectsSorts(c.objects), s) == Weigh(c, Stands(s))
    {
      SortsAppend(ParamSorts(|c.params|), ObjectsSorts(c.objects), s);
      ParamSortCount(|c.params|, s);
      ObjectsSortCount(c.objects, s);
    }
    assert SortCount(ParamSorts(|c.params|) + ObjectsSorts(c.objects), AHead) == Weigh(c, Stands(AHead));
    assert SortCount(ParamSorts(|c.params|) + ObjectsSorts(c.objects), AnEnd) == Weigh(c, Stands(AnEnd));
    assert SortCount(ParamSorts(|c.params|) + ObjectsSorts(c.objects), AParam) == Weigh(c, Stands(AParam));
  }

  lemma ReadBackReads(c: Compound, path: string)
    requires Printable(c) && OneLiners(c) && ReadBack(c, path)
    ensures var lines, sorts := ParamLines(c.params, 0) + ObjectsLines(c.objects, 4), ParamSorts(|c.params|) + ObjectsSorts(c.objects);
            |lines| == |sorts| && Reads(Top(path), lines, sorts, 0)
  {
    hide Fold, Plain, Print, TextLines, Reads, Cells, Weigh, SortCount, ParamLines, ObjectsLines, ObjectsSorts, Classify, Allowed, KindOf;
    var lines, sorts := ParamLines(c.params, 0) + ObjectsLines(c.objects, 4), ParamSorts(|c.params|) + ObjectsSorts(c.objects);
    var top := Top(path);
    var z := Fold(top, lines, 0);
    FileLines(c);
    FileSorts(c);
    PrintableBare(c);
    forall w ensures WeighCursor(z, w) == Weigh(c, w) && WeighCursor(top, w) == 0 {
      PlainWeighs(z.cur, w);
      PlainWeighs(c.(name := path), w);
      Renamed(c, path, w);
      WeighNew(path, 0, w);
    }
    ColumnWeighs(top, lines, sorts, 0, AnyParam);
    ColumnWeighs(top, lines, sorts, 0, BareParam);
    ColumnWeighs(top, lines, sorts, 0, AnyObject);
    ColumnDepth(top, lines, sorts, 0);
    AllRead(top, lines, sorts, 0, Weigh(c, AnyParam), Weigh(c, AnyObject));
  }

  lemma Renamed(c: Compound, path: string, w: What)
    ensures Weigh(c.(name := path), w) == Weigh(c, w)
  {
    hide WeighAll, Bare;
  }

  /** A tree that can be printed comes back when it is read, with all its compounds closed, if and only if it is well-formed. */
  lemma ReadBackIff(c: Compound, path: string)
    requires Printable(c)
    ensures ReadBack(c, path) <==> WellFormed(c, false)
  {
    hide Fold, Plain, PlainAll, Print, TextLines, Reads, ParamLines, ObjectsLines, ObjectsSorts, Printable, CleanParams, WellFormedObjects, Classify, Allowed, KindOf, CleanName;
    if WellFormed(c, false) {
      PrintedBack(c, path);
    } else if ReadBack(c, path) {
      ReadBackOneLine(c, path);
      ReadBackReads(c, path);
      ReadsWellFormed(c, path);
    }
  }

  lemma ReadsWellFormed(c: Compound, path: string)
    requires Printable(c) && OneLiners(c) && ReadBack(c, path)
    requires var lines, sorts := ParamLines(c.params, 0) + ObjectsLines(c.objects, 4), ParamSorts(|c.params|) + ObjectsSorts(c.objects);
             |lines| == |sorts| && Reads(Top(path), lines, sorts, 0)
    ensures WellFormed(c, false)
  {
    hide Fold, Plain, PlainAll, Print, TextLines, Reads, ParamLines, ObjectsLines, ObjectsSorts, Printable, CleanParams, Classify, CleanName, OneLine;
    PrintableParts(c);
    LinesMatch(c, 0);
    FileLines(c);
    var p, o := ParamLines(c.params, 0), ObjectsLines(c.objects, 4);
    var top := Top(path);
    ReadsAppend(top, p, o, ParamSorts(|c.params|), ObjectsSorts(c.objects), 0);
    FoldAppend(top, p, o, 0);
    var ps := ParamsReadBack(top, c.params, 0, 0);
    var z := top.(cur := top.cur.(params := [] + ps));
    var ds := ObjectsReadBack(z, c.objects, 4, |p|);
    assert [] + ds == ds && [] + ps == ps;
    SamePlain(z.cur.(objects := [] + ds), c.(name := path));
  }

  // ---- reading, printing and reading again ---------------------------------

  /** A line whose meaning survives being printed: no bare word, and no value that ends in a space or in '{'. */
  predicate Settled(l: Line) {
    l.Param? ==> l.value.Text? && Strip(l.value.text) == l.value.text && !Ends(l.value.text, '{')
  }

  /** Every line is, where it stands. */
  ghost predicate AllSettled(z: Cursor, lines: seq<string>, n: nat)
    decreases |lines|
  {
    lines != [] ==> Settled(Classify(lines[0], z.parents != [])) && AllSettled(Step(z, lines[0], n + 1), lines[1..], n + 1)
  }

  lemma StripIdempotent(s: string)
    ensures Strip(Strip(s)) == Strip(s)
  {
    hide LStrip, RStrip;
    StripEitherWay(s);
    LStripTwice(RStrip(s));
    RStripAgain(LStrip(s));
  }

  lemma RStripAgain(s: string)
    ensures RStrip(RStrip(s)) == RStrip(s)
  {
  }

  /** Apart from that, what a line is read as is clean. */
  lemma ReadClean(raw: string, nested: bool)
    ensures match Classify(raw, nested)
            case Open(name) => CleanName(name, nested)
            case Param(k, Text(v)) => CleanKey(k, nested) && !Ends(v, ';')
            case _ => true
  {
    hide LStrip, RStrip, RStripSemicolons, FindEquals, Strip;
    var line := Strip(raw);
    StripIdempotent(raw);
    if line != [] {
      StripPrefix(line, |line| - 1);
      StripIdempotent(line[..|line| - 1]);
      StripPrefix(line, FindEquals(line));
    }
  }

  /** A prefix of a stripped line needs stripping at its end only, and starts as the line does. */
  lemma StripPrefix(line: string, k: nat)
    requires Strip(line) == line && line != [] && k <= |line|
    ensures Strip(line[..k]) == RStrip(line[..k]) && Strip(RStrip(line[..k])) == RStrip(line[..k])
    ensures RStrip(line[..k]) != [] ==> RStrip(line[..k])[0] == line[0]
  {
    StrippedStart(line);
    var p := line[..k];
    assert p != [] ==> p[0] == line[0];
    var r := RStrip(p);
    assert r <= p;
    assert r != [] ==> r[0] == p[0];
    RStripAgain(p);
  }

  lemma StrippedStart(line: string)
    requires Strip(line) == line && line != []
    ensures !IsSpace(line[0])
  {
    var l := LStrip(line);
    assert RStrip(l) <= l;
    assert |l| == |line|;
  }

  /** All that has been read is well-formed, the compound at this depth included. */
  ghost predicate FormedAt(c: Compound, depth: nat) {
    WellFormed(c, depth > 0) && (depth > 0 ==> CleanName(c.name, depth > 1) && OneLine(c.name))
  }

  ghost predicate CursorFormed(z: Cursor) {
    FormedAt(z.cur, |z.parents|) && forall i :: 0 <= i < |z.parents| ==> FormedAt(z.parents[i], i)
  }

  lemma FormedParam(c: Compound, k: string, v: Value, nested: bool)
    requires OneLine(k) && (v.Text? ==> OneLine(v.text) && CleanKey(k, nested) && !Ends(v.text, ';'))
    ensures WellFormed(c.(params := c.params + [(k, v)]), nested) <==> WellFormed(c, nested) && Settled(Param(k, v))
  {
    hide CleanKey, OneLine, CleanName, Strip, Ends;
    var d := c.(params := c.params + [(k, v)]);
    assert d.params[|c.params|] == (k, v) && forall i :: 0 <= i < |c.params| ==> d.params[i] == c.params[i];
    assert CleanParams(d.params, nested) <==> CleanParams(c.params, nested) && Settled(Param(k, v));
  }

  lemma FormedObject(c: Compound, d: Compound, n: nat, nested: bool)
    ensures WellFormed(c.(objects := c.objects + [d.(lineEnd := n)]), nested)
            <==> WellFormed(c, nested) && CleanName(d.name, nested) && OneLine(d.name) && WellFormed(d, true)
  {
    hide OneLine, CleanName, CleanParams;
    var e := d.(lineEnd := n);
    FormedEnd(d, n);
    var f := c.(objects := c.objects + [e]);
    assert f.objects[|c.objects|] == e && forall i :: 0 <= i < |c.objects| ==> f.objects[i] == c.objects[i];
  }

  lemma FormedEnd(d: Compound, n: nat)
    ensures WellFormed(d.(lineEnd := n), true) <==> WellFormed(d, true)
  {
    hide OneLine, CleanName, CleanParams;
    var e := d.(lineEnd := n);
    assert e.objects == d.objects && e.params == d.params;
  }

  lemma FormedNew(name: string, n: nat)
    ensures WellFormed(Compound(name, [], [], n, 0), true)
  {
    var c := Compound(name, [], [], n, 0);
    assert |c.objects| == 0 && |c.params| == 0;
  }

  lemma StepFormed(z: Cursor, raw: string, n: nat)
    requires OneLine(raw)
    ensures CursorFormed(Step(z, raw, n)) <==> CursorFormed(z) && Settled(Classify(raw, z.parents != []))
  {
    hide Classify, OneLine, WellFormed, CleanName, CleanKey, Ends, Strip;
    ReadClean(raw, z.parents != []);
    ClassifyOneLine(raw, z.parents != []);
    match Classify(raw, z.parents != [])
    case Blank =>
    case Param(k, v) => FormedParam(z.cur, k, v, z.parents != []);
    case Open(name) =>
      FormedNew(name, n);
      var w := Enter(z, name, n);
      assert w.parents[|z.parents|] == z.cur && forall i :: 0 <= i < |z.parents| ==> w.parents[i] == z.parents[i];
    case Close =>
      var last := |z.parents| - 1;
      FormedObject(z.parents[last], z.cur, n, last > 0);
      assert CursorFormed(z) <==> FormedAt(z.cur, last + 1) && FormedAt(z.parents[last], last)
                                  && forall i :: 0 <= i < last ==> FormedAt(z.parents[i], i);
  }

  lemma {:induction false} FoldFormed(z: Cursor, lines: seq<string>, n: nat)
    requires NoNewlines(lines)
    ensures CursorFormed(Fold(z, lines, n)) <==> CursorFormed(z) && AllSettled(z, lines, n)
    decreases |lines|
  {
    hide Step, CursorFormed, OneLine, Settled, Classify;
    if lines != [] {
      StepFormed(z, lines[0], n + 1);
      FoldFormed(Step(z, lines[0], n + 1), lines[1..], n + 1);
    }
  }

  /** What was read from a file with closed compounds can be printed, and reads the same again, if and only if all its lines are settled. */
  lemma ReadAgain(path: string, lines: seq<string>)
    requires NoNewlines(lines) && Balanced(lines)
    ensures var tree := Fold(Top(path), lines, 0).cur;
            Printable(tree) && ReadBack(tree, path) <==> AllSettled(Top(path), lines, 0)
  {
    hide Fold, OneLine, ReadBack, Balanced, AllSettled, WellFormed;
    var z := Fold(Top(path), lines, 0);
    WholeIff(path, lines);
    FoldFormed(Top(path), lines, 0);
    TopFormed(path);
    if Printable(z.cur) {
      ReadBackIff(z.cur, path);
    } else if WellFormed(z.cur, false) {
      WellFormedPrints(z.cur, false);
    }
  }

  lemma TopFormed(path: string)
    ensures CursorFormed(Top(path))
  {
    var c := Top(path).cur;
    assert |c.objects| == 0 && |c.params| == 0;
  }

  /** A value with a carriage return in it is not read back: its end becomes a parameter of its own. */
  lemma CarriageReturn(path: string)
    ensures var c := Compound(path, [("a", Text("x\ry"))], [], 0, 0);
            && Printable(c) && !ReadBack(c, path)
            && Fold(Top(path), TextLines(Print(c, 0)), 0).cur.params == [("a", Text("x")), ("y", True)]
  {
    hide Fold, TextLines, Print, WellFormed, ReadBack, OneLine;
    var c := Compound(path, [("a", Text("x\ry"))], [], 0, 0);
    ReadBackIff(c, path);
    CarriageFormed(c);
    CarriagePrinted(c);
    CarriageLines();
    CarriageRead(path);
  }

  lemma CarriageFormed(c: Compound)
    requires c.params == [("a", Text("x\ry"))]
    ensures !WellFormed(c, false)
  {
    hide CleanKey, CleanValue;
    assert "x\ry"[1] == '\r';
    assert !OneLine(c.params[0].1.text);
  }

  lemma CarriagePrinted(c: Compound)
    requires c.params == [("a", Text("x\ry"))] && c.objects == [] && Printable(c)
    ensures Print(c, 0) == "a = x\ry\n"
  {
    assert c.params[..0] == [] && PrintParams([], 0) == "" && Blanks(0) == "";
    assert PrintParams(c.params, 0) == "" + "" + ("a" + " = " + "x\ry" + "\n");
  }

  lemma CarriageRead(path: string)
    ensures Fold(Top(path), ["a = x", "y"], 0).cur.params == [("a", Text("x")), ("y", True)]
  {
    hide Fold, Classify;
    var z := Top(path);
    assert "" + "a" + " = " + "x" == "a = x";
    ParamBack("", "a", "x", false);
    CleanTwo();
    BareWord();
    FoldAppend(z, ["a = x"], ["y"], 0);
    FoldOne(z, "a = x", 0);
    FoldOne(AddParam(z, "a", Text("x")), "y", 1);
    assert ["a = x"] + ["y"] == ["a = x", "y"];
  }

  lemma CarriageLines()
    ensures TextLines("a = x\ry\n") == ["a = x", "y"]
  {
    hide TextLines;
    assert "a = x\ry\n" == "a = x" + ['\r'] + "y\n" && "y\n" == "y" + ['\n'] + "";
    TextStep("a = x", '\r', "y\n");
    TextStep("y", '\n', "");
    NoLines();
  }

  lemma CleanTwo()
    ensures CleanKey("a", false) && CleanValue("x")
  {
    RStripNothing("a");
    RStripNothing("x");
  }

  lemma BareWord()
    ensures Classify("y", false) == Param("y", True)
  {
    RStripNothing("y");
    assert "y"[1..] == "";
    assert FindEquals("") == 0;
  }
}
