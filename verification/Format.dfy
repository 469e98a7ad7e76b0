/** Formatted printing: the arguments of a format, the whole output, and what a buffer of any size holds of it. */
module Format {
  import opened FormatOut
  import opened FormatParse
  import opened Options
  import opened Words

  // ---- arguments -----------------------------------------------------------

  datatype Arg = IntArg(v: int) | StrArg(s: Option<string>) | PtrArg(address: nat)

  datatype Value = Number(v: int) | Text(s: string) | Nothing

  predicate IsLong(w: Width) { w.AsLong? || w.AsLongLong? }

  function IntOf(a: Option<Arg>): int { if a.Some? && a.value.IntArg? then a.value.v else 0 }

  /** The argument, as the conversion u takes it. */
  function ReadArg(u: Use, a: Option<Arg>): Value {
    match u.kind
    case Int => Number(if IsLong(u.width) then Int64(IntOf(a)) else Int32(IntOf(a)))
    case Octal => Number(if IsLong(u.width) then Int64(IntOf(a)) else IntOf(a) % TWO32)
    case Uint => Number(if IsLong(u.width) then Int64(IntOf(a)) else IntOf(a) % TWO32)
    case Hex => Number(if IsLong(u.width) then Int64(IntOf(a)) else IntOf(a) % TWO32)
    case Char => Number(Int32(IntOf(a)))
    case Str => Text(if a.Some? && a.value.StrArg? && a.value.s.Some? then a.value.s.value else "(NULL)")
    case Ptr => Number(if a.Some? && a.value.PtrArg? then Int64(a.value.address) else 0)
    case _ => Nothing
  }

  function ArgAt(args: seq<Arg>, i: nat): Option<Arg> { if i < |args| then Some(args[i]) else None }

  /** A parameter takes an argument, even if nothing uses it, unless it is a percent sign. */
  predicate Takes(uses: seq<Use>) { uses == [] || !uses[0].kind.Percent? }

  /** How many arguments the parameters before this one take. */
  function Taken(table: seq<seq<Use>>, p: nat): nat
    requires p <= |table|
  {
    if p == 0 then 0 else Taken(table, p - 1) + if Takes(table[p - 1]) then 1 else 0
  }

  /** All the uses of a parameter agree on what it is. */
  predicate Agree(uses: seq<Use>) { forall i :: 0 <= i < |uses| ==> uses[i].kind == uses[0].kind }

  predicate AllAgree(table: seq<seq<Use>>) { forall p :: 0 <= p < |table| ==> Agree(table[p]) }

  function ValueOf(table: seq<seq<Use>>, args: seq<Arg>, p: nat): Value
    requires p < |table|
  {
    if table[p] == [] then Nothing else ReadArg(table[p][0], ArgAt(args, Taken(table, p)))
  }

  function Values(table: seq<seq<Use>>, args: seq<Arg>): seq<Value> {
    seq(|table|, p requires 0 <= p < |table| => ValueOf(table, args, p))
  }

  /** Whether all the uses of a parameter are of the same type. */
  method SameType(uses: seq<Use>) returns (same: bool)
    ensures same <==> Agree(uses)
  {
    var i := 1;
    while i < |uses|
      invariant forall j :: 0 <= j < i && j < |uses| ==> uses[j].kind == uses[0].kind
    {
      if uses[0].kind != uses[i].kind { return false; }
      i := i + 1;
    }
    return true;
  }

  lemma NoneTaken(table: seq<seq<Use>>)
    ensures Taken(table, 0) == 0
  {
  }

  lemma OneMoreTaken(table: seq<seq<Use>>, args: seq<Arg>, p: nat)
    requires p < |table|
    ensures Taken(table, p + 1) == Taken(table, p) + if table[p] == [] || !table[p][0].kind.Percent? then 1 else 0
    ensures ValueOf(table, args, p) == if table[p] == [] then Nothing else ReadArg(table[p][0], ArgAt(args, Taken(table, p)))
  {
    hide ReadArg;
  }

  /** The loop of dopr over the parameters. */
  method Retrieve(table: seq<seq<Use>>, args: seq<Arg>) returns (ok: bool, values: seq<Value>)
    ensures ok <==> AllAgree(table)
    ensures ok ==> values == Values(table, args)
  {
    hide ReadArg, Agree, Taken, Takes, ArgAt, ValueOf;
    values := [];
    var next := 0;
    NoneTaken(table);
    for p := 0 to |table|
      invariant |values| == p && next == Taken(table, p)
      invariant forall q :: 0 <= q < p ==> Agree(table[q]) && values[q] == ValueOf(table, args, q)
    {
      var same := SameType(table[p]);
      if !same { return false, []; }
      OneMoreTaken(table, args, p);
      if table[p] == [] {
        values, next := values + [Nothing], next + 1;
      } else {
        values := values + [ReadArg(table[p][0], ArgAt(args, next))];
        if !table[p][0].kind.Percent? { next := next + 1; }
      }
    }
    return true, values;
  }

  // ---- the whole output ----------------------------------------------------

  function ValueAt(values: seq<Value>, num: nat): Value {
    if 1 <= num <= |values| then values[num - 1] else Nothing
  }

  function NumberOf(v: Value): int { if v.Number? then v.v else 0 }

  function TextOf(v: Value): string { if v.Text? then v.s else "(NULL)" }

  function MinOf(c: Chunk, values: seq<Value>): int {
    match c.minStar case None => c.min case Some(num) => Int32(NumberOf(ValueAt(values, num)))
  }

  function MaxOf(c: Chunk, values: seq<Value>): int {
    match c.maxStar case None => c.max case Some(num) => Int32(NumberOf(ValueAt(values, num)))
  }

  function ChunkText(c: Chunk, values: seq<Value>): string
    requires Covered(c)
  {
    var v, min, max := ValueAt(values, c.num), MinOf(c, values), MaxOf(c, values);
    match c.kind
    case Literal => c.text
    case Int => IntText(NumberOf(v), 10, min, max, c.flags)
    case Uint => IntText(NumberOf(v), 10, min, max, c.flags)
    case Octal => IntText(NumberOf(v), 8, min, max, c.flags)
    case Hex => IntText(NumberOf(v), 16, min, max, c.flags)
    case Char => [(NumberOf(v) % 256) as char]
    case Str => StrText(TextOf(v), c.flags, min, if max == -1 then |TextOf(v)| else max)
    case Ptr => IntText(NumberOf(v), 16, min, max, c.flags)
    case Percent => "%"
  }

  /** Floating point numbers and %n are not covered. */
  predicate Covered(c: Chunk) { !c.kind.Float? && !c.kind.Num? }

  predicate CoveredAll(cs: seq<Chunk>) { forall i :: 0 <= i < |cs| ==> Covered(cs[i]) }

  function AllText(cs: seq<Chunk>, values: seq<Value>): string
    requires CoveredAll(cs)
  {
    if cs == [] then "" else AllText(cs[..|cs| - 1], values) + ChunkText(cs[|cs| - 1], values)
  }

  predicate CoveredFormat(format: string) {
    ParsedFormat(format).Understood? ==> CoveredAll(ParsedFormat(format).chunks)
  }

  datatype Result = Printed(text: string) | Failed | Anything

  /** What a format prints, if it is understood and its parameters agree. */
  function Output(format: string, args: seq<Arg>): Result
    requires CoveredFormat(format)
  {
    match ParsedFormat(format)
    case Rejected => Failed
    case Undefined => Anything
    case Understood(cs) =>
      var table := Table(AllUses(cs));
      if !AllAgree(table) then Failed else Printed(AllText(cs, Values(table, args)))
  }

  // ---- printing into a buffer ----------------------------------------------

  /** The case of dopr for one chunk. */
  method PrintChunk(buffer: array<char>, currlen: nat, maxlen: nat, c: Chunk, values: seq<Value>, ghost b: seq<char>, ghost text: string)
    returns (len: nat)
    requires maxlen <= buffer.Length == |b| && currlen == |text| && buffer[..] == Stored(b, text, maxlen) && Covered(c)
    modifies buffer
    ensures buffer[..] == Stored(b, text + ChunkText(c, values), maxlen) && len == |text + ChunkText(c, values)|
  {
    hide Stored, IntText, StrText, Int32;
    var v, min, max := ValueAt(values, c.num), MinOf(c, values), MaxOf(c, values);
    match c.kind
    case Literal => len := OutText(buffer, currlen, maxlen, c.text, b, text);
    case Int => len := FmtInt(buffer, currlen, maxlen, NumberOf(v), 10, min, max, c.flags, b, text);
    case Uint => len := FmtInt(buffer, currlen, maxlen, NumberOf(v), 10, min, max, c.flags, b, text);
    case Octal => len := FmtInt(buffer, currlen, maxlen, NumberOf(v), 8, min, max, c.flags, b, text);
    case Hex => len := FmtInt(buffer, currlen, maxlen, NumberOf(v), 16, min, max, c.flags, b, text);
    case Char => len := OutCh(buffer, currlen, maxlen, (NumberOf(v) % 256) as char, b, text);
    case Str =>
      if max == -1 { max := |TextOf(v)|; }
      len := FmtStr(buffer, currlen, maxlen, TextOf(v), c.flags, min, max, b, text);
    case Ptr => len := FmtInt(buffer, currlen, maxlen, NumberOf(v), 16, min, max, c.flags, b, text);
    case Percent => len := OutCh(buffer, currlen, maxlen, '%', b, text);
  }

  /** What a buffer of this size holds of a text: as much as leaves room for the end mark, then the end mark. */
  function Kept(b: seq<char>, text: string, maxlen: nat): seq<char>
    requires maxlen <= |b|
  {
    if maxlen == 0 then b
    else
      var k := Min(|text|, maxlen - 1);
      text[..k] + ['\0'] + b[k + 1..]
  }

  /** The loop of dopr over the chunks. */
  method PrintChunks(buffer: array<char>, maxlen: nat, cs: seq<Chunk>, values: seq<Value>) returns (len: nat)
    requires maxlen <= buffer.Length && CoveredAll(cs)
    modifies buffer
    ensures buffer[..] == Stored(old(buffer[..]), AllText(cs, values), maxlen) && len == |AllText(cs, values)|
  {
    hide ChunkText, AllText;
    ghost var b := buffer[..];
    len := 0;
    NoText(values);
    for i := 0 to |cs|
      invariant buffer[..] == Stored(b, AllText(cs[..i], values), maxlen) && len == |AllText(cs[..i], values)|
    {
      MoreText(cs, values, i);
      len := PrintChunk(buffer, len, maxlen, cs[i], values, b, AllText(cs[..i], values));
    }
    assert cs[..|cs|] == cs;
  }

  lemma NoText(values: seq<Value>)
    ensures AllText([], values) == ""
  {
  }

  lemma MoreText(cs: seq<Chunk>, values: seq<Value>, i: nat)
    requires i < |cs| && CoveredAll(cs)
    ensures AllText(cs[..i + 1], values) == AllText(cs[..i], values) + ChunkText(cs[i], values)
  {
    hide ChunkText;
    assert cs[..i + 1][..i] == cs[..i];
  }

  /** dopr: the length of the whole output, however much of it fits, or -1. */
  method Dopr(buffer: array<char>, maxlen: nat, format: string, args: seq<Arg>) returns (ret: int)
    requires maxlen <= buffer.Length && CoveredFormat(format)
    modifies buffer
    ensures match Output(format, args)
            case Failed => ret == -1 && buffer[..] == old(buffer[..])
            case Printed(text) => ret == |text| && buffer[..] == Kept(old(buffer[..]), text, maxlen)
            case Anything => true
  {
    hide ParsedFormat, AllText, Values, AllUses, Table;
    var reading, table := ParseFormat(format);
    if !reading.Understood? { return -1; }
    var cs := reading.chunks;
    var agree, values := Retrieve(table, args);
    if !agree { return -1; }
    ret := PrintChunks(buffer, maxlen, cs, values);
    if maxlen != 0 {
      if ret < maxlen - 1 {
        buffer[ret] := '\0';
      } else {
        buffer[maxlen - 1] := '\0';
      }
    }
  }

  /** vasprintf: once without a buffer, to find the length, and once with one of that length. */
  method Vasprintf(format: string, args: seq<Arg>) returns (ret: int, result: Option<seq<char>>)
    requires CoveredFormat(format)
    ensures match Output(format, args)
            case Failed => ret == -1 && result == None
            case Printed(text) => ret == |text| && result == if text == "" then None else Some(text + ['\0'])
            case Anything => true
  {
    hide Output;
    var none := new char[0];
    ret := Dopr(none, 0, format, args);
    if ret <= 0 { return ret, None; }
    var buffer := new char[ret + 1];
    ghost var b := buffer[..];
    ret := Dopr(buffer, ret + 1, format, args);
    result := Some(buffer[..]);
    if Output(format, args).Printed? { KeptWhole(b, Output(format, args).text); }
  }

  lemma KeptWhole(b: seq<char>, text: string)
    requires |b| == |text| + 1
    ensures Kept(b, text, |b|) == text + ['\0']
  {
  }
}
