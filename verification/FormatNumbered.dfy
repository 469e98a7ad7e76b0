/**
 Conversions that name their parameters, "%n$...", as POSIX writes them, and
 what the state machine makes of them. It looks for flags before the number
 only: behind it, zeros are read as part of the width and any other flag ends
 the format.
 */
module FormatNumbered {
  import opened FormatOut
  import opened FormatParse
  import opened FormatGrammar
  import opened Options

  datatype Numbered = Numbered(num: nat, flags: string, min: Size, max: Size, width: Width, letter: char)

  function NumberedText(v: Numbered): string {
    "%" + (Decimal(v.num) + ("$" + (v.flags + (MinText(v.min) + (MaxText(v.max) + (WidthText(v.width) + [v.letter]))))))
  }

  /** A letter that is a conversion, and parameters that are named. */
  predicate WellFormed(v: Numbered) {
    && KindOf(v.letter, NO_FLAGS).Some? && !v.min.Star? && !v.max.Star?
    && forall i :: 0 <= i < |v.flags| ==> IsFlag(v.flags[i])
  }

  predicate Zeros(s: string) { forall i :: 0 <= i < |s| ==> s[i] == '0' }

  /** Parameters are counted from 1, and behind the number no flag is known. */
  predicate Refused(v: Numbered) { v.num == 0 || !Zeros(v.flags) }

  /** There is no place for parameter 0 in the table of parameters. */
  predicate OutOfTable(v: Numbered) { v.min == Named(0) || v.max == Named(0) }

  predicate Faulty(v: Numbered) { Refused(v) || OutOfTable(v) }

  /** What the machine reads: the parameters named, and no flags. */
  function ChunkOf(v: Numbered): Chunk
    requires WellFormed(v)
  {
    var (kind, flags) := KindOf(v.letter, NO_FLAGS).value;
    Chunk(kind, v.num, if v.min.Fixed? then v.min.n else 0, if v.max.Fixed? then v.max.n else -1, flags, v.width, "",
          if v.min.Named? then Some(v.min.num) else None, if v.max.Named? then Some(v.max.num) else None)
  }

  // ---- reading -------------------------------------------------------------

  lemma DollarRead(f: string, q: Params, c: Chunk)
    requires (q.first || q.numbered) && c.min > 0
    ensures Chunks(InMin, "$" + f, q, c) == Chunks(InMin, f, q.(first := false, numbered := true), c.(num := c.min, min := 0))
  {
    hide Chunks;
    var g := "$" + f;
    assert g[0] == '$' && g[1..] == f;
    MinAhead(g, q, c);
  }

  lemma {:induction false} DigitsLenIs(s: string, f: string)
    requires (forall i :: 0 <= i < |s| ==> IsDigit(s[i])) && (f == "" || !IsDigit(f[0]))
    ensures DigitsLen(s + f) == |s|
    decreases |s|
  {
    if s == "" {
      assert s + f == f;
    } else {
      assert (s + f)[1..] == s[1..] + f;
      DigitsLenIs(s[1..], f);
    }
  }

  /** A star that names its parameter. */
  lemma NamedStar(num: nat, f: string, q: Params)
    requires q.numbered
    ensures StarOf(Decimal(num) + ("$" + f), q) == Some((num, f, q))
  {
    hide Decimal, DigitsLen, ReadNumber;
    var d, g := Decimal(num), "$" + f;
    DigitsLenIs(d, g);
    DecimalBack(num);
    assert (d + g)[..|d|] == d && (d + g)[|d|] == '$' && (d + g)[|d| + 1..] == f;
  }

  lemma MinRead(v: Numbered, zeros: string, f: string, q: Params, c: Chunk)
    requires Zeros(zeros) && NoSize(f) && q.numbered && !q.first && c.min == 0 && !v.min.Star?
    ensures v.min == Named(0) ==> Chunks(InMin, zeros + (MinText(v.min) + f), q, c) == Undefined
    ensures v.min != Named(0) ==> Chunks(InMin, zeros + (MinText(v.min) + f), q, c) == Chunks(InDot, f, q,
              c.(min := if v.min.Fixed? then v.min.n else 0, minStar := if v.min.Named? then Some(v.min.num) else c.minStar))
  {
    hide Chunks, Decimal, NoSize, StarOf;
    ZerosRead(zeros, MinText(v.min) + f, q, c);
    match v.min
    case Absent =>
      assert "" + f == f;
      MinEnds(f, q, c);
    case Fixed(n) =>
      MinDigits(Decimal(n), f, q, c);
      DecimalBack(n);
      MinEnds(f, q, c.(min := n));
    case Named(num) =>
      var g := Decimal(num) + ("$" + f);
      assert StarText(num) + f == "*" + g && ("*" + g)[1..] == g;
      NamedStar(num, f, q);
      MinStarAhead("*" + g, q, c);
  }

  lemma ZerosRead(zeros: string, f: string, q: Params, c: Chunk)
    requires Zeros(zeros) && c.min == 0
    ensures Chunks(InMin, zeros + f, q, c) == Chunks(InMin, f, q, c)
  {
    hide Chunks;
    MinDigits(zeros, f, q, c);
    ZerosAreZero(zeros);
  }

  lemma {:induction false} ZerosAreZero(zeros: string)
    requires Zeros(zeros)
    ensures ReadNumber(zeros, 0) == 0
  {
    if zeros != "" { ZerosAreZero(zeros[1..]); }
  }

  lemma MaxRead(v: Numbered, f: string, q: Params, c: Chunk)
    requires NoSize(f) && f[0] != '.' && q.numbered && c.max == -1 && !v.max.Star?
    ensures v.max == Named(0) ==> Chunks(InDot, MaxText(v.max) + f, q, c) == Undefined
    ensures v.max != Named(0) ==> Chunks(InDot, MaxText(v.max) + f, q, c) == Chunks(InMod, f, q,
              c.(max := if v.max.Fixed? then v.max.n else -1, maxStar := if v.max.Named? then Some(v.max.num) else c.maxStar))
  {
    hide Chunks, Decimal, StarOf;
    match v.max
    case Absent =>
      assert "" + f == f;
      DotAhead(f, q, c);
    case Fixed(n) =>
      var d := Decimal(n);
      assert "." + d + f == "." + (d + f) && ("." + (d + f))[1..] == d + f;
      DotAhead("." + (d + f), q, c);
      MaxDigits(d, f, q, c);
      DecimalBack(n);
      MaxAhead(f, q, c.(max := n));
    case Named(num) =>
      var g := Decimal(num) + ("$" + f);
      assert "." + StarText(num) + f == "." + ("*" + g) && ("." + ("*" + g))[1..] == "*" + g && ("*" + g)[1..] == g;
      DotAhead("." + ("*" + g), q, c);
      NamedStar(num, f, q);
      MaxStarAhead("*" + g, q, c);
  }

  // ---- a whole conversion --------------------------------------------------

  /** A flag behind the number that is not a zero ends the format. */
  lemma FlagRejected(ch: char, f: string, q: Params, c: Chunk)
    requires IsFlag(ch) && ch != '0'
    ensures Chunks(InMin, [ch] + f, q, c) == Rejected
  {
    hide Chunks;
    var g := [ch] + f;
    assert g[0] == ch;
    MinAhead(g, q, c);
    DotAhead(g, q.(first := false), c);
    LetterRejected(g, q.(first := false), c);
  }

  lemma LetterRejected(g: string, q: Params, c: Chunk)
    requires g != "" && IsFlag(g[0]) && g[0] != '0'
    ensures Chunks(InMod, g, q, c) == Rejected
  {
    hide TextLen, StarOf, FlagOf;
    assert WidthOf(g) == (Plain, 0) && g[0..] == g;
    assert KindOf(g[0], c.flags) == None;
    assert Chunks(InConv, g, q, c) == Rejected;
  }

  /** From the number on. */
  lemma NumberRead(num: nat, f: string, q: Params)
    requires num > 0 && (q.first || q.numbered)
    ensures Chunks(InDefault, "%" + (Decimal(num) + ("$" + f)), q, NEW_CHUNK)
            == Chunks(InMin, f, q.(first := false, numbered := true), NEW_CHUNK.(num := num))
  {
    hide Chunks, Decimal;
    var d := Decimal(num);
    StartRead(d + ("$" + f), q);
    DigitNoFlag(d[0]);
    assert (d + ("$" + f))[0] == d[0];
    FlagsEnd(d + ("$" + f), q, NEW_CHUNK);
    MinDigits(d, "$" + f, q, NEW_CHUNK);
    DecimalBack(num);
    DollarRead(f, q, NEW_CHUNK.(min := num));
  }

  /** The number 0 is taken for a flag, and the dollar sign behind it for a number that is missing. */
  lemma ZeroRefused(f: string, q: Params)
    ensures Chunks(InDefault, "%" + (Decimal(0) + ("$" + f)), q, NEW_CHUNK) == Rejected
  {
    hide Chunks;
    var g := "$" + f;
    assert Decimal(0) == "0";
    StartRead("0" + g, q);
    FlagsRead("0", g, q, NEW_CHUNK);
    MinAhead(g, q, NEW_CHUNK.(flags := FlagsOf("0", NO_FLAGS)));
  }

  /** Behind a conversion that did not name its parameter, one that does is not understood. */
  lemma MixedRejected(v: Numbered, f: string, q: Params)
    requires !q.first && !q.numbered
    ensures Chunks(InDefault, NumberedText(v) + f, q, NEW_CHUNK) == Rejected
  {
    hide Chunks, Decimal, MinText, MaxText, WidthText;
    var g := v.flags + (MinText(v.min) + (MaxText(v.max) + (WidthText(v.width) + ([v.letter] + f))));
    Regrouped(v, f);
    if v.num == 0 {
      ZeroRefused(g, q);
    } else {
      var d := Decimal(v.num);
      StartRead(d + ("$" + g), q);
      DigitNoFlag(d[0]);
      assert (d + ("$" + g))[0] == d[0];
      FlagsEnd(d + ("$" + g), q, NEW_CHUNK);
      MinDigits(d, "$" + g, q, NEW_CHUNK);
      MinAhead("$" + g, q, NEW_CHUNK.(min := ReadNumber(d, 0)));
    }
  }

  lemma DigitNoFlag(ch: char)
    requires IsDigit(ch) && ch != '0'
    ensures FlagOf(ch, NO_FLAGS).None?
  {
  }

  lemma Regrouped(v: Numbered, f: string)
    ensures NumberedText(v) + f
            == "%" + (Decimal(v.num) + ("$" + (v.flags + (MinText(v.min) + (MaxText(v.max) + (WidthText(v.width) + ([v.letter] + f)))))))
  {
    hide MinText, MaxText, WidthText, Decimal;
  }

  /**
   A numbered conversion is read with the parameters it names, but without its
   flags if these are zeros only. It is refused if it has any other flag or
   names parameter 0, and undefined if it is not but its width or precision names
   parameter 0. So it is read as it was meant if and only if it has no flags and
   never names parameter 0.
   */
  lemma NumberedRead(v: Numbered, f: string, q: Params)
    requires WellFormed(v) && (q.first || q.numbered)
    ensures Chunks(InDefault, NumberedText(v) + f, q, NEW_CHUNK)
            == if Refused(v) then Rejected else if OutOfTable(v) then Undefined
               else Before(ChunkOf(v), Chunks(InDefault, f, q.(first := false, numbered := true), NEW_CHUNK))
  {
    hide Chunks, Decimal, KindOf, MinText, MaxText, WidthText, Zeros;
    var atMax := MaxText(v.max) + (WidthText(v.width) + ([v.letter] + f));
    var atFlags := v.flags + (MinText(v.min) + atMax);
    var p := q.(first := false, numbered := true);
    Regrouped(v, f);
    if v.num == 0 {
      ZeroRefused(atFlags, q);
    } else {
      NumberRead(v.num, atFlags, q);
      if Zeros(v.flags) {
        SizesRead(v, f, p);
      } else {
        NotZeros(v.flags, MinText(v.min) + atMax, p, NEW_CHUNK.(num := v.num));
      }
    }
  }

  /** From the flags on. */
  lemma SizesRead(v: Numbered, f: string, q: Params)
    requires WellFormed(v) && !Refused(v) && q.numbered && !q.first
    ensures Chunks(InMin, v.flags + (MinText(v.min) + (MaxText(v.max) + (WidthText(v.width) + ([v.letter] + f)))), q, NEW_CHUNK.(num := v.num))
            == if OutOfTable(v) then Undefined else Before(ChunkOf(v), Chunks(InDefault, f, q, NEW_CHUNK))
  {
    hide Chunks, Decimal, KindOf, MinText, MaxText, WidthText, Zeros;
    var letter := [v.letter] + f;
    var atWidth := WidthText(v.width) + letter;
    var c := NEW_CHUNK.(num := v.num);
    LetterPlain(v.letter, NO_FLAGS);
    WidthStarts(v.width, letter);
    MaxStarts(v.max, atWidth);
    MinRead(v, v.flags, MaxText(v.max) + atWidth, q, c);
    var c2 := c.(min := if v.min.Fixed? then v.min.n else 0, minStar := if v.min.Named? then Some(v.min.num) else None);
    MaxRead(v, atWidth, q, c2);
    var c3 := c2.(max := if v.max.Fixed? then v.max.n else -1, maxStar := if v.max.Named? then Some(v.max.num) else None);
    WidthRead(v.width, v.letter, f, q, c3);
    NamedLetter(v.letter, f, q, c3.(width := v.width));
  }

  lemma NotZeros(flags: string, f: string, q: Params, c: Chunk)
    requires !Zeros(flags) && c.min == 0 && forall i :: 0 <= i < |flags| ==> IsFlag(flags[i])
    ensures Chunks(InMin, flags + f, q, c) == Rejected
  {
    hide Chunks, IsFlag;
    var k := FirstOther(flags);
    var rest := flags[k + 1..] + f;
    assert flags + f == flags[..k] + ([flags[k]] + rest);
    ZerosRead(flags[..k], [flags[k]] + rest, q, c);
    FlagRejected(flags[k], rest, q, c);
  }

  function FirstOther(flags: string): (k: nat)
    requires !Zeros(flags)
    ensures k < |flags| && flags[k] != '0' && Zeros(flags[..k])
  {
    if flags[0] != '0' then 0
    else
      assert !Zeros(flags[1..]);
      var k := FirstOther(flags[1..]);
      assert flags[..1 + k] == ['0'] + flags[1..][..k];
      1 + k
  }

  lemma NamedLetter(ch: char, f: string, q: Params, c: Chunk)
    requires c.num > 0 && KindOf(ch, c.flags).Some?
    ensures var (kind, flags) := KindOf(ch, c.flags).value;
            Chunks(InConv, [ch] + f, q, c) == Before(c.(kind := kind, flags := flags), Chunks(InDefault, f, q, NEW_CHUNK))
  {
    hide KindOf, Chunks;
    NamedConv([ch] + f, q, c);
    assert ([ch] + f)[1..] == f;
  }

  lemma NamedConv(f: string, q: Params, c: Chunk)
    requires f != "" && c.num > 0 && KindOf(f[0], c.flags).Some?
    ensures var (kind, flags) := KindOf(f[0], c.flags).value;
            Chunks(InConv, f, q, c) == Before(c.(kind := kind, flags := flags), Chunks(InDefault, f[1..], q, NEW_CHUNK))
  {
    hide KindOf, FlagOf, WidthOf, TextLen, StarOf;
  }

  // ---- whole formats -------------------------------------------------------

  datatype Part = Words(text: string) | Convert(conversion: Numbered)

  function PartText(p: Part): string {
    match p case Words(text) => text case Convert(v) => NumberedText(v)
  }

  function FormatText(ps: seq<Part>): string {
    if ps == [] then "" else PartText(ps[0]) + FormatText(ps[1..])
  }

  predicate WellFormedAll(ps: seq<Part>) {
    && (forall i :: 0 <= i < |ps| ==> match ps[i] case Words(t) => t != "" && '%' !in t case Convert(v) => WellFormed(v))
    && (forall i :: 0 <= i < |ps| - 1 ==> ps[i].Words? ==> ps[i + 1].Convert?)
  }

  predicate FaultyPart(p: Part) { p.Convert? && Faulty(p.conversion) }

  /** The place of the first faulty conversion, or |ps|. */
  function FirstFault(ps: seq<Part>): (k: nat)
    ensures k <= |ps| && (k < |ps| ==> FaultyPart(ps[k])) && forall i :: 0 <= i < k ==> !FaultyPart(ps[i])
  {
    if ps == [] || FaultyPart(ps[0]) then 0 else 1 + FirstFault(ps[1..])
  }

  /** The first faulty conversion decides: a format is undefined if that is not refused, and rejected if it is. */
  function Outcome(ps: seq<Part>): Reading
    requires WellFormedAll(ps)
  {
    var k := FirstFault(ps);
    if k == |ps| then Understood(ChunksOf(ps)) else if Refused(ps[k].conversion) then Rejected else Undefined
  }

  function ChunksOf(ps: seq<Part>): seq<Chunk>
    requires WellFormedAll(ps)
  {
    if ps == [] then []
    else match ps[0]
      case Words(t) => [NEW_CHUNK.(text := t)] + ChunksOf(ps[1..])
      case Convert(v) => [ChunkOf(v)] + ChunksOf(ps[1..])
  }

  lemma {:induction false} PartsRead(ps: seq<Part>, q: Params)
    requires WellFormedAll(ps) && (q.first || q.numbered)
    ensures Chunks(InDefault, FormatText(ps), q, NEW_CHUNK) == Outcome(ps)
    decreases |ps|
  {
    hide Chunks, NumberedText, ChunkOf, WellFormed, Refused, OutOfTable;
    if ps == [] {
      NothingRead(q);
    } else {
      var rest := ps[1..];
      assert forall i :: 0 <= i < |rest| ==> rest[i] == ps[i + 1];
      assert WellFormedAll(rest);
      match ps[0]
      case Words(t) =>
        RestStarts(ps);
        WordsRead(t, FormatText(rest), q);
        PartsRead(rest, q);
      case Convert(v) =>
        NumberedRead(v, FormatText(rest), q);
        PartsRead(rest, q.(first := false, numbered := true));
    }
  }

  lemma RestStarts(ps: seq<Part>)
    requires WellFormedAll(ps) && ps != [] && ps[0].Words?
    ensures var f := FormatText(ps[1..]); f == "" || f[0] == '%'
  {
    if |ps| > 1 {
      assert ps[0 + 1].Convert? && ps[1..][0] == ps[1];
    }
  }

  /**
   A format of numbered conversions is understood, with the parameters they name,
   if and only if none is faulty.
   */
  lemma FormatRead(ps: seq<Part>)
    requires WellFormedAll(ps)
    ensures ParsedFormat(FormatText(ps)) == Outcome(ps)
  {
    hide Chunks, FormatText, Outcome;
    PartsRead(ps, START);
  }
}
