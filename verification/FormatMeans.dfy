/**
 What formatted printing is for: the text that comes out, in terms of the
 values that went in. A format is taken piece by piece from left to right, each
 conversion with the next arguments; the table of parameters that the source
 makes first comes to the same.
 */
module FormatMeans {
  import opened Format
  import opened FormatGrammar
  import opened FormatOut
  import opened FormatParse
  import opened Options
  import W = Words

  // ---- the meaning of a format ---------------------------------------------

  /** The number that an argument gives; one that is missing or something else gives 0. */
  function Given(a: Option<Arg>): int { match a case Some(IntArg(v)) => v case _ => 0 }

  function Head(args: seq<Arg>): Option<Arg> { if args == [] then None else Some(args[0]) }

  function Rest(args: seq<Arg>): seq<Arg> { if args == [] then [] else args[1..] }

  /** A width or precision, which may be the next argument. */
  function SizeOf(s: Size, absent: int, args: seq<Arg>): int {
    match s case Fixed(n) => n case Star => W.Int32(Given(Head(args))) case _ => absent
  }

  function Past(s: Size, args: seq<Arg>): seq<Arg> { if s.Star? then Rest(args) else args }

  /** The letters of conversions, without those for floating point numbers and 'n'. */
  predicate Letter(c: char) { c in "diouxXcsp%" }

  predicate Lettered(ps: seq<Piece>) { forall i :: 0 <= i < |ps| && ps[i].Convert? ==> Letter(ps[i].conversion.letter) }

  function SignedValue(x: int, w: Width): int { if w.AsLong? || w.AsLongLong? then W.Int64(x) else W.Int32(x) }

  function UnsignedValue(x: int, w: Width): nat { if w.AsLong? || w.AsLongLong? then x % W.TWO64 else x % W.TWO32 }

  /** What a conversion prints, but for the percent sign. */
  function Field(v: Conversion, min: int, max: int, a: Option<Arg>): string {
    var flags := FlagsOf(v.flags, NO_FLAGS);
    if v.letter == 'd' || v.letter == 'i' then IntText(SignedValue(Given(a), v.width), 10, min, max, flags)
    else if v.letter == 'u' then IntText(UnsignedValue(Given(a), v.width), 10, min, max, flags.(unsigned := true))
    else if v.letter == 'o' then IntText(UnsignedValue(Given(a), v.width), 8, min, max, flags.(unsigned := true))
    else if v.letter == 'x' then IntText(UnsignedValue(Given(a), v.width), 16, min, max, flags.(unsigned := true))
    else if v.letter == 'X' then IntText(UnsignedValue(Given(a), v.width), 16, min, max, flags.(unsigned := true, upper := true))
    else if v.letter == 'c' then [(Given(a) % 256) as char]
    else if v.letter == 's' then
      var s := match a case Some(StrArg(Some(s))) => s case _ => "(NULL)";
      StrText(s, flags, min, if max == -1 then |s| else max)
    else IntText(match a case Some(PtrArg(p)) => W.Int64(p) case _ => 0, 16, min, max, flags)
  }

  function Meaning(ps: seq<Piece>, args: seq<Arg>): string
    decreases |ps|
  {
    if ps == [] then ""
    else match ps[0]
      case Words(t) => t + Meaning(ps[1..], args)
      case Convert(v) =>
        var rest := Past(v.min, args);
        var last := Past(v.max, rest);
        if v.letter == '%' then "%" + Meaning(ps[1..], last)
        else Field(v, SizeOf(v.min, 0, args), SizeOf(v.max, -1, rest), Head(last)) + Meaning(ps[1..], Rest(last))
  }

  // ---- the parameters come in order ----------------------------------------

  /** Uses of the parameters from n + 1 on, each once. */
  ghost predicate InOrder(us: seq<Use>, n: nat) { forall i :: 0 <= i < |us| ==> us[i].num == n + i + 1 }

  /** The same uses, from the front. */
  function UsesIn(cs: seq<Chunk>): seq<Use> { if cs == [] then [] else Uses(cs[0]) + UsesIn(cs[1..]) }

  lemma {:induction false} SameUses(cs: seq<Chunk>)
    ensures AllUses(cs) == UsesIn(cs)
  {
    hide Uses;
    for i := 0 to |cs|
      invariant AllUses(cs[..i]) + UsesIn(cs[i..]) == UsesIn(cs)
    {
      assert cs[..i + 1][..i] == cs[..i] && cs[i..][0] == cs[i] && cs[i..][1..] == cs[i + 1..];
      assert AllUses(cs[..i]) + (Uses(cs[i]) + UsesIn(cs[i + 1..])) == AllUses(cs[..i]) + Uses(cs[i]) + UsesIn(cs[i + 1..]);
    }
    assert cs[..|cs|] == cs && cs[|cs|..] == [];
  }

  lemma ConversionUses(v: Conversion, n: nat)
    requires WellFormed(v)
    ensures var us := Uses(ChunkOf(v, n)); InOrder(us, n) && |us| == StarsOf(v) + 1
  {
    hide FlagsOf, KindOf;
    NoLiteral(v.letter, FlagsOf(v.flags, NO_FLAGS));
  }

  lemma NoLiteral(letter: char, flags: Flags)
    requires KindOf(letter, flags).Some?
    ensures !KindOf(letter, flags).value.0.Literal?
  {
  }

  lemma {:induction false} PiecesInOrder(ps: seq<Piece>, n: nat)
    requires WellFormedAll(ps)
    ensures InOrder(UsesIn(ChunksOf(ps, n)), n)
    decreases |ps|
  {
    hide Uses, ChunkOf, WellFormed;
    if ps != [] {
      RestFormed(ps);
      match ps[0]
      case Words(t) =>
        WordsUse(t);
        PiecesInOrder(ps[1..], n);
        ConsUses(NEW_CHUNK.(text := t), ChunksOf(ps[1..], n));
      case Convert(v) =>
        ConversionUses(v, n);
        PiecesInOrder(ps[1..], n + StarsOf(v) + 1);
        ConsUses(ChunkOf(v, n), ChunksOf(ps[1..], n + StarsOf(v) + 1));
    }
  }

  lemma WordsUse(t: string)
    ensures Uses(NEW_CHUNK.(text := t)) == []
  {
  }

  lemma ConsUses(c: Chunk, cs: seq<Chunk>)
    ensures UsesIn([c] + cs) == Uses(c) + UsesIn(cs)
  {
    assert ([c] + cs)[1..] == cs;
  }

  lemma RestFormed(ps: seq<Piece>)
    requires WellFormedAll(ps) && ps != []
    ensures WellFormedAll(ps[1..]) && (ps[0].Convert? ==> WellFormed(ps[0].conversion))
  {
    assert forall i :: 0 <= i < |ps[1..]| ==> ps[1..][i] == ps[i + 1];
  }

  /** If every parameter is used once, in order, the table has one use for each. */
  lemma {:induction false} OneUseEach(us: seq<Use>, i: nat)
    requires InOrder(us, 0)
    ensures MaxNum(us) == |us|
    ensures UsesOf(us, i + 1) == if i < |us| then [us[i]] else []
  {
    if us != [] {
      OneUseEach(us[..|us| - 1], i);
      assert us[|us| - 1].num == |us|;
    }
  }

  /** How many arguments these uses take. */
  function TakenBy(us: seq<Use>): nat {
    if us == [] then 0 else TakenBy(us[..|us| - 1]) + if us[|us| - 1].kind.Percent? then 0 else 1
  }

  lemma {:induction false} TableTakes(us: seq<Use>, p: nat)
    requires InOrder(us, 0) && p <= |us|
    ensures |Table(us)| == |us| && Taken(Table(us), p) == TakenBy(us[..p])
  {
    OneUseEach(us, 0);
    if p > 0 {
      TableTakes(us, p - 1);
      OneUseEach(us, p - 1);
      assert us[..p][..p - 1] == us[..p - 1];
    }
  }

  /** From n on the values are those that the uses make of the arguments, in order. */
  ghost predicate Feeds(values: seq<Value>, n: nat, us: seq<Use>, args: seq<Arg>) {
    |values| >= n + |us| && forall i :: 0 <= i < |us| ==> values[n + i] == ReadArg(us[i], ArgAt(args, TakenBy(us[..i])))
  }

  lemma TableFeeds(us: seq<Use>, args: seq<Arg>)
    requires InOrder(us, 0)
    ensures AllAgree(Table(us)) && Feeds(Values(Table(us), args), 0, us, args)
  {
    hide ReadArg, TakenBy, Taken, UsesOf, MaxNum;
    OneUseEach(us, 0);
    forall i | 0 <= i < |us|
      ensures Agree(Table(us)[i]) && Values(Table(us), args)[i] == ReadArg(us[i], ArgAt(args, TakenBy(us[..i])))
    {
      OneUseEach(us, i);
      TableTakes(us, i);
    }
  }

  lemma {:induction false} TakenAppend(a: seq<Use>, b: seq<Use>)
    ensures TakenBy(a + b) == TakenBy(a) + TakenBy(b)
    decreases |b|
  {
    if b == [] {
      assert a + b == a;
    } else {
      assert (a + b)[..|a + b| - 1] == a + b[..|b| - 1];
      TakenAppend(a, b[..|b| - 1]);
    }
  }

  /** After the first use, the rest is fed with the rest of the arguments. */
  lemma FeedsOne(values: seq<Value>, n: nat, u: Use, us: seq<Use>, args: seq<Arg>)
    requires Feeds(values, n, [u] + us, args)
    ensures ValueAt(values, n + 1) == ReadArg(u, Head(args))
    ensures Feeds(values, n + 1, us, if u.kind.Percent? then args else Rest(args))
  {
    hide ReadArg, TakenBy;
    var all := [u] + us;
    NothingTaken(u);
    assert all[..0] == [] && all[0] == u;
    assert values[n + 0] == ReadArg(u, ArgAt(args, 0));
    forall i | 0 <= i < |us|
      ensures values[n + 1 + i] == ReadArg(us[i], ArgAt(if u.kind.Percent? then args else Rest(args), TakenBy(us[..i])))
    {
      assert all[..1 + i] == [u] + us[..i] && all[1 + i] == us[i];
      TakenAppend([u], us[..i]);
      assert values[n + (1 + i)] == ReadArg(us[i], ArgAt(args, TakenBy(all[..1 + i])));
    }
  }

  lemma NothingTaken(u: Use)
    ensures TakenBy([]) == 0 && TakenBy([u]) == if u.kind.Percent? then 0 else 1
  {
    assert [u][..0] == [];
  }

  // ---- one conversion ------------------------------------------------------

  /** The uses that a star makes: one of the next parameter, as an int. */
  lemma StarFed(s: Size, absent: int, values: seq<Value>, n: nat, us: seq<Use>, args: seq<Arg>)
    requires Feeds(values, n, StarUse(StarAt(s, n + 1)) + us, args) && !s.Named?
    ensures s.Star? ==> SizeOf(s, absent, args) == W.Int32(NumberOf(ValueAt(values, n + 1)))
    ensures s.Fixed? ==> SizeOf(s, absent, args) == s.n
    ensures s.Absent? ==> SizeOf(s, absent, args) == absent
    ensures Feeds(values, n + Stars(s), us, Past(s, args))
  {
    hide Feeds;
    if s.Star? {
      FeedsOne(values, n, Use(n + 1, Int, Plain), us, args);
      Int32Again(Given(Head(args)));
    } else {
      assert StarUse(StarAt(s, n + 1)) + us == us;
    }
  }

  lemma Int32Again(x: int)
    ensures W.Int32(W.Int32(x)) == W.Int32(x)
  {
  }

  lemma UnsignedAgain(x: int)
    ensures W.Int64(x) % W.TWO64 == x % W.TWO64 && W.Int32(x) % 256 == x % 256
  {
    Unsigned64(x);
    var k := (x + W.TWO31) / W.TWO32;
    assert W.Int32(x) == x - W.TWO32 * k;
    Bytes(x, -0x100_0000 * k);
  }

  lemma Unsigned64(x: int)
    ensures W.Int64(x) % W.TWO64 == x % W.TWO64
  {
    var u := x % W.TWO64;
    assert (u - W.TWO64) % W.TWO64 == u && u % W.TWO64 == u;
  }

  lemma Bytes(x: int, k: int)
    ensures (x + 256 * k) % 256 == x % 256
  {
  }

  /** A number printed without a sign is printed modulo 2^64. */
  lemma SameUnsigned(x: int, y: int, base: nat, min: int, max: int, flags: Flags)
    requires 2 <= base <= 16 && flags.unsigned && x % W.TWO64 == y % W.TWO64
    ensures IntText(x, base, min, max, flags) == IntText(y, base, min, max, flags)
  {
    hide DigitsOf, Repeat, ZeroPad, SpacePad;
  }

  /** The conversion itself, with its width and precision. */
  lemma FieldPrinted(v: Conversion, c: Chunk, values: seq<Value>, a: Option<Arg>)
    requires WellFormed(v) && Letter(v.letter) && v.letter != '%' && c.width == v.width
    requires KindOf(v.letter, FlagsOf(v.flags, NO_FLAGS)) == Some((c.kind, c.flags))
    requires ValueAt(values, c.num) == ReadArg(Use(c.num, c.kind, c.width), a)
    ensures Covered(c) && ChunkText(c, values) == Field(v, MinOf(c, values), MaxOf(c, values), a)
  {
    hide IntText, StrText, FlagsOf, W.Int32, W.Int64, MinOf, MaxOf;
    var x := Given(a);
    UnsignedAgain(x);
    if v.letter in "uoxX" {
      var base := if v.letter == 'u' then 10 else if v.letter == 'o' then 8 else 16;
      SameUnsigned(NumberOf(ValueAt(values, c.num)), UnsignedValue(x, v.width), base, MinOf(c, values), MaxOf(c, values), c.flags);
    }
  }

  /** One conversion prints what it means, and leaves the rest of the arguments to the others. */
  lemma ConversionPrinted(v: Conversion, n: nat, values: seq<Value>, us: seq<Use>, args: seq<Arg>)
    requires WellFormed(v) && Letter(v.letter) && Feeds(values, n, Uses(ChunkOf(v, n)) + us, args)
    ensures var rest := Past(v.min, args);
            var last := Past(v.max, rest);
            && Covered(ChunkOf(v, n))
            && ChunkText(ChunkOf(v, n), values)
               == (if v.letter == '%' then "%" else Field(v, SizeOf(v.min, 0, args), SizeOf(v.max, -1, rest), Head(last)))
            && Feeds(values, n + StarsOf(v) + 1, us, if v.letter == '%' then last else Rest(last))
  {
    hide Feeds, FlagsOf, KindOf, ReadArg, W.Int32, Field, ChunkText, Stars, Uses, StarUse;
    var c := ChunkOf(v, n);
    LetterKind(v.letter, FlagsOf(v.flags, NO_FLAGS));
    var rest := Past(v.min, args);
    var last := Past(v.max, rest);
    var u := Use(c.num, c.kind, c.width);
    var a, b := StarUse(StarAt(v.min, n + 1)), StarUse(StarAt(v.max, n + Stars(v.min) + 1));
    UsesFirst(c, us);
    StarFed(v.min, 0, values, n, b + ([u] + us), args);
    StarFed(v.max, -1, values, n + Stars(v.min), [u] + us, rest);
    FeedsOne(values, n + StarsOf(v), u, us, last);
    if v.letter == '%' {
      PercentPrinted(c, values);
    } else {
      FieldPrinted(v, c, values, Head(last));
    }
  }

  lemma UsesFirst(c: Chunk, us: seq<Use>)
    requires !c.kind.Literal?
    ensures Uses(c) + us == StarUse(c.minStar) + (StarUse(c.maxStar) + ([Use(c.num, c.kind, c.width)] + us))
  {
  }

  lemma LetterKind(letter: char, flags: Flags)
    requires Letter(letter)
    ensures KindOf(letter, flags).Some? && !KindOf(letter, flags).value.0.Literal?
    ensures letter == '%' <==> KindOf(letter, flags).value.0.Percent?
  {
  }

  lemma PercentPrinted(c: Chunk, values: seq<Value>)
    requires c.kind.Percent?
    ensures Covered(c) && ChunkText(c, values) == "%"
  {
  }

  // ---- the whole format ----------------------------------------------------

  lemma {:induction false} ConsText(c: Chunk, cs: seq<Chunk>, values: seq<Value>)
    requires Covered(c) && CoveredAll(cs)
    ensures CoveredAll([c] + cs) && AllText([c] + cs, values) == ChunkText(c, values) + AllText(cs, values)
    decreases |cs|
  {
    hide ChunkText, Covered;
    var all := [c] + cs;
    if cs == [] {
      assert all[..0] == [];
    } else {
      var last := |cs| - 1;
      assert all[..|all| - 1] == [c] + cs[..last];
      ConsText(c, cs[..last], values);
    }
  }

  lemma {:induction false} PiecesPrinted(ps: seq<Piece>, n: nat, values: seq<Value>, args: seq<Arg>)
    requires WellFormedAll(ps) && Lettered(ps) && Feeds(values, n, UsesIn(ChunksOf(ps, n)), args)
    ensures CoveredAll(ChunksOf(ps, n)) && AllText(ChunksOf(ps, n), values) == Meaning(ps, args)
    decreases |ps|
  {
    hide Uses, ChunkOf, WellFormed, ChunkText, AllText, Feeds, Covered, Field, SizeOf, Past, Letter;
    if ps == [] {
      NoText(values);
    } else {
      RestFormed(ps);
      assert forall i :: 0 <= i < |ps[1..]| ==> ps[1..][i] == ps[i + 1];
      match ps[0]
      case Words(t) =>
        var c, cs := NEW_CHUNK.(text := t), ChunksOf(ps[1..], n);
        WordsUse(t);
        ConsUses(c, cs);
        assert [] + UsesIn(cs) == UsesIn(cs);
        PiecesPrinted(ps[1..], n, values, args);
        WordsPrinted(t, values);
        ConsText(c, cs, values);
      case Convert(v) =>
        var m := n + StarsOf(v) + 1;
        var c, cs := ChunkOf(v, n), ChunksOf(ps[1..], m);
        ConsUses(c, cs);
        ConversionPrinted(v, n, values, UsesIn(cs), args);
        var last := Past(v.max, Past(v.min, args));
        PiecesPrinted(ps[1..], m, values, if v.letter == '%' then last else Rest(last));
        ConsText(c, cs, values);
    }
  }

  lemma WordsPrinted(t: string, values: seq<Value>)
    ensures var c := NEW_CHUNK.(text := t); Covered(c) && ChunkText(c, values) == t
  {
  }

  /** A format is printed piece by piece, each conversion with the arguments that come next. */
  lemma FormatPrinted(ps: seq<Piece>, args: seq<Arg>)
    requires WellFormedAll(ps) && Lettered(ps)
    ensures CoveredFormat(FormatText(ps)) && Output(FormatText(ps), args) == Printed(Meaning(ps, args))
  {
    hide ParsedFormat, FormatText, WellFormedAll, Lettered, Table, AllAgree, Values, Meaning, ChunksOf, AllUses, UsesIn, AllText, CoveredAll;
    var cs := ChunksOf(ps, 0);
    FormatRead(ps);
    PiecesInOrder(ps, 0);
    SameUses(cs);
    var us := AllUses(cs);
    TableFeeds(us, args);
    PiecesPrinted(ps, 0, Values(Table(us), args), args);
  }

  /** Which letters there are, and what they convert. */
  lemma LettersMean(c: char, flags: Flags)
    ensures KindOf(c, flags).Some? <==>
              c in {'d', 'i', 'o', 'u', 'x', 'X', 'A', 'E', 'G', 'F', 'a', 'e', 'f', 'g', 'c', 's', 'p', 'n', '%'}
    ensures KindOf(c, flags).Some? ==>
              var kind := KindOf(c, flags).value.0;
              && (kind.Int? <==> c in {'d', 'i'}) && (kind.Octal? <==> c == 'o') && (kind.Uint? <==> c == 'u')
              && (kind.Hex? <==> c in {'x', 'X'}) && (kind.Float? <==> c in {'A', 'E', 'G', 'F', 'a', 'e', 'f', 'g'})
              && (kind.Char? <==> c == 'c') && (kind.Str? <==> c == 's') && (kind.Ptr? <==> c == 'p') && (kind.Num? <==> c == 'n')
              && (kind.Percent? <==> c == '%')
  {
  }

  /** Which of them print capitals, and which take numbers as unsigned. */
  lemma LettersFlags(c: char, flags: Flags)
    requires KindOf(c, flags).Some?
    ensures KindOf(c, flags).value.1
            == flags.(upper := flags.upper || c in {'X', 'A', 'E', 'G', 'F'}, unsigned := flags.unsigned || c in {'o', 'u', 'x', 'X'})
  {
  }

  /** Each flag is set exactly if it is written. */
  lemma {:induction false} FlagsMean(s: string, flags: Flags)
    ensures var f := FlagsOf(s, flags);
            && (f.minus <==> flags.minus || '-' in s) && (f.plus <==> flags.plus || '+' in s) && (f.space <==> flags.space || ' ' in s)
            && (f.alternate <==> flags.alternate || '#' in s) && (f.zero <==> flags.zero || '0' in s)
            && f.upper == flags.upper && f.unsigned == flags.unsigned
    decreases |s|
  {
    if s != "" {
      assert forall c: char :: c in s <==> c == s[0] || c in s[1..];
      FlagsMean(s[1..], Flags(flags.minus || s[0] == '-', flags.plus || s[0] == '+', flags.space || s[0] == ' ',
                              flags.alternate || s[0] == '#', flags.zero || s[0] == '0', flags.upper, flags.unsigned));
    }
  }

  // ---- numbers -------------------------------------------------------------

  predicate DigitOf(c: char, base: nat, upper: bool) {
    ('0' <= c <= '9' || if upper then 'A' <= c <= 'F' else 'a' <= c <= 'f') && DigitValue(c) < base
  }

  /** The digits of u, with no zero in front but for 0 itself. */
  predicate IsNumeral(s: string, base: nat, upper: bool, u: nat) {
    && s != "" && (|s| > 1 ==> s[0] != '0') && Numeral(s, base) == u
    && forall i :: 0 <= i < |s| ==> DigitOf(s[i], base, upper)
  }

  lemma {:induction false} OnlyDigits(u: nat, base: nat, upper: bool, n: nat)
    requires 2 <= base <= 16
    ensures forall i :: 0 <= i < n ==> DigitOf(LowDigits(u, base, upper, n)[i], base, upper)
  {
    if n > 0 {
      OnlyDigits(u / base, base, upper, n - 1);
      DigitBack(u % base, upper);
    }
  }

  lemma {:induction false} FirstDigit(u: nat, base: nat, upper: bool, k: nat)
    requires 2 <= base <= 16 && k >= 1 && u > 0 && NumDigits(u, base, k) < k
    ensures LowDigits(u, base, upper, NumDigits(u, base, k))[0] != '0'
    decreases k
  {
    hide Digit;
    var n := NumDigits(u, base, k);
    MoreDigits(u, base, upper, n);
    if n == 1 {
      SmallQuotient(u, base);
      NotZero(u, upper);
    } else {
      Positive(u, base);
      FirstDigit(u / base, base, upper, k - 1);
    }
  }

  lemma SmallQuotient(u: nat, base: nat)
    requires base > 0 && u / base == 0
    ensures u < base && u % base == u
  {
    assert u == base * (u / base) + u % base;
  }

  lemma Positive(u: nat, base: nat)
    requires base > 0 && u / base != 0
    ensures u / base > 0
  {
  }

  lemma NotZero(d: nat, upper: bool)
    requires 0 < d < 16
    ensures Digit(d, upper) != '0'
  {
  }

  /** Numbers of less than 20 digits are printed as their numeral. */
  lemma Canonical(u: nat, base: nat, upper: bool)
    requires 2 <= base <= 16 && u < Pow(base, DIGITS - 1)
    ensures IsNumeral(DigitsOf(u, base, upper), base, upper, u)
  {
    hide Pow, Numeral, LowDigits, NumDigits, DigitOf;
    DigitsExact(u, base, upper);
    OnlyDigits(u, base, upper, Places(u, base));
    NumDigitsIs(u, base, DIGITS);
    var n := NumDigits(u, base, DIGITS);
    if u > 0 && n < DIGITS { FirstDigit(u, base, upper, DIGITS); }
    if u == 0 { ZeroDigits(base); }
  }

  lemma ZeroDigits(base: nat)
    requires 2 <= base
    ensures NumDigits(0, base, DIGITS) == 1
  {
    assert 0 / base == 0;
  }

  /** In base 10 that is the decimal numeral. */
  lemma {:induction false} DecimalDigits(u: nat, upper: bool, k: nat)
    requires k >= 1 && NumDigits(u, 10, k) < k
    ensures LowDigits(u, 10, upper, NumDigits(u, 10, k)) == Decimal(u)
    decreases k
  {
    var n := NumDigits(u, 10, k);
    assert Digit(u % 10, upper) == ((u % 10) + '0' as int) as char;
    MoreDigits(u, 10, upper, n);
    if n == 1 {
      assert LowDigits(u / 10, 10, upper, 0) == "";
    } else {
      DecimalDigits(u / 10, upper, k - 1);
    }
  }

  lemma DecimalPrinted(u: nat, upper: bool)
    requires u < Pow(10, DIGITS - 1)
    ensures DigitsOf(u, 10, upper) == Decimal(u)
  {
    hide Pow, LowDigits, NumDigits, Decimal;
    NumDigitsIs(u, 10, DIGITS);
    DecimalDigits(u, upper, DIGITS);
  }

  /** A sign, zeros and digits with spaces on one side: on the right for a flag '-', else on the left. */
  predicate LaidOut(text: string, sign: string, zeros: nat, digits: string, spaces: nat, flags: Flags) {
    text == if flags.minus then sign + Repeat('0', zeros) + digits + Repeat(' ', spaces)
            else Repeat(' ', spaces) + (sign + Repeat('0', zeros) + digits)
  }

  /** A number has a sign if it is negative, or is asked for one, unless it is printed as unsigned. */
  predicate SignedAs(sign: string, value: int, flags: Flags) {
    && (sign == "-" <==> !flags.unsigned && value < 0)
    && (sign == "+" <==> !flags.unsigned && value >= 0 && flags.plus)
    && (sign == " " <==> !flags.unsigned && value >= 0 && !flags.plus && flags.space)
    && sign in ["", "-", "+", " "]
  }

  /**
   A number in its field: the sign, zeros up to the precision or, with a flag
   '0', up to the width, and its digits; spaces up to the width otherwise.
   */
  lemma IntField(value: int, base: nat, min: int, max: int, flags: Flags) returns (sign: string, zeros: nat, digits: string, spaces: nat)
    requires 2 <= base <= 16
    ensures LaidOut(IntText(value, base, min, max, flags), sign, zeros, digits, spaces, flags) && SignedAs(sign, value, flags)
    ensures var u := if flags.unsigned then value % W.TWO64 else if value < 0 then -value else value;
            u < Pow(base, DIGITS - 1) ==> IsNumeral(digits, base, flags.upper, u)
    ensures !flags.zero ==> zeros + |digits| == Max(max, |digits|) && |sign| + zeros + |digits| + spaces == Max(min, |sign| + zeros + |digits|)
    ensures flags.zero ==> spaces == 0 && (max <= |digits| ==> |sign| + zeros + |digits| == Max(min, |sign| + |digits|))
  {
    hide Repeat, DigitsOf, IsNumeral, Pow;
    digits, sign := DigitsOf(Magnitude(value, flags), base, flags.upper), SignOf(value, flags);
    zeros := ZeroPad(|digits|, |sign|, min, Max(0, max), flags);
    spaces := SpacePad(|digits|, |sign|, min, Max(0, max), flags);
    var u: nat := if flags.unsigned then value % W.TWO64 else if value < 0 then -value else value;
    if u < Pow(base, DIGITS - 1) { Canonical(u, base, flags.upper); }
  }

  /** A string in its field: cut to the precision, with spaces up to the width, on the right for a flag '-'. */
  lemma StrField(value: string, flags: Flags, min: int, max: nat) returns (spaces: nat)
    ensures var s := value[..Min(|value|, max)];
            && StrText(value, flags, min, max) == (if flags.minus then s + Repeat(' ', spaces) else Repeat(' ', spaces) + s)
            && |s| + spaces == Max(min, |s|)
  {
    hide Repeat;
    spaces := Max(0, min - |Clipped(value, max)|);
    NoRepeat(min - |Clipped(value, max)|);
    NoRepeat(spaces);
  }

  // ---- what the plain conversions print ------------------------------------

  function Simple(letter: char): seq<Piece> { [Convert(Conversion("", Absent, Absent, Plain, letter))] }

  lemma SimpleText(letter: char)
    requires Letter(letter)
    ensures FormatText(Simple(letter)) == "%" + [letter] && WellFormedAll(Simple(letter)) && Lettered(Simple(letter))
  {
    hide KindOf;
    LetterKind(letter, NO_FLAGS);
    assert "" + [letter] == [letter] && Simple(letter)[1..] == [];
  }

  /** A conversion with nothing but its letter prints its field as it is. */
  lemma SimplePrinted(letter: char, a: Arg)
    requires Letter(letter)
    ensures CoveredFormat("%" + [letter])
    ensures Output("%" + [letter], [a])
            == Printed(if letter == '%' then "%" else Field(Conversion("", Absent, Absent, Plain, letter), 0, -1, Some(a)))
  {
    hide Output, Field, FormatText, Letter, CoveredFormat;
    SimpleText(letter);
    FormatPrinted(Simple(letter), [a]);
    SimpleMeaning(letter, a);
  }

  lemma SimpleMeaning(letter: char, a: Arg)
    ensures Meaning(Simple(letter), [a])
            == if letter == '%' then "%" else Field(Conversion("", Absent, Absent, Plain, letter), 0, -1, Some(a))
  {
    hide Field;
    var ps := Simple(letter);
    assert ps[1..] == [];
    assert Meaning(ps[1..], [a]) == "" && Meaning(ps[1..], []) == "";
    assert [a][1..] == [];
  }

  /** With no width and no precision a number is its sign and its digits. */
  lemma BareInt(value: int, base: nat, flags: Flags)
    requires 2 <= base <= 16 && !flags.minus && !flags.zero
    ensures IntText(value, base, 0, -1, flags) == SignOf(value, flags) + DigitsOf(Magnitude(value, flags), base, flags.upper)
  {
    hide DigitsOf;
    var digits, sign := DigitsOf(Magnitude(value, flags), base, flags.upper), SignOf(value, flags);
    assert Repeat('0', 0) == "" && Repeat(' ', 0) == "";
    assert "" + (sign + "" + digits) == sign + digits;
  }

  lemma ManyDigits(base: nat)
    requires 8 <= base
    ensures W.TWO32 <= Pow(base, DIGITS - 1)
  {
    hide Pow;
    PowFrom(8, base, DIGITS - 1);
    PowOne(8);
    PowStep(8, 2); PowStep(8, 3); PowStep(8, 4); PowStep(8, 5); PowStep(8, 6);
    PowStep(8, 7); PowStep(8, 8); PowStep(8, 9); PowStep(8, 10); PowStep(8, 11);
    PowGrows(8, 11, DIGITS - 1);
  }

  lemma {:induction false} PowFrom(a: nat, b: nat, n: nat)
    requires 1 <= a <= b
    ensures Pow(a, n) <= Pow(b, n)
  {
    if n > 0 {
      PowFrom(a, b, n - 1);
      MulBoth(a, b, Pow(a, n - 1), Pow(b, n - 1));
    }
  }

  lemma MulBoth(a: nat, b: nat, p: nat, q: nat)
    requires a <= b && p <= q
    ensures a * p <= b * q
  {
    assert a * p <= a * q;
    assert a * q <= b * q;
  }

  /** %d and %i print every int in decimal. */
  lemma PrintsInt(letter: char, v: int)
    requires (letter == 'd' || letter == 'i') && -W.TWO31 <= v < W.TWO31
    ensures CoveredFormat("%" + [letter])
    ensures Output("%" + [letter], [IntArg(v)]) == Printed(if v < 0 then "-" + Decimal(-v) else Decimal(v))
  {
    hide Output, IntText, CoveredFormat, Decimal, DigitsOf, Pow;
    SimplePrinted(letter, IntArg(v));
    BareInt(v, 10, NO_FLAGS);
    var u: nat := if v < 0 then -v else v;
    ManyDigits(10);
    DecimalPrinted(u, false);
    assert "" + Decimal(u) == Decimal(u);
  }

  /** %u, %o, %x and %X print the number modulo 2^32, in their base. */
  lemma PrintsUnsigned(letter: char, v: int)
    requires letter in "uoxX"
    ensures CoveredFormat("%" + [letter]) && Output("%" + [letter], [IntArg(v)]).Printed?
    ensures IsNumeral(Output("%" + [letter], [IntArg(v)]).text, if letter == 'u' then 10 else if letter == 'o' then 8 else 16,
                      letter == 'X', v % W.TWO32)
  {
    hide Output, CoveredFormat, IsNumeral, Field;
    SimplePrinted(letter, IntArg(v));
    UnsignedField(letter, v);
  }

  lemma UnsignedField(letter: char, v: int)
    requires letter in "uoxX"
    ensures IsNumeral(Field(Conversion("", Absent, Absent, Plain, letter), 0, -1, Some(IntArg(v))),
                      if letter == 'u' then 10 else if letter == 'o' then 8 else 16, letter == 'X', v % W.TWO32)
  {
    hide IntText, DigitsOf, Pow, IsNumeral;
    var base := if letter == 'u' then 10 else if letter == 'o' then 8 else 16;
    var flags := NO_FLAGS.(unsigned := true, upper := letter == 'X');
    BareInt(v % W.TWO32, base, flags);
    ManyDigits(base);
    Canonical(v % W.TWO32, base, flags.upper);
    var digits := DigitsOf(v % W.TWO32, base, flags.upper);
    assert "" + digits == digits;
  }

  /** %s prints the string, %c the character, and %% a percent sign. */
  lemma PrintsText(s: string, c: nat, a: Arg)
    requires c < 256
    ensures CoveredFormat("%s") && Output("%s", [StrArg(Some(s))]) == Printed(s)
    ensures CoveredFormat("%c") && Output("%c", [IntArg(c)]) == Printed([c as char])
    ensures CoveredFormat("%%") && Output("%%", [a]) == Printed("%")
  {
    hide Output, CoveredFormat, Field;
    assert "%s" == "%" + ['s'] && "%c" == "%" + ['c'] && "%%" == "%" + ['%'];
    SimplePrinted('s', StrArg(Some(s)));
    StringField(s);
    SimplePrinted('c', IntArg(c));
    CharField(c);
    SimplePrinted('%', a);
  }

  lemma StringField(s: string)
    ensures Field(Conversion("", Absent, Absent, Plain, 's'), 0, -1, Some(StrArg(Some(s)))) == s
  {
    hide StrText, Repeat;
    var spaces := StrField(s, NO_FLAGS, 0, |s|);
    NoRepeat(0);
    assert s[..|s|] == s && "" + s == s;
  }

  lemma CharField(c: nat)
    requires c < 256
    ensures Field(Conversion("", Absent, Absent, Plain, 'c'), 0, -1, Some(IntArg(c))) == [c as char]
  {
  }
}
