/** Formats written out from their parts, as the C standard has them, and what the state machine makes of them. */
module FormatGrammar {
  import opened FormatOut
  import opened FormatParse
  import opened Options
  import opened SeqFacts

  /** A width or a precision: none, a number, or taken from a parameter, the next one or the one named. */
  datatype Size = Absent | Fixed(n: nat) | Star | Named(num: nat)

  /** Flags may come in any order, and more than once. */
  datatype Conversion = Conversion(flags: string, min: Size, max: Size, width: Width, letter: char)

  datatype Piece = Words(text: string) | Convert(conversion: Conversion)

  // ---- writing them out ----------------------------------------------------

  function Decimal(n: nat): (s: string)
    ensures s != "" && forall i :: 0 <= i < |s| ==> IsDigit(s[i])
    ensures n > 0 ==> s[0] != '0'
  {
    (if n < 10 then "" else Decimal(n / 10)) + [((n % 10) + '0' as int) as char]
  }

  function StarText(num: nat): string { "*" + (Decimal(num) + "$") }

  function MinText(s: Size): string {
    match s case Absent => "" case Fixed(n) => Decimal(n) case Star => "*" case Named(num) => StarText(num)
  }

  function MaxText(s: Size): string {
    match s case Absent => "" case Fixed(n) => "." + Decimal(n) case Star => ".*" case Named(num) => "." + StarText(num)
  }

  function WidthText(w: Width): string {
    match w case Plain => "" case AsChar => "hh" case AsShort => "h" case AsLong => "l" case AsLongDouble => "L" case AsLongLong => "ll"
  }

  function ConversionText(v: Conversion): string {
    "%" + (v.flags + (MinText(v.min) + (MaxText(v.max) + (WidthText(v.width) + [v.letter]))))
  }

  function PieceText(p: Piece): string {
    match p case Words(text) => text case Convert(v) => ConversionText(v)
  }

  function FormatText(ps: seq<Piece>): string {
    if ps == [] then "" else PieceText(ps[0]) + FormatText(ps[1..])
  }

  // ---- what they mean ------------------------------------------------------

  predicate IsFlag(c: char) { c in "-+ #0I" }

  /** The flags that are set when those of s are added. */
  function FlagsOf(s: string, flags: Flags): Flags {
    if s == "" then flags
    else
      FlagsOf(s[1..],
        Flags(flags.minus || s[0] == '-', flags.plus || s[0] == '+', flags.space || s[0] == ' ', flags.alternate || s[0] == '#',
              flags.zero || s[0] == '0', flags.upper, flags.unsigned))
  }

  function Stars(s: Size): nat { if s.Star? then 1 else 0 }

  function StarsOf(v: Conversion): nat { Stars(v.min) + Stars(v.max) }

  /** The parameter that a star takes if n is the next one. */
  function StarAt(s: Size, n: nat): Option<nat> { if s.Star? then Some(n) else None }

  function WidthIn(s: Size): nat { if s.Fixed? then s.n else 0 }

  function PrecisionIn(s: Size): int { if s.Fixed? then s.n else -1 }

  /** The chunk for a conversion after n parameters: its stars come first. */
  function ChunkOf(v: Conversion, n: nat): Chunk
    requires WellFormed(v)
  {
    var (kind, flags) := KindOf(v.letter, FlagsOf(v.flags, NO_FLAGS)).value;
    Chunk(kind, n + StarsOf(v) + 1, WidthIn(v.min), PrecisionIn(v.max), flags, v.width, "",
          StarAt(v.min, n + 1), StarAt(v.max, n + Stars(v.min) + 1))
  }

  /** A letter that is a conversion, and no width of 0, which would be a flag. */
  predicate WellFormed(v: Conversion) {
    && KindOf(v.letter, FlagsOf(v.flags, NO_FLAGS)).Some? && v.min != Fixed(0) && !v.min.Named? && !v.max.Named?
    && forall i :: 0 <= i < |v.flags| ==> IsFlag(v.flags[i])
  }

  /** Words are not empty, have no percent sign and do not follow each other. */
  predicate WellFormedAll(ps: seq<Piece>) {
    && (forall i :: 0 <= i < |ps| ==> match ps[i] case Words(t) => t != "" && '%' !in t case Convert(v) => WellFormed(v))
    && (forall i :: 0 <= i < |ps| - 1 ==> ps[i].Words? ==> ps[i + 1].Convert?)
  }

  function ChunksOf(ps: seq<Piece>, n: nat): seq<Chunk>
    requires WellFormedAll(ps)
    decreases |ps|
  {
    if ps == [] then []
    else match ps[0]
      case Words(t) => [NEW_CHUNK.(text := t)] + ChunksOf(ps[1..], n)
      case Convert(v) => [ChunkOf(v, n)] + ChunksOf(ps[1..], n + StarsOf(v) + 1)
  }

  // ---- the machine reads them ----------------------------------------------

  /** A character that ends the flags. */
  predicate NoFlag(f: string) { f != "" && FlagOf(f[0], NO_FLAGS).None? }

  predicate NoSize(f: string) { f != "" && !IsDigit(f[0]) && f[0] != '$' && f[0] != '*' }

  lemma FlagsEnd(f: string, q: Params, c: Chunk)
    requires NoFlag(f)
    ensures Chunks(InFlags, f, q, c) == Chunks(InMin, f, q, c)
  {
    hide KindOf, StarOf, WidthOf, TextLen;
  }

  lemma {:induction false} FlagsRead(s: string, f: string, q: Params, c: Chunk)
    requires NoFlag(f) && forall i :: 0 <= i < |s| ==> IsFlag(s[i])
    ensures Chunks(InFlags, s + f, q, c) == Chunks(InMin, f, q, c.(flags := FlagsOf(s, c.flags)))
    decreases |s|
  {
    hide KindOf, StarOf, WidthOf, TextLen, NoFlag;
    if s == "" {
      assert s + f == f;
      FlagsEnd(f, q, c);
    } else {
      assert (s + f)[1..] == s[1..] + f;
      FlagsRead(s[1..], f, q, c.(flags := FlagOf(s[0], c.flags).value));
    }
  }

  lemma {:induction false} MinDigits(s: string, f: string, q: Params, c: Chunk)
    requires forall i :: 0 <= i < |s| ==> IsDigit(s[i])
    ensures Chunks(InMin, s + f, q, c) == Chunks(InMin, f, q, c.(min := ReadNumber(s, c.min)))
    decreases |s|
  {
    hide KindOf, FlagOf, StarOf, WidthOf, TextLen;
    if s == "" {
      assert s + f == f;
    } else {
      assert (s + f)[1..] == s[1..] + f;
      MinDigits(s[1..], f, q, c.(min := 10 * c.min + CharToInt(s[0])));
    }
  }

  lemma {:induction false} MaxDigits(s: string, f: string, q: Params, c: Chunk)
    requires s != "" && forall i :: 0 <= i < |s| ==> IsDigit(s[i])
    ensures Chunks(InMax, s + f, q, c) == Chunks(InMax, f, q, c.(max := ReadNumber(s, Max(0, c.max))))
    decreases |s|
  {
    hide Chunks, CharToInt;
    MaxAhead(s + f, q, c);
    var d := MaxDigit(c, s[0]);
    assert (s + f)[1..] == s[1..] + f;
    if |s| == 1 {
      assert s[1..] + f == f;
      OneDigit(s, Max(0, c.max));
    } else {
      MaxDigits(s[1..], f, q, d);
    }
  }

  lemma OneDigit(s: string, n: nat)
    requires |s| == 1 && IsDigit(s[0])
    ensures ReadNumber(s, n) == 10 * n + CharToInt(s[0])
  {
    assert s[1..] == "";
  }

  lemma {:induction false} DecimalBack(n: nat)
    ensures ReadNumber(Decimal(n), 0) == n
  {
    var d := ((n % 10) + '0' as int) as char;
    if n < 10 {
      assert "" + [d] == [d];
      OneDigit([d], 0);
    } else {
      DecimalBack(n / 10);
      ReadMore(Decimal(n / 10), d, 0);
    }
  }

  lemma MinEnds(f: string, q: Params, c: Chunk)
    requires NoSize(f)
    ensures Chunks(InMin, f, q, c) == Chunks(InDot, f, q.(first := false), c)
  {
    hide KindOf, FlagOf, WidthOf, TextLen, StarOf;
  }

  lemma MinStar(g: string, f: string, q: Params, c: Chunk)
    requires g != "" && g[0] == '*' && g[1..] == f && !q.numbered
    ensures Chunks(InMin, g, q, c) == Chunks(InDot, f, q.(first := false, count := q.count + 1), c.(minStar := Some(q.count + 1)))
  {
    hide *;
    NextStar(f, q.(first := false));
    MinStarAhead(g, q, c);
  }

  lemma NextStar(f: string, q: Params)
    requires !q.numbered
    ensures StarOf(f, q) == Some((q.count + 1, f, q.(count := q.count + 1)))
  {
    hide DigitsLen, ReadNumber;
  }

  lemma MinRead(v: Conversion, f: string, q: Params, c: Chunk)
    requires v.min != Fixed(0) && !v.min.Named? && NoSize(f) && !q.numbered && c.min == 0 && c.minStar.None?
    ensures Chunks(InMin, MinText(v.min) + f, q, c) == Chunks(InDot, f,
              q.(first := false, count := q.count + Stars(v.min)), c.(min := WidthIn(v.min), minStar := StarAt(v.min, q.count + 1)))
  {
    hide Chunks, Decimal, NoSize;
    match v.min
    case Absent =>
      assert "" + f == f;
      MinEnds(f, q, c);
    case Fixed(n) =>
      MinDigits(Decimal(n), f, q, c);
      DecimalBack(n);
      MinEnds(f, q, c.(min := n));
    case Star =>
      assert ("*" + f)[1..] == f;
      MinStar("*" + f, f, q, c);
  }

  lemma MaxRead(v: Conversion, f: string, q: Params, c: Chunk)
    requires !v.max.Named? && NoSize(f) && f[0] != '.' && !q.numbered && c.max == -1 && c.maxStar.None?
    ensures Chunks(InDot, MaxText(v.max) + f, q, c) == Chunks(InMod, f,
              q.(count := q.count + Stars(v.max)), c.(max := PrecisionIn(v.max), maxStar := StarAt(v.max, q.count + 1)))
  {
    hide KindOf, FlagOf, WidthOf, TextLen, Decimal, Chunks, StarOf;
    match v.max
    case Absent =>
      assert "" + f == f;
      DotAhead(f, q, c);
    case Fixed(n) =>
      var d := Decimal(n);
      assert "." + d + f == "." + (d + f) && ("." + (d + f))[1..] == d + f;
      DotAhead("." + (d + f), q, c);
      MaxDigits(d, f, q, c);
      DecimalBack(n);
      MaxAhead(f, q, c.(max := n));
    case Star =>
      assert ".*" + f == "." + ("*" + f) && ("." + ("*" + f))[1..] == "*" + f && ("*" + f)[1..] == f;
      DotAhead("." + ("*" + f), q, c);
      MaxStarAhead("*" + f, q, c);
      NextStar(f, q);
  }

  /** A character that no length modifier starts with. */
  predicate NoWidth(ch: char) { ch != 'h' && ch != 'l' && ch != 'L' }

  /** A length modifier is read as such, also at the very end of a format. */
  lemma WidthMeans(w: Width, f: string)
    requires f == "" || NoWidth(f[0])
    ensures WidthOf(WidthText(w) + f) == (w, |WidthText(w)|)
  {
    var s := WidthText(w);
    var all := s + f;
    assert |s| <= 2 && forall i :: 0 <= i < |s| ==> all[i] == s[i];
    assert f != "" ==> all[|s|] == f[0];
  }

  lemma WidthRead(w: Width, ch: char, f: string, q: Params, c: Chunk)
    requires NoWidth(ch) && c.width.Plain?
    ensures Chunks(InMod, WidthText(w) + ([ch] + f), q, c) == Chunks(InConv, [ch] + f, q, c.(width := w))
  {
    hide KindOf, FlagOf, TextLen, StarOf, WidthOf;
    var s := WidthText(w);
    var all := s + ([ch] + f);
    WidthMeans(w, [ch] + f);
    assert all[|s|..] == [ch] + f;
  }

  /** From the width on. */
  lemma SizesRead(v: Conversion, f: string, q: Params, c: Chunk)
    requires v.min != Fixed(0) && !v.min.Named? && !v.max.Named? && KindOf(v.letter, c.flags).Some? && !q.numbered
    requires c.num == c.min == 0 && c.max == -1 && c.width.Plain? && c.minStar.None? && c.maxStar.None?
    ensures var (kind, flags) := KindOf(v.letter, c.flags).value;
            Chunks(InMin, MinText(v.min) + (MaxText(v.max) + (WidthText(v.width) + ([v.letter] + f))), q, c)
            == Before(c.(kind := kind, num := q.count + StarsOf(v) + 1, flags := flags, width := v.width,
                         min := WidthIn(v.min), max := PrecisionIn(v.max),
                         minStar := StarAt(v.min, q.count + 1), maxStar := StarAt(v.max, q.count + Stars(v.min) + 1)),
                      Chunks(InDefault, f, Params(false, false, q.count + StarsOf(v) + 1), NEW_CHUNK))
  {
    hide Chunks, FlagOf, Decimal, KindOf, MinText, MaxText, WidthText, NoFlag, NoSize, NoWidth, Stars, StarAt, WidthIn, PrecisionIn;
    var letter := [v.letter] + f;
    var atWidth := WidthText(v.width) + letter;
    LetterStarts(v, c.flags, f);
    MinRead(v, MaxText(v.max) + atWidth, q, c);
    var q2 := q.(first := false, count := q.count + Stars(v.min));
    var c2 := c.(min := WidthIn(v.min), minStar := StarAt(v.min, q.count + 1));
    MaxRead(v, atWidth, q2, c2);
    var q3 := q2.(count := q2.count + Stars(v.max));
    var c3 := c2.(max := PrecisionIn(v.max), maxStar := StarAt(v.max, q2.count + 1));
    WidthRead(v.width, v.letter, f, q3, c3);
    LetterRead(v.letter, f, q3, c3.(width := v.width));
  }

  lemma LetterStarts(v: Conversion, flags: Flags, f: string)
    requires KindOf(v.letter, flags).Some? && v.min != Fixed(0)
    ensures NoWidth(v.letter)
    ensures var atWidth := WidthText(v.width) + ([v.letter] + f);
            && NoSize(atWidth) && atWidth[0] != '.' && NoSize(MaxText(v.max) + atWidth)
            && NoFlag(MinText(v.min) + (MaxText(v.max) + atWidth))
  {
    hide MinText, MaxText, WidthText, KindOf, FlagOf;
    var letter := [v.letter] + f;
    var atWidth := WidthText(v.width) + letter;
    LetterPlain(v.letter, flags);
    WidthStarts(v.width, letter);
    MaxStarts(v.max, atWidth);
    MinStarts(v.min, MaxText(v.max) + atWidth);
  }

  /** A conversion is read as what it was written out from. */
  lemma ConversionRead(v: Conversion, f: string, q: Params)
    requires WellFormed(v) && !q.numbered
    ensures Chunks(InDefault, ConversionText(v) + f, q, NEW_CHUNK)
            == Before(ChunkOf(v, q.count), Chunks(InDefault, f, Params(false, false, q.count + StarsOf(v) + 1), NEW_CHUNK))
  {
    hide Chunks, KindOf, FlagsOf, MinText, MaxText, WidthText, NoFlag, NoSize;
    var flags := FlagsOf(v.flags, NO_FLAGS);
    var atMin := MinText(v.min) + (MaxText(v.max) + (WidthText(v.width) + ([v.letter] + f)));
    Regrouped(v, f);
    LetterStarts(v, flags, f);
    StartRead(v.flags + atMin, q);
    FlagsRead(v.flags, atMin, q, NEW_CHUNK);
    SizesRead(v, f, q, NEW_CHUNK.(flags := flags));
  }

  lemma StartRead(f: string, q: Params)
    ensures Chunks(InDefault, "%" + f, q, NEW_CHUNK) == Chunks(InFlags, f, q, NEW_CHUNK)
  {
    hide KindOf, FlagOf, WidthOf, TextLen, StarOf;
    assert ("%" + f)[1..] == f;
  }

  lemma LetterRead(ch: char, f: string, q: Params, c: Chunk)
    requires c.num == 0 && KindOf(ch, c.flags).Some?
    ensures var (kind, flags) := KindOf(ch, c.flags).value;
            Chunks(InConv, [ch] + f, q, c) == Before(c.(num := q.count + 1, kind := kind, flags := flags),
                                                     Chunks(InDefault, f, q.(count := q.count + 1), NEW_CHUNK))
  {
    hide KindOf, Chunks;
    ConvAhead([ch] + f, q, c);
    assert ([ch] + f)[1..] == f;
  }

  lemma ConvAhead(f: string, q: Params, c: Chunk)
    requires f != "" && c.num == 0 && KindOf(f[0], c.flags).Some?
    ensures var (kind, flags) := KindOf(f[0], c.flags).value;
            Chunks(InConv, f, q, c) == Before(c.(num := q.count + 1, kind := kind, flags := flags),
                                              Chunks(InDefault, f[1..], q.(count := q.count + 1), NEW_CHUNK))
  {
    hide KindOf, FlagOf, WidthOf, TextLen, StarOf;
  }

  lemma LetterPlain(ch: char, flags: Flags)
    requires KindOf(ch, flags).Some?
    ensures NoWidth(ch) && NoFlag([ch]) && NoSize([ch]) && ch != '.'
  {
  }

  lemma WidthStarts(w: Width, letter: string)
    requires NoFlag(letter) && NoSize(letter) && letter[0] != '.'
    ensures var s := WidthText(w) + letter; NoFlag(s) && NoSize(s) && s[0] != '.'
  {
    if w.Plain? { assert "" + letter == letter; }
  }

  lemma MaxStarts(size: Size, rest: string)
    requires NoFlag(rest) && NoSize(rest)
    ensures var s := MaxText(size) + rest; NoFlag(s) && NoSize(s)
  {
    hide Decimal;
    if size.Absent? { assert "" + rest == rest; }
  }

  lemma MinStarts(size: Size, rest: string)
    requires NoFlag(rest) && size != Fixed(0)
    ensures NoFlag(MinText(size) + rest)
  {
    hide Decimal;
    if size.Absent? { assert "" + rest == rest; }
  }

  lemma Regrouped(v: Conversion, f: string)
    ensures ConversionText(v) + f
            == "%" + (v.flags + (MinText(v.min) + (MaxText(v.max) + (WidthText(v.width) + ([v.letter] + f)))))
  {
    hide MinText, MaxText, WidthText;
  }

  lemma WordsRead(t: string, f: string, q: Params)
    requires t != "" && '%' !in t && (f == "" || f[0] == '%')
    ensures Chunks(InDefault, t + f, q, NEW_CHUNK) == Before(NEW_CHUNK.(text := t), Chunks(InDefault, f, q, NEW_CHUNK))
  {
    hide KindOf, FlagOf, WidthOf, StarOf;
    TextEnds(t, f);
    assert (t + f)[..|t|] == t && (t + f)[|t|..] == f;
  }

  lemma {:induction false} TextEnds(t: string, f: string)
    requires '%' !in t && (f == "" || f[0] == '%')
    ensures TextLen(t + f) == |t|
    decreases |t|
  {
    if t == "" {
      assert t + f == f;
    } else {
      assert (t + f)[1..] == t[1..] + f;
      TextEnds(t[1..], f);
    }
  }

  /** A format is read as the pieces it was written out from, whatever they are. */
  lemma {:induction false} PiecesRead(ps: seq<Piece>, q: Params)
    requires WellFormedAll(ps) && !q.numbered
    ensures Chunks(InDefault, FormatText(ps), q, NEW_CHUNK) == Understood(ChunksOf(ps, q.count))
    decreases |ps|
  {
    hide Chunks, ConversionText, ChunkOf, WellFormed;
    if ps == [] {
      NothingRead(q);
    } else {
      var rest := ps[1..];
      assert WellFormedAll(rest) by {
        assert forall i :: 0 <= i < |rest| ==> rest[i] == ps[i + 1];
      }
      match ps[0]
      case Words(t) =>
        RestStarts(ps);
        WordsRead(t, FormatText(rest), q);
        PiecesRead(rest, q);
      case Convert(v) =>
        ConversionRead(v, FormatText(rest), q);
        PiecesRead(rest, Params(false, false, q.count + StarsOf(v) + 1));
    }
  }

  lemma NothingRead(q: Params)
    ensures Chunks(InDefault, "", q, NEW_CHUNK) == Understood([])
  {
  }

  lemma RestStarts(ps: seq<Piece>)
    requires WellFormedAll(ps) && ps != [] && ps[0].Words?
    ensures var f := FormatText(ps[1..]); f == "" || f[0] == '%'
  {
    if |ps| > 1 {
      assert ps[0 + 1].Convert? && ps[1..][0] == ps[1];
    }
  }

  lemma FormatRead(ps: seq<Piece>)
    requires WellFormedAll(ps)
    ensures ParsedFormat(FormatText(ps)) == Understood(ChunksOf(ps, 0))
  {
    hide Chunks, FormatText, ChunksOf;
    PiecesRead(ps, START);
  }
}
