/** The reading of a format string: a state machine that cuts it into chunks and notes which parameters they use. */
module FormatParse {
  import opened FormatOut
  import opened Options

  datatype Kind = Literal | Int | Octal | Uint | Hex | Float | Char | Str | Ptr | Num | Percent

  datatype Width = Plain | AsChar | AsShort | AsLong | AsLongDouble | AsLongLong

  /** A piece of the output. Stars and conversions name their parameters, counted from 1. */
  datatype Chunk = Chunk(kind: Kind, num: nat, min: nat, max: int, flags: Flags, width: Width, text: string,
                         minStar: Option<nat>, maxStar: Option<nat>)

  const NO_FLAGS := Flags(false, false, false, false, false, false, false)

  const NEW_CHUNK := Chunk(Literal, 0, 0, -1, NO_FLAGS, Plain, "", None, None)

  /** Whether no parameter has been seen yet, whether they are numbered, and how many have been counted. */
  datatype Params = Params(first: bool, numbered: bool, count: nat)

  datatype State = InDefault | InFlags | InMin | InDot | InMax | InMod | InConv

  // ---- characters ----------------------------------------------------------

  predicate IsDigit(c: char) { '0' <= c <= '9' }

  function CharToInt(c: char): nat
    requires IsDigit(c)
  {
    c as int - '0' as int
  }

  /** How far the text goes before the next '%'. */
  function TextLen(f: string): (k: nat)
    ensures k <= |f| && (k < |f| ==> f[k] == '%') && '%' !in f[..k]
    ensures f != "" && f[0] != '%' ==> k > 0
  {
    if f == "" || f[0] == '%' then 0
    else assert f[..1 + TextLen(f[1..])] == [f[0]] + f[1..][..TextLen(f[1..])]; 1 + TextLen(f[1..])
  }

  function DigitsLen(f: string): (k: nat)
    ensures k <= |f| && (k < |f| ==> !IsDigit(f[k])) && forall i :: 0 <= i < k ==> IsDigit(f[i])
  {
    if f == "" || !IsDigit(f[0]) then 0 else 1 + DigitsLen(f[1..])
  }

  /** The number that these digits, read after n, make. */
  function ReadNumber(f: string, n: nat): nat
    requires forall i :: 0 <= i < |f| ==> IsDigit(f[i])
  {
    if f == "" then n else ReadNumber(f[1..], 10 * n + CharToInt(f[0]))
  }

  function FlagOf(c: char, flags: Flags): Option<Flags> {
    match c
    case '-' => Some(flags.(minus := true))
    case '+' => Some(flags.(plus := true))
    case ' ' => Some(flags.(space := true))
    case '#' => Some(flags.(alternate := true))
    case '0' => Some(flags.(zero := true))
    case 'I' => Some(flags)
    case _ => None
  }

  /** The conversion that a letter stands for, with the flags it adds. */
  function KindOf(c: char, flags: Flags): Option<(Kind, Flags)> {
    match c
    case 'd' => Some((Int, flags))
    case 'i' => Some((Int, flags))
    case 'o' => Some((Octal, flags.(unsigned := true)))
    case 'u' => Some((Uint, flags.(unsigned := true)))
    case 'X' => Some((Hex, flags.(upper := true, unsigned := true)))
    case 'x' => Some((Hex, flags.(unsigned := true)))
    case 'A' => Some((Float, flags.(upper := true)))
    case 'E' => Some((Float, flags.(upper := true)))
    case 'G' => Some((Float, flags.(upper := true)))
    case 'F' => Some((Float, flags.(upper := true)))
    case 'a' => Some((Float, flags))
    case 'e' => Some((Float, flags))
    case 'f' => Some((Float, flags))
    case 'g' => Some((Float, flags))
    case 'c' => Some((Char, flags))
    case 's' => Some((Str, flags))
    case 'p' => Some((Ptr, flags))
    case 'n' => Some((Num, flags))
    case '%' => Some((Percent, flags))
    case _ => None
  }

  /** The length modifier that f starts with. */
  function WidthOf(f: string): (w: (Width, nat))
    ensures w.1 <= |f|
  {
    if f == "" then (Plain, 0)
    else if f[0] == 'h' then if |f| > 1 && f[1] == 'h' then (AsChar, 2) else (AsShort, 1)
    else if f[0] == 'l' then if |f| > 1 && f[1] == 'l' then (AsLongLong, 2) else (AsLong, 1)
    else if f[0] == 'L' then (AsLongDouble, 1)
    else (Plain, 0)
  }

  /** The parameter that a star takes, what is left of f after it, and the parameters counted then. */
  function StarOf(f: string, ps: Params): (r: Option<(nat, string, Params)>)
    ensures r.Some? ==> |r.value.1| <= |f|
  {
    if !ps.numbered then Some((ps.count + 1, f, ps.(count := ps.count + 1)))
    else
      var k := DigitsLen(f);
      if k == 0 || k == |f| || f[k] != '$' then None
      else Some((ReadNumber(f[..k], 0), f[k + 1..], ps))
  }

  // ---- the meaning of a format ---------------------------------------------

  function Rank(state: State): nat {
    match state case InFlags => 6 case InMin => 5 case InDot => 4 case InMax => 3 case InMod => 2 case InConv => 1 case InDefault => 0
  }

  /**
   What a format comes to: its chunks, or an error, or undefined behaviour: a
   star may name parameter 0, which has no place in the table of parameters.
   */
  datatype Reading = Understood(chunks: seq<Chunk>) | Rejected | Undefined

  function Before(c: Chunk, rest: Reading): Reading {
    if rest.Understood? then Understood([c] + rest.chunks) else rest
  }

  /**
   The chunks of what is left of a format, read from this state on, c being the
   chunk that is being read.
   */
  function Chunks(state: State, f: string, ps: Params, c: Chunk): Reading
    decreases |f|, Rank(state)
  {
    if f == "" then Understood(if state.InDefault? then [] else [c])
    else
      match state
      case InDefault =>
        if f[0] == '%' then Chunks(InFlags, f[1..], ps, NEW_CHUNK)
        else
          var k := TextLen(f);
          Before(NEW_CHUNK.(text := f[..k]), Chunks(InDefault, f[k..], ps, NEW_CHUNK))
      case InFlags =>
        (match FlagOf(f[0], c.flags)
         case Some(flags) => Chunks(InFlags, f[1..], ps, c.(flags := flags))
         case None => Chunks(InMin, f, ps, c))
      case InMin =>
        if IsDigit(f[0]) then Chunks(InMin, f[1..], ps, c.(min := 10 * c.min + CharToInt(f[0])))
        else if f[0] == '$' then
          if (!ps.first && !ps.numbered) || c.min == 0 then Rejected
          else Chunks(InMin, f[1..], ps.(first := false, numbered := true), c.(num := c.min, min := 0))
        else if f[0] == '*' then
          (match StarOf(f[1..], ps.(first := false))
           case None => Rejected
           case Some((num, g, qs)) => if num == 0 then Undefined else Chunks(InDot, g, qs, c.(minStar := Some(num))))
        else Chunks(InDot, f, ps.(first := false), c)
      case InDot =>
        if f[0] == '.' then Chunks(InMax, f[1..], ps, c) else Chunks(InMod, f, ps, c)
      case InMax =>
        if IsDigit(f[0]) then Chunks(InMax, f[1..], ps, c.(max := 10 * Max(0, c.max) + CharToInt(f[0])))
        else if f[0] == '$' then
          if (!ps.first && !ps.numbered) || c.max <= 0 then Rejected
          else Chunks(InMax, f[1..], ps, c.(num := c.max, max := -1))
        else if f[0] == '*' then
          (match StarOf(f[1..], ps)
           case None => Rejected
           case Some((num, g, qs)) => if num == 0 then Undefined else Chunks(InMod, g, qs, c.(maxStar := Some(num))))
        else Chunks(InMod, f, ps, c)
      case InMod =>
        var (width, k) := WidthOf(f);
        Chunks(InConv, f[k..], ps, if k == 0 then c else c.(width := width))
      case InConv =>
        var qs := if c.num == 0 then ps.(count := ps.count + 1) else ps;
        var num := if c.num == 0 then qs.count else c.num;
        (match KindOf(f[0], c.flags)
         case None => Rejected
         case Some((kind, flags)) =>
           Before(c.(num := num, kind := kind, flags := flags), Chunks(InDefault, f[1..], qs, NEW_CHUNK)))
  }

  const START := Params(true, false, 0)

  function ParsedFormat(format: string): Reading { Chunks(InDefault, format, START, NEW_CHUNK) }

  // ---- the parameters that are used ----------------------------------------

  /** A use of a parameter. */
  datatype Use = Use(num: nat, kind: Kind, width: Width)

  /** The uses that a chunk makes, in the order in which they are noted. A conversion cut short makes none of its own. */
  function Uses(c: Chunk): (us: seq<Use>) {
    StarUse(c.minStar) + StarUse(c.maxStar) + if c.kind.Literal? then [] else [Use(c.num, c.kind, c.width)]
  }

  function StarUse(star: Option<nat>): seq<Use> {
    match star case None => [] case Some(num) => [Use(num, Int, Plain)]
  }

  function AllUses(cs: seq<Chunk>): seq<Use> {
    if cs == [] then [] else AllUses(cs[..|cs| - 1]) + Uses(cs[|cs| - 1])
  }

  /** The uses of one parameter. */
  function UsesOf(us: seq<Use>, num: nat): seq<Use> {
    if us == [] then []
    else UsesOf(us[..|us| - 1], num) + if us[|us| - 1].num == num then [us[|us| - 1]] else []
  }

  function MaxNum(us: seq<Use>): nat {
    if us == [] then 0 else Max(MaxNum(us[..|us| - 1]), us[|us| - 1].num)
  }

  /** For every parameter, its uses. */
  function Table(us: seq<Use>): (t: seq<seq<Use>>)
    ensures |t| == MaxNum(us) && forall i :: 0 <= i < |t| ==> t[i] == UsesOf(us, i + 1)
  {
    seq(MaxNum(us), i requires 0 <= i => UsesOf(us, i + 1))
  }

  lemma {:induction false} NoUses(us: seq<Use>, num: nat)
    requires num > MaxNum(us)
    ensures UsesOf(us, num) == []
  {
    if us != [] { NoUses(us[..|us| - 1], num); }
  }

  /** add_cnk_list_entry. */
  method AddEntry(list: seq<seq<Use>>, u: Use, ghost us: seq<Use>) returns (l: seq<seq<Use>>)
    requires list == Table(us) && u.num > 0
    ensures l == Table(us + [u])
  {
    hide UsesOf, MaxNum;
    l := list;
    while |l| < u.num
      invariant |list| <= |l| <= Max(|list|, u.num)
      invariant forall i :: 0 <= i < |l| ==> l[i] == if i < |list| then list[i] else []
    {
      l := l + [[]];
    }
    l := l[u.num - 1 := l[u.num - 1] + [u]];
    MaxNumMore(us, u);
    forall i | 0 <= i < |l| ensures l[i] == UsesOf(us + [u], i + 1) {
      UsesOfMore(us, u, i + 1);
      if i >= |list| { NoUses(us, i + 1); }
    }
  }

  lemma MaxNumMore(us: seq<Use>, u: Use)
    ensures MaxNum(us + [u]) == Max(MaxNum(us), u.num)
  {
    assert (us + [u])[..|us|] == us;
  }

  lemma UsesOfMore(us: seq<Use>, u: Use, num: nat)
    ensures UsesOf(us + [u], num) == UsesOf(us, num) + if u.num == num then [u] else []
  {
    assert (us + [u])[..|us|] == us;
  }

  // ---- the state machine ---------------------------------------------------

  method ScanText(f: string) returns (k: nat)
    ensures k == TextLen(f)
  {
    k := 0;
    while k < |f| && f[k] != '%'
      invariant k <= |f| && TextLen(f) == k + TextLen(f[k..])
    {
      assert f[k..][1..] == f[k + 1..];
      k := k + 1;
    }
  }

  /** What a star takes: the next parameter, or the one whose number and '$' follow. */
  method ReadStar(f: string, ps: Params) returns (r: Option<(nat, string, Params)>)
    ensures r == StarOf(f, ps)
  {
    hide DigitsLen, ReadNumber;
    if !ps.numbered { return Some((ps.count + 1, f, ps.(count := ps.count + 1))); }
    var num, k := ReadDigits(f);
    if k == 0 || k == |f| || f[k] != '$' { return None; }
    return Some((num, f[k + 1..], ps));
  }

  method ReadDigits(f: string) returns (num: nat, k: nat)
    ensures k == DigitsLen(f) && num == ReadNumber(f[..k], 0)
  {
    hide DigitsLen, ReadNumber;
    num, k := 0, 0;
    assert f[0..] == f;
    NoNumber(f);
    while k < |f| && IsDigit(f[k])
      invariant k <= |f| && DigitsLen(f) == k + DigitsLen(f[k..]) && forall i :: 0 <= i < k ==> IsDigit(f[i])
      invariant num == ReadNumber(f[..k], 0)
    {
      ReadMore(f[..k], f[k], 0);
      OneMoreDigit(f[k..]);
      assert f[..k + 1] == f[..k] + [f[k]] && f[k..][1..] == f[k + 1..];
      num := 10 * num + CharToInt(f[k]);
      k := k + 1;
    }
    NoDigitLeft(f[k..]);
  }

  lemma NoNumber(f: string)
    ensures ReadNumber(f[..0], 0) == 0
  {
  }

  lemma OneMoreDigit(f: string)
    requires f != "" && IsDigit(f[0])
    ensures DigitsLen(f) == 1 + DigitsLen(f[1..])
  {
  }

  lemma NoDigitLeft(f: string)
    requires f == "" || !IsDigit(f[0])
    ensures DigitsLen(f) == 0
  {
  }

  lemma {:induction false} ReadMore(f: string, c: char, n: nat)
    requires (forall i :: 0 <= i < |f| ==> IsDigit(f[i])) && IsDigit(c)
    ensures ReadNumber(f + [c], n) == 10 * ReadNumber(f, n) + CharToInt(c)
    decreases |f|
  {
    if f == "" {
      assert f + [c] == [c];
    } else {
      assert (f + [c])[1..] == f[1..] + [c];
      ReadMore(f[1..], c, 10 * n + CharToInt(f[0]));
    }
  }

  /** The machine in the middle of a format, with the uses noted so far. */
  datatype Machine = Machine(state: State, f: string, ps: Params, c: Chunk, list: seq<seq<Use>>)

  /** What the machine will still find. */
  ghost function Ahead(m: Machine): Reading { Chunks(m.state, m.f, m.ps, m.c) }

  /** A chunk that has come as far as this state. */
  ghost predicate Partial(state: State, c: Chunk) {
    && c.kind.Literal? && c.text == ""
    && (state.InFlags? || state.InMin? ==> c.minStar.None?)
    && (Rank(state) >= 3 ==> c.maxStar.None?)
    && (c.minStar.Some? ==> c.minStar.value > 0) && (c.maxStar.Some? ==> c.maxStar.value > 0)
  }

  /** Inside a conversion, with us the uses noted before it. */
  ghost predicate Noted(m: Machine, us: seq<Use>) {
    !m.state.InDefault? && Partial(m.state, m.c) && m.list == Table(us + Uses(m.c))
  }

  const FINE := Understood([])

  /** A star inside a conversion: the parameter it takes is noted as an int. */
  method NoteStar(m: Machine, num: nat, c: Chunk, ghost us: seq<Use>) returns (list: seq<seq<Use>>)
    requires num > 0 && m.list == Table(us + Uses(m.c)) && Uses(c) == Uses(m.c) + [Use(num, Int, Plain)]
    ensures list == Table(us + Uses(c))
  {
    hide Table, Uses;
    list := AddEntry(m.list, Use(num, Int, Plain), us + Uses(m.c));
    assert us + Uses(m.c) + [Use(num, Int, Plain)] == us + Uses(c);
  }

  lemma StarUses(c: Chunk, num: nat)
    requires c.kind.Literal? && c.maxStar.None?
    ensures c.minStar.None? ==> Uses(c.(minStar := Some(num))) == Uses(c) + [Use(num, Int, Plain)]
    ensures Uses(c.(maxStar := Some(num))) == Uses(c) + [Use(num, Int, Plain)]
  {
  }

  method StarMin(m: Machine, ghost us: seq<Use>) returns (fault: Reading, m': Machine)
    requires m.state.InMin? && m.f != "" && m.f[0] == '*' && Noted(m, us)
    ensures fault.Understood? ==> Ahead(m') == Ahead(m) && Noted(m', us) && |m'.f| < |m.f| && m'.state == InDot
    ensures !fault.Understood? ==> Ahead(m) == fault
  {
    hide Table, StarOf, Chunks, Uses;
    MinStarAhead(m.f, m.ps, m.c);
    var star := ReadStar(m.f[1..], m.ps.(first := false));
    if star.None? { return Rejected, m; }
    var num := star.value.0;
    if num == 0 { return Undefined, m; }
    StarUses(m.c, num);
    var c := m.c.(minStar := Some(num));
    var list := NoteStar(m, num, c, us);
    m' := Machine(InDot, star.value.1, star.value.2, c, list);
    return FINE, m';
  }

  method StarMax(m: Machine, ghost us: seq<Use>) returns (fault: Reading, m': Machine)
    requires m.state.InMax? && m.f != "" && m.f[0] == '*' && Noted(m, us)
    ensures fault.Understood? ==> Ahead(m') == Ahead(m) && Noted(m', us) && |m'.f| < |m.f| && m'.state == InMod
    ensures !fault.Understood? ==> Ahead(m) == fault
  {
    hide Table, StarOf, Chunks, Uses;
    MaxStarAhead(m.f, m.ps, m.c);
    var star := ReadStar(m.f[1..], m.ps);
    if star.None? { return Rejected, m; }
    var num := star.value.0;
    if num == 0 { return Undefined, m; }
    StarUses(m.c, num);
    var c := m.c.(maxStar := Some(num));
    var list := NoteStar(m, num, c, us);
    m' := Machine(InMod, star.value.1, star.value.2, c, list);
    return FINE, m';
  }

  lemma MinStarAhead(f: string, ps: Params, c: Chunk)
    requires f != "" && f[0] == '*'
    ensures Chunks(InMin, f, ps, c) ==
            var star := StarOf(f[1..], ps.(first := false));
            if star.None? then Rejected
            else if star.value.0 == 0 then Undefined
            else Chunks(InDot, star.value.1, star.value.2, c.(minStar := Some(star.value.0)))
  {
    hide KindOf, FlagOf, WidthOf, TextLen, StarOf, CharToInt;
  }

  /** One more digit of a width. */
  function MinDigit(c: Chunk, ch: char): Chunk
    requires IsDigit(ch)
  {
    c.(min := 10 * c.min + CharToInt(ch))
  }

  lemma MinAhead(f: string, ps: Params, c: Chunk)
    requires f != ""
    ensures IsDigit(f[0]) ==> Chunks(InMin, f, ps, c) == Chunks(InMin, f[1..], ps, MinDigit(c, f[0]))
    ensures f[0] == '$' && ((!ps.first && !ps.numbered) || c.min == 0) ==> Chunks(InMin, f, ps, c) == Rejected
    ensures f[0] == '$' && (ps.first || ps.numbered) && c.min > 0 ==>
              Chunks(InMin, f, ps, c) == Chunks(InMin, f[1..], ps.(first := false, numbered := true), c.(num := c.min, min := 0))
    ensures !IsDigit(f[0]) && f[0] != '$' && f[0] != '*' ==> Chunks(InMin, f, ps, c) == Chunks(InDot, f, ps.(first := false), c)
  {
    hide KindOf, FlagOf, WidthOf, TextLen, StarOf, CharToInt;
  }

  method StepMin(m: Machine, ghost us: seq<Use>) returns (fault: Reading, m': Machine)
    requires m.state.InMin? && m.f != "" && Noted(m, us)
    ensures fault.Understood? ==> Ahead(m') == Ahead(m) && Noted(m', us) && |m'.f| <= |m.f|
    ensures fault.Understood? && m'.state != InDot ==> m'.state == InMin && |m'.f| < |m.f|
    ensures !fault.Understood? ==> Ahead(m) == fault
  {
    hide Table, StarOf, Chunks, CharToInt;
    var ch, ps, c := m.f[0], m.ps, m.c;
    if ch == '*' {
      fault, m' := StarMin(m, us);
      return;
    }
    MinAhead(m.f, ps, c);
    if IsDigit(ch) {
      return FINE, m.(f := m.f[1..], c := c.(min := 10 * c.min + CharToInt(ch)));
    } else if ch == '$' {
      if !ps.first && !ps.numbered { return Rejected, m; }
      if ps.first { ps := ps.(first := false, numbered := true); }
      if c.min == 0 { return Rejected, m; }
      return FINE, m.(f := m.f[1..], ps := ps, c := c.(num := c.min, min := 0));
    } else {
      return FINE, m.(state := InDot, ps := ps.(first := false));
    }
  }

  /** One more digit of a precision. */
  function MaxDigit(c: Chunk, ch: char): Chunk
    requires IsDigit(ch)
  {
    c.(max := 10 * Max(0, c.max) + CharToInt(ch))
  }

  lemma MaxAhead(f: string, ps: Params, c: Chunk)
    requires f != ""
    ensures IsDigit(f[0]) ==> Chunks(InMax, f, ps, c) == Chunks(InMax, f[1..], ps, MaxDigit(c, f[0]))
    ensures f[0] == '$' && ((!ps.first && !ps.numbered) || c.max <= 0) ==> Chunks(InMax, f, ps, c) == Rejected
    ensures f[0] == '$' && (ps.first || ps.numbered) && c.max > 0 ==>
              Chunks(InMax, f, ps, c) == Chunks(InMax, f[1..], ps, c.(num := c.max, max := -1))
    ensures !IsDigit(f[0]) && f[0] != '$' && f[0] != '*' ==> Chunks(InMax, f, ps, c) == Chunks(InMod, f, ps, c)
  {
    hide KindOf, FlagOf, WidthOf, TextLen, StarOf, CharToInt;
  }

  lemma MaxStarAhead(f: string, ps: Params, c: Chunk)
    requires f != "" && f[0] == '*'
    ensures Chunks(InMax, f, ps, c) ==
            var star := StarOf(f[1..], ps);
            if star.None? then Rejected
            else if star.value.0 == 0 then Undefined
            else Chunks(InMod, star.value.1, star.value.2, c.(maxStar := Some(star.value.0)))
  {
    hide KindOf, FlagOf, WidthOf, TextLen, StarOf, CharToInt;
  }

  method StepMax(m: Machine, ghost us: seq<Use>) returns (fault: Reading, m': Machine)
    requires m.state.InMax? && m.f != "" && Noted(m, us)
    ensures fault.Understood? ==> Ahead(m') == Ahead(m) && Noted(m', us) && |m'.f| <= |m.f|
    ensures fault.Understood? && m'.state != InMod ==> m'.state == InMax && |m'.f| < |m.f|
    ensures !fault.Understood? ==> Ahead(m) == fault
  {
    hide Table, StarOf, Chunks, CharToInt;
    var ch, ps, c := m.f[0], m.ps, m.c;
    if ch == '*' {
      fault, m' := StarMax(m, us);
      return;
    }
    MaxAhead(m.f, ps, c);
    if IsDigit(ch) {
      if c.max < 0 { c := c.(max := 0); }
      return FINE, m.(f := m.f[1..], c := c.(max := 10 * c.max + CharToInt(ch)));
    } else if ch == '$' {
      if !ps.first && !ps.numbered { return Rejected, m; }
      if c.max <= 0 { return Rejected, m; }
      return FINE, m.(f := m.f[1..], c := c.(num := c.max, max := -1));
    } else {
      return FINE, m.(state := InMod);
    }
  }

  method StepConv(m: Machine, ghost us: seq<Use>) returns (fault: Reading, m': Machine, c: Chunk)
    requires m.state.InConv? && m.f != "" && Noted(m, us)
    ensures fault.Understood? ==> m'.state == InDefault && |m'.f| < |m.f| && Ahead(m) == Before(c, Ahead(m')) && m'.list == Table(us + Uses(c))
    ensures !fault.Understood? ==> Ahead(m) == fault
  {
    hide Table, FlagOf, WidthOf, TextLen, StarOf;
    var ps := m.ps;
    c := m.c;
    if c.num == 0 {
      ps := ps.(count := ps.count + 1);
      c := c.(num := ps.count);
    }
    var kind := KindOf(m.f[0], c.flags);
    if kind.None? { return Rejected, m, c; }
    c := c.(kind := kind.value.0, flags := kind.value.1);
    var use := Use(c.num, c.kind, c.width);
    var list := AddEntry(m.list, use, us + Uses(m.c));
    assert us + Uses(m.c) + [use] == us + Uses(c);
    m' := Machine(InDefault, m.f[1..], ps, NEW_CHUNK, list);
    return FINE, m', c;
  }

  lemma FlagAhead(f: string, ps: Params, c: Chunk)
    requires f != ""
    ensures var flags := FlagOf(f[0], c.flags);
            Chunks(InFlags, f, ps, c) == if flags.Some? then Chunks(InFlags, f[1..], ps, c.(flags := flags.value)) else Chunks(InMin, f, ps, c)
  {
    hide KindOf, FlagOf, WidthOf, TextLen, StarOf;
  }

  lemma DotAhead(f: string, q: Params, c: Chunk)
    requires f != ""
    ensures Chunks(InDot, f, q, c) == if f[0] == '.' then Chunks(InMax, f[1..], q, c) else Chunks(InMod, f, q, c)
  {
    hide KindOf, FlagOf, WidthOf, TextLen, StarOf;
  }

  lemma ModAhead(f: string, ps: Params, c: Chunk)
    requires f != ""
    ensures var w := WidthOf(f);
            Chunks(InMod, f, ps, c) == Chunks(InConv, f[w.1..], ps, if w.1 == 0 then c else c.(width := w.0))
  {
    hide KindOf, FlagOf, WidthOf, TextLen, StarOf;
  }

  /** The other states inside a conversion: flags, the dot and the length modifier. */
  method StepOther(m: Machine, ghost us: seq<Use>) returns (m': Machine)
    requires (m.state.InFlags? || m.state.InDot? || m.state.InMod?) && m.f != "" && Noted(m, us)
    ensures Ahead(m') == Ahead(m) && Noted(m', us) && |m'.f| <= |m.f|
    ensures |m'.f| == |m.f| ==> Rank(m'.state) < Rank(m.state)
  {
    hide Table, Chunks, FlagOf, WidthOf;
    if m.state.InFlags? {
      FlagAhead(m.f, m.ps, m.c);
      var flags := FlagOf(m.f[0], m.c.flags);
      if flags.Some? {
        return m.(f := m.f[1..], c := m.c.(flags := flags.value));
      }
      return m.(state := InMin);
    }
    if m.state.InDot? {
      DotAhead(m.f, m.ps, m.c);
      if m.f[0] == '.' {
        return m.(state := InMax, f := m.f[1..]);
      }
      return m.(state := InMod);
    }
    ModAhead(m.f, m.ps, m.c);
    var w := WidthOf(m.f);
    return m.(state := InConv, f := m.f[w.1..], c := if w.1 == 0 then m.c else m.c.(width := w.0));
  }

  /** What has been found, and what is still to come. */
  ghost function Joined(done: seq<Chunk>, ahead: Reading): Reading {
    if ahead.Understood? then Understood(done + ahead.chunks) else ahead
  }

  lemma JoinedMore(done: seq<Chunk>, c: Chunk, ahead: Reading)
    ensures Joined(done, Before(c, ahead)) == Joined(done + [c], ahead)
    ensures AllUses(done + [c]) == AllUses(done) + Uses(c)
  {
    assert (done + [c])[..|done|] == done;
    if ahead.Understood? { assert done + ([c] + ahead.chunks) == done + [c] + ahead.chunks; }
  }

  /** The loop of dopr over the format. */
  method ParseFormat(format: string) returns (reading: Reading, list: seq<seq<Use>>)
    ensures reading == ParsedFormat(format)
    ensures reading.Understood? ==> list == Table(AllUses(reading.chunks))
  {
    hide Chunks, AllUses, Uses, Table;
    var chunks := [];
    NoChunks();
    var m := Machine(InDefault, format, START, NEW_CHUNK, []);
    assert Ahead(m).Understood? ==> [] + Ahead(m).chunks == Ahead(m).chunks;
    while m.f != ""
      invariant Joined(chunks, Ahead(m)) == ParsedFormat(format)
      invariant if m.state.InDefault? then m.list == Table(AllUses(chunks)) else Noted(m, AllUses(chunks))
      decreases |m.f|, Rank(m.state)
    {
      match m.state
      case InDefault =>
        if m.f[0] == '%' {
          m := StartConversion(m, AllUses(chunks));
        } else {
          var k := ScanText(m.f);
          var c := NEW_CHUNK.(text := m.f[..k]);
          TextAhead(m, k);
          JoinedMore(chunks, c, Ahead(m.(f := m.f[k..], c := NEW_CHUNK)));
          LiteralUses(c, AllUses(chunks));
          chunks := chunks + [c];
          m := m.(f := m.f[k..], c := NEW_CHUNK);
        }
      case InMin =>
        var fault, next := StepMin(m, AllUses(chunks));
        if !fault.Understood? { return fault, []; }
        m := next;
      case InMax =>
        var fault, next := StepMax(m, AllUses(chunks));
        if !fault.Understood? { return fault, []; }
        m := next;
      case InConv =>
        var fault, next, c := StepConv(m, AllUses(chunks));
        if !fault.Understood? { return fault, []; }
        JoinedMore(chunks, c, Ahead(next));
        chunks := chunks + [c];
        m := next;
      case _ =>
        m := StepOther(m, AllUses(chunks));
    }
    AtEnd(m);
    if m.state != InDefault {
      JoinedMore(chunks, m.c, FINE);
      assert [m.c] + [] == [m.c];
      chunks := chunks + [m.c];
    }
    assert chunks + [] == chunks;
    return Understood(chunks), m.list;
  }

  lemma NoChunks()
    ensures AllUses([]) == [] && Table([]) == []
  {
  }

  lemma AtEnd(m: Machine)
    requires m.f == ""
    ensures Ahead(m) == Understood(if m.state.InDefault? then [] else [m.c])
  {
  }

  method StartConversion(m: Machine, ghost us: seq<Use>) returns (m': Machine)
    requires m.state.InDefault? && m.f != "" && m.f[0] == '%' && m.list == Table(us)
    ensures Ahead(m') == Ahead(m) && Noted(m', us) && |m'.f| < |m.f|
  {
    hide Table;
    assert us + Uses(NEW_CHUNK) == us;
    return m.(state := InFlags, f := m.f[1..], c := NEW_CHUNK);
  }

  lemma TextAhead(m: Machine, k: nat)
    requires m.state.InDefault? && m.f != "" && m.f[0] != '%' && k == TextLen(m.f)
    ensures Ahead(m) == Before(NEW_CHUNK.(text := m.f[..k]), Ahead(m.(f := m.f[k..], c := NEW_CHUNK)))
  {
  }

  lemma LiteralUses(c: Chunk, us: seq<Use>)
    requires c.kind.Literal? && c.minStar.None? && c.maxStar.None?
    ensures us + Uses(c) == us
  {
  }
}
