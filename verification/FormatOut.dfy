/** Formatted output into a buffer that may be too short: characters that do not fit are counted but not stored. */
module FormatOut {
  import opened SeqFacts
  import opened Words

  datatype Flags = Flags(minus: bool, plus: bool, space: bool, alternate: bool, zero: bool, upper: bool, unsigned: bool)

  // ---- the buffer ----------------------------------------------------------

  function Min(a: int, b: int): int { if a < b then a else b }

  function Max(a: int, b: int): int { if a > b then a else b }

  /** The buffer b after text was put into its first maxlen places. */
  function Stored(b: seq<char>, text: string, maxlen: nat): (s: seq<char>)
    requires maxlen <= |b|
    ensures |s| == |b|
  {
    var k := Min(|text|, maxlen);
    text[..k] + b[k..]
  }

  /** dopr_outch. */
  method OutCh(buffer: array<char>, currlen: nat, maxlen: nat, c: char, ghost b: seq<char>, ghost text: string) returns (len: nat)
    requires maxlen <= buffer.Length == |b| && currlen == |text| && buffer[..] == Stored(b, text, maxlen)
    modifies buffer
    ensures buffer[..] == Stored(b, text + [c], maxlen) && len == |text| + 1
  {
    if currlen < maxlen {
      buffer[currlen] := c;
    }
    len := currlen + 1;
  }

  function Repeat(c: char, n: int): (s: string)
    ensures |s| == Max(n, 0)
  {
    if n <= 0 then "" else Repeat(c, n - 1) + [c]
  }

  method OutRepeat(buffer: array<char>, currlen: nat, maxlen: nat, c: char, n: int, ghost b: seq<char>, ghost text: string)
    returns (len: nat)
    requires maxlen <= buffer.Length == |b| && currlen == |text| && buffer[..] == Stored(b, text, maxlen)
    modifies buffer
    ensures buffer[..] == Stored(b, text + Repeat(c, n), maxlen) && len == |text + Repeat(c, n)|
  {
    hide Stored;
    len := currlen;
    assert text + Repeat(c, 0) == text;
    var k := 0;
    while k < n
      invariant 0 <= k && (k <= n || k == 0)
      invariant buffer[..] == Stored(b, text + Repeat(c, k), maxlen) && len == |text + Repeat(c, k)|
    {
      len := OutCh(buffer, len, maxlen, c, b, text + Repeat(c, k));
      Associate(text, Repeat(c, k), [c]);
      k := k + 1;
    }
  }

  lemma StoredMore(b: seq<char>, text: string, maxlen: nat, s: string, copied: seq<char>)
    requires maxlen <= |b| && maxlen > |text|
    requires var n := Min(|s|, maxlen - |text|);
             copied == Stored(b, text, maxlen)[..|text|] + s[..n] + Stored(b, text, maxlen)[|text| + n..]
    ensures copied == Stored(b, text + s, maxlen)
  {
  }

  lemma StoredFull(b: seq<char>, text: string, maxlen: nat, s: string)
    requires maxlen <= |b| && maxlen <= |text|
    ensures Stored(b, text, maxlen) == Stored(b, text + s, maxlen)
  {
  }

  /** A whole string, as memcpy puts it. */
  method OutText(buffer: array<char>, currlen: nat, maxlen: nat, s: string, ghost b: seq<char>, ghost text: string) returns (len: nat)
    requires maxlen <= buffer.Length == |b| && currlen == |text| && buffer[..] == Stored(b, text, maxlen)
    modifies buffer
    ensures buffer[..] == Stored(b, text + s, maxlen) && len == |text + s|
  {
    hide Stored;
    ghost var before := buffer[..];
    if maxlen != 0 && maxlen > currlen {
      var n := if maxlen > currlen + |s| then |s| else maxlen - currlen;
      for i := 0 to n
        invariant buffer[..] == before[..currlen] + s[..i] + before[currlen + i..]
      {
        buffer[currlen + i] := s[i];
      }
      StoredMore(b, text, maxlen, s, buffer[..]);
    } else {
      StoredFull(b, text, maxlen, s);
    }
    len := currlen + |s|;
  }

  // ---- strings -------------------------------------------------------------

  /** The part of the string that is printed. */
  function Clipped(value: string, max: int): (s: string)
    ensures s <= value && |s| == Max(0, Min(|value|, max))
  {
    value[..Max(0, Min(|value|, max))]
  }

  function StrText(value: string, flags: Flags, min: int, max: int): string {
    var s := Clipped(value, max);
    var pad := Repeat(' ', min - |s|);
    if flags.minus then s + pad else pad + s
  }

  /** The field is as wide as asked for, or as the string. */
  lemma StrWidth(value: string, flags: Flags, min: int, max: int)
    ensures |StrText(value, flags, min, max)| == Max(min, |Clipped(value, max)|)
  {
  }

  /** The loop of fmtstr that puts the string itself. */
  method OutClipped(buffer: array<char>, currlen: nat, maxlen: nat, value: string, max: int, ghost b: seq<char>, ghost text: string)
    returns (len: nat)
    requires maxlen <= buffer.Length == |b| && currlen == |text| && buffer[..] == Stored(b, text, maxlen)
    modifies buffer
    ensures buffer[..] == Stored(b, text + Clipped(value, max), maxlen) && len == |text + Clipped(value, max)|
  {
    hide Stored;
    len := currlen;
    var cnt := 0;
    assert text + value[..0] == text;
    while cnt < |value| && cnt < max
      invariant 0 <= cnt <= |value| && (cnt <= max || cnt == 0)
      invariant buffer[..] == Stored(b, text + value[..cnt], maxlen) && len == |text + value[..cnt]|
    {
      len := OutCh(buffer, len, maxlen, value[cnt], b, text + value[..cnt]);
      assert text + value[..cnt] + [value[cnt]] == text + value[..cnt + 1];
      cnt := cnt + 1;
    }
  }

  /** The length of what is printed, counted as fmtstr does. */
  method ClippedLength(value: string, max: int) returns (strln: nat)
    ensures strln == |Clipped(value, max)|
  {
    strln := 0;
    while strln < max && strln < |value|
      invariant strln <= |value| && (strln <= max || strln == 0)
    {
      strln := strln + 1;
    }
  }

  /** fmtstr. */
  method FmtStr(buffer: array<char>, currlen: nat, maxlen: nat, value: string, flags: Flags, min: int, max: int,
                ghost b: seq<char>, ghost text: string) returns (len: nat)
    requires maxlen <= buffer.Length == |b| && currlen == |text| && buffer[..] == Stored(b, text, maxlen)
    modifies buffer
    ensures buffer[..] == Stored(b, text + StrText(value, flags, min, max), maxlen)
    ensures len == |text + StrText(value, flags, min, max)|
  {
    hide Stored, Repeat, Clipped, StrText;
    var strln := ClippedLength(value, max);
    var padlen := min - strln;
    if padlen < 0 { padlen := 0; }
    if flags.minus { padlen := -padlen; }
    len := OutRepeat(buffer, currlen, maxlen, ' ', padlen, b, text);
    ghost var left := text + Repeat(' ', padlen);
    len := OutClipped(buffer, len, maxlen, value, max, b, left);
    ghost var mid := left + Clipped(value, max);
    len := OutRepeat(buffer, len, maxlen, ' ', -padlen, b, mid);
    StrPieces(text, value, flags, min, max, padlen);
  }

  lemma StrPieces(text: string, value: string, flags: Flags, min: int, max: int, padlen: int)
    requires var p := Max(0, min - |Clipped(value, max)|); padlen == if flags.minus then -p else p
    ensures text + Repeat(' ', padlen) + Clipped(value, max) + Repeat(' ', -padlen) == text + StrText(value, flags, min, max)
  {
    hide Clipped;
    var p := min - |Clipped(value, max)|;
    NoRepeat(padlen);
    NoRepeat(-padlen);
    NoRepeat(p);
  }

  lemma NoRepeat(n: int)
    ensures n <= 0 ==> Repeat(' ', n) == ""
  {
  }

  // ---- integers ------------------------------------------------------------

  const DIGITS := 20

  function Digit(d: nat, upper: bool): char
    requires d < 16
  {
    (if upper then "0123456789ABCDEF" else "0123456789abcdef")[d]
  }

  /** The lowest n digits of u, the highest of them first. */
  function LowDigits(u: nat, base: nat, upper: bool, n: nat): (s: string)
    requires 2 <= base <= 16
    ensures |s| == n
  {
    if n == 0 then "" else LowDigits(u / base, base, upper, n - 1) + [Digit(u % base, upper)]
  }

  /** How many digits u has, but no more than k (and at least one). */
  function NumDigits(u: nat, base: nat, k: nat): (n: nat)
    requires 2 <= base && k >= 1
    ensures 1 <= n <= k
  {
    if u / base == 0 || k == 1 then 1 else 1 + NumDigits(u / base, base, k - 1)
  }

  /** How many digits are printed: there is room for one less than there are places. */
  function Places(u: nat, base: nat): (n: nat)
    requires 2 <= base
    ensures 1 <= n < DIGITS
  {
    var n := NumDigits(u, base, DIGITS);
    if n == DIGITS then n - 1 else n
  }

  function DigitsOf(u: nat, base: nat, upper: bool): (s: string)
    requires 2 <= base <= 16
    ensures |s| == Places(u, base)
  {
    LowDigits(u, base, upper, Places(u, base))
  }

  function Pow(b: nat, n: nat): nat { if n == 0 then 1 else b * Pow(b, n - 1) }

  /** What a digit stands for. */
  function DigitValue(c: char): nat {
    if '0' <= c <= '9' then c as int - '0' as int
    else if 'a' <= c <= 'f' then c as int - 'a' as int + 10
    else if 'A' <= c <= 'F' then c as int - 'A' as int + 10
    else 0
  }

  function Numeral(s: string, base: nat): nat {
    if s == "" then 0 else Numeral(s[..|s| - 1], base) * base + DigitValue(s[|s| - 1])
  }

  lemma DigitBack(d: nat, upper: bool)
    requires d < 16
    ensures DigitValue(Digit(d, upper)) == d
  {
  }

  lemma NumeralMore(s: string, c: char, base: nat)
    ensures Numeral(s + [c], base) == Numeral(s, base) * base + DigitValue(c)
  {
    hide DigitValue;
    assert (s + [c])[..|s|] == s;
  }

  /** A number is what its lowest n digits stand for, if it has no more than n. */
  lemma {:induction false} LowDigitsBack(u: nat, base: nat, upper: bool, n: nat)
    requires 2 <= base <= 16
    ensures Numeral(LowDigits(u, base, upper, n), base) < Pow(base, n)
    ensures u < Pow(base, n) ==> Numeral(LowDigits(u, base, upper, n), base) == u
  {
    hide Digit, DigitValue, Numeral, Pow, LowDigits;
    if n == 0 {
      NoDigits(u, base, upper);
    } else {
      var p := Pow(base, n - 1);
      var high := LowDigits(u / base, base, upper, n - 1);
      LowDigitsBack(u / base, base, upper, n - 1);
      DigitBack(u % base, upper);
      MoreDigits(u, base, upper, n);
      NumeralMore(high, Digit(u % base, upper), base);
      OneMoreDigit(u, base, p, Numeral(high, base));
    }
  }

  lemma NoDigits(u: nat, base: nat, upper: bool)
    requires 2 <= base <= 16
    ensures LowDigits(u, base, upper, 0) == "" && Numeral("", base) == 0 && Pow(base, 0) == 1
  {
  }

  lemma MoreDigits(u: nat, base: nat, upper: bool, n: nat)
    requires 2 <= base <= 16 && n > 0
    ensures LowDigits(u, base, upper, n) == LowDigits(u / base, base, upper, n - 1) + [Digit(u % base, upper)]
    ensures Pow(base, n) == base * Pow(base, n - 1)
  {
  }

  lemma Carry(h: nat, r: nat, base: nat, p: nat)
    requires h < p && r < base
    ensures h * base + r < base * p
  {
    assert h * base <= (p - 1) * base;
  }

  lemma Divide(u: nat, base: nat, p: nat)
    requires base > 0 && u < base * p
    ensures u / base < p
  {
    var q := u / base;
    assert q * base <= u;
    MulOrder(q, p, base);
  }

  lemma MulOrder(q: nat, p: nat, base: nat)
    requires base > 0 && q * base < base * p
    ensures q < p
  {
  }

  lemma OneMoreDigit(u: nat, base: nat, p: nat, h: nat)
    requires base > 0 && h < p && (u / base < p ==> h == u / base)
    ensures h * base + u % base < base * p
    ensures u < base * p ==> h * base + u % base == u
  {
    Carry(h, u % base, base, p);
    if u < base * p { Divide(u, base, p); }
  }

  lemma {:induction false} NumDigitsIs(u: nat, base: nat, k: nat)
    requires 2 <= base && k >= 1
    ensures var n := NumDigits(u, base, k);
            (n < k ==> u < Pow(base, n)) && (n > 1 ==> Pow(base, n - 1) <= u)
    decreases k
  {
    hide Pow;
    var n := NumDigits(u, base, k);
    if n == 1 {
      PowOne(base);
    } else {
      NumDigitsIs(u / base, base, k - 1);
      PowStep(base, n);
      PowStep(base, n - 1);
      PowOne(base);
      if n < k { Undivide(u, base, Pow(base, n - 1)); }
      Rescale(u, base, if n == 2 then 1 else Pow(base, n - 2));
    }
  }

  lemma PowOne(base: nat)
    ensures Pow(base, 0) == 1 && Pow(base, 1) == base
  {
  }

  lemma PowStep(base: nat, n: nat)
    requires n > 0
    ensures Pow(base, n) == base * Pow(base, n - 1)
  {
  }

  lemma Undivide(u: nat, base: nat, p: nat)
    requires base > 0 && u / base < p
    ensures u < base * p
  {
    assert u / base * base + u % base == u;
    Carry(u / base, u % base, base, p);
  }

  lemma Rescale(u: nat, base: nat, p: nat)
    requires base > 0
    ensures p <= u / base ==> base * p <= u
  {
    assert u / base * base <= u;
    assert p <= u / base ==> p * base <= u / base * base;
  }

  lemma {:induction false} PowGrows(base: nat, m: nat, n: nat)
    requires base >= 1 && m <= n
    ensures 1 <= Pow(base, m) <= Pow(base, n)
    decreases n
  {
    if m < n {
      PowGrows(base, m, n - 1);
      assert Pow(base, n - 1) <= base * Pow(base, n - 1);
    } else if m > 0 {
      PowGrows(base, m - 1, n - 1);
      assert Pow(base, n - 1) <= base * Pow(base, n - 1);
    }
  }

  /** The digits printed stand for the number exactly when it has less than 20 of them; then no shorter numeral would do. */
  lemma DigitsExact(u: nat, base: nat, upper: bool)
    requires 2 <= base <= 16
    ensures Numeral(DigitsOf(u, base, upper), base) == u <==> u < Pow(base, DIGITS - 1)
    ensures u < Pow(base, DIGITS - 1) && u > 0 ==> Pow(base, |DigitsOf(u, base, upper)| - 1) <= u
  {
    hide Pow, Numeral, LowDigits, NumDigits;
    var n := NumDigits(u, base, DIGITS);
    NumDigitsIs(u, base, DIGITS);
    LowDigitsBack(u, base, upper, Places(u, base));
    PowOne(base);
    if n < DIGITS { PowGrows(base, n, DIGITS - 1); }
  }

  /** The sign, if there is one. */
  function SignOf(value: int, flags: Flags): (s: string)
    ensures |s| <= 1
  {
    if flags.unsigned then ""
    else if value < 0 then "-" else if flags.plus then "+" else if flags.space then " " else ""
  }

  /** The number without its sign. */
  function Magnitude(value: int, flags: Flags): nat {
    if flags.unsigned then value % TWO64 else if value < 0 then -value else value
  }

  function ZeroPad(place: int, sign: int, min: int, max: int, flags: Flags): int {
    var zeros, spaces := Max(0, max - place), Max(0, min - Max(max, place) - sign);
    if flags.zero then Max(zeros, spaces) else zeros
  }

  function SpacePad(place: int, sign: int, min: int, max: int, flags: Flags): (p: int)
    ensures p >= 0
  {
    if flags.zero then 0 else Max(0, min - Max(max, place) - sign)
  }

  function IntText(value: int, base: nat, min: int, max: int, flags: Flags): string
    requires 2 <= base <= 16
  {
    var digits, sign := DigitsOf(Magnitude(value, flags), base, flags.upper), SignOf(value, flags);
    var spaces := Repeat(' ', SpacePad(|digits|, |sign|, min, Max(0, max), flags));
    var number := sign + Repeat('0', ZeroPad(|digits|, |sign|, min, Max(0, max), flags)) + digits;
    if flags.minus then number + spaces else spaces + number
  }

  /**
   The field is as wide as asked for, unless it is to be filled with zeros and
   the precision alone asks for some too: those are then counted twice.
   */
  lemma IntWidth(value: int, base: nat, min: int, max: int, flags: Flags)
    requires 2 <= base <= 16
    ensures var place, sign := |DigitsOf(Magnitude(value, flags), base, flags.upper)|, |SignOf(value, flags)|;
            |IntText(value, base, min, max, flags)| >= min <==> !(flags.zero && place < max && sign + max < min)
  {
    hide Repeat, DigitsOf;
  }

  /** u without its lowest i digits. */
  function Shift(u: nat, base: nat, i: nat): nat
    requires base >= 2
  {
    if i == 0 then u else Shift(u / base, base, i - 1)
  }

  lemma {:induction false} ShiftMore(u: nat, base: nat, i: nat)
    requires base >= 2
    ensures Shift(u, base, i + 1) == Shift(u, base, i) / base
    decreases i
  {
    if i > 0 { ShiftMore(u / base, base, i - 1); }
  }

  lemma {:induction false} LowDigitAt(u: nat, base: nat, upper: bool, n: nat, i: nat)
    requires 2 <= base <= 16 && i < n
    ensures LowDigits(u, base, upper, n)[n - 1 - i] == DigitAt(u, base, upper, i)
  {
    hide LowDigits, DigitAt, Pow, Digit;
    MoreDigits(u, base, upper, n);
    DigitBelow(u, base, upper, i);
    if i > 0 { LowDigitAt(u / base, base, upper, n - 1, i - 1); }
  }

  lemma DigitBelow(u: nat, base: nat, upper: bool, i: nat)
    requires 2 <= base <= 16
    ensures DigitAt(u, base, upper, i) == if i == 0 then Digit(u % base, upper) else DigitAt(u / base, base, upper, i - 1)
  {
    hide Digit;
  }

  /** The digit of u with i digits below it. */
  function DigitAt(u: nat, base: nat, upper: bool, i: nat): char
    requires 2 <= base <= 16
  {
    Digit(Shift(u, base, i) % base, upper)
  }

  lemma ShiftDigits(u: nat, base: nat, i: nat, k: nat)
    requires 2 <= base && k >= 1
    ensures var rest := Shift(u, base, i + 1);
            NumDigits(Shift(u, base, i), base, k) == if rest == 0 || k == 1 then 1 else 1 + NumDigits(rest, base, k - 1)
  {
    hide Shift;
    ShiftMore(u, base, i);
  }

  /** One round of the loop of fmtint that finds the digits, the lowest first. */
  method ConvertDigit(uvalue: nat, base: nat, caps: bool, convert: array<char>, place: nat, ghost whole: nat) returns (rest: nat)
    requires 2 <= base <= 16 && place < convert.Length && uvalue == Shift(whole, base, place)
    modifies convert
    ensures rest == Shift(whole, base, place + 1) && convert[place] == DigitAt(whole, base, caps, place)
    ensures forall i :: 0 <= i < place ==> convert[i] == old(convert[i])
  {
    hide Shift;
    convert[place] := Digit(uvalue % base, caps);
    ShiftMore(whole, base, place);
    return uvalue / base;
  }

  method Convert(uvalue: nat, base: nat, caps: bool, convert: array<char>) returns (place: nat)
    requires 2 <= base <= 16 && convert.Length == DIGITS
    modifies convert
    ensures place == Places(uvalue, base)
    ensures forall i :: 0 <= i < place ==> convert[i] == DigitsOf(uvalue, base, caps)[place - 1 - i]
  {
    hide NumDigits, DigitAt, LowDigits, Shift;
    NoShift(uvalue, base);
    ShiftDigits(uvalue, base, 0, DIGITS);
    var u := ConvertDigit(uvalue, base, caps, convert, 0, uvalue);
    place := 1;
    while u != 0 && place < DIGITS
      invariant 1 <= place <= DIGITS && u == Shift(uvalue, base, place)
      invariant NumDigits(uvalue, base, DIGITS) == if u == 0 || place == DIGITS then place else place + NumDigits(u, base, DIGITS - place)
      invariant forall i :: 0 <= i < place ==> convert[i] == DigitAt(uvalue, base, caps, i)
      decreases DIGITS - place
    {
      ShiftDigits(uvalue, base, place, DIGITS - place);
      u := ConvertDigit(u, base, caps, convert, place, uvalue);
      place := place + 1;
    }
    if place == DIGITS {
      place := place - 1;
    }
    forall i | 0 <= i < place ensures convert[i] == DigitsOf(uvalue, base, caps)[place - 1 - i] {
      LowDigitAt(uvalue, base, caps, place, i);
    }
  }

  lemma NoShift(u: nat, base: nat)
    requires base >= 2
    ensures Shift(u, base, 0) == u
  {
  }

  /** The loop of fmtint that puts the digits, the highest first. */
  method OutDigits(buffer: array<char>, currlen: nat, maxlen: nat, convert: array<char>, digits: nat, ghost s: string,
                   ghost b: seq<char>, ghost text: string) returns (len: nat)
    requires maxlen <= buffer.Length == |b| && currlen == |text| && buffer[..] == Stored(b, text, maxlen)
    requires convert != buffer && |s| == digits <= convert.Length
    requires forall i :: 0 <= i < digits ==> convert[i] == s[digits - 1 - i]
    modifies buffer
    ensures buffer[..] == Stored(b, text + s, maxlen) && len == |text + s|
  {
    hide Stored;
    len := currlen;
    var place := digits;
    assert text + s[..0] == text;
    while place > 0
      invariant 0 <= place <= digits
      invariant buffer[..] == Stored(b, text + s[..digits - place], maxlen) && len == |text + s[..digits - place]|
    {
      place := place - 1;
      ghost var k := digits - 1 - place;
      assert convert[place] == s[k];
      len := OutCh(buffer, len, maxlen, convert[place], b, text + s[..k]);
      assert text + s[..k] + [s[k]] == text + s[..k + 1];
    }
    assert s[..digits] == s;
  }

  /** The paddings of fmtint: to the left if positive, to the right if negative. */
  method Paddings(place: nat, sign: nat, min: int, max: int, flags: Flags) returns (spadlen: int, zpadlen: int)
    ensures zpadlen == ZeroPad(place, sign, min, max, flags)
    ensures var p := SpacePad(place, sign, min, max, flags); spadlen == if flags.minus then -p else p
  {
    zpadlen := max - place;
    spadlen := min - Max(max, place) - sign;
    if zpadlen < 0 { zpadlen := 0; }
    if spadlen < 0 { spadlen := 0; }
    if flags.zero {
      zpadlen := Max(zpadlen, spadlen);
      spadlen := 0;
    }
    if flags.minus { spadlen := -spadlen; }
  }

  method SignAndMagnitude(value: int, flags: Flags) returns (signvalue: string, uvalue: nat)
    ensures signvalue == SignOf(value, flags) && uvalue == Magnitude(value, flags)
  {
    signvalue := "";
    uvalue := value % TWO64;
    if !flags.unsigned {
      uvalue := if value < 0 then -value else value;
      if value < 0 { signvalue := "-"; }
      else if flags.plus { signvalue := "+"; }
      else if flags.space { signvalue := " "; }
    }
  }

  /** fmtint. */
  method FmtInt(buffer: array<char>, currlen: nat, maxlen: nat, value: int, base: nat, min: int, max: int, flags: Flags,
                ghost b: seq<char>, ghost text: string) returns (len: nat)
    requires maxlen <= buffer.Length == |b| && currlen == |text| && buffer[..] == Stored(b, text, maxlen)
    requires 2 <= base <= 16
    modifies buffer
    ensures buffer[..] == Stored(b, text + IntText(value, base, min, max, flags), maxlen)
    ensures len == |text + IntText(value, base, min, max, flags)|
  {
    hide Stored, Repeat, IntText, DigitsOf, Places, ZeroPad, SpacePad, SignOf, Magnitude;
    var signvalue, uvalue := SignAndMagnitude(value, flags);
    var convert := new char[DIGITS];
    var place := Convert(uvalue, base, flags.upper, convert);
    var spadlen, zpadlen := Paddings(place, |signvalue|, min, Max(0, max), flags);
    ghost var digits := DigitsOf(uvalue, base, flags.upper);
    len := OutRepeat(buffer, currlen, maxlen, ' ', spadlen, b, text);
    ghost var t1 := text + Repeat(' ', spadlen);
    len := OutText(buffer, len, maxlen, signvalue, b, t1);
    ghost var t2 := t1 + signvalue;
    len := OutRepeat(buffer, len, maxlen, '0', zpadlen, b, t2);
    ghost var t3 := t2 + Repeat('0', zpadlen);
    len := OutDigits(buffer, len, maxlen, convert, place, digits, b, t3);
    len := OutRepeat(buffer, len, maxlen, ' ', -spadlen, b, t3 + digits);
    IntPieces(text, value, base, min, max, flags, spadlen, zpadlen);
  }

  lemma IntPieces(text: string, value: int, base: nat, min: int, max: int, flags: Flags, spadlen: int, zpadlen: int)
    requires 2 <= base <= 16
    requires var digits, sign := DigitsOf(Magnitude(value, flags), base, flags.upper), SignOf(value, flags);
             && zpadlen == ZeroPad(|digits|, |sign|, min, Max(0, max), flags)
             && (var p := SpacePad(|digits|, |sign|, min, Max(0, max), flags); spadlen == if flags.minus then -p else p)
    ensures var digits, sign := DigitsOf(Magnitude(value, flags), base, flags.upper), SignOf(value, flags);
            text + Repeat(' ', spadlen) + sign + Repeat('0', zpadlen) + digits + Repeat(' ', -spadlen)
            == text + IntText(value, base, min, max, flags)
  {
    hide Repeat, DigitsOf, ZeroPad, SpacePad, SignOf, Magnitude;
    var digits, sign := DigitsOf(Magnitude(value, flags), base, flags.upper), SignOf(value, flags);
    var left, zeros, right := Repeat(' ', spadlen), Repeat('0', zpadlen), Repeat(' ', -spadlen);
    NoRepeat(spadlen);
    NoRepeat(-spadlen);
    Pieces(text, left, sign, zeros, digits, right);
    if flags.minus {
      assert left == "" && left + (sign + zeros + digits) == sign + zeros + digits;
    } else {
      assert right == "" && left + (sign + zeros + digits) + right == left + (sign + zeros + digits);
    }
  }

  lemma Pieces(text: string, left: string, sign: string, zeros: string, digits: string, right: string)
    ensures text + left + sign + zeros + digits + right == text + (left + (sign + zeros + digits) + right)
  {
  }
}
