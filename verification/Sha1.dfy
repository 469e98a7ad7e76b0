/**
 The block-oriented SHA-1 of module/sha1.c: unrolled rounds whose registers
 are renamed instead of shifted, a 16-word array that rolls over the message
 schedule, and a context that takes its input in pieces of any length.
 */
module Sha1 {
  import opened SeqFacts
  import opened Sha1Spec
  import opened Words

  // ---- the round functions -------------------------------------------------

  function Rol1(x: word): word { (x << 1) | (x >> 31) }
  function Rol5(x: word): word { (x << 5) | (x >> 27) }
  function Ror2(x: word): word { (x << 30) | (x >> 2) }

  function Mix(p: word, q: word, r: word, s: word): word { Rol1(p ^ q ^ r ^ s) }

  function GetBe32(b0: byte, b1: byte, b2: byte, b3: byte): word {
    ((b0 as word) << 24) | ((b1 as word) << 16) | ((b2 as word) << 8) | (b3 as word)
  }

  function PutBe32(v: word): seq<byte> {
    [((v >> 24) & 0xff) as byte, ((v >> 16) & 0xff) as byte, ((v >> 8) & 0xff) as byte, (v & 0xff) as byte]
  }

  /** E += TEMP + ... */
  function Increment(e: word, w: word, r: word, f: word, k: word): word { e + (w + r + f + k) }

  function Accumulate(h: Regs, r: Regs): Regs { Regs(h.a + r.a, h.b + r.b, h.c + r.c, h.d + r.d, h.e + r.e) }

  /** The three-operation form of Ch. */
  function Choice(b: word, c: word, d: word): word { ((c ^ d) & b) ^ d }

  /** Maj with its two terms added: they have no bit in common. */
  function Majority(b: word, c: word, d: word): word { (b & c) + (d & (b ^ c)) }

  lemma ChoiceBits(b: word, c: word, d: word)
    ensures ((c ^ d) & b) ^ d == (b & c) ^ (!b & d)
  {
  }

  lemma ChoiceForm(b: word, c: word, d: word)
    ensures Choice(b, c, d) == Ch(b, c, d)
  {
    ChoiceBits(b, c, d);
  }

  lemma MajorityBits(b: word, c: word, d: word)
    ensures (b & c) + (d & (b ^ c)) == (b & c) ^ (b & d) ^ (c & d)
  {
  }

  lemma MajorityForm(b: word, c: word, d: word)
    ensures Majority(b, c, d) == Maj(b, c, d)
  {
    MajorityBits(b, c, d);
  }

  /** Pairs of shifts are rotations; one to the right is one to the left by what is missing to 32. */
  lemma RotateForm(b: word)
    ensures Rol1(b) == Rotl(b, 1) && Rol5(b) == Rotl(b, 5) && Ror2(b) == b.RotateRight(2) == Rotl(b, 30)
  {
  }

  /** Shifts and masks read and write numbers in base 256, and each undoes the other. */
  lemma BytesForm(b0: byte, b1: byte, b2: byte, b3: byte, v: word)
    ensures GetBe32(b0, b1, b2, b3) == BeWord(b0, b1, b2, b3) && PutBe32(v) == WordBytes(v)
    ensures PutBe32(GetBe32(b0, b1, b2, b3)) == [b0, b1, b2, b3]
    ensures var s := PutBe32(v); GetBe32(s[0], s[1], s[2], s[3]) == v
  {
    BytesBack(b0, b1, b2, b3);
    WordBack(v);
  }

  lemma BytesBack(b0: byte, b1: byte, b2: byte, b3: byte)
    ensures PutBe32(GetBe32(b0, b1, b2, b3)) == [b0, b1, b2, b3]
  {
  }

  lemma WordBack(v: word)
    ensures var s := PutBe32(v); GetBe32(s[0], s[1], s[2], s[3]) == v
  {
  }

  /** Before round t the array holds the last sixteen words of the schedule. */
  ghost predicate Window(a: seq<word>, m: seq<word>, t: nat)
    requires |a| == 16 && |m| == 16
  {
    forall i: nat :: i < t <= i + 16 ==> a[i % 16] == Schedule(m, i)
  }

  lemma RollWindow(a: seq<word>, m: seq<word>, t: nat)
    requires |a| == 16 && |m| == 16 && Window(a, m, t)
    ensures Window(a[t % 16 := Schedule(m, t)], m, t + 1)
  {
    var a' := a[t % 16 := Schedule(m, t)];
    forall i: nat | i < t + 1 <= i + 16
      ensures a'[i % 16] == Schedule(m, i)
    {
      if i != t {
        assert i % 16 != t % 16;
        assert a[i % 16] == Schedule(m, i);
      }
    }
  }

  lemma MixedWord(a: seq<word>, m: seq<word>, t: nat)
    requires |a| == 16 && |m| == 16 && Window(a, m, t) && 16 <= t
    ensures Mix(a[(t + 13) % 16], a[(t + 8) % 16], a[(t + 2) % 16], a[t % 16]) == Schedule(m, t)
  {
    NextWord(m, t);
    hide Rotl, Rol1, Schedule, Window;
    InWindow(a, m, t, 3);
    InWindow(a, m, t, 8);
    InWindow(a, m, t, 14);
    InWindow(a, m, t, 16);
    RotateForm(Schedule(m, t - 3) ^ Schedule(m, t - 8) ^ Schedule(m, t - 14) ^ Schedule(m, t - 16));
  }

  lemma NextWord(m: seq<word>, t: nat)
    requires |m| == 16 <= t
    ensures Schedule(m, t) == Rotl(Schedule(m, t - 3) ^ Schedule(m, t - 8) ^ Schedule(m, t - 14) ^ Schedule(m, t - 16), 1)
  {
    hide Rotl;
  }

  /** The word k places back. */
  lemma InWindow(a: seq<word>, m: seq<word>, t: nat, k: nat)
    requires |a| == 16 && |m| == 16 && Window(a, m, t) && 1 <= k <= 16 <= t
    ensures a[(t + (16 - k)) % 16] == Schedule(m, t - k)
  {
    hide Schedule;
    assert (t + (16 - k)) % 16 == (t - k) % 16;
  }

  /** The registers and the rolling array are where the standard is after t steps. */
  ghost predicate At(h: Regs, m: seq<word>, t: nat, a: seq<word>, r: Regs)
    requires |m| == 16
  {
    |a| == 16 && Window(a, m, t) && r == Rounds(h, m, t)
  }

  lemma Start(h: Regs, m: seq<word>, a: seq<word>)
    requires |m| == |a| == 16
    ensures At(h, m, 0, a, h)
  {
  }

  lemma Finish(h: Regs, m: seq<word>, a: seq<word>, r: Regs)
    requires |m| == 16 && At(h, m, 80, a, r)
    ensures Compress(h, m) == Accumulate(h, r)
  {
    hide Rounds, Window, AddRegs, Accumulate;
    Accumulated(h, r);
  }

  lemma Accumulated(h: Regs, r: Regs)
    ensures Accumulate(h, r) == AddRegs(h, r)
  {
  }

  lemma Source(s: seq<byte>, t: nat)
    requires |s| == 64 && t < 16
    ensures GetBe32(s[4 * t], s[4 * t + 1], s[4 * t + 2], s[4 * t + 3]) == BlockWord(s, t)
  {
    hide GetBe32, BeWord, PutBe32, WordBytes;
    BytesForm(s[4 * t], s[4 * t + 1], s[4 * t + 2], s[4 * t + 3], 0);
  }

  lemma SourceStep(h: Regs, s: seq<byte>, t: nat, a: seq<word>, r: Regs)
    requires |s| == 64 && t < 16 && At(h, BlockWords(s), t, a, r)
    ensures At(h, BlockWords(s), t + 1, a[t % 16 := BlockWord(s, t)], Step(r, t, BlockWord(s, t)))
  {
    RollWindow(a, BlockWords(s), t);
  }

  lemma MixStep(h: Regs, m: seq<word>, t: nat, a: seq<word>, r: Regs)
    requires |m| == 16 && 16 <= t && At(h, m, t, a, r)
    ensures var w := Mix(a[(t + 13) % 16], a[(t + 8) % 16], a[(t + 2) % 16], a[t % 16]);
            At(h, m, t + 1, a[t % 16 := w], Step(r, t, w))
  {
    MixedWord(a, m, t);
    RollWindow(a, m, t);
  }

  lemma SumOrder(e: word, w: word, r: word, f: word, k: word)
    ensures Increment(e, w, r, f, k) == Sum5(r, f, e, k, w)
  {
  }

  lemma ChoiceRound(t: nat, w: word, a: word, b: word, c: word, d: word, e: word)
    requires 0 <= t < 20
    ensures Regs(Increment(e, w, Rol5(a), Choice(b, c, d), 0x5a827999), a, Ror2(b), c, d) == Step(Regs(a, b, c, d, e), t, w)
  {
    hide Increment, Sum5, Rotl, Rol5, Ror2, Ch, Parity, Maj, Choice, Majority;
    RotateForm(a);
    RotateForm(b);
    ChoiceForm(b, c, d);
    SumOrder(e, w, Rol5(a), Choice(b, c, d), 0x5a827999);
  }

  lemma ParityRound(t: nat, w: word, a: word, b: word, c: word, d: word, e: word)
    requires 20 <= t < 40
    ensures Regs(Increment(e, w, Rol5(a), Parity(b, c, d), 0x6ed9eba1), a, Ror2(b), c, d) == Step(Regs(a, b, c, d, e), t, w)
  {
    hide Increment, Sum5, Rotl, Rol5, Ror2, Ch, Parity, Maj, Choice, Majority;
    RotateForm(a);
    RotateForm(b);
    SumOrder(e, w, Rol5(a), Parity(b, c, d), 0x6ed9eba1);
  }

  lemma MajorityRound(t: nat, w: word, a: word, b: word, c: word, d: word, e: word)
    requires 40 <= t < 60
    ensures Regs(Increment(e, w, Rol5(a), Majority(b, c, d), 0x8f1bbcdc), a, Ror2(b), c, d) == Step(Regs(a, b, c, d, e), t, w)
  {
    hide Increment, Sum5, Rotl, Rol5, Ror2, Ch, Parity, Maj, Choice, Majority;
    RotateForm(a);
    RotateForm(b);
    MajorityForm(b, c, d);
    SumOrder(e, w, Rol5(a), Majority(b, c, d), 0x8f1bbcdc);
  }

  lemma LastRound(t: nat, w: word, a: word, b: word, c: word, d: word, e: word)
    requires 60 <= t < 80
    ensures Regs(Increment(e, w, Rol5(a), Parity(b, c, d), 0xca62c1d6), a, Ror2(b), c, d) == Step(Regs(a, b, c, d, e), t, w)
  {
    hide Increment, Sum5, Rotl, Rol5, Ror2, Ch, Parity, Maj, Choice, Majority;
    RotateForm(a);
    RotateForm(b);
    SumOrder(e, w, Rol5(a), Parity(b, c, d), 0xca62c1d6);
  }

  method T0To15(ghost h: Regs, t: nat, s: seq<byte>, roll: array<word>, a: word, b: word, c: word, d: word, e: word)
    returns (e': word, b': word)
    requires |s| == 64 && 0 <= t < 16
    requires roll.Length == 16 && At(h, BlockWords(s), t, roll[..], Regs(a, b, c, d, e))
    modifies roll
    ensures At(h, BlockWords(s), t + 1, roll[..], Regs(e', a, b', c, d))
  {
    hide *;
    ghost var was := roll[..];
    var temp := GetBe32(s[4 * t], s[4 * t + 1], s[4 * t + 2], s[4 * t + 3]);
    Source(s, t);
    roll[t % 16] := temp;
    e' := Increment(e, temp, Rol5(a), Choice(b, c, d), 0x5a827999);
    b' := Ror2(b);
    assert roll[..] == was[t % 16 := temp];
    ChoiceRound(t, temp, a, b, c, d, e);
    SourceStep(h, s, t, was, Regs(a, b, c, d, e));
  }

  method T16To19(ghost h: Regs, t: nat, s: seq<byte>, roll: array<word>, a: word, b: word, c: word, d: word, e: word)
    returns (e': word, b': word)
    requires |s| == 64 && 16 <= t < 20
    requires roll.Length == 16 && At(h, BlockWords(s), t, roll[..], Regs(a, b, c, d, e))
    modifies roll
    ensures At(h, BlockWords(s), t + 1, roll[..], Regs(e', a, b', c, d))
  {
    hide *;
    ghost var was := roll[..];
    var temp := Mix(roll[(t + 13) % 16], roll[(t + 8) % 16], roll[(t + 2) % 16], roll[t % 16]);
    roll[t % 16] := temp;
    e' := Increment(e, temp, Rol5(a), Choice(b, c, d), 0x5a827999);
    b' := Ror2(b);
    assert roll[..] == was[t % 16 := temp];
    ChoiceRound(t, temp, a, b, c, d, e);
    MixStep(h, BlockWords(s), t, was, Regs(a, b, c, d, e));
  }

  method T20To39(ghost h: Regs, t: nat, s: seq<byte>, roll: array<word>, a: word, b: word, c: word, d: word, e: word)
    returns (e': word, b': word)
    requires |s| == 64 && 20 <= t < 40
    requires roll.Length == 16 && At(h, BlockWords(s), t, roll[..], Regs(a, b, c, d, e))
    modifies roll
    ensures At(h, BlockWords(s), t + 1, roll[..], Regs(e', a, b', c, d))
  {
    hide *;
    ghost var was := roll[..];
    var temp := Mix(roll[(t + 13) % 16], roll[(t + 8) % 16], roll[(t + 2) % 16], roll[t % 16]);
    roll[t % 16] := temp;
    e' := Increment(e, temp, Rol5(a), Parity(b, c, d), 0x6ed9eba1);
    b' := Ror2(b);
    assert roll[..] == was[t % 16 := temp];
    ParityRound(t, temp, a, b, c, d, e);
    MixStep(h, BlockWords(s), t, was, Regs(a, b, c, d, e));
  }

  method T40To59(ghost h: Regs, t: nat, s: seq<byte>, roll: array<word>, a: word, b: word, c: word, d: word, e: word)
    returns (e': word, b': word)
    requires |s| == 64 && 40 <= t < 60
    requires roll.Length == 16 && At(h, BlockWords(s), t, roll[..], Regs(a, b, c, d, e))
    modifies roll
    ensures At(h, BlockWords(s), t + 1, roll[..], Regs(e', a, b', c, d))
  {
    hide *;
    ghost var was := roll[..];
    var temp := Mix(roll[(t + 13) % 16], roll[(t + 8) % 16], roll[(t + 2) % 16], roll[t % 16]);
    roll[t % 16] := temp;
    e' := Increment(e, temp, Rol5(a), Majority(b, c, d), 0x8f1bbcdc);
    b' := Ror2(b);
    assert roll[..] == was[t % 16 := temp];
    MajorityRound(t, temp, a, b, c, d, e);
    MixStep(h, BlockWords(s), t, was, Regs(a, b, c, d, e));
  }

  method T60To79(ghost h: Regs, t: nat, s: seq<byte>, roll: array<word>, a: word, b: word, c: word, d: word, e: word)
    returns (e': word, b': word)
    requires |s| == 64 && 60 <= t < 80
    requires roll.Length == 16 && At(h, BlockWords(s), t, roll[..], Regs(a, b, c, d, e))
    modifies roll
    ensures At(h, BlockWords(s), t + 1, roll[..], Regs(e', a, b', c, d))
  {
    hide *;
    ghost var was := roll[..];
    var temp := Mix(roll[(t + 13) % 16], roll[(t + 8) % 16], roll[(t + 2) % 16], roll[t % 16]);
    roll[t % 16] := temp;
    e' := Increment(e, temp, Rol5(a), Parity(b, c, d), 0xca62c1d6);
    b' := Ror2(b);
    assert roll[..] == was[t % 16 := temp];
    LastRound(t, temp, a, b, c, d, e);
    MixStep(h, BlockWords(s), t, was, Regs(a, b, c, d, e));
  }

  method Round1(ghost h: Regs, s: seq<byte>, roll: array<word>, r: Regs) returns (r': Regs)
    requires |s| == 64 && roll.Length == 16 && At(h, BlockWords(s), 0, roll[..], r)
    modifies roll
    ensures At(h, BlockWords(s), 20, roll[..], r')
  {
    hide *;
    var Regs(a, b, c, d, e) := r;
    e, b := T0To15(h, 0, s, roll, a, b, c, d, e);
    d, a := T0To15(h, 1, s, roll, e, a, b, c, d);
    c, e := T0To15(h, 2, s, roll, d, e, a, b, c);
    b, d := T0To15(h, 3, s, roll, c, d, e, a, b);
    a, c := T0To15(h, 4, s, roll, b, c, d, e, a);
    e, b := T0To15(h, 5, s, roll, a, b, c, d, e);
    d, a := T0To15(h, 6, s, roll, e, a, b, c, d);
    c, e := T0To15(h, 7, s, roll, d, e, a, b, c);
    b, d := T0To15(h, 8, s, roll, c, d, e, a, b);
    a, c := T0To15(h, 9, s, roll, b, c, d, e, a);
    e, b := T0To15(h, 10, s, roll, a, b, c, d, e);
    d, a := T0To15(h, 11, s, roll, e, a, b, c, d);
    c, e := T0To15(h, 12, s, roll, d, e, a, b, c);
    b, d := T0To15(h, 13, s, roll, c, d, e, a, b);
    a, c := T0To15(h, 14, s, roll, b, c, d, e, a);
    e, b := T0To15(h, 15, s, roll, a, b, c, d, e);
    d, a := T16To19(h, 16, s, roll, e, a, b, c, d);
    c, e := T16To19(h, 17, s, roll, d, e, a, b, c);
    b, d := T16To19(h, 18, s, roll, c, d, e, a, b);
    a, c := T16To19(h, 19, s, roll, b, c, d, e, a);
    r' := Regs(a, b, c, d, e);
  }

  method Round2(ghost h: Regs, s: seq<byte>, roll: array<word>, r: Regs) returns (r': Regs)
    requires |s| == 64 && roll.Length == 16 && At(h, BlockWords(s), 20, roll[..], r)
    modifies roll
    ensures At(h, BlockWords(s), 40, roll[..], r')
  {
    hide *;
    var Regs(a, b, c, d, e) := r;
    e, b := T20To39(h, 20, s, roll, a, b, c, d, e);
    d, a := T20To39(h, 21, s, roll, e, a, b, c, d);
    c, e := T20To39(h, 22, s, roll, d, e, a, b, c);
    b, d := T20To39(h, 23, s, roll, c, d, e, a, b);
    a, c := T20To39(h, 24, s, roll, b, c, d, e, a);
    e, b := T20To39(h, 25, s, roll, a, b, c, d, e);
    d, a := T20To39(h, 26, s, roll, e, a, b, c, d);
    c, e := T20To39(h, 27, s, roll, d, e, a, b, c);
    b, d := T20To39(h, 28, s, roll, c, d, e, a, b);
    a, c := T20To39(h, 29, s, roll, b, c, d, e, a);
    e, b := T20To39(h, 30, s, roll, a, b, c, d, e);
    d, a := T20To39(h, 31, s, roll, e, a, b, c, d);
    c, e := T20To39(h, 32, s, roll, d, e, a, b, c);
    b, d := T20To39(h, 33, s, roll, c, d, e, a, b);
    a, c := T20To39(h, 34, s, roll, b, c, d, e, a);
    e, b := T20To39(h, 35, s, roll, a, b, c, d, e);
    d, a := T20To39(h, 36, s, roll, e, a, b, c, d);
    c, e := T20To39(h, 37, s, roll, d, e, a, b, c);
    b, d := T20To39(h, 38, s, roll, c, d, e, a, b);
    a, c := T20To39(h, 39, s, roll, b, c, d, e, a);
    r' := Regs(a, b, c, d, e);
  }

  method Round3(ghost h: Regs, s: seq<byte>, roll: array<word>, r: Regs) returns (r': Regs)
    requires |s| == 64 && roll.Length == 16 && At(h, BlockWords(s), 40, roll[..], r)
    modifies roll
    ensures At(h, BlockWords(s), 60, roll[..], r')
  {
    hide *;
    var Regs(a, b, c, d, e) := r;
    e, b := T40To59(h, 40, s, roll, a, b, c, d, e);
    d, a := T40To59(h, 41, s, roll, e, a, b, c, d);
    c, e := T40To59(h, 42, s, roll, d, e, a, b, c);
    b, d := T40To59(h, 43, s, roll, c, d, e, a, b);
    a, c := T40To59(h, 44, s, roll, b, c, d, e, a);
    e, b := T40To59(h, 45, s, roll, a, b, c, d, e);
    d, a := T40To59(h, 46, s, roll, e, a, b, c, d);
    c, e := T40To59(h, 47, s, roll, d, e, a, b, c);
    b, d := T40To59(h, 48, s, roll, c, d, e, a, b);
    a, c := T40To59(h, 49, s, roll, b, c, d, e, a);
    e, b := T40To59(h, 50, s, roll, a, b, c, d, e);
    d, a := T40To59(h, 51, s, roll, e, a, b, c, d);
    c, e := T40To59(h, 52, s, roll, d, e, a, b, c);
    b, d := T40To59(h, 53, s, roll, c, d, e, a, b);
    a, c := T40To59(h, 54, s, roll, b, c, d, e, a);
    e, b := T40To59(h, 55, s, roll, a, b, c, d, e);
    d, a := T40To59(h, 56, s, roll, e, a, b, c, d);
    c, e := T40To59(h, 57, s, roll, d, e, a, b, c);
    b, d := T40To59(h, 58, s, roll, c, d, e, a, b);
    a, c := T40To59(h, 59, s, roll, b, c, d, e, a);
    r' := Regs(a, b, c, d, e);
  }

  method Round4(ghost h: Regs, s: seq<byte>, roll: array<word>, r: Regs) returns (r': Regs)
    requires |s| == 64 && roll.Length == 16 && At(h, BlockWords(s), 60, roll[..], r)
    modifies roll
    ensures At(h, BlockWords(s), 80, roll[..], r')
  {
    hide *;
    var Regs(a, b, c, d, e) := r;
    e, b := T60To79(h, 60, s, roll, a, b, c, d, e);
    d, a := T60To79(h, 61, s, roll, e, a, b, c, d);
    c, e := T60To79(h, 62, s, roll, d, e, a, b, c);
    b, d := T60To79(h, 63, s, roll, c, d, e, a, b);
    a, c := T60To79(h, 64, s, roll, b, c, d, e, a);
    e, b := T60To79(h, 65, s, roll, a, b, c, d, e);
    d, a := T60To79(h, 66, s, roll, e, a, b, c, d);
    c, e := T60To79(h, 67, s, roll, d, e, a, b, c);
    b, d := T60To79(h, 68, s, roll, c, d, e, a, b);
    a, c := T60To79(h, 69, s, roll, b, c, d, e, a);
    e, b := T60To79(h, 70, s, roll, a, b, c, d, e);
    d, a := T60To79(h, 71, s, roll, e, a, b, c, d);
    c, e := T60To79(h, 72, s, roll, d, e, a, b, c);
    b, d := T60To79(h, 73, s, roll, c, d, e, a, b);
    a, c := T60To79(h, 74, s, roll, b, c, d, e, a);
    e, b := T60To79(h, 75, s, roll, a, b, c, d, e);
    d, a := T60To79(h, 76, s, roll, e, a, b, c, d);
    c, e := T60To79(h, 77, s, roll, d, e, a, b, c);
    b, d := T60To79(h, 78, s, roll, c, d, e, a, b);
    a, c := T60To79(h, 79, s, roll, b, c, d, e, a);
    r' := Regs(a, b, c, d, e);
  }

  /** One block: 80 rounds, the registers renamed from round to round, then the sum. */
  method Block(h: Regs, s: seq<byte>) returns (h': Regs)
    requires |s| == 64
    ensures h' == Compress(h, BlockWords(s))
  {
    hide *;
    var roll := new word[16];
    Start(h, BlockWords(s), roll[..]);
    var r := Round1(h, s, roll, h);
    r := Round2(h, s, roll, r);
    r := Round3(h, s, roll, r);
    r := Round4(h, s, roll, r);
    Finish(h, BlockWords(s), roll[..], r);
    h' := Accumulate(h, r);
  }

  // ---- the context ---------------------------------------------------------

  lemma AbsorbNext(h: Regs, m: seq<byte>, k: nat)
    requires k % 64 == 0 && k + 64 <= |m|
    ensures Absorb(h, m[..k + 64]) == Compress(Absorb(h, m[..k]), BlockWords(m[k..k + 64]))
  {
    hide Compress;
    var s := m[..k + 64];
    assert s[..|s| - 64] == m[..k] && s[|s| - 64..] == m[k..k + 64];
  }

  /** A 64-bit byte counter still tells the position within a block. */
  lemma CounterPosition(n: nat)
    ensures n % TWO64 % 64 == n % 64
  {
  }

  lemma CounterAdd(n: nat, k: nat)
    ensures (n % TWO64 + k) % TWO64 == (n + k) % TWO64
  {
  }

  lemma BlockPosition(n: nat, whole: nat)
    requires whole % 64 == 0 && whole <= n < whole + 64
    ensures n % TWO64 % 64 == n - whole
  {
    CounterPosition(n);
  }

  /** After reading m: its first whole bytes are compressed into h, the rest is at the front of w. */
  ghost predicate Reads(m: seq<byte>, h: Regs, w: seq<byte>, whole: nat)
  {
    && |w| == 64 && whole % 64 == 0 && whole <= |m| < whole + 64
    && h == Absorb(INITIAL, m[..whole])
    && w[..|m| - whole] == m[whole..]
  }

  /** d goes into the buffer after what is there, without completing the block. */
  lemma Buffer(m: seq<byte>, h: Regs, w: seq<byte>, whole: nat, d: seq<byte>, w': seq<byte>)
    requires Reads(m, h, w, whole) && |m| - whole + |d| < 64
    requires |w'| == 64 && w'[..|m| - whole] == w[..|m| - whole]
    requires w'[|m| - whole..|m| - whole + |d|] == d
    ensures Reads(m + d, h, w', whole)
  {
    hide Absorb;
    assert (m + d)[..whole] == m[..whole];
    assert (m + d)[whole..] == m[whole..] + d;
    assert w'[..|m| - whole + |d|] == w'[..|m| - whole] + w'[|m| - whole..|m| - whole + |d|];
  }

  /** d completes a block b, which is compressed. */
  lemma CompleteBlock(m: seq<byte>, h: Regs, w: seq<byte>, whole: nat, d: seq<byte>, b: seq<byte>, w': seq<byte>)
    requires Reads(m, h, w, whole) && |m| - whole + |d| == 64 == |w'|
    requires b == w[..|m| - whole] + d
    ensures Reads(m + d, Compress(h, BlockWords(b)), w', whole + 64)
  {
    hide Absorb, Compress, BlockWords;
    assert (m + d)[..whole] == m[..whole];
    assert (m + d)[whole..whole + 64] == b;
    AbsorbNext(INITIAL, m + d, whole);
    assert w'[..0] == (m + d)[whole + 64..];
  }

  class Context {
    var size: nat
    var h: Regs
    const w: array<byte>
    ghost var message: seq<byte>
    ghost var whole: nat

    ghost predicate Valid()
      reads this, w
    {
      size == |message| % TWO64 && Reads(message, h, w[..], whole)
    }

    constructor ()
      ensures Valid() && fresh(w) && message == []
    {
      hide Compress;
      size, message, whole := 0, [], 0;
      h := Regs(0x67452301, 0xefcdab89, 0x98badcfe, 0x10325476, 0xc3d2e1f0);
      w := new byte[64];
    }

    /** The bytes that go into a partly filled buffer, and the block they may complete. */
    method Fill(lenW: nat, data: seq<byte>) returns (left: nat)
      requires Reads(message, h, w[..], whole) && lenW == |message| - whole > 0
      modifies this, w
      ensures left == if |data| < 64 - lenW then |data| else 64 - lenW
      ensures message == old(message) + data[..left] && Reads(message, h, w[..], whole) && size == old(size)
      ensures |message| - whole == if |data| < 64 - lenW then lenW + left else 0
    {
      hide Absorb, Compress, BlockWords;
      left := if |data| < 64 - lenW then |data| else 64 - lenW;
      ghost var w0 := w[..];
      forall i | 0 <= i < left { w[lenW + i] := data[i]; }
      assert w[..lenW] == w0[..lenW];
      assert w[lenW..lenW + left] == data[..left];
      if lenW + left < 64 {
        Buffer(message, h, w0, whole, data[..left], w[..]);
      } else {
        assert w[..] == w0[..lenW] + data[..left];
        CompleteBlock(message, h, w0, whole, data[..left], w[..], w[..]);
        h := Block(h, w[..]);
        whole := whole + 64;
      }
      message := message + data[..left];
    }

    method Update(data: seq<byte>)
      requires Valid()
      modifies this, w
      ensures Valid() && message == old(message) + data
    {
      hide Absorb, Compress, BlockWords;
      BlockPosition(|message|, whole);
      CounterAdd(|message|, |data|);
      var lenW := size % 64;
      size := (size + |data|) % TWO64;
      var pos := 0;
      if lenW != 0 {
        pos := Fill(lenW, data);
        if pos < 64 - lenW {
          assert data[..pos] == data;
          return;
        }
      }
      assert message + data[pos..] == old(message) + data;
      Blocks(data, pos);
    }

    /** Whole blocks straight from the data, and what is left over into the buffer. */
    method Blocks(data: seq<byte>, start: nat)
      requires start <= |data| && |message| == whole && Reads(message, h, w[..], whole)
      modifies this, w
      ensures message == old(message) + data[start..] && Reads(message, h, w[..], whole) && size == old(size)
    {
      hide Absorb, Compress, BlockWords;
      var pos := start;
      while |data| - pos >= 64
        invariant start <= pos <= |data| && |message| == whole && size == old(size)
        invariant message == old(message) + data[start..pos] && Reads(message, h, w[..], whole)
      {
        var b := data[pos..pos + 64];
        CompleteBlock(message, h, w[..], whole, b, w[..0] + b, w[..]);
        h := Block(h, w[..0] + b);
        Slices(data, start, pos, pos + 64);
        message, whole, pos := message + b, whole + 64, pos + 64;
      }
      Slices(data, start, pos, |data|);
      Keep(data[pos..]);
    }

    method Keep(rest: seq<byte>)
      requires |rest| < 64 && |message| == whole && Reads(message, h, w[..], whole)
      modifies w, this`message
      ensures message == old(message) + rest && Reads(message, h, w[..], whole)
    {
      hide Absorb, Compress, BlockWords;
      ghost var w0 := w[..];
      forall i | 0 <= i < |rest| { w[i] := rest[i]; }
      assert w[0..|rest|] == rest;
      Buffer(message, h, w0, whole, rest, w[..]);
      message := message + rest;
    }

    method Final() returns (hashout: seq<byte>)
      requires Valid()
      modifies this, w
      ensures hashout == Sha1Spec.Sha1(old(message))
    {
      hide Absorb, Compress, BlockWords, Reads, Sha1Spec.Sha1, Digest, BeNat, Padding, PadBytes, LengthBytes;
      ghost var m := message;
      assert size == |m| % TWO64;
      hide *;
      PaddingPieces(|m|);
      var padlen := LengthBytes(size);
      var pad := PadBytes(size);
      Update(pad);
      Update(padlen);
      Associate(m, pad, padlen);
      Aligned(this, m);
      var r := h;
      Written(r);
      hashout := [];
      var hs := [r.a, r.b, r.c, r.d, r.e];
      for i := 0 to 5
        invariant hashout == Output(r, i)
      {
        OutputMore(r, i);
        hashout := hashout + PutBe32(hs[i]);
      }
    }
  }

  /** The first n words of the result, as they are written. */
  function Output(h: Regs, n: nat): seq<byte>
    requires n <= 5
  {
    if n == 0 then [] else Output(h, n - 1) + PutBe32([h.a, h.b, h.c, h.d, h.e][n - 1])
  }

  lemma OutputMore(h: Regs, n: nat)
    requires n < 5
    ensures Output(h, 0) == [] && Output(h, n + 1) == Output(h, n) + PutBe32([h.a, h.b, h.c, h.d, h.e][n])
  {
    hide PutBe32;
  }

  lemma Written(h: Regs)
    ensures Output(h, 0) == [] && Output(h, 5) == Digest(h)
  {
    hide Output, PutBe32, WordBytes;
    OutputMore(h, 0); OutputMore(h, 1); OutputMore(h, 2); OutputMore(h, 3); OutputMore(h, 4);
    AsBytes(h.a); AsBytes(h.b); AsBytes(h.c); AsBytes(h.d); AsBytes(h.e);
  }

  lemma AsBytes(v: word)
    ensures PutBe32(v) == WordBytes(v) && [] + PutBe32(v) == PutBe32(v)
  {
    BytesForm(0, 0, 0, 0, v);
  }

  /** The bit count as two big-endian 32-bit words: size >> 29 and size << 3. */
  function LengthBytes(size: nat): seq<byte> {
    BeNat(size / 0x2000_0000 % TWO32, 4) + BeNat(size * 8 % TWO32, 4)
  }

  /** The first 1 + (63 & (55 - i)) bytes of the pad array, i being size & 63. */
  function PadBytes(size: nat): seq<byte> {
    [0x80] + Zeros((55 - size % 64) % 64)
  }

  function Power256(n: nat): (p: nat)
    ensures p > 0
  {
    if n == 0 then 1 else 256 * Power256(n - 1)
  }

  /** Place i from the right holds the digit for 256 to the power of i. */
  lemma {:induction false} BeDigit(v: nat, n: nat, i: nat)
    requires i < n
    ensures BeNat(v, n)[n - 1 - i] == (v / Power256(i) % 256) as byte
    decreases n
  {
    if i > 0 {
      BeDigit(v / 256, n - 1, i - 1);
      DivideTwice(v, Power256(i - 1));
    }
  }

  lemma DivideTwice(v: nat, p: nat)
    requires p > 0
    ensures v / 256 / p == v / (256 * p)
  {
    var q, r := v / 256, v % 256;
    var a, b := q / p, q % p;
    assert q == p * a + b;
    assert v == (256 * p) * a + (256 * b + r) by { assert 256 * (p * a) == (256 * p) * a; }
    QuotientIs(v, 256 * p, a, 256 * b + r);
  }

  lemma QuotientIs(v: nat, d: nat, q: nat, r: nat)
    requires d > 0 && v == d * q + r && r < d
    ensures v / d == q
  {
    var k := v / d - q;
    assert v == d * (v / d) + v % d;
    assert d * k == r - v % d by { assert d * (v / d) == d * q + d * k; }
    Multiples(d, k);
  }

  lemma Multiples(d: int, k: int)
    requires d > 0
    ensures (k >= 1 ==> d * k >= d) && (k <= -1 ==> d * k <= -d)
  {
  }

  /**
   The padding is a byte 0x80, as few zeros as fill the block up to its last
   eight bytes, and in those the length in bits.
   */
  lemma PaddingMeans(len: nat)
    ensures var s := Padding(len);
            && 9 <= |s| < 9 + 64 && (len + |s|) % 64 == 0 && s[0] == 0x80
            && (forall i :: 1 <= i < |s| - 8 ==> s[i] == 0)
            && forall i :: 0 <= i < 8 ==> s[|s| - 1 - i] == (8 * len % TWO64 / Power256(i) % 256) as byte
  {
    hide BeNat, Power256;
    var s := Padding(len);
    forall i | 0 <= i < 8 ensures s[|s| - 1 - i] == (8 * len % TWO64 / Power256(i) % 256) as byte {
      BeDigit(8 * len % TWO64, 8, i);
    }
  }

  /** Blocks are compressed one after the other. */
  lemma {:induction false} AbsorbAppend(h: Regs, a: seq<byte>, b: seq<byte>)
    requires |a| % 64 == 0 && |b| % 64 == 0
    ensures Absorb(h, []) == h && Absorb(h, a + b) == Absorb(Absorb(h, a), b)
    decreases |b|
  {
    hide Compress, BlockWords;
    if b == [] {
      assert a + b == a;
    } else {
      var n := |b| - 64;
      assert (a + b)[..|a + b| - 64] == a + b[..n] && (a + b)[|a + b| - 64..] == b[n..];
      AbsorbAppend(h, a, b[..n]);
    }
  }

  /** The two pieces Final appends are the padding of the standard. */
  lemma PaddingPieces(len: nat)
    ensures PadBytes(len % TWO64) + LengthBytes(len % TWO64) == Padding(len)
  {
    hide BeNat, Zeros;
    LengthField(len);
    ZeroCount(len);
  }

  lemma ZeroCount(len: nat)
    ensures (55 - len % TWO64 % 64) % 64 == PadZeros(len)
  {
    CounterPosition(len);
  }

  lemma Aligned(ctx: Context, m: seq<byte>)
    requires ctx.Valid() && ctx.message == m + Padding(|m|)
    ensures Digest(ctx.h) == Sha1Spec.Sha1(m)
  {
    hide Absorb, BeNat, Digest, Padding;
    assert ctx.whole == |ctx.message|;
    assert ctx.message[..|ctx.message|] == ctx.message;
  }

  lemma Be4(v: nat)
    ensures BeNat(v, 4) == [(v / 0x100_0000 % 256) as byte, (v / 0x1_0000 % 256) as byte, (v / 256 % 256) as byte, (v % 256) as byte]
  {
    hide BeNat;
    Quotients(v);
    BeStep(v, 3);
    BeStep(v / 256, 2);
    BeStep(v / 0x1_0000, 1);
    BeStep(v / 0x100_0000, 0);
    BeNothing(v / 0x100_0000 / 256);
  }

  lemma Quotients(v: nat)
    ensures v / 256 / 256 == v / 0x1_0000 && v / 0x1_0000 / 256 == v / 0x100_0000
  {
  }

  lemma BeStep(v: nat, n: nat)
    ensures BeNat(v, n + 1) == BeNat(v / 256, n) + [(v % 256) as byte]
  {
  }

  lemma BeSplit(v: nat)
    ensures BeNat(v, 8) == BeNat(v / TWO32, 4) + BeNat(v, 4)
  {
    hide BeNat;
    var a, b, c, d := v / 256, v / 256 / 256, v / 256 / 256 / 256, v / 256 / 256 / 256 / 256;
    BeStep(v, 7); BeStep(a, 6); BeStep(b, 5); BeStep(c, 4);
    BeStep(v, 3); BeStep(a, 2); BeStep(b, 1); BeStep(c, 0);
    BeNothing(d);
    FourTimes(v);
  }

  lemma BeNothing(v: nat)
    ensures BeNat(v, 0) == []
  {
  }

  lemma FourTimes(v: nat)
    ensures v / 256 / 256 / 256 / 256 == v / TWO32
  {
  }

  lemma BeLow(v: nat)
    ensures BeNat(v, 4) == BeNat(v % TWO32, 4)
  {
    Be4(v);
    Be4(v % TWO32);
    LowDigits(v);
  }

  lemma DropMultiple(k: int, x: int)
    ensures (256 * k + x) % 256 == x % 256
  {
  }

  lemma LowDigits(v: nat)
    ensures var u := v % TWO32;
            && u % 256 == v % 256 && u / 256 % 256 == v / 256 % 256
            && u / 0x1_0000 % 256 == v / 0x1_0000 % 256 && u / 0x100_0000 % 256 == v / 0x100_0000 % 256
  {
    var q, u := v / TWO32, v % TWO32;
    DropMultiple(0x100_0000 * q, u);
    DropMultiple(0x1_0000 * q, u / 256);
    DropMultiple(0x100 * q, u / 0x1_0000);
    DropMultiple(q, u / 0x100_0000);
    assert v == 256 * (0x100_0000 * q) + u;
    assert v / 256 == 256 * (0x1_0000 * q) + u / 256;
    assert v / 0x1_0000 == 256 * (0x100 * q) + u / 0x1_0000;
    assert v / 0x100_0000 == 256 * q + u / 0x100_0000;
  }

  lemma CountHalves(len: nat)
    ensures var size, v := len % TWO64, 8 * len % TWO64;
            v / TWO32 == size / 0x2000_0000 % TWO32 && v % TWO32 == size * 8 % TWO32
  {
    var q, size := len / TWO64, len % TWO64;
    var p, r := size / 0x2000_0000_0000_0000, size % 0x2000_0000_0000_0000;
    assert 8 * len == TWO64 * (8 * q + p) + 8 * r;
    RemainderOf(8 * q + p, 8 * r);
    UpperHalf(p, r);
    LowerHalf(p, r);
  }

  lemma UpperHalf(p: nat, r: nat)
    requires p < 8 && r < 0x2000_0000_0000_0000
    ensures 8 * r / TWO32 == (0x2000_0000_0000_0000 * p + r) / 0x2000_0000 % TWO32
  {
    assert (0x2000_0000_0000_0000 * p + r) / 0x2000_0000 == TWO32 * p + r / 0x2000_0000;
    assert 8 * r / TWO32 == r / 0x2000_0000 < TWO32;
  }

  lemma LowerHalf(p: nat, r: nat)
    ensures 8 * r % TWO32 == (0x2000_0000_0000_0000 * p + r) * 8 % TWO32
  {
    assert (0x2000_0000_0000_0000 * p + r) * 8 == TWO32 * (TWO32 * p) + 8 * r;
  }

  lemma RemainderOf(k: nat, r: nat)
    requires r < TWO64
    ensures (TWO64 * k + r) % TWO64 == r
  {
  }

  /** The two halves of the bit count that Final writes are the 64-bit length field. */
  lemma LengthField(len: nat)
    ensures LengthBytes(len % TWO64) == BeNat(8 * len % TWO64, 8)
  {
    hide BeNat;
    CountHalves(len);
    BeSplit(8 * len % TWO64);
    BeLow(8 * len % TWO64);
  }

  /** Init, an Update for each piece, Final: the hash of the pieces put together. */
  method HashPieces(pieces: seq<seq<byte>>) returns (hashout: seq<byte>)
    ensures hashout == Sha1Spec.Sha1(Joined(pieces))
  {
    var ctx := new Context();
    for i := 0 to |pieces|
      invariant ctx.Valid() && fresh(ctx) && fresh(ctx.w) && ctx.message == Joined(pieces[..i])
    {
      assert pieces[..i + 1][..i] == pieces[..i];
      ctx.Update(pieces[i]);
    }
    assert pieces[..|pieces|] == pieces;
    hashout := ctx.Final();
  }

  function Joined(pieces: seq<seq<byte>>): seq<byte> {
    if pieces == [] then [] else Joined(pieces[..|pieces| - 1]) + pieces[|pieces| - 1]
  }
}
