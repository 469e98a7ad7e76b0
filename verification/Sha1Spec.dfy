/**
 SHA-1 as FIPS 180-4 defines it: the functions and constants of section 4,
 the padding of section 5.1.1 and the 80-word message schedule of section 6.1.2.
 */
module Sha1Spec {
  import opened Words

  type word = bv32

  /** The five working variables, and also the five words of a hash value. */
  datatype Regs = Regs(a: word, b: word, c: word, d: word, e: word)

  function Rotl(x: word, n: nat): word
    requires n < 32
  {
    x.RotateLeft(n)
  }

  function Ch(x: word, y: word, z: word): word { (x & y) ^ (!x & z) }
  function Parity(x: word, y: word, z: word): word { x ^ y ^ z }
  function Maj(x: word, y: word, z: word): word { (x & y) ^ (x & z) ^ (y & z) }

  function F(t: nat, x: word, y: word, z: word): word {
    if t < 20 then Ch(x, y, z)
    else if t < 40 then Parity(x, y, z)
    else if t < 60 then Maj(x, y, z)
    else Parity(x, y, z)
  }

  function K(t: nat): word {
    if t < 20 then 0x5a827999
    else if t < 40 then 0x6ed9eba1
    else if t < 60 then 0x8f1bbcdc
    else 0xca62c1d6
  }

  /** Word t of the message schedule of the block m. */
  function Schedule(m: seq<word>, t: nat): word
    requires |m| == 16
  {
    if t < 16 then m[t]
    else Rotl(Schedule(m, t - 3) ^ Schedule(m, t - 8) ^ Schedule(m, t - 14) ^ Schedule(m, t - 16), 1)
  }

  function Sum5(p: word, q: word, r: word, s: word, t: word): word { p + q + r + s + t }

  function Step(r: Regs, t: nat, w: word): Regs {
    Regs(Sum5(Rotl(r.a, 5), F(t, r.b, r.c, r.d), r.e, K(t), w), r.a, Rotl(r.b, 30), r.c, r.d)
  }

  /** The working variables after the first t steps on block m, starting from h. */
  function Rounds(h: Regs, m: seq<word>, t: nat): Regs
    requires |m| == 16
  {
    if t == 0 then h else Step(Rounds(h, m, t - 1), t - 1, Schedule(m, t - 1))
  }

  function AddRegs(x: Regs, y: Regs): Regs {
    Regs(x.a + y.a, x.b + y.b, x.c + y.c, x.d + y.d, x.e + y.e)
  }

  function Compress(h: Regs, m: seq<word>): Regs
    requires |m| == 16
  {
    AddRegs(h, Rounds(h, m, 80))
  }

  /** Four bytes as the digits of a number, most significant first. */
  function BeWord(b0: byte, b1: byte, b2: byte, b3: byte): word {
    (((b0 as word) * 256 + (b1 as word)) * 256 + (b2 as word)) * 256 + (b3 as word)
  }

  /** The digits of a number, most significant first. */
  function WordBytes(v: word): seq<byte> {
    [(v / 0x100_0000) as byte, (v / 0x1_0000 % 256) as byte, (v / 256 % 256) as byte, (v % 256) as byte]
  }

  function BlockWord(s: seq<byte>, t: nat): word
    requires |s| == 64 && t < 16
  {
    BeWord(s[4 * t], s[4 * t + 1], s[4 * t + 2], s[4 * t + 3])
  }

  function BlockWords(s: seq<byte>): (m: seq<word>)
    requires |s| == 64
    ensures |m| == 16
  {
    seq(16, t requires 0 <= t < 16 => BlockWord(s, t))
  }

  /** The hash value after processing the blocks of s, in order, from h. */
  function Absorb(h: Regs, s: seq<byte>): Regs
    requires |s| % 64 == 0
  {
    if s == [] then h
    else Compress(Absorb(h, s[..|s| - 64]), BlockWords(s[|s| - 64..]))
  }

  /** The n low-order base-256 digits of v, most significant first. */
  function BeNat(v: nat, n: nat): (s: seq<byte>)
    ensures |s| == n
  {
    if n == 0 then [] else BeNat(v / 256, n - 1) + [(v % 256) as byte]
  }

  /** The number of zero bytes between the 0x80 byte and the length field. */
  function PadZeros(len: nat): (k: nat)
    ensures (len + 1 + k) % 64 == 56 && k < 64
  {
    (55 - len as int) % 64
  }

  function Zeros(k: nat): (s: seq<byte>)
    ensures |s| == k
  {
    seq(k, _ => 0)
  }

  /** What follows a message of len bytes: a 1 bit, zero bits, the length in bits. */
  function Padding(len: nat): (s: seq<byte>)
    ensures (len + |s|) % 64 == 0
  {
    [0x80] + Zeros(PadZeros(len)) + BeNat(8 * len % TWO64, 8)
  }

  const INITIAL := Regs(0x67452301, 0xefcdab89, 0x98badcfe, 0x10325476, 0xc3d2e1f0)

  function Digest(h: Regs): (s: seq<byte>)
    ensures |s| == 20
  {
    WordBytes(h.a) + WordBytes(h.b) + WordBytes(h.c) + WordBytes(h.d) + WordBytes(h.e)
  }

  function Sha1(m: seq<byte>): (s: seq<byte>)
    ensures |s| == 20
  {
    Digest(Absorb(INITIAL, m + Padding(|m|)))
  }
}
