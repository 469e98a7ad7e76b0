/**
 The word-at-a-time reverse search of compat/memrchr.c, for 4-byte and for
 8-byte longwords. Memory is the block searched together with its address,
 which only matters for the alignment of the word accesses.
 */
module Memrchr {
  import opened Options
  import opened Words

  const MAGIC32: bv32 := 0x7efe_feff
  const MAGIC64: bv64 := 0x7efe_fefe_fefe_feff

  /** Some hole bit is unchanged by adding the magic number. */
  predicate Suspect32(longword: bv32) {
    ((longword + MAGIC32) ^ !longword) & !MAGIC32 != 0
  }

  predicate Suspect64(longword: bv64) {
    ((longword + MAGIC64) ^ !longword) & !MAGIC64 != 0
  }

  /** A longword as it lies in memory, least significant byte first. */
  function Load32(b0: byte, b1: byte, b2: byte, b3: byte): bv32 {
    (b0 as bv32) | ((b1 as bv32) << 8) | ((b2 as bv32) << 16) | ((b3 as bv32) << 24)
  }

  /** A longword whose every byte is c, by doubling. */
  function Charmask32(c: byte): bv32 {
    var m := (c as bv32) | ((c as bv32) << 8);
    m | (m << 16)
  }

  /** A longword as it lies in memory, least significant byte first. */
  function Load64(b0: byte, b1: byte, b2: byte, b3: byte, b4: byte, b5: byte, b6: byte, b7: byte): bv64 {
    (b0 as bv64) | ((b1 as bv64) << 8) | ((b2 as bv64) << 16) | ((b3 as bv64) << 24)
    | ((b4 as bv64) << 32) | ((b5 as bv64) << 40) | ((b6 as bv64) << 48) | ((b7 as bv64) << 56)
  }

  /** A longword whose every byte is c, by doubling. */
  function Charmask64(c: byte): bv64 {
    var m := (c as bv64) | ((c as bv64) << 8);
    var m' := m | (m << 16);
    m' | (m' << 32)
  }

  /** No carry leaves a zero byte, and every other byte carries into the next hole. */
  lemma Carries32(w: bv32)
    ensures ((w + MAGIC32) ^ !w) & !MAGIC32 != 0
      <==> (w & 0xff == 0 || w & 0xff00 == 0 || w & 0xff_0000 == 0 || w & 0x7f00_0000 == 0)
  {
  }

  lemma Carries64(w: bv64)
    ensures ((w + MAGIC64) ^ !w) & !MAGIC64 != 0
      <==> (w & 0xff == 0 || w & 0xff00 == 0 || w & 0xff_0000 == 0 || w & 0xff00_0000 == 0
            || w & 0xff_0000_0000 == 0 || w & 0xff00_0000_0000 == 0 || w & 0xff_0000_0000_0000 == 0
            || w & 0x7f00_0000_0000_0000 == 0)
  {
  }

  lemma Byte0Of32(b0: byte, b1: byte, b2: byte, b3: byte, c: byte)
    ensures (Load32(b0, b1, b2, b3) ^ Charmask32(c)) & 0xff == 0 <==> b0 == c
  {
  }

  lemma Byte1Of32(b0: byte, b1: byte, b2: byte, b3: byte, c: byte)
    ensures (Load32(b0, b1, b2, b3) ^ Charmask32(c)) & 0xff00 == 0 <==> b1 == c
  {
  }

  lemma Byte2Of32(b0: byte, b1: byte, b2: byte, b3: byte, c: byte)
    ensures (Load32(b0, b1, b2, b3) ^ Charmask32(c)) & 0xff_0000 == 0 <==> b2 == c
  {
  }

  lemma Byte3Of32(b0: byte, b1: byte, b2: byte, b3: byte, c: byte)
    ensures (Load32(b0, b1, b2, b3) ^ Charmask32(c)) & 0x7f00_0000 == 0 <==> b3 == c || b3 == c ^ 0x80
  {
  }

  /** The test fires exactly on a byte c, or on a top byte that differs from c in bit 7 alone. */
  lemma Suspicion32(b0: byte, b1: byte, b2: byte, b3: byte, c: byte)
    ensures Suspect32(Load32(b0, b1, b2, b3) ^ Charmask32(c))
      <==> (b0 == c || b1 == c || b2 == c || b3 == c || b3 == c ^ 0x80)
  {
    hide Load32, Charmask32;
    Byte0Of32(b0, b1, b2, b3, c);
    Byte1Of32(b0, b1, b2, b3, c);
    Byte2Of32(b0, b1, b2, b3, c);
    Byte3Of32(b0, b1, b2, b3, c);
    Carries32(Load32(b0, b1, b2, b3) ^ Charmask32(c));
  }

  lemma Byte0Of64(b0: byte, b1: byte, b2: byte, b3: byte, b4: byte, b5: byte, b6: byte, b7: byte, c: byte)
    ensures (Load64(b0, b1, b2, b3, b4, b5, b6, b7) ^ Charmask64(c)) & 0xff == 0 <==> b0 == c
  {
  }

  lemma Byte1Of64(b0: byte, b1: byte, b2: byte, b3: byte, b4: byte, b5: byte, b6: byte, b7: byte, c: byte)
    ensures (Load64(b0, b1, b2, b3, b4, b5, b6, b7) ^ Charmask64(c)) & 0xff00 == 0 <==> b1 == c
  {
  }

  lemma Byte2Of64(b0: byte, b1: byte, b2: byte, b3: byte, b4: byte, b5: byte, b6: byte, b7: byte, c: byte)
    ensures (Load64(b0, b1, b2, b3, b4, b5, b6, b7) ^ Charmask64(c)) & 0xff_0000 == 0 <==> b2 == c
  {
  }

  lemma Byte3Of64(b0: byte, b1: byte, b2: byte, b3: byte, b4: byte, b5: byte, b6: byte, b7: byte, c: byte)
    ensures (Load64(b0, b1, b2, b3, b4, b5, b6, b7) ^ Charmask64(c)) & 0xff00_0000 == 0 <==> b3 == c
  {
  }

  lemma Byte4Of64(b0: byte, b1: byte, b2: byte, b3: byte, b4: byte, b5: byte, b6: byte, b7: byte, c: byte)
    ensures (Load64(b0, b1, b2, b3, b4, b5, b6, b7) ^ Charmask64(c)) & 0xff_0000_0000 == 0 <==> b4 == c
  {
  }

  lemma Byte5Of64(b0: byte, b1: byte, b2: byte, b3: byte, b4: byte, b5: byte, b6: byte, b7: byte, c: byte)
    ensures (Load64(b0, b1, b2, b3, b4, b5, b6, b7) ^ Charmask64(c)) & 0xff00_0000_0000 == 0 <==> b5 == c
  {
  }

  lemma Byte6Of64(b0: byte, b1: byte, b2: byte, b3: byte, b4: byte, b5: byte, b6: byte, b7: byte, c: byte)
    ensures (Load64(b0, b1, b2, b3, b4, b5, b6, b7) ^ Charmask64(c)) & 0xff_0000_0000_0000 == 0 <==> b6 == c
  {
  }

  lemma Byte7Of64(b0: byte, b1: byte, b2: byte, b3: byte, b4: byte, b5: byte, b6: byte, b7: byte, c: byte)
    ensures (Load64(b0, b1, b2, b3, b4, b5, b6, b7) ^ Charmask64(c)) & 0x7f00_0000_0000_0000 == 0 <==> b7 == c || b7 == c ^ 0x80
  {
  }

  /** The test fires exactly on a byte c, or on a top byte that differs from c in bit 7 alone. */
  lemma Suspicion64(b0: byte, b1: byte, b2: byte, b3: byte, b4: byte, b5: byte, b6: byte, b7: byte, c: byte)
    ensures Suspect64(Load64(b0, b1, b2, b3, b4, b5, b6, b7) ^ Charmask64(c))
      <==> (b0 == c || b1 == c || b2 == c || b3 == c || b4 == c || b5 == c || b6 == c || b7 == c || b7 == c ^ 0x80)
  {
    hide Load64, Charmask64;
    Byte0Of64(b0, b1, b2, b3, b4, b5, b6, b7, c);
    Byte1Of64(b0, b1, b2, b3, b4, b5, b6, b7, c);
    Byte2Of64(b0, b1, b2, b3, b4, b5, b6, b7, c);
    Byte3Of64(b0, b1, b2, b3, b4, b5, b6, b7, c);
    Byte4Of64(b0, b1, b2, b3, b4, b5, b6, b7, c);
    Byte5Of64(b0, b1, b2, b3, b4, b5, b6, b7, c);
    Byte6Of64(b0, b1, b2, b3, b4, b5, b6, b7, c);
    Byte7Of64(b0, b1, b2, b3, b4, b5, b6, b7, c);
    Carries64(Load64(b0, b1, b2, b3, b4, b5, b6, b7) ^ Charmask64(c));
  }

  function AsByte(c_in: int): byte { (c_in % 256) as byte }

  /** r is where c occurs last in s, or there is no occurrence. */
  ghost predicate LastOccurrence(s: seq<byte>, c: byte, r: Option<nat>) {
    match r
    case None => c !in s
    case Some(i) => i < |s| && s[i] == c && c !in s[i + 1..]
  }

  /** c is not in s from lo up to hi. */
  ghost predicate Absent(s: seq<byte>, c: byte, lo: nat, hi: nat) {
    lo <= hi <= |s| && forall k :: lo <= k < hi ==> s[k] != c
  }

  function WordBefore32(s: seq<byte>, m: nat): bv32
    requires 4 <= m <= |s|
  {
    Load32(s[m - 4], s[m - 3], s[m - 2], s[m - 1])
  }

  lemma CleanWord32(s: seq<byte>, m: nat, c: byte)
    requires 4 <= m <= |s| && !Suspect32(WordBefore32(s, m) ^ Charmask32(c))
    ensures Absent(s, c, m - 4, m)
  {
    hide Load32, Charmask32, Suspect32;
    Suspicion32(s[m - 4], s[m - 3], s[m - 2], s[m - 1], c);
  }

  method WhichByte32(s: seq<byte>, m: nat, c: byte) returns (r: Option<nat>)
    requires 4 <= m <= |s|
    ensures r.None? ==> Absent(s, c, m - 4, m)
    ensures r.Some? ==> m - 4 <= r.value < m && s[r.value] == c && Absent(s, c, r.value + 1, m)
  {
    if s[m - 1] == c { return Some(m - 1); }
    if s[m - 2] == c { return Some(m - 2); }
    if s[m - 3] == c { return Some(m - 3); }
    if s[m - 4] == c { return Some(m - 4); }
    return None;
  }

  method Memrchr32(s: seq<byte>, address: nat, c_in: int) returns (r: Option<nat>)
    ensures LastOccurrence(s, AsByte(c_in), r)
  {
    hide WordBefore32, Charmask32, Suspect32;
    var c := AsByte(c_in);
    var m: nat := |s|;
    while m > 0 && (address + m) % 4 != 0
      invariant Absent(s, c, m, |s|)
    {
      m := m - 1;
      if s[m] == c { return Some(m); }
    }
    var charmask := Charmask32(c);
    while m >= 4
      invariant Absent(s, c, m, |s|)
      invariant m > 0 ==> (address + m) % 4 == 0
    {
      assert (address + m - 4) % 4 == 0;
      if Suspect32(WordBefore32(s, m) ^ charmask) {
        r := WhichByte32(s, m, c);
        if r.Some? { return; }
      } else {
        CleanWord32(s, m, c);
      }
      m := m - 4;
    }
    while m > 0
      invariant Absent(s, c, m, |s|)
    {
      m := m - 1;
      if s[m] == c { return Some(m); }
    }
    return None;
  }

  function WordBefore64(s: seq<byte>, m: nat): bv64
    requires 8 <= m <= |s|
  {
    Load64(s[m - 8], s[m - 7], s[m - 6], s[m - 5], s[m - 4], s[m - 3], s[m - 2], s[m - 1])
  }

  lemma CleanWord64(s: seq<byte>, m: nat, c: byte)
    requires 8 <= m <= |s| && !Suspect64(WordBefore64(s, m) ^ Charmask64(c))
    ensures Absent(s, c, m - 8, m)
  {
    hide Load64, Charmask64, Suspect64;
    Suspicion64(s[m - 8], s[m - 7], s[m - 6], s[m - 5], s[m - 4], s[m - 3], s[m - 2], s[m - 1], c);
  }

  method WhichByte64(s: seq<byte>, m: nat, c: byte) returns (r: Option<nat>)
    requires 8 <= m <= |s|
    ensures r.None? ==> Absent(s, c, m - 8, m)
    ensures r.Some? ==> m - 8 <= r.value < m && s[r.value] == c && Absent(s, c, r.value + 1, m)
  {
    if s[m - 1] == c { return Some(m - 1); }
    if s[m - 2] == c { return Some(m - 2); }
    if s[m - 3] == c { return Some(m - 3); }
    if s[m - 4] == c { return Some(m - 4); }
    if s[m - 5] == c { return Some(m - 5); }
    if s[m - 6] == c { return Some(m - 6); }
    if s[m - 7] == c { return Some(m - 7); }
    if s[m - 8] == c { return Some(m - 8); }
    return None;
  }

  method Memrchr64(s: seq<byte>, address: nat, c_in: int) returns (r: Option<nat>)
    ensures LastOccurrence(s, AsByte(c_in), r)
  {
    hide WordBefore64, Charmask64, Suspect64;
    var c := AsByte(c_in);
    var m: nat := |s|;
    while m > 0 && (address + m) % 8 != 0
      invariant Absent(s, c, m, |s|)
    {
      m := m - 1;
      if s[m] == c { return Some(m); }
    }
    var charmask := Charmask64(c);
    while m >= 8
      invariant Absent(s, c, m, |s|)
      invariant m > 0 ==> (address + m) % 8 == 0
    {
      assert (address + m - 8) % 8 == 0;
      if Suspect64(WordBefore64(s, m) ^ charmask) {
        r := WhichByte64(s, m, c);
        if r.Some? { return; }
      } else {
        CleanWord64(s, m, c);
      }
      m := m - 8;
    }
    while m > 0
      invariant Absent(s, c, m, |s|)
    {
      m := m - 1;
      if s[m] == c { return Some(m); }
    }
    return None;
  }
}
