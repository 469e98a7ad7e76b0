/** The on-disk form of a backlog: each entry is its length as a native 32-bit word, then its bytes. */
module Records {
  import opened SeqFacts
  import opened Words

  const LEN_SIZE: nat := 4

  function LenBytes(n: nat): (s: seq<octet>)
    ensures |s| == LEN_SIZE
  {
    [n % 256, n / 256 % 256, n / 0x1_0000 % 256, n / 0x100_0000 % 256]
  }

  function LenOf(s: seq<octet>): nat
    requires |s| == LEN_SIZE
  {
    (s[0] as int) + 256 * (s[1] as int) + 0x1_0000 * (s[2] as int) + 0x100_0000 * (s[3] as int)
  }

  lemma LenRoundTrip(n: nat)
    requires n < TWO32
    ensures LenOf(LenBytes(n)) == n
  {
    var q1 := n / 256;
    var q2 := q1 / 256;
    assert n / 0x1_0000 == q2 && n / 0x100_0000 == q2 / 256;
  }

  function Record(e: seq<octet>): seq<octet> { LenBytes(|e|) + e }

  function Encode(entries: seq<seq<octet>>): seq<octet> {
    if entries == [] then [] else Record(entries[0]) + Encode(entries[1..])
  }

  lemma {:induction false} EncodeAppend(p: seq<seq<octet>>, e: seq<octet>)
    ensures Encode(p + [e]) == Encode(p) + Record(e)
  {
    hide Record;
    if p == [] {
      assert p + [e] == [e];
      assert Encode([e]) == Record(e) + Encode([]);
    } else {
      assert (p + [e])[1..] == p[1..] + [e];
      EncodeAppend(p[1..], e);
      Associate(Record(p[0]), Encode(p[1..]), Record(e));
    }
  }

  /** The first record of a file part tells its length and holds the entry. */
  lemma FirstRecord(s: seq<octet>, entries: seq<seq<octet>>)
    requires entries != [] && |entries[0]| < TWO32 && s == Encode(entries)
    ensures |s| >= LEN_SIZE + |entries[0]|
    ensures LenOf(s[..LEN_SIZE]) == |entries[0]|
    ensures s[LEN_SIZE..LEN_SIZE + |entries[0]|] == entries[0]
    ensures s[LEN_SIZE + |entries[0]|..] == Encode(entries[1..])
  {
    var e, rest := entries[0], Encode(entries[1..]);
    assert s == LenBytes(|e|) + e + rest;
    assert s[..LEN_SIZE] == LenBytes(|e|);
    LenRoundTrip(|e|);
  }
}
