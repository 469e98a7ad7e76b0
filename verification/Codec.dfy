/**
 The event codec of shared/codec.c. An event struct has pointer slots at known
 offsets. Encoding copies the struct into a buffer, puts the strings behind it
 and the offsets of the strings into the slots; decoding turns the offsets back
 into pointers into the block.
 */
module Codec {
  import opened Options
  import opened Words

  const PTR: nat := 8

  function Pow256(k: nat): (p: nat)
    ensures p > 0
  {
    if k == 0 then 1 else 256 * Pow256(k - 1)
  }

  /** The k low-order bytes of n, least significant first. */
  function Word(n: nat, k: nat): (s: seq<octet>)
    ensures |s| == k
  {
    if k == 0 then [] else [n % 256] + Word(n / 256, k - 1)
  }

  function Value(s: seq<octet>): nat {
    if s == [] then 0 else (s[0] as int) + 256 * Value(s[1..])
  }

  lemma {:induction false} WordRoundTrip(n: nat, k: nat)
    requires n < Pow256(k)
    ensures Value(Word(n, k)) == n
  {
    if k > 0 {
      assert n / 256 < Pow256(k - 1);
      WordRoundTrip(n / 256, k - 1);
      assert Word(n, k)[1..] == Word(n / 256, k - 1);
    }
  }

  lemma {:induction false} ValueZero(s: seq<octet>)
    ensures Value(s) == 0 <==> forall i :: 0 <= i < |s| ==> s[i] == 0
  {
    if s != [] {
      ValueZero(s[1..]);
      assert forall i :: 0 <= i < |s| - 1 ==> s[1..][i] == s[i + 1];
      if s[0] == 0 && forall i :: 0 <= i < |s[1..]| ==> s[1..][i] == 0 {
        assert forall i :: 1 <= i < |s| ==> s[i] == s[1..][i - 1];
      }
    }
  }


  lemma Pow8()
    ensures Pow256(8) == TWO64
  {
  }

  // ---- where things go -----------------------------------------------------

  type Strings = seq<Option<seq<octet>>>

  datatype Place = Place(at: nat, text: seq<octet>)

  /** As much of s as fits into the buffer behind off, with its terminator. */
  function Fitting(s: seq<octet>, off: nat, buflen: nat): (t: seq<octet>)
    requires off < buflen
    ensures t <= s && off + |t| + 1 <= buflen
    ensures |s| <= buflen - off - 1 ==> t == s
    ensures |s| > buflen - off - 1 ==> off + |t| + 1 == buflen
  {
    if |s| > buflen - off - 1 then s[..buflen - off - 1] else s
  }

  /** Where the i-th string would start. */
  function OffsetAt(strings: Strings, size: nat, buflen: nat, i: nat): (off: nat)
    requires i <= |strings|
    ensures size <= off && (size <= buflen ==> off <= buflen)
  {
    if i == 0 then size
    else
      var off := OffsetAt(strings, size, buflen, i - 1);
      if strings[i - 1].None? || buflen <= off then off
      else off + |Fitting(strings[i - 1].value, off, buflen)| + 1
  }

  /** Where the i-th string does go, if there is one and there is room left. */
  function PlaceAt(strings: Strings, size: nat, buflen: nat, i: nat): Option<Place>
    requires i < |strings|
  {
    var off := OffsetAt(strings, size, buflen, i);
    if strings[i].None? || buflen <= off then None
    else Some(Place(off, Fitting(strings[i].value, off, buflen)))
  }

  lemma {:induction false} OffsetsGrow(strings: Strings, size: nat, buflen: nat, i: nat, j: nat)
    requires i <= j <= |strings|
    ensures OffsetAt(strings, size, buflen, i) <= OffsetAt(strings, size, buflen, j)
    ensures OffsetAt(strings, size, buflen, i) >= buflen ==>
              OffsetAt(strings, size, buflen, i) == OffsetAt(strings, size, buflen, j)
    decreases j - i
  {
    if i < j { OffsetsGrow(strings, size, buflen, i, j - 1); }
  }

  /** What comes out at the other end for the i-th string. */
  function Expected(strings: Strings, size: nat, buflen: nat, i: nat): Option<seq<octet>>
    requires i < |strings|
  {
    match PlaceAt(strings, size, buflen, i)
    case None => None
    case Some(p) => Some(p.text)
  }

  /** The room that the first i strings take, each with its terminator. */
  function Room(strings: Strings, i: nat): nat
    requires i <= |strings|
  {
    if i == 0 then 0 else Room(strings, i - 1) + if strings[i - 1].None? then 0 else |strings[i - 1].value| + 1
  }

  lemma {:induction false} RoomGrows(strings: Strings, i: nat, j: nat)
    requires i <= j <= |strings|
    ensures Room(strings, i) <= Room(strings, j)
    decreases j - i
  {
    if i < j { RoomGrows(strings, i, j - 1); }
  }

  lemma {:induction false} OffsetsIfRoom(strings: Strings, size: nat, buflen: nat, i: nat)
    requires i <= |strings| && size + Room(strings, i) <= buflen
    ensures OffsetAt(strings, size, buflen, i) == size + Room(strings, i)
  {
    if i > 0 { OffsetsIfRoom(strings, size, buflen, i - 1); }
  }

  lemma {:induction false} OffsetsIfWhole(strings: Strings, size: nat, buflen: nat, i: nat)
    requires i <= |strings| && size <= buflen && forall j :: 0 <= j < i ==> Expected(strings, size, buflen, j) == strings[j]
    ensures OffsetAt(strings, size, buflen, i) == size + Room(strings, i) <= buflen
  {
    hide OffsetAt, Room, Expected;
    if i == 0 {
      FirstOffset(strings, size, buflen);
    } else {
      OffsetsIfWhole(strings, size, buflen, i - 1);
      WholeStep(strings, size, buflen, i - 1);
    }
  }

  lemma FirstOffset(strings: Strings, size: nat, buflen: nat)
    ensures OffsetAt(strings, size, buflen, 0) == size && Room(strings, 0) == 0
  {
  }

  lemma WholeStep(strings: Strings, size: nat, buflen: nat, i: nat)
    requires i < |strings| && Expected(strings, size, buflen, i) == strings[i]
    requires OffsetAt(strings, size, buflen, i) == size + Room(strings, i) <= buflen
    ensures OffsetAt(strings, size, buflen, i + 1) == size + Room(strings, i + 1) <= buflen
  {
  }

  /** All strings come out as they were, and missing ones stay missing, if and only if they all fit, terminators included. */
  lemma WholeIffRoom(strings: Strings, size: nat, buflen: nat)
    requires size <= buflen
    ensures (forall i :: 0 <= i < |strings| ==> Expected(strings, size, buflen, i) == strings[i])
            <==> size + Room(strings, |strings|) <= buflen
  {
    hide Room, OffsetAt, Expected;
    if size + Room(strings, |strings|) <= buflen {
      forall i | 0 <= i < |strings| ensures Expected(strings, size, buflen, i) == strings[i] {
        WholeIfRoom(strings, size, buflen, i);
      }
    } else if forall i :: 0 <= i < |strings| ==> Expected(strings, size, buflen, i) == strings[i] {
      OffsetsIfWhole(strings, size, buflen, |strings|);
    }
  }

  lemma WholeIfRoom(strings: Strings, size: nat, buflen: nat, i: nat)
    requires i < |strings| && size + Room(strings, |strings|) <= buflen
    ensures Expected(strings, size, buflen, i) == strings[i]
  {
    RoomGrows(strings, i + 1, |strings|);
    OffsetsIfRoom(strings, size, buflen, i);
  }

  /** A string comes out whole, cut short, or not at all: the last only when the buffer was full before it. */
  lemma WholeOrCut(strings: Strings, size: nat, buflen: nat, i: nat)
    requires i < |strings|
    ensures strings[i].None? ==> Expected(strings, size, buflen, i) == None
    ensures strings[i].Some? && OffsetAt(strings, size, buflen, i) < buflen ==>
              var e := Expected(strings, size, buflen, i);
              && e.Some? && e.value <= strings[i].value
              && (e.value != strings[i].value ==> OffsetAt(strings, size, buflen, i + 1) == buflen)
    ensures strings[i].Some? && Expected(strings, size, buflen, i).None? ==>
              forall j :: i <= j < |strings| ==> Expected(strings, size, buflen, j) == None
  {
    if OffsetAt(strings, size, buflen, i) >= buflen {
      forall j | i <= j < |strings| ensures Expected(strings, size, buflen, j) == None {
        OffsetsGrow(strings, size, buflen, i, j);
      }
    }
  }

  // ---- encoding ------------------------------------------------------------

  /** Pointer slots that lie inside a struct of this size, clear of each other and of its start. */
  ghost predicate Slots(ptrs: seq<nat>, size: nat) {
    && (forall i :: 0 <= i < |ptrs| ==> 0 < ptrs[i] && ptrs[i] + PTR <= size)
    && (forall i, j :: 0 <= i < j < |ptrs| ==> ptrs[i] + PTR <= ptrs[j] || ptrs[j] + PTR <= ptrs[i])
  }

  /** s is in b at position at. */
  ghost predicate Holds(b: seq<octet>, at: nat, s: seq<octet>) { at + |s| <= |b| && b[at..at + |s|] == s }

  /** b' is b with the n bytes from at on replaced. */
  ghost predicate Written(b: seq<octet>, at: nat, s: seq<octet>, b': seq<octet>) {
    at + |s| <= |b| == |b'| && b' == b[..at] + s + b[at + |s|..]
  }

  lemma Kept(b: seq<octet>, at: nat, s: seq<octet>, b': seq<octet>, q: nat, t: seq<octet>)
    requires Written(b, at, s, b') && Holds(b, q, t) && (q + |t| <= at || at + |s| <= q)
    ensures Holds(b', q, t)
  {
    forall i | 0 <= i < |t| ensures b'[q + i] == t[i] {
      assert b[q..q + |t|][i] == t[i];
    }
    assert b'[q..q + |t|] == t;
  }

  lemma Fresh(b: seq<octet>, at: nat, s: seq<octet>, b': seq<octet>)
    requires Written(b, at, s, b')
    ensures Holds(b', at, s)
  {
  }

  /** memcpy into the buffer. */
  method Put(buf: array<octet>, at: nat, s: seq<octet>)
    requires at + |s| <= buf.Length
    modifies buf
    ensures Written(old(buf[..]), at, s, buf[..])
  {
    ghost var b := buf[..];
    forall i | 0 <= i < |s| { buf[at + i] := s[i]; }
    assert forall i :: 0 <= i < |s| ==> buf[at + i] == s[i];
    forall i | 0 <= i < buf.Length
      ensures buf[i] == (b[..at] + s + b[at + |s|..])[i]
    {
      if at <= i < at + |s| { assert buf[at + (i - at)] == s[i - at]; }
    }
  }

  /** The slot and the text of one string, as the place p asks for. */
  ghost predicate Stored(b: seq<octet>, slot: nat, p: Option<Place>) {
    match p
    case None => Holds(b, slot, Word(0, PTR))
    case Some(q) => Holds(b, slot, Word(q.at, PTR)) && Holds(b, q.at, q.text + [0])
  }

  /** Everything up to the n-th string is in the buffer, and every octet of the struct outside the slots. */
  ghost predicate Encoded(b: seq<octet>, base: seq<octet>, ptrs: seq<nat>, strings: Strings, n: nat)
    requires n <= |strings| == |ptrs|
  {
    && |base| <= |b|
    && (forall i :: 0 <= i < n ==> Stored(b, ptrs[i], PlaceAt(strings, |base|, |b|, i)))
    && (forall i :: 0 <= i < |base| && (forall j :: 0 <= j < |ptrs| ==> i < ptrs[j] || ptrs[j] + PTR <= i) ==> b[i] == base[i])
  }

  /** A null pointer in the struct is a missing string. */
  ghost predicate Nulls(base: seq<octet>, ptrs: seq<nat>, strings: Strings) {
    |ptrs| == |strings| && Slots(ptrs, |base|) && forall i :: 0 <= i < |ptrs| ==> (strings[i].None? <==> Value(base[ptrs[i]..ptrs[i] + PTR]) == 0)
  }

  /** Writing a slot leaves the strings and the other slots alone. */
  lemma SlotWritten(b: seq<octet>, base: seq<octet>, ptrs: seq<nat>, strings: Strings, n: nat, v: nat, b': seq<octet>)
    requires n < |strings| == |ptrs| && Slots(ptrs, |base|) && Encoded(b, base, ptrs, strings, n)
    requires Written(b, ptrs[n], Word(v, PTR), b')
    ensures Encoded(b', base, ptrs, strings, n) && Holds(b', ptrs[n], Word(v, PTR))
  {
    hide Word, PlaceAt;
    forall i | 0 <= i < n
      ensures Stored(b', ptrs[i], PlaceAt(strings, |base|, |b|, i))
    {
      StoredKept(b, base, ptrs, strings, n, i, Word(v, PTR), b');
    }
    forall i | 0 <= i < |base| && (forall j :: 0 <= j < |ptrs| ==> i < ptrs[j] || ptrs[j] + PTR <= i)
      ensures b'[i] == base[i]
    {
      assert i < ptrs[n] || ptrs[n] + PTR <= i;
    }
  }

  lemma StoredKept(b: seq<octet>, base: seq<octet>, ptrs: seq<nat>, strings: Strings, n: nat, i: nat, w: seq<octet>, b': seq<octet>)
    requires i < n < |strings| == |ptrs| && Slots(ptrs, |base|) && |w| == PTR && Written(b, ptrs[n], w, b')
    requires Stored(b, ptrs[i], PlaceAt(strings, |base|, |b|, i))
    ensures Stored(b', ptrs[i], PlaceAt(strings, |base|, |b|, i))
  {
    hide Word, Holds, Written;
    match PlaceAt(strings, |base|, |b|, i)
    case None => Kept(b, ptrs[n], w, b', ptrs[i], Word(0, PTR));
    case Some(p) =>
      Kept(b, ptrs[n], w, b', ptrs[i], Word(p.at, PTR));
      Kept(b, ptrs[n], w, b', p.at, p.text + [0]);
  }

  /** Writing the next string leaves the struct and the earlier strings alone. */
  lemma TextWritten(b: seq<octet>, base: seq<octet>, ptrs: seq<nat>, strings: Strings, n: nat, s: seq<octet>, b': seq<octet>)
    requires n < |strings| == |ptrs| && Slots(ptrs, |base|) && Encoded(b, base, ptrs, strings, n)
    requires Written(b, OffsetAt(strings, |base|, |b|, n), s, b')
    ensures Encoded(b', base, ptrs, strings, n)
  {
    hide Word, Fitting;
    var off := OffsetAt(strings, |base|, |b|, n);
    forall i | 0 <= i < n
      ensures Stored(b', ptrs[i], PlaceAt(strings, |base|, |b|, i))
    {
      OffsetsGrow(strings, |base|, |b|, i + 1, n);
      match PlaceAt(strings, |base|, |b|, i)
      case None => Kept(b, off, s, b', ptrs[i], Word(0, PTR));
      case Some(p) =>
        Kept(b, off, s, b', ptrs[i], Word(p.at, PTR));
        Kept(b, off, s, b', p.at, p.text + [0]);
    }
  }

  function Align8(n: nat): (m: nat)
    ensures n <= m < n + 8 && m % 8 == 0
  {
    if n % 8 != 0 then n + (8 - n % 8) else n
  }

  /** The slots from i on still have what the struct had in them. */
  ghost predicate Raw(b: seq<octet>, base: seq<octet>, ptrs: seq<nat>, i: nat)
    requires Slots(ptrs, |base|)
  {
    forall j :: i <= j < |ptrs| ==> Holds(b, ptrs[j], base[ptrs[j]..ptrs[j] + PTR])
  }

  lemma RawKept(b: seq<octet>, base: seq<octet>, ptrs: seq<nat>, i: nat, at: nat, s: seq<octet>, b': seq<octet>)
    requires Slots(ptrs, |base|) && i < |ptrs| && Raw(b, base, ptrs, i) && Written(b, at, s, b')
    requires at >= |base| || (at == ptrs[i] && |s| == PTR)
    ensures Raw(b', base, ptrs, if at >= |base| then i else i + 1)
  {
    hide Holds, Written;
    forall j | (if at >= |base| then i else i + 1) <= j < |ptrs|
      ensures Holds(b', ptrs[j], base[ptrs[j]..ptrs[j] + PTR])
    {
      Kept(b, at, s, b', ptrs[j], base[ptrs[j]..ptrs[j] + PTR]);
    }
  }

  lemma {:induction false} ZeroWord(k: nat)
    ensures forall i :: 0 <= i < k ==> Word(0, k)[i] == 0
  {
    if k > 0 { ZeroWord(k - 1); }
  }

  lemma NullSlot(b: seq<octet>, base: seq<octet>, ptrs: seq<nat>, i: nat)
    requires Slots(ptrs, |base|) && i < |ptrs| && Raw(b, base, ptrs, i)
    requires Value(base[ptrs[i]..ptrs[i] + PTR]) == 0
    ensures Holds(b, ptrs[i], Word(0, PTR))
  {
    hide Word, Value;
    var w := base[ptrs[i]..ptrs[i] + PTR];
    ValueZero(w);
    ZeroWord(PTR);
    assert w == Word(0, PTR);
  }

  lemma Copied(b: seq<octet>, base: seq<octet>, ptrs: seq<nat>, strings: Strings, b': seq<octet>)
    requires |ptrs| == |strings| && Slots(ptrs, |base|) && Written(b, 0, base, b')
    ensures Encoded(b', base, ptrs, strings, 0) && Raw(b', base, ptrs, 0)
  {
    assert forall i :: 0 <= i < |base| ==> b'[i] == base[i];
  }

  lemma OneMore(b: seq<octet>, base: seq<octet>, ptrs: seq<nat>, strings: Strings, i: nat)
    requires i < |strings| == |ptrs| && Encoded(b, base, ptrs, strings, i)
    requires Stored(b, ptrs[i], PlaceAt(strings, |base|, |b|, i))
    ensures Encoded(b, base, ptrs, strings, i + 1)
  {
    hide Stored, PlaceAt;
  }

  /** One string into the buffer: text, terminator, then its offset into the slot. */
  method Store(buf: array<octet>, off: nat, sp: seq<octet>, slot: nat) returns (len: nat, ghost mid: seq<octet>)
    requires off < buf.Length && slot + PTR <= off
    modifies buf
    ensures len == |Fitting(sp, off, buf.Length)|
    ensures Written(old(buf[..]), off, Fitting(sp, off, buf.Length) + [0], mid) && Written(mid, slot, Word(off, PTR), buf[..])
  {
    hide Word;
    len := |sp|;
    if len > buf.Length - off - 1 { len := buf.Length - off - 1; }
    Put(buf, off, sp[..len] + [0]);
    mid := buf[..];
    assert sp[..len] == Fitting(sp, off, buf.Length);
    Put(buf, slot, Word(off, PTR));
  }

  /** The slots from i on are set to null: there is no room for their strings. */
  method ClearSlots(buf: array<octet>, base: seq<octet>, ptrs: seq<nat>, strings: Strings, start: nat)
    requires start <= |strings| == |ptrs| && Slots(ptrs, |base|) && Encoded(buf[..], base, ptrs, strings, start)
    requires OffsetAt(strings, |base|, buf.Length, start) >= buf.Length
    modifies buf
    ensures Encoded(buf[..], base, ptrs, strings, |strings|)
  {
    hide Word, Encoded, OffsetAt;
    for i := start to |strings|
      invariant Encoded(buf[..], base, ptrs, strings, i)
    {
      OffsetsGrow(strings, |base|, buf.Length, start, i);
      SlotInside(buf[..], base, ptrs, strings, i);
      ghost var b := buf[..];
      Put(buf, ptrs[i], Word(0, PTR));
      SlotWritten(b, base, ptrs, strings, i, 0, buf[..]);
      OneMore(buf[..], base, ptrs, strings, i);
    }
  }

  lemma SlotInside(b: seq<octet>, base: seq<octet>, ptrs: seq<nat>, strings: Strings, i: nat)
    requires i < |strings| == |ptrs| && Slots(ptrs, |base|) && Encoded(b, base, ptrs, strings, i)
    ensures ptrs[i] + PTR <= |base| <= |b|
  {
  }

  lemma StringStored(b: seq<octet>, mid: seq<octet>, b': seq<octet>, base: seq<octet>, ptrs: seq<nat>, strings: Strings, i: nat)
    requires i < |strings| == |ptrs| && Slots(ptrs, |base|) && Encoded(b, base, ptrs, strings, i) && Raw(b, base, ptrs, i)
    requires PlaceAt(strings, |base|, |b|, i).Some?
    requires var p := PlaceAt(strings, |base|, |b|, i).value;
             Written(b, p.at, p.text + [0], mid) && Written(mid, ptrs[i], Word(p.at, PTR), b')
    ensures Encoded(b', base, ptrs, strings, i + 1) && Raw(b', base, ptrs, i + 1)
  {
    hide Word, Encoded, Raw, Holds, Written;
    var p := PlaceAt(strings, |base|, |b|, i).value;
    SlotInside(b, base, ptrs, strings, i);
    WrittenSize(b, p.at, p.text + [0], mid);
    WrittenSize(mid, ptrs[i], Word(p.at, PTR), b');
    TextWritten(b, base, ptrs, strings, i, p.text + [0], mid);
    RawKept(b, base, ptrs, i, p.at, p.text + [0], mid);
    Fresh(b, p.at, p.text + [0], mid);
    SlotWritten(mid, base, ptrs, strings, i, p.at, b');
    RawKept(mid, base, ptrs, i, ptrs[i], Word(p.at, PTR), b');
    Kept(mid, ptrs[i], Word(p.at, PTR), b', p.at, p.text + [0]);
    OneMore(b', base, ptrs, strings, i);
  }

  lemma WrittenSize(b: seq<octet>, at: nat, s: seq<octet>, b': seq<octet>)
    requires Written(b, at, s, b')
    ensures |b| == |b'|
  {
  }

  /** merlin_encode, for an event struct base with pointer slots ptrs that lead to strings. */
  method Encode(base: seq<octet>, ptrs: seq<nat>, strings: Strings, buf: array<octet>) returns (n: nat)
    requires Nulls(base, ptrs, strings) && |base| <= buf.Length
    modifies buf
    ensures Encoded(buf[..], base, ptrs, strings, |strings|)
    ensures n == Align8(OffsetAt(strings, |base|, buf.Length, |strings|))
    ensures buf.Length % 8 == 0 ==> n <= buf.Length
  {
    hide Word, Encoded, Raw, Value, Fitting, Written, Align8;
    ghost var b := buf[..];
    Put(buf, 0, base);
    Copied(b, base, ptrs, strings, buf[..]);
    var off := |base|;
    for i := 0 to |strings|
      invariant off == OffsetAt(strings, |base|, buf.Length, i)
      invariant Encoded(buf[..], base, ptrs, strings, i) && Raw(buf[..], base, ptrs, i)
    {
      SlotInside(buf[..], base, ptrs, strings, i);
      if strings[i].None? {
        NullSlot(buf[..], base, ptrs, i);
        OneMore(buf[..], base, ptrs, strings, i);
        RawFewer(buf[..], base, ptrs, i);
        continue;
      }
      if buf.Length <= off {
        ClearSlots(buf, base, ptrs, strings, i);
        OffsetsGrow(strings, |base|, buf.Length, i, |strings|);
        break;
      }
      b := buf[..];
      var len, mid := Store(buf, off, strings[i].value, ptrs[i]);
      StringStored(b, mid, buf[..], base, ptrs, strings, i);
      off := off + len + 1;
    }
    n := Align8(off);
    AlignFits(off, buf.Length);
  }

  lemma AlignFits(off: nat, buflen: nat)
    requires off <= buflen
    ensures buflen % 8 == 0 ==> Align8(off) <= buflen
  {
  }

  lemma RawFewer(b: seq<octet>, base: seq<octet>, ptrs: seq<nat>, i: nat)
    requires Slots(ptrs, |base|) && Raw(b, base, ptrs, i)
    ensures Raw(b, base, ptrs, i + 1)
  {
  }

  // ---- decoding ------------------------------------------------------------

  function SlotValue(b: seq<octet>, slot: nat): nat
    requires slot + PTR <= |b|
  {
    Value(b[slot..slot + PTR])
  }

  /** What a slot with this offset in it becomes: null if the offset overshoots, else a pointer. */
  function Pointer(v: nat, len: nat, address: nat): (p: nat)
    ensures p < TWO64
    ensures v < TWO64 / 2 && address + len < TWO64 ==> p == 0 || address <= p <= address + len
  {
    if v == 0 || Int64(v) > len then 0 else (address + v) % TWO64
  }

  /** b' is block b at an address, with the first n slots decoded. */
  ghost predicate Decoded(b: seq<octet>, ptrs: seq<nat>, len: nat, address: nat, n: nat, b': seq<octet>)
    requires Slots(ptrs, |b|) && n <= |ptrs|
  {
    && |b'| == |b|
    && (forall i :: 0 <= i < n ==> SlotValue(b', ptrs[i]) == Pointer(SlotValue(b, ptrs[i]), len, address))
    && (forall i :: n <= i < |ptrs| ==> SlotValue(b', ptrs[i]) == SlotValue(b, ptrs[i]))
    && (forall i :: 0 <= i < |b| && (forall j :: 0 <= j < |ptrs| ==> i < ptrs[j] || ptrs[j] + PTR <= i) ==> b'[i] == b[i])
  }

  lemma SlotDecoded(b: seq<octet>, ptrs: seq<nat>, len: nat, address: nat, n: nat, b1: seq<octet>, b2: seq<octet>)
    requires Slots(ptrs, |b|) && n < |ptrs| && Decoded(b, ptrs, len, address, n, b1)
    requires var p := Pointer(SlotValue(b, ptrs[n]), len, address);
             (b2 == b1 && SlotValue(b, ptrs[n]) == 0) || Written(b1, ptrs[n], Word(p, PTR), b2)
    ensures Decoded(b, ptrs, len, address, n + 1, b2)
  {
    hide Word, Value, SlotValue, Written, Slots;
    SlotsIn(ptrs, |b|);
    var p := Pointer(SlotValue(b, ptrs[n]), len, address);
    if Written(b1, ptrs[n], Word(p, PTR), b2) {
      WordPut(b1, ptrs[n], p, b2);
      forall i | 0 <= i < |ptrs| && i != n
        ensures SlotValue(b2, ptrs[i]) == SlotValue(b1, ptrs[i])
      {
        OtherSlot(b1, ptrs[n], p, b2, ptrs[i]);
      }
      forall i | 0 <= i < |b| && (forall j :: 0 <= j < |ptrs| ==> i < ptrs[j] || ptrs[j] + PTR <= i)
        ensures b2[i] == b[i]
      {
        assert i < ptrs[n] || ptrs[n] + PTR <= i;
        OtherByte(b1, ptrs[n], p, b2, i);
      }
    }
  }

  lemma SlotsIn(ptrs: seq<nat>, size: nat)
    requires Slots(ptrs, size)
    ensures forall i :: 0 <= i < |ptrs| ==> 0 < ptrs[i] && ptrs[i] + PTR <= size
    ensures forall i, j :: 0 <= i < |ptrs| && 0 <= j < |ptrs| && i != j ==> ptrs[i] + PTR <= ptrs[j] || ptrs[j] + PTR <= ptrs[i]
  {
  }

  /** A slot that is written holds what was written, and the others and the rest are as they were. */
  lemma WordPut(b1: seq<octet>, slot: nat, p: nat, b2: seq<octet>)
    requires Written(b1, slot, Word(p, PTR), b2) && p < TWO64
    ensures |b2| == |b1| && slot + PTR <= |b2| && SlotValue(b2, slot) == p
  {
    hide Word, Value;
    Pow8();
    WordRoundTrip(p, PTR);
    Fresh(b1, slot, Word(p, PTR), b2);
  }

  lemma OtherSlot(b1: seq<octet>, slot: nat, p: nat, b2: seq<octet>, other: nat)
    requires Written(b1, slot, Word(p, PTR), b2) && other + PTR <= |b1| && (other + PTR <= slot || slot + PTR <= other)
    ensures other + PTR <= |b2| && SlotValue(b2, other) == SlotValue(b1, other)
  {
    hide Word, Value;
    Kept(b1, slot, Word(p, PTR), b2, other, b1[other..other + PTR]);
  }

  lemma OtherByte(b1: seq<octet>, slot: nat, p: nat, b2: seq<octet>, i: nat)
    requires Written(b1, slot, Word(p, PTR), b2) && i < |b1| && (i < slot || slot + PTR <= i)
    ensures i < |b2| && b2[i] == b1[i]
  {
    hide Word;
    Kept(b1, slot, Word(p, PTR), b2, i, [b1[i]]);
    assert b2[i] == b2[i..i + 1][0];
  }

  /** merlin_decode: None for an empty block, else the numbers of the slots that overshot. */
  method Decode(buf: array<octet>, len: nat, ptrs: seq<nat>, address: nat) returns (r: Option<set<nat>>)
    requires Slots(ptrs, buf.Length)
    modifies buf
    ensures len == 0 ==> r == None && buf[..] == old(buf[..])
    ensures len > 0 ==> Decoded(old(buf[..]), ptrs, len, address, |ptrs|, buf[..])
    ensures len > 0 ==> r == Some(set i | 0 <= i < |ptrs| && Int64(SlotValue(old(buf[..]), ptrs[i])) > len)
  {
    hide Word, Value, Decoded, Written;
    ghost var b := buf[..];
    if len == 0 { return None; }
    var errors: set<nat> := {};
    Untouched(b, ptrs, len, address);
    for i := 0 to |ptrs|
      invariant Decoded(b, ptrs, len, address, i, buf[..])
      invariant errors == set j | 0 <= j < i && Int64(SlotValue(b, ptrs[j])) > len
    {
      ghost var b1 := buf[..];
      NextSlot(b, ptrs, len, address, i, b1);
      assert buf[ptrs[i]..ptrs[i] + PTR] == b1[ptrs[i]..ptrs[i] + PTR];
      var ptr := Value(buf[ptrs[i]..ptrs[i] + PTR]);
      if ptr != 0 {
        if Int64(ptr) > len {
          Put(buf, ptrs[i], Word(0, PTR));
          errors := errors + {i};
        } else {
          Put(buf, ptrs[i], Word((address + ptr) % TWO64, PTR));
        }
      }
      SlotDecoded(b, ptrs, len, address, i, b1, buf[..]);
    }
    return Some(errors);
  }

  lemma NextSlot(b: seq<octet>, ptrs: seq<nat>, len: nat, address: nat, n: nat, b1: seq<octet>)
    requires Slots(ptrs, |b|) && n < |ptrs| && Decoded(b, ptrs, len, address, n, b1)
    ensures |b1| == |b| && SlotValue(b1, ptrs[n]) == SlotValue(b, ptrs[n])
  {
  }

  lemma Untouched(b: seq<octet>, ptrs: seq<nat>, len: nat, address: nat)
    requires Slots(ptrs, |b|)
    ensures Decoded(b, ptrs, len, address, 0, b)
  {
  }

  /** The string that starts at this place, up to the next nul. */
  function CString(b: seq<octet>, at: nat): seq<octet>
    requires at <= |b|
    decreases |b| - at
  {
    if at == |b| || b[at] == 0 then [] else [b[at]] + CString(b, at + 1)
  }

  /** What a decoded slot leads to. */
  function Deref(b: seq<octet>, slot: nat, address: nat): Option<seq<octet>>
    requires slot + PTR <= |b|
  {
    var p := SlotValue(b, slot);
    if p == 0 then None
    else if address <= p <= address + |b| then Some(CString(b, p - address)) else Some([])
  }

  lemma {:induction false} CStringIs(b: seq<octet>, at: nat, text: seq<octet>)
    requires Holds(b, at, text + [0]) && 0 !in text
    ensures CString(b, at) == text
    decreases |text|
  {
    assert b[at] == b[at..at + |text| + 1][0];
    if text != [] {
      assert b[at] == text[0];
      assert Holds(b, at + 1, text[1..] + [0]) by {
        assert b[at + 1..at + 1 + |text|] == b[at..at + |text| + 1][1..] == (text + [0])[1..] == text[1..] + [0];
      }
      CStringIs(b, at + 1, text[1..]);
    }
  }

  ghost predicate NoNuls(strings: Strings) { forall i :: 0 <= i < |strings| && strings[i].Some? ==> 0 !in strings[i].value }

  /** The offset that encoding left in a slot. */
  function StoredAt(p: Option<Place>): nat { if p.None? then 0 else p.value.at }

  lemma SlotHolds(b: seq<octet>, slot: nat, p: Option<Place>)
    requires slot + PTR <= |b| < TWO64 && Stored(b, slot, p)
    ensures SlotValue(b, slot) == StoredAt(p)
  {
    hide Word, Value;
    Pow8();
    WordRoundTrip(StoredAt(p), PTR);
  }

  lemma PlaceInside(strings: Strings, size: nat, buflen: nat, i: nat)
    requires i < |strings| && size <= buflen
    ensures var p := PlaceAt(strings, size, buflen, i);
            StoredAt(p) <= OffsetAt(strings, size, buflen, |strings|) <= buflen && (p.Some? ==> p.value.at >= size)
  {
    OffsetsGrow(strings, size, buflen, i, |strings|);
  }

  lemma TextOf(strings: Strings, size: nat, buflen: nat, i: nat)
    requires i < |strings| && NoNuls(strings)
    ensures var p := PlaceAt(strings, size, buflen, i); p.Some? ==> 0 !in p.value.text
  {
    hide OffsetAt;
    var p := PlaceAt(strings, size, buflen, i);
    if p.Some? {
      forall x | x in p.value.text ensures x in strings[i].value {
        var k :| 0 <= k < |p.value.text| && p.value.text[k] == x;
        assert strings[i].value[k] == x;
      }
    }
  }

  lemma EncodedSlot(b: seq<octet>, base: seq<octet>, ptrs: seq<nat>, strings: Strings, i: nat)
    requires i < |strings| == |ptrs| && Slots(ptrs, |base|) && Encoded(b, base, ptrs, strings, |strings|)
    ensures 0 < ptrs[i] && ptrs[i] + PTR <= |base| && Stored(b, ptrs[i], PlaceAt(strings, |base|, |b|, i))
  {
  }

  lemma DecodedSlot(b: seq<octet>, ptrs: seq<nat>, len: nat, address: nat, b': seq<octet>, i: nat)
    requires Slots(ptrs, |b|) && i < |ptrs| && Decoded(b, ptrs, len, address, |ptrs|, b')
    ensures |b'| == |b| && ptrs[i] + PTR <= |b|
    ensures SlotValue(b', ptrs[i]) == Pointer(SlotValue(b, ptrs[i]), len, address)
  {
  }

  lemma DerefPlace(b': seq<octet>, slot: nat, len: nat, address: nat, p: Option<Place>)
    requires slot + PTR <= |b'| && StoredAt(p) <= len && address + len < TWO64 && len < TWO64 / 2
    requires SlotValue(b', slot) == Pointer(StoredAt(p), len, address)
    requires p.Some? ==> p.value.at > 0 && Holds(b', p.value.at, p.value.text + [0]) && 0 !in p.value.text
    ensures Deref(b', slot, address) == if p.None? then None else Some(p.value.text)
  {
    hide SlotValue, CString;
    if p.Some? {
      CStringIs(b', p.value.at, p.value.text);
    }
  }

  /** After decoding, the slot of an encoded string leads to what was kept of it. */
  lemma StringBack(b: seq<octet>, base: seq<octet>, ptrs: seq<nat>, strings: Strings, len: nat, address: nat, b': seq<octet>, i: nat)
    requires i < |strings| == |ptrs| && Slots(ptrs, |base|) && 0 < |base| <= |b| && NoNuls(strings)
    requires Encoded(b, base, ptrs, strings, |strings|) && Decoded(b, ptrs, len, address, |ptrs|, b')
    requires OffsetAt(strings, |base|, |b|, |strings|) <= len < TWO64 / 2 && address + len < TWO64 && |b| < TWO64
    ensures ptrs[i] + PTR <= |b| == |b'| && Int64(SlotValue(b, ptrs[i])) <= len
    ensures Deref(b', ptrs[i], address) == Expected(strings, |base|, |b|, i)
  {
    hide *;
    var p := PlaceAt(strings, |base|, |b|, i);
    EncodedSlot(b, base, ptrs, strings, i);
    SlotHolds(b, ptrs[i], p);
    PlaceInside(strings, |base|, |b|, i);
    SlotsInside(ptrs, |base|, |b|);
    DecodedSlot(b, ptrs, len, address, b', i);
    SmallOffset(StoredAt(p));
    if p.Some? {
      TextOf(strings, |base|, |b|, i);
      TextStored(b, ptrs[i], p.value);
      TextKept(b, base, ptrs, len, address, b', p.value);
    }
    DerefPlace(b', ptrs[i], len, address, p);
    ExpectedPlace(strings, |base|, |b|, i);
  }

  lemma SlotsInside(ptrs: seq<nat>, size: nat, len: nat)
    requires Slots(ptrs, size) && size <= len
    ensures Slots(ptrs, len)
  {
  }

  lemma SmallOffset(v: nat)
    requires v < TWO64 / 2
    ensures Int64(v) == v
  {
  }

  lemma TextStored(b: seq<octet>, slot: nat, p: Place)
    requires Stored(b, slot, Some(p))
    ensures Holds(b, p.at, p.text + [0])
  {
  }

  lemma ExpectedPlace(strings: Strings, size: nat, buflen: nat, i: nat)
    requires i < |strings|
    ensures var p := PlaceAt(strings, size, buflen, i);
            Expected(strings, size, buflen, i) == if p.None? then None else Some(p.value.text)
  {
  }

  lemma TextKept(b: seq<octet>, base: seq<octet>, ptrs: seq<nat>, len: nat, address: nat, b': seq<octet>, p: Place)
    requires Slots(ptrs, |base|) && Slots(ptrs, |b|) && |base| <= |b| && Decoded(b, ptrs, len, address, |ptrs|, b')
    requires p.at >= |base| && Holds(b, p.at, p.text + [0])
    ensures Holds(b', p.at, p.text + [0])
  {
    hide Value;
    forall k | 0 <= k < |p.text| + 1
      ensures b'[p.at + k] == (p.text + [0])[k]
    {
      assert b[p.at..p.at + |p.text| + 1][k] == b[p.at + k];
    }
  }

  /** The bytes of the struct that are in no slot. */
  ghost predicate SameOutside(base: seq<octet>, ptrs: seq<nat>, block: seq<octet>) {
    forall i :: 0 <= i < |base| && (forall j :: 0 <= j < |ptrs| ==> i < ptrs[j] || ptrs[j] + PTR <= i) ==>
      i < |block| && block[i] == base[i]
  }

  lemma StructBack(b: seq<octet>, base: seq<octet>, ptrs: seq<nat>, strings: Strings, len: nat, address: nat, b': seq<octet>)
    requires |strings| == |ptrs| && Slots(ptrs, |base|) && Slots(ptrs, |b|)
    requires Encoded(b, base, ptrs, strings, |strings|) && Decoded(b, ptrs, len, address, |ptrs|, b')
    ensures SameOutside(base, ptrs, b')
  {
    hide Word, Value, PlaceAt;
  }

  /**
   Decode undoes encode, for any struct, any slots and any strings, and any
   buffer that has room for the struct: no error, missing strings stay missing,
   every other one comes back as far as it was kept, and so does the struct.
   */
  method RoundTrip(base: seq<octet>, ptrs: seq<nat>, strings: Strings, buflen: nat, address: nat)
    returns (block: seq<octet>, out: Strings, result: Option<set<nat>>)
    requires Nulls(base, ptrs, strings) && NoNuls(strings)
    requires 0 < |base| <= buflen && buflen + 8 < TWO64 / 2 && address + buflen + 8 < TWO64
    ensures result == Some({}) && |out| == |strings|
    ensures SameOutside(base, ptrs, block)
    ensures forall i :: 0 <= i < |strings| ==> out[i] == Expected(strings, |base|, buflen, i)
  {
    hide Value, Encoded, Decoded, Deref, Expected, OffsetAt, Int64, SameOutside;
    var buf := new octet[buflen];
    var n := Encode(base, ptrs, strings, buf);
    ghost var b := buf[..];
    result := Decode(buf, n, ptrs, address);
    block := buf[..];
    StructBack(b, base, ptrs, strings, n, address, block);
    forall i | 0 <= i < |strings|
      ensures Int64(SlotValue(b, ptrs[i])) <= n
    {
      StringBack(b, base, ptrs, strings, n, address, block, i);
    }
    assert result.value == {};
    out := [];
    for i := 0 to |strings|
      invariant |out| == i && forall k :: 0 <= k < i ==> out[k] == Expected(strings, |base|, buflen, k)
    {
      StringBack(b, base, ptrs, strings, n, address, block, i);
      out := out + [Deref(block, ptrs[i], address)];
    }
  }
}
