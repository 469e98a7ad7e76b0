/**
 The block-wise line scanners of tools/lparse.c. The file is its contents, the
 lines handed to the callback are collected in order, and the buffer size is a
 parameter. Reads return what a regular file returns.
 */
module LineParse {
  import opened Options
  import opened SeqFacts
  import opened Lines
  import opened Words
  import Memrchr

  // ---- forwards ------------------------------------------------------------

  ghost predicate HasNewline(s: seq<byte>, lo: nat, hi: nat)
    requires hi <= |s|
  {
    exists j :: lo <= j < hi && s[j] == NL
  }

  /** Any maxBuf bytes before the end of the file contain a newline to rewind to. */
  ghost predicate Fits(file: seq<byte>, maxBuf: nat) {
    forall i: nat, k: nat :: k == i + maxBuf < |file| ==> HasNewline(file, i, k)
  }

  /** memchr for a newline in buf[lo..hi). */
  method Memchr(buf: array<byte>, lo: nat, hi: nat) returns (k: nat)
    requires lo <= hi <= buf.Length
    ensures lo <= k <= hi && (k < hi ==> buf[k] == NL)
    ensures forall j :: lo <= j < k ==> buf[j] != NL
  {
    k := lo;
    while k < hi && buf[k] != NL
      invariant lo <= k <= hi
      invariant forall j :: lo <= j < k ==> buf[j] != NL
    {
      k := k + 1;
    }
  }

  lemma SplitLine(b: seq<byte>, cur: nat, k: nat)
    requires cur <= k <= |b| && cur < |b| && (k < |b| ==> b[k] == NL)
    requires forall j :: cur <= j < k ==> b[j] != NL
    ensures Split(b[cur..]) == [b[cur..k]] + if k < |b| then Split(b[k + 1..]) else []
  {
    hide Split, FirstNewline;
    var s := b[cur..];
    if k < |b| {
      SplitStep(s, k - cur);
      assert s[..k - cur] == b[cur..k] && s[k - cur + 1..] == b[k + 1..];
    } else {
      LastLine(s);
      assert s == b[cur..k];
    }
  }

  lemma LastLine(s: seq<byte>)
    requires s != [] && forall j :: 0 <= j < |s| ==> s[j] != NL
    ensures Split(s) == [s]
  {
    NoNewline(s);
  }

  /** The lines of the n bytes in the buffer, the sentinel behind them ending the last. */
  method ParseBlock(buf: array<byte>, n: nat) returns (out: seq<seq<byte>>)
    requires n < buf.Length && buf[n] == NL
    modifies buf
    ensures out == Split(old(buf[..n]))
  {
    hide Split, FirstNewline;
    ghost var b := buf[..n];
    var cur := 0;
    out := [];
    assert b[0..] == b;
    while cur < n
      invariant cur <= n + 1
      invariant forall j :: cur <= j <= n ==> buf[j] == old(buf[j])
      invariant out + (if cur <= n then Split(b[cur..]) else []) == Split(b)
    {
      var next := Memchr(buf, cur, n + 1);
      SplitLine(b, cur, next);
      var line := buf[cur..next];
      assert line == b[cur..next];
      buf[next] := 0;
      Associate(out, [line], if next < n then Split(b[next + 1..]) else []);
      out, cur := out + [line], next + 1;
    }
    assert cur == n ==> b[cur..] == [];
    SplitNothing();
  }

  /** Back to just after the last newline in buf[..n), or to 0 if there is none: the source does not stop there. */
  method Rewind(buf: array<byte>, n: nat) returns (m: nat)
    requires n <= buf.Length
    ensures m <= n && (m > 0 ==> buf[m - 1] == NL) && forall j :: m <= j < n ==> buf[j] != NL
  {
    m := n;
    while m > 0 && buf[m - 1] != NL
      invariant m <= n && forall j :: m <= j < n ==> buf[j] != NL
    {
      m := m - 1;
    }
  }

  /** read: up to n bytes from offset on. */
  method Read(file: seq<byte>, offset: nat, buf: array<byte>, n: nat) returns (bytesRd: nat)
    requires offset <= |file| && n <= buf.Length
    modifies buf
    ensures bytesRd == if |file| - offset < n then |file| - offset else n
    ensures buf[..bytesRd] == file[offset..offset + bytesRd]
  {
    bytesRd := if |file| - offset < n then |file| - offset else n;
    forall i | 0 <= i < bytesRd { buf[i] := file[offset + i]; }
  }

  /** Windows of the buffer's size that start before k have a newline in them. */
  ghost predicate FitsUpTo(file: seq<byte>, maxBuf: nat, k: nat) {
    forall i: nat, e: nat :: i < k && e == i + maxBuf < |file| ==> HasNewline(file, i, e)
  }

  /** A block from t on that was cut behind a newline has shown that for the windows that start in it. */
  lemma FitsFurther(file: seq<byte>, maxBuf: nat, t: nat, m: nat)
    requires FitsUpTo(file, maxBuf, t) && 0 < m <= maxBuf && t + m <= |file| && file[t + m - 1] == NL
    ensures FitsUpTo(file, maxBuf, t + m)
  {
    forall i: nat, e: nat | i < t + m && e == i + maxBuf < |file| ensures HasNewline(file, i, e) {
      if i >= t { assert i <= t + m - 1 < e; }
    }
  }

  /**
   lparse_fd: the lines of the file, unless a block that is not the last has no
   newline to rewind to. The scan gets to such a block, and so runs out of its
   buffer, if and only if the lines do not fit.
   */
  method LparseFd(file: seq<byte>, maxBuf: nat) returns (lines: seq<seq<byte>>, overrun: bool)
    requires maxBuf > 0
    ensures overrun <==> !Fits(file, maxBuf)
    ensures !overrun ==> lines == Split(file)
  {
    hide Split, FirstNewline, FitsUpTo, Fits;
    var size, offset, totRd := |file|, 0, 0;
    var buf := new byte[maxBuf + 1];
    lines := [];
    SplitNothing();
    FitsStart(file, maxBuf);
    while totRd < size
      invariant totRd <= size && lines == Split(file[..totRd])
      invariant totRd < size ==> offset == totRd && Closed(file[..totRd]) && FitsUpTo(file, maxBuf, totRd)
      invariant totRd == size ==> Fits(file, maxBuf)
    {
      var bytesRd := Read(file, offset, buf, if maxBuf < size then maxBuf else size);
      offset := offset + bytesRd;
      ghost var read := buf[..bytesRd];
      if totRd + bytesRd < size {
        bytesRd := Rewind(buf, bytesRd);
        if bytesRd == 0 {
          assert forall j :: 0 <= j < |read| ==> read[j] == buf[j];
          NoNewlineIn(file, maxBuf, totRd, read);
          return [], true;
        }
        offset := totRd + bytesRd;
        assert read[bytesRd - 1] == file[totRd + bytesRd - 1];
        FitsFurther(file, maxBuf, totRd, bytesRd);
      } else {
        FitsAll(file, maxBuf, totRd);
      }
      ghost var block := buf[..bytesRd];
      assert block == read[..bytesRd] == file[totRd..totRd + bytesRd];
      buf[bytesRd] := NL;
      var more := ParseBlock(buf, bytesRd);
      ExtendSplit(file, totRd, block);
      assert totRd + bytesRd < size ==> file[totRd + bytesRd - 1] == block[bytesRd - 1] == NL;
      lines, totRd := lines + more, totRd + bytesRd;
    }
    assert file[..size] == file;
    return lines, false;
  }

  lemma FitsStart(file: seq<byte>, maxBuf: nat)
    ensures FitsUpTo(file, maxBuf, 0) && (file == [] ==> Fits(file, maxBuf))
  {
  }

  lemma FitsAll(file: seq<byte>, maxBuf: nat, t: nat)
    requires FitsUpTo(file, maxBuf, t) && |file| <= t + maxBuf
    ensures Fits(file, maxBuf)
  {
  }

  lemma NoNewlineIn(file: seq<byte>, maxBuf: nat, t: nat, block: seq<byte>)
    requires t + maxBuf < |file| && block == file[t..t + maxBuf] && forall j :: 0 <= j < |block| ==> block[j] != NL
    ensures !Fits(file, maxBuf)
  {
    assert forall j :: t <= j < t + maxBuf ==> file[j] == block[j - t];
    assert !HasNewline(file, t, t + maxBuf);
  }

  /** A line of three bytes with a buffer of two. */
  lemma LongLine()
    ensures !Fits([97, 97, 97, NL], 2)
  {
    var file := [97, 97, 97, NL];
    assert !HasNewline(file, 0, 0 + 2);
  }

  lemma ExtendSplit(file: seq<byte>, k: nat, block: seq<byte>)
    requires k + |block| <= |file| && block == file[k..k + |block|] && Closed(file[..k])
    ensures Split(file[..k + |block|]) == Split(file[..k]) + Split(block)
  {
    hide Split, FirstNewline;
    SplitClosed(file[..k], block);
    assert file[..k] + block == file[..k + |block|];
  }

  /** It is enough, and needed, that the lines fit: only line starts matter. */
  lemma FitsIsAboutLines(file: seq<byte>, maxBuf: nat)
    ensures Fits(file, maxBuf) <==>
            forall i: nat, k: nat :: k == i + maxBuf < |file| && Closed(file[..i]) ==> HasNewline(file, i, k)
  {
    if forall i: nat, k: nat :: k == i + maxBuf < |file| && Closed(file[..i]) ==> HasNewline(file, i, k) {
      forall i: nat, k: nat | k == i + maxBuf < |file|
        ensures HasNewline(file, i, k)
      {
        var s := LastStart(file[..i]);
        assert file[..i][..s] == file[..s] && file[..i][s..] == file[s..i];
        assert forall j :: s <= j < i ==> file[j] in file[s..i];
        assert HasNewline(file, s, s + maxBuf);
      }
    }
  }

  // ---- backwards -----------------------------------------------------------

  /** Below the end of any full line lies, within the buffer, the end of the line before it. */
  ghost predicate LinesFitBackwards(file: seq<byte>, maxBuf: nat) {
    forall nl: nat :: maxBuf <= nl < |file| && file[nl] == NL ==> HasNewline(file, nl + 1 - maxBuf, nl)
  }

  /** A last line without a newline is no longer than the buffer. */
  ghost predicate TailFits(file: seq<byte>, maxBuf: nat) {
    |file| > maxBuf ==> HasNewline(file, |file| - maxBuf - 1, |file|)
  }

  lemma BackwardsStep(x: seq<byte>, q: nat, p: nat)
    requires p < q <= |x| && x[p] == NL && forall j :: p < j < q ==> x[j] != NL
    ensures Backwards(x[..q]) == NonEmpty([x[p + 1..q]]) + Backwards(x[..p])
  {
    hide Backwards, NonEmpty;
    var a, b := x[..p + 1], x[p + 1..q];
    assert x[..q] == a + b && a == x[..p] + [NL];
    BackwardsClosed(a, b);
    BackwardsLine(b);
    BackwardsNewline(x[..p]);
  }

  /** One more line delivered: what is out and what is left still make up x. */
  lemma Deliver(out: seq<seq<byte>>, text: seq<byte>, x: seq<byte>, q: nat, q': nat)
    requires q' <= q <= |x| && NonEmpty(out) + Backwards(x[..q]) == Backwards(x)
    requires Backwards(x[..q]) == NonEmpty([text]) + Backwards(x[..q'])
    ensures NonEmpty(out + [text]) + Backwards(x[..q']) == Backwards(x)
  {
    hide Backwards, NonEmpty;
    NonEmptyAppend(out, [text]);
    Associate(NonEmpty(out), NonEmpty([text]), Backwards(x[..q']));
  }

  lemma FirstOfBlock(x: seq<byte>, q: nat)
    requires q <= |x| && forall j :: 0 <= j < q ==> x[j] != NL
    ensures Backwards(x[..q]) == NonEmpty([x[..q]]) + Backwards(x[..0])
  {
    hide Backwards, NonEmpty;
    BackwardsLine(x[..q]);
    Nothing();
    assert x[..0] == [];
  }

  /** The lines of n bytes from first on, last line first; an empty line at the front is not delivered. */
  method ParseBlockBackwards(buf: array<byte>, first: nat, n: nat) returns (out: seq<seq<byte>>)
    requires first + n < buf.Length
    modifies buf
    ensures NonEmpty(out) == Backwards(old(buf[first..first + n]))
  {
    hide Backwards, NonEmpty, Memrchr.AsByte, Memrchr.LastOccurrence;
    ghost var x := buf[first..first + n];
    var eol, blkparsed := first + n, 0;
    ghost var q := n;
    out := [];
    Nothing();
    assert x[..n] == x;
    while blkparsed < n
      invariant 0 <= q <= n && (blkparsed < n ==> q == n - blkparsed && eol == first + q) && (blkparsed >= n ==> q == 0)
      invariant forall j :: 0 <= j < q ==> buf[first + j] == x[j]
      invariant NonEmpty(out) + Backwards(x[..q]) == Backwards(x)
      decreases n - blkparsed
    {
      assert buf[first..eol] == x[..q];
      var r := Memrchr.Memrchr64(buf[first..eol], first, 10);
      InBlock(x, q, r);
      var cur := if r.Some? then first + r.value else first;
      var line := if r.Some? then cur + 1 else cur;
      ghost var q' := cur - first;
      ghost var text := x[line - first..q];
      assert buf[line..eol] == text;
      if r.Some? {
        LastNewline(x, q, r.value);
        BackwardsStep(x, q, r.value);
      } else {
        NoneLeft(x, q);
        FirstOfBlock(x, q);
      }
      Deliver(out, text, x, q, q');
      blkparsed := blkparsed + (eol - line) + 1;
      out := out + [buf[line..eol]];
      buf[eol] := 0;
      eol, q := cur, q';
    }
    Nothing();
    assert x[..0] == [];
  }

  lemma NoneLeft(x: seq<byte>, q: nat)
    requires q <= |x| && Memrchr.LastOccurrence(x[..q], Memrchr.AsByte(10), None)
    ensures forall j :: 0 <= j < q ==> x[j] != NL
  {
    hide Memrchr.AsByte;
    NewlineByte();
    assert forall j :: 0 <= j < q ==> x[j] in x[..q];
  }

  lemma InBlock(x: seq<byte>, q: nat, r: Option<nat>)
    requires q <= |x| && Memrchr.LastOccurrence(x[..q], Memrchr.AsByte(10), r)
    ensures r.Some? ==> r.value < q
  {
    hide Memrchr.AsByte;
  }

  lemma NewlineByte()
    ensures Memrchr.AsByte(10) == NL
  {
    assert 10 % 256 == 10;
  }

  lemma Nothing()
    ensures NonEmpty([]) == [] && Backwards([]) == []
  {
  }

  lemma LastNewline(x: seq<byte>, q: nat, p: nat)
    requires q <= |x| && Memrchr.LastOccurrence(x[..q], Memrchr.AsByte(10), Some(p))
    ensures p < q && x[p] == NL && forall j :: p < j < q ==> x[j] != NL
  {
    hide Memrchr.AsByte;
    NewlineByte();
    var s := x[..q];
    var rest := s[p + 1..];
    assert NL !in rest;
    forall j | p < j < q ensures x[j] != NL {
      assert rest[j - p - 1] == s[j] == x[j];
    }
  }

  /** Where the part still to be read ends after a round that read up to end. */
  function NextEnd(file: seq<byte>, maxBuf: nat, end: nat): (next: nat)
    requires end <= |file|
    ensures next <= end
  {
    if end <= maxBuf then 0
    else
      var lo := end - maxBuf;
      var k := FirstNewline(file[lo..end]);
      if k == maxBuf then lo else lo + k + 1
  }

  /** A round leaves less to read exactly when the window has a newline besides the one that ends it. */
  lemma Progress(file: seq<byte>, maxBuf: nat, end: nat)
    requires 0 < end <= |file| && maxBuf > 0
    ensures NextEnd(file, maxBuf, end) < end <==>
            (end > maxBuf && file[end - 1] == NL ==> HasNewline(file, end - maxBuf, end - 1))
  {
    if end > maxBuf {
      var lo := end - maxBuf;
      var w := file[lo..end];
      var k := FirstNewline(w);
      assert forall j :: lo <= j < end ==> file[j] == w[j - lo];
      if k < maxBuf - 1 {
        assert file[lo + k] == NL;
      }
    }
  }

  /** A round cuts the file where a line starts, given that the last line fits. */
  lemma CutsAtLine(file: seq<byte>, maxBuf: nat)
    requires file != [] && maxBuf > 0 && TailFits(file, maxBuf)
    ensures Closed(file[..NextEnd(file, maxBuf, |file|)])
  {
    hide FirstNewline;
    if |file| > maxBuf {
      var lo := |file| - maxBuf;
      var w := file[lo..];
      var k := FirstNewline(w);
      assert forall j :: lo <= j < |file| ==> file[j] == w[j - lo];
      if k == maxBuf {
        var j :| lo - 1 <= j < |file| && file[j] == NL;
        assert j == lo - 1;
      }
    }
  }

  /**
   What the backward scan delivers, apart from empty lines: the lines of the file,
   last first, but a last line without a newline that does not fit the buffer in
   pieces of the buffer's size.
   */
  ghost function Delivered(file: seq<byte>, maxBuf: nat): seq<seq<byte>>
    requires maxBuf > 0
    decreases |file|
  {
    if TailFits(file, maxBuf) then Backwards(file)
    else [file[|file| - maxBuf..]] + Delivered(file[..|file| - maxBuf], maxBuf)
  }

  lemma DeliveredFits(file: seq<byte>, maxBuf: nat)
    requires maxBuf > 0
    ensures TailFits(file, maxBuf) ==> Delivered(file, maxBuf) == Backwards(file)
    ensures !TailFits(file, maxBuf) ==>
              |file| > maxBuf && Delivered(file, maxBuf) == [file[|file| - maxBuf..]] + Delivered(file[..|file| - maxBuf], maxBuf)
  {
    hide Backwards, HasNewline;
  }

  /** One round delivers the lines of its block. */
  lemma RoundDone(file: seq<byte>, maxBuf: nat, x: seq<byte>)
    requires file != [] && maxBuf > 0
    requires var block := file[NextEnd(file, maxBuf, |file|)..]; block == x || block == x + [NL]
    ensures Delivered(file, maxBuf) == Backwards(x) + Delivered(file[..NextEnd(file, maxBuf, |file|)], maxBuf)
  {
    hide Backwards, Delivered, NextEnd, TailFits;
    var next := NextEnd(file, maxBuf, |file|);
    var front, block := file[..next], file[next..];
    assert file == front + block;
    BackwardsNewline(x);
    DeliveredFits(file, maxBuf);
    if TailFits(file, maxBuf) {
      CutsAtLine(file, maxBuf);
      BackwardsClosed(front, block);
      ClosedFits(front, maxBuf);
      DeliveredFits(front, maxBuf);
    } else {
      TailCut(file, maxBuf);
      BackwardsLine(block);
      OneNonEmpty(block);
    }
  }

  lemma ClosedFits(file: seq<byte>, maxBuf: nat)
    requires Closed(file)
    ensures TailFits(file, maxBuf)
  {
    if |file| > maxBuf { assert file[|file| - 1] == NL; }
  }

  lemma OneNonEmpty(line: seq<byte>)
    requires line != []
    ensures NonEmpty([line]) == [line]
  {
    assert NonEmpty([line][1..]) == [];
  }

  /** A tail that does not fit is cut where the buffer starts. */
  lemma TailCut(file: seq<byte>, maxBuf: nat)
    requires maxBuf > 0 && !TailFits(file, maxBuf)
    ensures NextEnd(file, maxBuf, |file|) == |file| - maxBuf && NL !in file[|file| - maxBuf..] && !Closed(file[..|file| - maxBuf])
  {
    var lo := |file| - maxBuf;
    assert forall j :: lo - 1 <= j < |file| ==> file[j] != NL;
    NoNewline(file[lo..]);
    assert file[lo..|file|] == file[lo..];
  }

  /** The lines come out whole if and only if what follows the last newline fits. */
  lemma WholeIff(file: seq<byte>, maxBuf: nat)
    requires maxBuf > 0
    ensures Delivered(file, maxBuf) == Backwards(file) <==> TailFits(file, maxBuf)
  {
    hide Backwards, Delivered, TailFits;
    DeliveredFits(file, maxBuf);
    if !TailFits(file, maxBuf) {
      var k := LastStart(file);
      TailCut(file, maxBuf);
      TailLonger(file, maxBuf, k);
      assert file == file[..k] + file[k..];
      BackwardsClosed(file[..k], file[k..]);
      BackwardsLine(file[k..]);
      OneNonEmpty(file[k..]);
      assert Backwards(file)[0] == file[k..];
      assert Delivered(file, maxBuf)[0] == file[|file| - maxBuf..];
    }
  }

  lemma TailLonger(file: seq<byte>, maxBuf: nat, k: nat)
    requires !TailFits(file, maxBuf) && k <= |file| && Closed(file[..k])
    ensures |file[k..]| > maxBuf
  {
    assert k > 0 ==> file[k - 1] == NL;
  }

  /** A tail of three bytes with a buffer of two. */
  lemma LongTail()
    ensures Delivered([97, 97, 97], 2) == [[97, 97], [97]] && Backwards([97, 97, 97]) == [[97, 97, 97]]
  {
    hide Delivered, Backwards;
    var file: seq<byte> := [97, 97, 97];
    assert !HasNewline(file, 0, 3);
    DeliveredFits(file, 2);
    DeliveredFits([97], 2);
    BackwardsLine(file);
    BackwardsLine([97]);
    OneNonEmpty(file);
    OneNonEmpty([97]);
    assert file[1..] == [97, 97] && file[..1] == [97];
  }

  lemma SameRound(file: seq<byte>, maxBuf: nat, end: nat)
    requires end <= |file|
    ensures NextEnd(file[..end], maxBuf, end) == NextEnd(file, maxBuf, end)
  {
    if end > maxBuf { assert file[..end][end - maxBuf..end] == file[end - maxBuf..end]; }
  }

  /** Seek to the block that ends totRd bytes before the end, read it, and skip to its first line start. */
  method ReadBlock(file: seq<byte>, maxBuf: nat, totRd: nat, buf: array<byte>) returns (first: nat, bytesRd: nat)
    requires totRd < |file| && maxBuf > 0 && buf.Length == maxBuf + 1
    modifies buf
    ensures first + bytesRd <= maxBuf && bytesRd == |file| - totRd - NextEnd(file, maxBuf, |file| - totRd)
    ensures buf[first..first + bytesRd] == file[NextEnd(file, maxBuf, |file| - totRd)..|file| - totRd]
  {
    hide NextEnd, FirstNewline;
    var size := |file|;
    var toRead := if totRd + maxBuf < size then maxBuf else size - totRd;
    bytesRd := Read(file, size - totRd - toRead, buf, toRead);
    first := 0;
    if totRd + bytesRd < size {
      first := Memchr(buf, 0, bytesRd);
      first := if first == bytesRd then 0 else first + 1;
      bytesRd := bytesRd - first;
    }
    ghost var w := buf[..toRead];
    NextEndIs(file, maxBuf, size - totRd, w, first);
    assert buf[first..first + bytesRd] == w[first..];
  }

  /** For every file that it finishes on. */
  method LparseRevFd(file: seq<byte>, maxBuf: nat) returns (lines: seq<seq<byte>>)
    requires maxBuf > 0 && LinesFitBackwards(file, maxBuf)
    ensures NonEmpty(lines) == Delivered(file, maxBuf)
    ensures NonEmpty(lines) == Backwards(file) <==> TailFits(file, maxBuf)
  {
    hide Backwards, NonEmpty, LinesFitBackwards, TailFits, NextEnd, Delivered;
    WholeIff(file, maxBuf);
    var size, totRd := |file|, 0;
    var buf := new byte[maxBuf + 1];
    lines := [];
    Nothing();
    assert file[..size] == file;
    while totRd < size
      invariant 0 <= totRd <= size
      invariant NonEmpty(lines) + Delivered(file[..size - totRd], maxBuf) == Delivered(file, maxBuf)
    {
      ghost var end := size - totRd;
      var first, bytesRd := ReadBlock(file, maxBuf, totRd, buf);
      ghost var next := end - bytesRd;
      RoundProgress(file, maxBuf, end);
      SameRound(file, maxBuf, end);
      totRd := totRd + bytesRd;
      ghost var block := buf[first..first + bytesRd];
      if buf[first + bytesRd - 1] == NL { bytesRd := bytesRd - 1; }
      ghost var x := buf[first..first + bytesRd];
      assert block == x || block == x + [NL];
      assert file[..end][next..] == file[next..end] && file[..end][..next] == file[..next];
      RoundDone(file[..end], maxBuf, x);
      var more := ParseBlockBackwards(buf, first, bytesRd);
      NonEmptyAppend(lines, more);
      Associate(NonEmpty(lines), NonEmpty(more), Delivered(file[..next], maxBuf));
      lines := lines + more;
    }
    NothingDelivered(maxBuf);
    assert file[..0] == [];
  }

  lemma NothingDelivered(maxBuf: nat)
    requires maxBuf > 0
    ensures Delivered([], maxBuf) == []
  {
    Nothing();
  }

  lemma NextEndIs(file: seq<byte>, maxBuf: nat, end: nat, w: seq<byte>, first: nat)
    requires 0 < end <= |file| && maxBuf > 0 && w == file[if maxBuf < end then end - maxBuf else 0..end]
    requires first <= |w| && forall j :: 0 <= j < first - 1 ==> w[j] != NL
    requires if end <= maxBuf then first == 0
             else if first == 0 then forall j :: 0 <= j < |w| ==> w[j] != NL else w[first - 1] == NL
    ensures end - (|w| - first) == NextEnd(file, maxBuf, end)
  {
    if end > maxBuf {
      if first == 0 { NoNewline(w); } else { FirstNewlineIs(w, first - 1); }
    }
  }

  lemma RoundProgress(file: seq<byte>, maxBuf: nat, end: nat)
    requires 0 < end <= |file| && maxBuf > 0 && LinesFitBackwards(file, maxBuf)
    ensures NextEnd(file, maxBuf, end) < end
  {
    Progress(file, maxBuf, end);
    if end > maxBuf && file[end - 1] == NL {
      assert HasNewline(file, end - 1 + 1 - maxBuf, end - 1);
    }
  }

  // ---- when the backward scan works ----------------------------------------

  /** What is left to read after n rounds. */
  function Remaining(file: seq<byte>, maxBuf: nat, n: nat): (end: nat)
    ensures end <= |file|
  {
    if n == 0 then |file| else NextEnd(file, maxBuf, Remaining(file, maxBuf, n - 1))
  }

  lemma {:induction false} Stuck(file: seq<byte>, maxBuf: nat, nl: nat, n: nat)
    requires 0 < maxBuf <= nl < |file| && file[nl] == NL && !HasNewline(file, nl + 1 - maxBuf, nl)
    ensures Remaining(file, maxBuf, n) > nl
  {
    if n > 0 {
      Stuck(file, maxBuf, nl, n - 1);
      var end := Remaining(file, maxBuf, n - 1);
      var lo := end - maxBuf;
      var w := file[lo..end];
      var k := FirstNewline(w);
      assert forall j :: lo <= j < end ==> file[j] == w[j - lo];
      if lo <= nl {
        assert w[nl - lo] == NL;
      }
    }
  }

  lemma {:induction false} Finishes(file: seq<byte>, maxBuf: nat, n: nat)
    requires maxBuf > 0 && LinesFitBackwards(file, maxBuf)
    ensures Remaining(file, maxBuf, n) + n <= |file| || Remaining(file, maxBuf, n) == 0
  {
    if n > 0 {
      Finishes(file, maxBuf, n - 1);
      var end := Remaining(file, maxBuf, n - 1);
      if end > 0 { RoundProgress(file, maxBuf, end); }
    }
  }

  /** The backward scan comes to an end if and only if every full line but the first fits with room for one more byte. */
  lemma FinishesIff(file: seq<byte>, maxBuf: nat)
    requires maxBuf > 0
    ensures (exists n :: Remaining(file, maxBuf, n) == 0) <==> LinesFitBackwards(file, maxBuf)
  {
    if LinesFitBackwards(file, maxBuf) {
      Finishes(file, maxBuf, |file|);
    } else {
      var nl: nat :| maxBuf <= nl < |file| && file[nl] == NL && !HasNewline(file, nl + 1 - maxBuf, nl);
      forall n: nat ensures Remaining(file, maxBuf, n) != 0 { Stuck(file, maxBuf, nl, n); }
    }
  }

  /** The first round delivers a last line without a newline whole if and only if it fits the buffer. */
  lemma TailWholeIff(file: seq<byte>, maxBuf: nat)
    requires maxBuf > 0 && file != []
    ensures TailFits(file, maxBuf) <==> Closed(file[..NextEnd(file, maxBuf, |file|)])
  {
    hide TailFits, NextEnd;
    if TailFits(file, maxBuf) {
      CutsAtLine(file, maxBuf);
    } else {
      TailCut(file, maxBuf);
    }
  }

  /** A line that fills the buffer to the last byte is read forwards but holds up the backward scan. */
  lemma FullLine()
    ensures var file := [97, NL, 97, 97, NL]; Fits(file, 3) && !LinesFitBackwards(file, 3)
  {
    var file: seq<byte> := [97, NL, 97, 97, NL];
    assert file[4] == NL && !HasNewline(file, 2, 4);
    assert HasNewline(file, 0, 3) by { assert file[1] == NL; }
    assert HasNewline(file, 1, 4) by { assert file[1] == NL; }
  }
}
