/**
 The two-tier backlog of shared/binlog.c: entries go to a memory array until it
 has taken its share, then to a file, and come back oldest first. The file is
 its bytes; system calls and allocations succeed.
 */
module Binlog {
  import opened Options
  import opened SeqFacts
  import opened Records
  import opened Words

  const OK := 0
  const ENOPATH := -3
  const EMPTY := -5
  const ENOSPC := -7
  const EDROPPED := -8
  const EADDRESS := -9

  /** sizeof(struct binlog_entry): an unsigned int and a pointer. */
  const ENTRY_HEADER: nat := 16

  function Total(q: seq<seq<octet>>): nat {
    if q == [] then 0 else |q[0]| + Total(q[1..])
  }

  lemma {:induction false} TotalAppend(p: seq<seq<octet>>, e: seq<octet>)
    ensures Total(p + [e]) == Total(p) + |e|
  {
    if p == [] {
      assert p + [e] == [e] && Total([e][1..]) == 0;
    } else {
      assert (p + [e])[1..] == p[1..] + [e];
      TotalAppend(p[1..], e);
    }
  }

  lemma AddWraps(t: nat, n: nat)
    ensures (t % TWO32 + n) % TWO32 == (t + n) % TWO32
  {
  }

  lemma SubWraps(t: nat, n: nat)
    requires n <= t
    ensures (t % TWO32 - n) % TWO32 == (t - n) % TWO32
  {
  }

  lemma HeaderWraps(t: nat, max: nat)
    requires t % TWO32 < max
    ensures (t + ENTRY_HEADER) % TWO32 < max + ENTRY_HEADER
  {
    AddWraps(t, ENTRY_HEADER);
  }

  /** The memory tier holds the entries q between the two indices. */
  ghost predicate MemHolds(cache: seq<Option<seq<octet>>>, r: nat, w: nat, q: seq<seq<octet>>) {
    && r <= w <= |cache| && |q| == w - r && (r == w ==> r == 0)
    && forall i :: r <= i < w ==> cache[i] == Some(q[i - r])
  }

  lemma MemAppends(c: seq<Option<seq<octet>>>, r: nat, w: nat, q: seq<seq<octet>>, c': seq<Option<seq<octet>>>, e: seq<octet>)
    requires MemHolds(c, r, w, q) && w < |c'| && c[..w] <= c' && c'[w] == Some(e)
    ensures MemHolds(c', r, w + 1, q + [e])
  {
    assert forall i :: 0 <= i < w ==> c'[i] == c[..w][i];
  }

  lemma MemTakes(c: seq<Option<seq<octet>>>, r: nat, w: nat, q: seq<seq<octet>>)
    requires MemHolds(c, r, w, q) && q != []
    ensures c[r] == Some(q[0])
    ensures if r + 1 < w then MemHolds(c[r := None], r + 1, w, q[1..]) else q[1..] == []
  {
  }

  lemma MemPuts(c: seq<Option<seq<octet>>>, r: nat, w: nat, q: seq<seq<octet>>, e: seq<octet>)
    requires MemHolds(c, r, w, q) && r > 0
    ensures MemHolds(c[r - 1 := Some(e)], r - 1, w, [e] + q)
  {
  }

  /** The unread part of the file holds the entries q. */
  ghost predicate FileHolds(file: seq<octet>, size: nat, pos: nat, entries: nat, q: seq<seq<octet>>) {
    pos <= size == |file| && entries == |q| && file[pos..] == Encode(q)
  }

  lemma FileAppends(f: seq<octet>, size: nat, pos: nat, n: nat, q: seq<seq<octet>>, e: seq<octet>)
    requires FileHolds(f, size, pos, n, q)
    ensures FileHolds(f + Record(e), size + |e| + LEN_SIZE, pos, n + 1, q + [e])
  {
    hide Encode;
    EncodeAppend(q, e);
    assert (f + Record(e))[pos..] == f[pos..] + Record(e);
  }

  lemma FileTakes(f: seq<octet>, size: nat, pos: nat, n: nat, q: seq<seq<octet>>)
    requires FileHolds(f, size, pos, n, q) && q != [] && |q[0]| < TWO32
    ensures pos + LEN_SIZE + |q[0]| <= size
    ensures LenOf(f[pos..pos + LEN_SIZE]) == |q[0]|
    ensures f[pos + LEN_SIZE..pos + LEN_SIZE + |q[0]|] == q[0]
    ensures FileHolds(f, size, pos + LEN_SIZE + |q[0]|, n - 1, q[1..])
  {
    hide Encode;
    var s := f[pos..];
    FirstRecord(s, q);
    assert f[pos..pos + LEN_SIZE] == s[..LEN_SIZE];
    assert f[pos + LEN_SIZE..pos + LEN_SIZE + |q[0]|] == s[LEN_SIZE..LEN_SIZE + |q[0]|];
    assert f[pos + LEN_SIZE + |q[0]|..] == s[LEN_SIZE + |q[0]|..];
  }

  lemma FileEmptyIff(f: seq<octet>, size: nat, pos: nat, n: nat, q: seq<seq<octet>>)
    requires FileHolds(f, size, pos, n, q)
    ensures q == [] <==> pos >= size
  {
    if q != [] { assert |Record(q[0])| > 0; }
  }

  /** With the position four bytes into the first record, and the entry in memory or nowhere, the queue is not what it was. */
  lemma NotRestored(f: seq<octet>, size: nat, pos: nat, n: nat, q: seq<seq<octet>>, g: seq<octet>, mem: seq<seq<octet>>)
    requires FileHolds(f, size, pos, n, q) && |q| > 1 && (mem == [] || mem == [q[0]])
    ensures forall p :: FileHolds(g, size, pos + LEN_SIZE, n, p) ==> mem + p != q
  {
    hide Encode;
    forall p | FileHolds(g, size, pos + LEN_SIZE, n, p) ensures mem + p != q {
      if mem == [] { assert mem + p == p; }
    }
  }

  /** Nor is the count of entries that of the rest of the file. */
  lemma Miscounted(f: seq<octet>, size: nat, pos: nat, n: nat, q: seq<seq<octet>>, g: seq<octet>, rest: seq<seq<octet>>)
    requires FileHolds(f, size, pos, n, q) && |q| > 0 && rest == q[1..]
    ensures !FileHolds(g, size, pos + LEN_SIZE, n, rest)
  {
    hide Encode;
  }

  ghost predicate Sized(q: seq<seq<octet>>) { forall i :: 0 <= i < |q| ==> |q[i]| < TWO32 }

  class Log {
    var cache: seq<Option<seq<octet>>>
    var writeIndex: nat
    var readIndex: nat
    var fileEntries: nat
    var memSize: nat
    var memAvail: nat
    const maxMemSize: nat
    const maxFileSize: nat
    const hasPath: bool
    var fileSize: nat
    var fileReadPos: nat
    var fileWritePos: nat
    var isValid: bool
    var fdOpen: bool
    /** What is at the path on disk. */
    var file: seq<octet>

    ghost var memQ: seq<seq<octet>>
    ghost var fileQ: seq<seq<octet>>
    /** How many adds were refused, and how often the file position was moved back. */
    ghost var refusals: nat
    ghost var slips: nat

    ghost function Contents(): seq<seq<octet>>
      reads this
    {
      memQ + fileQ
    }

    ghost predicate Bounded()
      reads this
    {
      && (maxMemSize > 0 ==> memSize < maxMemSize + ENTRY_HEADER)
      && (maxMemSize == 0 ==> memSize == 0)
      && fileSize <= maxFileSize + LEN_SIZE
    }

    ghost predicate Valid()
      reads this
    {
      && isValid && Bounded() && Sized(memQ) && Sized(fileQ)
      && MemHolds(cache, readIndex, writeIndex, memQ)
      && memAvail == Total(memQ) % TWO32
      && FileHolds(file, fileSize, fileReadPos, fileEntries, fileQ) && fileWritePos == fileSize
      && (!fdOpen ==> fileSize == 0)
      // memory is read first, and written only while no file is open
      && (memQ != [] ==> fileReadPos == 0)
    }

    constructor (hasPath: bool, msize: nat, fsize: nat)
      requires fsize > 0 ==> hasPath
      ensures Valid() && Contents() == [] && maxMemSize == msize && maxFileSize == fsize
      ensures this.hasPath == (fsize > 0 && hasPath) && memSize == 0 && !fdOpen && refusals == slips == 0
    {
      cache, writeIndex, readIndex, fileEntries, memSize, memAvail := [], 0, 0, 0, 0, 0;
      maxMemSize, maxFileSize, this.hasPath := msize, fsize, fsize > 0 && hasPath;
      fileSize, fileReadPos, fileWritePos, isValid, fdOpen, file := 0, 0, 0, true, false, [];
      memQ, fileQ, refusals, slips := [], [], 0, 0;
    }

    method NumEntries() returns (entries: nat)
      requires Valid()
      ensures entries == |Contents()|
    {
      hide Total;
      entries := 0;
      if fileSize > 0 && fileReadPos < fileSize { entries := fileEntries; }
      if cache != [] && readIndex < writeIndex { entries := entries + (writeIndex - readIndex); }
    }

    method Grow()
      modifies `cache
      ensures |cache| == (|old(cache)| + 16) * 3 / 2 && old(cache) <= cache
    {
      cache := cache + seq((|cache| + 16) * 3 / 2 - |cache|, _ => None);
    }

    method MemAdd(buf: seq<octet>) returns (r: int)
      requires Valid() && |buf| < TWO32 && fileReadPos == 0
      requires (memSize + |buf|) % TWO32 < maxMemSize
      modifies `cache, `writeIndex, `memSize, `memAvail, `memQ
      ensures r == OK && Valid() && memQ == old(memQ) + [buf]
      ensures memSize == (old(memSize) + |buf| + ENTRY_HEADER) % TWO32
    {
      hide FileHolds, MemHolds, Total;
      HeaderWraps(memSize + |buf|, maxMemSize);
      Append(buf);
      memSize := (memSize + |buf| + ENTRY_HEADER) % TWO32;
      TotalAppend(memQ, buf);
      AddWraps(Total(memQ), |buf|);
      memAvail := (memAvail + |buf|) % TWO32;
      memQ := memQ + [buf];
      r := OK;
    }

    method Append(buf: seq<octet>)
      requires MemHolds(cache, readIndex, writeIndex, memQ)
      modifies `cache, `writeIndex
      ensures MemHolds(cache, readIndex, writeIndex, memQ + [buf])
    {
      ghost var c := cache;
      if writeIndex >= |cache| { Grow(); }
      assert cache[..writeIndex] == c[..writeIndex];
      cache := cache[writeIndex := Some(buf)];
      MemAppends(c, readIndex, writeIndex, memQ, cache, buf);
      writeIndex := writeIndex + 1;
    }

    method SafeWrite(buf: seq<octet>)
      modifies `file, `fileWritePos
      ensures file == old(file) + buf && fileWritePos == |file|
    {
      file := file + buf;
      fileWritePos := |file|;
    }

    method FileAdd(buf: seq<octet>) returns (r: int)
      requires Valid() && |buf| < TWO32
      modifies `file, `fileWritePos, `fileSize, `fileEntries, `fdOpen, `fileQ
      ensures Valid() && fileQ == if r == OK then old(fileQ) + [buf] else old(fileQ)
      ensures r == if old(fileSize) + |buf| > maxFileSize then ENOSPC
                   else if !old(fdOpen) && !hasPath then ENOPATH else OK
    {
      hide MemHolds, Encode, Total, Record;
      if fileSize + |buf| > maxFileSize { return ENOSPC; }
      if !fdOpen {
        if !hasPath { return ENOPATH; }
        fdOpen := true;
      }
      ghost var f := file;
      SafeWrite(LenBytes(|buf|));
      SafeWrite(buf);
      FileWritten(f, buf);
      FileAppends(f, fileSize, fileReadPos, fileEntries, fileQ, buf);
      fileSize := fileSize + |buf| + LEN_SIZE;
      fileEntries := fileEntries + 1;
      fileQ := fileQ + [buf];
      r := OK;
    }

    /** An entry of len bytes goes to memory. */
    predicate InMemory(fdOpen: bool, memSize: nat, len: nat) {
      !fdOpen && (memSize + len) % TWO32 < maxMemSize
    }

    method Add(buf: seq<octet>) returns (r: int)
      requires Valid() && |buf| < TWO32
      modifies this
      ensures Valid() && Contents() == if r == OK then old(Contents()) + [buf] else old(Contents())
      ensures r == if InMemory(old(fdOpen), old(memSize), |buf|) then OK
                   else if old(fileSize) + |buf| > maxFileSize then ENOSPC
                   else if !old(fdOpen) && !hasPath then ENOPATH else OK
      ensures InMemory(old(fdOpen), old(memSize), |buf|) ==>
                !fdOpen && memSize == (old(memSize) + |buf| + ENTRY_HEADER) % TWO32
      ensures refusals == old(refusals) + (if r == OK then 0 else 1) && slips == old(slips)
    {
      hide MemHolds, Total, Encode;
      if !fdOpen && (memSize + |buf|) % TWO32 < maxMemSize {
        FileEmptyIff(file, fileSize, fileReadPos, fileEntries, fileQ);
        r := MemAdd(buf);
      } else {
        r := FileAdd(buf);
        if r != OK { refusals := refusals + 1; }
      }
    }

    method MemRead() returns (r: int, buf: seq<octet>)
      requires Valid()
      modifies `cache, `readIndex, `writeIndex, `memAvail, `memQ
      ensures Valid()
      ensures if old(memQ) == [] then r == EMPTY && memQ == []
              else r == OK && buf == old(memQ)[0] && memQ == old(memQ)[1..]
      ensures old(memQ) != [] ==> cache != [] && (readIndex > 0 || writeIndex == 0)
    {
      hide FileHolds, Total;
      if cache == [] || readIndex >= writeIndex {
        readIndex, writeIndex := 0, 0;
        return EMPTY, [];
      }
      MemTakes(cache, readIndex, writeIndex, memQ);
      TotalRest(memQ);
      buf := cache[readIndex].value;
      memAvail := (memAvail - |buf|) % TWO32;
      cache := cache[readIndex := None];
      readIndex := readIndex + 1;
      if readIndex >= writeIndex {
        readIndex, writeIndex, memAvail := 0, 0, 0;
      }
      memQ := memQ[1..];
      r := OK;
    }

    method FileRead() returns (r: int, buf: seq<octet>)
      requires Valid() && memQ == []
      modifies `fdOpen, `file, `fileSize, `fileReadPos, `fileWritePos, `fileEntries, `fileQ
      ensures Valid()
      ensures if old(fileQ) == [] then r == EMPTY && fileQ == [] && !fdOpen && file == []
              else r == OK && buf == old(fileQ)[0] && fileQ == old(fileQ)[1..]
      ensures old(fileQ) != [] ==> fileReadPos == old(fileReadPos) + LEN_SIZE + |buf| && fileEntries == old(fileEntries) - 1
                                   && fileSize == old(fileSize)
      ensures fdOpen ==> old(fdOpen)
    {
      hide MemHolds, Total, Encode, LenOf;
      FileEmptyIff(file, fileSize, fileReadPos, fileEntries, fileQ);
      if fileReadPos >= fileSize {
        fdOpen, fileReadPos, fileWritePos, fileSize, fileEntries, file := false, 0, 0, 0, 0, [];
        EncodeNothing();
        return EMPTY, [];
      }
      FileTakes(file, fileSize, fileReadPos, fileEntries, fileQ);
      var len := LenOf(file[fileReadPos..fileReadPos + LEN_SIZE]);
      buf := file[fileReadPos + LEN_SIZE..fileReadPos + LEN_SIZE + len];
      fileReadPos := fileReadPos + LEN_SIZE + len;
      fileEntries := fileEntries - 1;
      fileQ := fileQ[1..];
      r := OK;
    }

    method Read() returns (r: int, buf: seq<octet>)
      requires Valid()
      modifies this
      ensures Valid()
      ensures if old(Contents()) == [] then r == EMPTY && Contents() == []
              else r == OK && buf == old(Contents())[0] && Contents() == old(Contents())[1..]
      ensures if old(memQ) != [] then memQ == old(memQ)[1..] && fileQ == old(fileQ)
              else memQ == [] && (old(fileQ) != [] ==> fileQ == old(fileQ)[1..])
      ensures old(memQ) != [] ==> cache != [] && fileReadPos == 0 && (readIndex > 0 || writeIndex == 0)
      ensures old(memQ) == [] && old(fileQ) != [] ==>
                fileReadPos == old(fileReadPos) + LEN_SIZE + |buf| && fileEntries == old(fileEntries) - 1
                && fileSize == old(fileSize)
      ensures memSize == old(memSize) && (fdOpen ==> old(fdOpen)) && refusals == old(refusals) && slips == old(slips)
    {
      hide MemHolds, FileHolds, Total;
      r, buf := MemRead();
      if r == OK { return; }
      r, buf := FileRead();
    }

    /** Puts an entry back in front of the memory tier. */
    method MemUnread(buf: seq<octet>) returns (r: int)
      requires readIndex <= |cache|
      modifies `cache, `readIndex, `writeIndex, `memAvail
      ensures r == if old(cache) == [] || !isValid || (old(readIndex) == 0 && old(writeIndex) == 1) then EDROPPED else OK
      ensures r == EDROPPED ==> unchanged(this)
      ensures r == OK && old(readIndex) == 0 ==> readIndex == 0 && writeIndex == 1 && cache == old(cache)[0 := Some(buf)]
      ensures r == OK && old(readIndex) > 0 ==>
                readIndex == old(readIndex) - 1 && writeIndex == old(writeIndex)
                && cache == old(cache)[readIndex := Some(buf)]
      ensures r == OK ==> memAvail == (old(memAvail) + |buf|) % TWO32
    {
      if cache == [] || !isValid { return EDROPPED; }
      if readIndex == 0 && writeIndex == 1 { return EDROPPED; }
      memAvail := (memAvail + |buf|) % TWO32;
      if readIndex == 0 {
        cache := cache[0 := Some(buf)];
        writeIndex := 1;
      } else {
        readIndex := readIndex - 1;
        cache := cache[readIndex := Some(buf)];
      }
      r := OK;
    }

    method Unread(buf: seq<octet>) returns (r: int)
      requires Valid() && |buf| < TWO32
      modifies this
      ensures buf == [] ==> r == EADDRESS && unchanged(this)
      ensures buf != [] && old(Contents()) == [] ==> Valid() && Contents() == if r == OK then [buf] else []
      ensures buf != [] && old(Contents()) == [] && InMemory(old(fdOpen), old(memSize), |buf|) ==>
                r == OK && !fdOpen && memSize == (old(memSize) + |buf| + ENTRY_HEADER) % TWO32
      ensures old(Contents()) != [] ==> memSize == old(memSize) && fdOpen == old(fdOpen)
      // back onto memory: in front of everything, unless the slot is taken
      ensures buf != [] && old(Contents()) != [] ==>
                r == if old(cache) == [] || (old(readIndex) == 0 && old(writeIndex) == 1) then EDROPPED else OK
      ensures buf != [] && old(Contents()) != [] && old(fileReadPos) == 0 && r == OK ==>
                if old(readIndex) > 0 || old(writeIndex) == 0 then Valid() && Contents() == [buf] + old(Contents())
                else Contents() == [buf] + old(fileQ)
      ensures buf != [] && old(Contents()) != [] && old(fileReadPos) < |buf| && r == EDROPPED ==> unchanged(this)
      // back onto the file as well: by the length of the entry, not of its record
      ensures buf != [] && old(Contents()) != [] && old(fileReadPos) >= |buf| ==>
                fileReadPos == old(fileReadPos) - |buf| && fileEntries == old(fileEntries) + 1
      // with the file partly read, memory was empty: it now gives the entry, then the file goes on from its position
      ensures buf != [] && old(Contents()) != [] && old(fileReadPos) > 0 ==>
                memQ == (if r == OK then [buf] else []) && file == old(file) && fileSize == old(fileSize) && fileQ == old(fileQ)
      ensures Bounded()
      ensures slips == old(slips) + if buf != [] && old(Contents()) != [] && old(fileReadPos) >= |buf| then 1 else 0
      ensures refusals == old(refusals) + if buf != [] && old(Contents()) == [] && r != OK then 1 else 0
    {
      hide Encode, Total, MemHolds, FileHolds;
      if buf == [] { return EADDRESS; }
      var n := NumEntries();
      if n == 0 {
        r := Add(buf);
        return;
      }
      FileUnread(buf);
      r := PutInFront(buf);
      Associate([buf], old(memQ), fileQ);
    }

    /** binlog_file_unread: by the length of the entry, not of its record. */
    method FileUnread(buf: seq<octet>)
      modifies `fileReadPos, `fileEntries, `slips
      ensures old(fileReadPos) >= |buf| ==>
                fileReadPos == old(fileReadPos) - |buf| && fileEntries == old(fileEntries) + 1 && slips == old(slips) + 1
      ensures old(fileReadPos) < |buf| ==>
                fileReadPos == old(fileReadPos) && fileEntries == old(fileEntries) && slips == old(slips)
    {
      if fileReadPos >= |buf| {
        fileReadPos := fileReadPos - |buf|;
        fileEntries := fileEntries + 1;
        slips := slips + 1;
      }
    }

    /** binlog_mem_unread, and what it makes of the memory tier. */
    method PutInFront(buf: seq<octet>) returns (r: int)
      requires MemHolds(cache, readIndex, writeIndex, memQ) && memAvail == Total(memQ) % TWO32 && isValid
      modifies `cache, `readIndex, `writeIndex, `memAvail, `memQ
      ensures r == if old(cache) == [] || (old(readIndex) == 0 && old(writeIndex) == 1) then EDROPPED else OK
      ensures r == EDROPPED ==> cache == old(cache) && readIndex == old(readIndex) && writeIndex == old(writeIndex)
                                && memAvail == old(memAvail) && memQ == old(memQ)
      ensures r == OK ==> memQ == if old(readIndex) > 0 || old(writeIndex) == 0 then [buf] + old(memQ) else [buf]
      ensures r == OK && (old(readIndex) > 0 || old(writeIndex) == 0) ==>
                MemHolds(cache, readIndex, writeIndex, memQ) && memAvail == Total(memQ) % TWO32
    {
      hide Total;
      ghost var c, ri, wi := cache, readIndex, writeIndex;
      r := MemUnread(buf);
      if r == OK {
        TotalFront(memQ, buf);
        if ri > 0 {
          MemPuts(c, ri, wi, memQ, buf);
          memQ := [buf] + memQ;
        } else {
          assert wi == 0 ==> [buf] + memQ == [buf];
          memQ := [buf];
        }
      }
    }

    /** Reading an entry and putting it straight back. */
    method ReadUnread() returns (r: int)
      requires Valid() && Contents() != [] && Contents()[0] != []
      modifies this
      // an entry from memory with others behind it always goes back where it was
      ensures old(memQ) != [] && |old(Contents())| > 1 ==> r == OK && Valid() && Contents() == old(Contents())
      // the last one left does if it is accepted again
      ensures |old(Contents())| == 1 ==> Valid() && Contents() == if r == OK then old(Contents()) else []
      // one from the file with others behind it never does: the file position is inside its record, and
      // whatever the file is read as from there, it is not the queue that was
      ensures old(memQ) == [] && |old(Contents())| > 1 ==>
                fileReadPos == old(fileReadPos) + LEN_SIZE && fileEntries == old(fileEntries) && !Valid()
      ensures old(memQ) == [] && |old(Contents())| > 1 ==>
                forall q :: FileHolds(file, fileSize, fileReadPos, fileEntries, q) ==> memQ + q != old(Contents())
    {
      hide Encode, Total, MemHolds, FileHolds;
      ghost var q := Contents();
      var x, buf := Read();
      assert q == [q[0]] + q[1..];
      ghost var f, size, pos, n := old(file), old(fileSize), old(fileReadPos), old(fileEntries);
      r := Unread(buf);
      if old(memQ) == [] && |q| > 1 {
        assert q == old(fileQ) && Contents() == memQ + fileQ;
        NotRestored(f, size, pos, n, q, file, memQ);
        assert r == OK ==> q == memQ + fileQ;
        Miscounted(f, size, pos, n, q, file, fileQ);
      }
    }

    method WipeMemory()
      modifies `cache, `memSize, `memAvail, `readIndex, `writeIndex, `memQ
      ensures memQ == [] && cache == [] && memSize == memAvail == readIndex == writeIndex == 0
    {
      cache, memSize, memAvail, readIndex, writeIndex, memQ := [], 0, 0, 0, 0, [];
    }

    method WipeFile()
      requires FileHolds(file, fileSize, fileReadPos, fileEntries, fileQ) && fileWritePos == fileSize
      modifies `file, `fdOpen, `fileSize, `fileReadPos, `fileWritePos, `fileEntries, `fileQ
      ensures fileQ == [] && !fdOpen && fileSize == fileReadPos == fileWritePos == fileEntries == 0
      ensures file == (if old(fileQ) == [] then [] else old(file)) && (file == [] <==> old(fileQ) == [])
    {
      FileEmptyIff(file, fileSize, fileReadPos, fileEntries, fileQ);
      FileBytes(file, fileSize, fileReadPos, fileEntries, fileQ);
      hide FileHolds;
      fdOpen := false;
      if fileReadPos == fileWritePos { file := []; }
      fileSize, fileReadPos, fileWritePos, fileEntries, fileQ := 0, 0, 0, 0, [];
    }

    /** binlog_wipe with BINLOG_UNLINK. */
    method Wipe()
      requires Valid()
      modifies this
      ensures Contents() == [] && memSize == memAvail == fileSize == fileReadPos == fileEntries == 0 && !fdOpen
      // a file with unread entries stays on disk, although nothing refers to it any more
      ensures file == if old(fileQ) == [] then [] else old(file)
      ensures Valid() <==> old(fileQ) == []
      ensures refusals == old(refusals) && slips == old(slips)
    {
      hide Encode, Total, MemHolds, FileHolds;
      WipeFile();
      WipeMemory();
      isValid := true;
      FileNothing(file);
      TotalNothing();
      MemNothing();
    }
  }

  lemma FileBytes(f: seq<octet>, size: nat, pos: nat, n: nat, q: seq<seq<octet>>)
    requires FileHolds(f, size, pos, n, q)
    ensures pos <= size && (q != [] ==> f != [])
  {
    FileEmptyIff(f, size, pos, n, q);
  }

  lemma FileNothing(f: seq<octet>)
    ensures FileHolds(f, 0, 0, 0, []) <==> f == []
  {
  }

  lemma MemNothing()
    ensures MemHolds([], 0, 0, [])
  {
  }

  lemma TotalNothing()
    ensures Total([]) == 0
  {
  }

  lemma TotalFront(q: seq<seq<octet>>, e: seq<octet>)
    ensures (Total(q) % TWO32 + |e|) % TWO32 == Total([e] + q) % TWO32
  {
    assert ([e] + q)[1..] == q;
    AddWraps(Total(q), |e|);
  }

  // ---- whole runs ----------------------------------------------------------

  datatype Op = Put(entry: seq<octet>) | Get

  function Next(q: seq<seq<octet>>, op: Op, code: int): seq<seq<octet>> {
    if code != OK then q
    else if op.Put? then q + [op.entry]
    else if q != [] then q[1..] else q
  }

  /** What a plain queue would have in it after a run, given which calls succeeded. */
  function QueueOf(ops: seq<Op>, codes: seq<int>): seq<seq<octet>>
    requires |ops| == |codes|
  {
    if ops == [] then []
    else var n := |ops| - 1; Next(QueueOf(ops[..n], codes[..n]), ops[n], codes[n])
  }

  /** The answer to one call is one that a queue holding q could give. */
  predicate Allowed(q: seq<seq<octet>>, op: Op, code: int, out: seq<octet>) {
    if op.Put? then code == OK || code == ENOSPC || code == ENOPATH
    else if q == [] then code == EMPTY
    else code == OK && out == q[0]
  }

  predicate QueueTrace(ops: seq<Op>, codes: seq<int>, outs: seq<seq<octet>>) {
    && |ops| == |codes| == |outs|
    && (ops == [] ||
        var n := |ops| - 1;
        && QueueTrace(ops[..n], codes[..n], outs[..n])
        && Allowed(QueueOf(ops[..n], codes[..n]), ops[n], codes[n], outs[n]))
  }

  lemma ExtendTrace(ops: seq<Op>, codes: seq<int>, outs: seq<seq<octet>>, op: Op, code: int, out: seq<octet>)
    requires QueueTrace(ops, codes, outs) && Allowed(QueueOf(ops, codes), op, code, out)
    ensures QueueTrace(ops + [op], codes + [code], outs + [out])
    ensures QueueOf(ops + [op], codes + [code]) == Next(QueueOf(ops, codes), op, code)
  {
    var n := |ops|;
    assert (ops + [op])[..n] == ops && (codes + [code])[..n] == codes && (outs + [out])[..n] == outs;
  }

  /** Any run of adds and reads on a backlog answers every call as a plain queue would. */
  method RunAll(hasPath: bool, msize: nat, fsize: nat, ops: seq<Op>) returns (codes: seq<int>, outs: seq<seq<octet>>)
    requires fsize > 0 ==> hasPath
    requires forall i :: 0 <= i < |ops| && ops[i].Put? ==> |ops[i].entry| < TWO32
    ensures QueueTrace(ops, codes, outs)
  {
    hide QueueTrace, QueueOf, Log.Valid;
    var log := new Log(hasPath, msize, fsize);
    codes, outs := [], [];
    NoCalls();
    assert ops[..0] == [];
    for i := 0 to |ops|
      invariant fresh(log) && log.Valid()
      invariant |codes| == |outs| == i && QueueTrace(ops[..i], codes, outs) && log.Contents() == QueueOf(ops[..i], codes)
    {
      var code, out := OK, [];
      match ops[i] {
        case Put(e) => code := log.Add(e);
        case Get => code, out := log.Read();
      }
      ExtendTrace(ops[..i], codes, outs, ops[i], code, out);
      assert ops[..i] + [ops[i]] == ops[..i + 1];
      codes, outs := codes + [code], outs + [out];
    }
    assert ops[..|ops|] == ops;
  }

  lemma NoCalls()
    ensures QueueTrace([], [], []) && QueueOf([], []) == []
  {
  }

  function Accepted(ops: seq<Op>, codes: seq<int>): seq<seq<octet>>
    requires |ops| == |codes|
  {
    if ops == [] then []
    else
      var n := |ops| - 1;
      Accepted(ops[..n], codes[..n]) + if ops[n].Put? && codes[n] == OK then [ops[n].entry] else []
  }

  function Taken(ops: seq<Op>, codes: seq<int>, outs: seq<seq<octet>>): seq<seq<octet>>
    requires |ops| == |codes| == |outs|
  {
    if ops == [] then []
    else
      var n := |ops| - 1;
      Taken(ops[..n], codes[..n], outs[..n]) + if ops[n].Get? && codes[n] == OK then [outs[n]] else []
  }

  /** So what has been read, followed by what is left, is what was accepted, in order and nothing twice. */
  lemma {:induction false} FirstInFirstOut(ops: seq<Op>, codes: seq<int>, outs: seq<seq<octet>>)
    requires QueueTrace(ops, codes, outs)
    ensures Accepted(ops, codes) == Taken(ops, codes, outs) + QueueOf(ops, codes)
  {
    if ops != [] {
      var n := |ops| - 1;
      var ops', codes', outs' := ops[..n], codes[..n], outs[..n];
      FirstInFirstOut(ops', codes', outs');
      var a, t, q := Accepted(ops', codes'), Taken(ops', codes', outs'), QueueOf(ops', codes');
      if codes[n] == OK {
        match ops[n]
        case Put(e) =>
          assert a + [e] == t + (q + [e]);
        case Get =>
          assert t + q == t + [q[0]] + q[1..];
      }
    }
  }

  lemma EncodeNothing()
    ensures Encode([]) == []
  {
  }

  lemma TotalRest(q: seq<seq<octet>>)
    requires q != []
    ensures |q[0]| <= Total(q) && (Total(q) % TWO32 - |q[0]|) % TWO32 == Total(q[1..]) % TWO32
    ensures q[1..] == [] ==> Total(q[1..]) == 0
  {
    hide Total;
    TotalParts(q);
    SubWraps(Total(q), |q[0]|);
  }

  lemma TotalParts(q: seq<seq<octet>>)
    requires q != []
    ensures Total(q) == |q[0]| + Total(q[1..]) && (q[1..] == [] ==> Total(q[1..]) == 0)
  {
  }

  lemma FileWritten(f: seq<octet>, e: seq<octet>)
    ensures f + LenBytes(|e|) + e == f + Record(e)
    ensures |Record(e)| == |e| + LEN_SIZE
  {
  }
}
