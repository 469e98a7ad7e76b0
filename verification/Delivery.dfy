/**
 Sending events to another node, as in shared/node.c: events go to the socket
 while the node is connected and to its backlog otherwise, and the backlog goes
 first. Every socket call may succeed, block, fail or stop half-way, as the
 network decides.
 */
module Delivery {
  import opened Options
  import opened SeqFacts
  import opened Records
  import opened Binlog
  import opened Words

  const HDR_SIZE: nat := 128
  const MAX_PKT_SIZE: nat := 128 + 131072

  /** The most one event takes in memory. */
  const SLOT: nat := MAX_PKT_SIZE + ENTRY_HEADER

  /** An event; transient ones (CTRL_ACTIVE and CTRL_INACTIVE) are never put in a backlog. */
  datatype Packet = Packet(data: seq<octet>, transient: bool)

  /** What an event takes in memory, if it is put there. */
  function Cost(pkt: Packet): nat { if pkt.transient then 0 else |pkt.data| + ENTRY_HEADER }

  function OptCost(pkt: Option<Packet>): nat { if pkt.None? then 0 else Cost(pkt.value) }

  /** The backlog has a tier that takes an entry of this length. */
  ghost predicate Takes(log: Log, len: nat)
    reads log
  {
    log.InMemory(log.fdOpen, log.memSize, len) || (log.fileSize + len <= log.maxFileSize && (log.fdOpen || log.hasPath))
  }

  predicate Sendable(e: seq<octet>) { HDR_SIZE <= |e| <= MAX_PKT_SIZE }

  ghost predicate AllSendable(q: seq<seq<octet>>) { forall i :: 0 <= i < |q| ==> Sendable(q[i]) }

  /** out has each event of offered, in order, once or twice in a row; a transient one may be missing. */
  ghost predicate Stutters(offered: seq<Packet>, out: seq<seq<octet>>) {
    if offered == [] then out == []
    else
      var n, m := |offered| - 1, |out|;
      var e := offered[n];
      || (m >= 1 && out[m - 1] == e.data && Stutters(offered[..n], out[..m - 1]))
      || (m >= 2 && out[m - 1] == out[m - 2] == e.data && Stutters(offered[..n], out[..m - 2]))
      || (e.transient && Stutters(offered[..n], out))
  }

  /** How often one offer shows up. */
  ghost predicate Copies(e: Packet, c: seq<seq<octet>>) {
    c == [e.data] || c == [e.data, e.data] || (e.transient && c == [])
  }

  /** What a backlog keeps of an event. */
  function Kept(e: Packet): seq<seq<octet>> { if e.transient then [] else [e.data] }

  lemma KeptCopies(e: Packet, first: seq<seq<octet>>)
    requires first == [] || first == Kept(e)
    ensures Copies(e, first + Kept(e))
  {
    assert [] + Kept(e) == Kept(e) && (!e.transient ==> [e.data] + [e.data] == [e.data, e.data]);
  }

  lemma StuttersLast(offered: seq<Packet>, out: seq<seq<octet>>)
    requires offered != []
    ensures var n, m, e := |offered| - 1, |out|, offered[|offered| - 1];
            Stutters(offered, out) <==>
            (|| (m >= 1 && out[m - 1] == e.data && Stutters(offered[..n], out[..m - 1]))
             || (m >= 2 && out[m - 1] == out[m - 2] == e.data && Stutters(offered[..n], out[..m - 2]))
             || (e.transient && Stutters(offered[..n], out)))
  {
  }

  lemma OneCopy(offered: seq<Packet>, out: seq<seq<octet>>, e: Packet)
    requires Stutters(offered, out)
    ensures Stutters(offered + [e], out + [e.data])
  {
    hide Stutters;
    var o, t := offered + [e], out + [e.data];
    assert o[..|o| - 1] == offered && t[..|t| - 1] == out;
    StuttersLast(o, t);
  }

  lemma TwoCopies(offered: seq<Packet>, out: seq<seq<octet>>, e: Packet)
    requires Stutters(offered, out)
    ensures Stutters(offered + [e], out + [e.data, e.data])
  {
    hide Stutters;
    var o, t := offered + [e], out + [e.data, e.data];
    assert o[..|o| - 1] == offered && t[..|t| - 2] == out;
    StuttersLast(o, t);
  }

  lemma NoCopy(offered: seq<Packet>, out: seq<seq<octet>>, e: Packet)
    requires Stutters(offered, out) && e.transient
    ensures Stutters(offered + [e], out)
  {
    hide Stutters;
    var o := offered + [e];
    assert o[..|o| - 1] == offered;
    StuttersLast(o, out);
  }

  lemma StuttersMore(offered: seq<Packet>, out: seq<seq<octet>>, e: Packet, c: seq<seq<octet>>)
    requires Stutters(offered, out) && Copies(e, c)
    ensures Stutters(offered + [e], out + c)
  {
    hide Stutters;
    if c == [] {
      assert out + c == out;
      NoCopy(offered, out, e);
    } else if |c| == 1 {
      OneCopy(offered, out, e);
    } else {
      TwoCopies(offered, out, e);
    }
  }

  /** Nothing that belongs in a backlog is lost, and nothing is delivered more than twice. */
  lemma {:induction false} NothingLost(offered: seq<Packet>, out: seq<seq<octet>>)
    requires Stutters(offered, out)
    ensures forall i :: 0 <= i < |offered| && !offered[i].transient ==> offered[i].data in out
    ensures |out| <= 2 * |offered|
  {
    if offered != [] {
      var n, m := |offered| - 1, |out|;
      var rest := if m >= 1 && out[m - 1] == offered[n].data && Stutters(offered[..n], out[..m - 1]) then out[..m - 1]
                  else if m >= 2 && out[m - 1] == out[m - 2] == offered[n].data && Stutters(offered[..n], out[..m - 2]) then out[..m - 2]
                  else out;
      NothingLost(offered[..n], rest);
      forall i | 0 <= i < |offered| && !offered[i].transient
        ensures offered[i].data in out
      {
        if i < n {
          assert offered[i] == offered[..n][i];
          assert offered[i].data in rest;
        }
      }
    }
  }

  /** What a socket answers: it is writable, or takes the whole event; or it is not, or takes less, or fails. */
  datatype Answer = Good | Bad(sent: int, wouldBlock: bool)

  class Node {
    const log: Log
    /** All the answers there will be, and how many there have been. */
    const net: nat -> Answer
    var asked: nat
    /** The socket is open and the node is in STATE_CONNECTED. */
    var connected: bool
    /** The events that went out in full. */
    var wire: seq<seq<octet>>
    var eventsLogged: int
    var bytesLogged: int
    var eventsDropped: int
    var bytesDropped: int

    ghost predicate Valid()
      reads this, log
    {
      && log.Valid() && AllSendable(log.Contents())
      && eventsLogged == |log.Contents()| && bytesLogged == Total(log.Contents())
    }

    ghost function All(): seq<seq<octet>>
      reads this, log
    {
      wire + log.Contents()
    }

    /** The memory tier's account, at least one event's worth. */
    ghost function Used(): nat
      reads log
    {
      if log.memSize < SLOT then SLOT else log.memSize
    }

    /** No file is in use and memory takes this much more. */
    ghost predicate Roomy(more: nat)
      reads log
    {
      !log.fdOpen && Used() + more < log.maxMemSize <= TWO32
    }

    /** How often the backlog has failed: it refused an event, or moved its file position back. */
    ghost function Failures(): nat
      reads log
    {
      log.refusals + log.slips
    }

    /** All answers since the first n were good. */
    ghost predicate SmoothSince(n: nat)
      reads this
    {
      forall i: nat :: n <= i < asked ==> net(i).Good?
    }

    constructor (hasPath: bool, msize: nat, fsize: nat, net: nat -> Answer)
      requires fsize > 0 ==> hasPath
      ensures this.net == net && asked == 0
      ensures Valid() && fresh(log) && All() == [] && !connected
      ensures log.maxMemSize == msize && Used() == SLOT && !log.fdOpen && Failures() == 0
      ensures wire == log.Contents() == [] && eventsDropped == bytesDropped == 0
    {
      log := new Log(hasPath, msize, fsize);
      connected, wire, this.net, asked := false, [], net, 0;
      eventsLogged, bytesLogged, eventsDropped, bytesDropped := 0, 0, 0, 0;
    }

    /** io_write_ok. */
    method WriteOk() returns (writable: bool)
      modifies `asked
      ensures asked == old(asked) + 1 && (writable <==> net(old(asked)).Good?)
    {
      writable := net(asked).Good?;
      asked := asked + 1;
    }

    /** node_send: r is the size on success; anything else has dropped the connection. */
    method Send(pkt: seq<octet>) returns (r: int)
      requires pkt != []
      modifies `connected, `wire, `asked
      ensures asked == old(asked) + if old(connected) then 1 else 0
      ensures r == |pkt| || r <= 0
      ensures r == |pkt| <==> old(connected) && net(old(asked)).Good?
      ensures r == |pkt| ==> connected && wire == old(wire) + [pkt]
      ensures r <= 0 ==> !connected && wire == old(wire)
      // a send that would have blocked is no error
      ensures r == 0 <==> old(!connected) || (net(old(asked)).Bad? && net(old(asked)).sent < 0 && net(old(asked)).wouldBlock)
    {
      if !connected { return 0; }
      var answer := net(asked);
      asked := asked + 1;
      if answer.Good? {
        wire := wire + [pkt];
        return |pkt|;
      }
      connected := false;
      if answer.sent < 0 {
        if answer.wouldBlock { return 0; }
        return answer.sent;
      }
      return -1;
    }

    /** node_binlog_add; refused means the event is not in the backlog although it belongs there. */
    method BinlogAdd(pkt: Packet) returns (r: int, refused: bool)
      requires Valid() && Sendable(pkt.data)
      modifies log, `eventsLogged, `bytesLogged, `eventsDropped, `bytesDropped
      ensures !refused ==> Valid() && r == 0
      ensures !refused ==> log.Contents() == old(log.Contents()) + Kept(pkt)
      // exactly when neither tier takes it
      ensures refused <==> !pkt.transient && !old(Takes(log, |pkt.data|))
      // a full backlog is kept; one that cannot be written is given up, and all of it counted as dropped
      ensures refused && r == 0 ==>
                Valid() && log.Contents() == old(log.Contents()) && eventsDropped == old(eventsDropped) && bytesDropped == old(bytesDropped)
      ensures refused && r != 0 ==>
                r < 0 && log.Contents() == [] && eventsLogged == bytesLogged == 0
                && eventsDropped == old(eventsDropped) + |old(log.Contents())| + 1
                && bytesDropped == old(bytesDropped) + Total(old(log.Contents())) + |pkt.data|
      ensures refused ==> (r == 0 <==> old(log.fileSize) + |pkt.data| > log.maxFileSize)
      ensures !refused ==> eventsDropped == old(eventsDropped) && bytesDropped == old(bytesDropped)
      ensures Failures() >= old(Failures()) && (refused <==> Failures() > old(Failures()))
      ensures old(Roomy(Cost(pkt))) ==> !refused && !log.fdOpen && Used() <= old(Used()) + Cost(pkt)
    {
      hide Log.Valid, Total;
      if pkt.transient { return 0, false; }
      TotalAppend(log.Contents(), pkt.data);
      r := log.Add(pkt.data);
      refused := r != Binlog.OK;
      if r == ENOSPC { return 0, true; }
      if r < 0 {
        log.Wipe();
        eventsDropped, bytesDropped := eventsDropped + eventsLogged + 1, bytesDropped + bytesLogged + |pkt.data|;
        eventsLogged, bytesLogged := 0, 0;
        return;
      }
      eventsLogged, bytesLogged := eventsLogged + 1, bytesLogged + |pkt.data|;
    }

    /**
     The failure branch of node_send_binlog, for an entry just read: fromFile says
     which tier it came from. The first event of the backlog is that entry again,
     unless it was refused, or came from the file with others behind it.
     */
    method PutBack(e: seq<octet>, fromFile: bool) returns (refused: bool)
      requires log.Valid() && Sendable(e) && AllSendable(log.Contents())
      requires eventsLogged == |log.Contents()| + 1 && bytesLogged == Total(log.Contents()) + |e|
      requires !fromFile && log.Contents() != [] ==>
                 log.cache != [] && log.fileReadPos == 0 && (log.readIndex > 0 || log.writeIndex == 0)
      requires fromFile ==> log.fileReadPos >= |e|
      modifies log
      ensures !refused && !(fromFile && old(log.Contents()) != []) ==>
                Valid() && log.Contents() == [e] + old(log.Contents())
      ensures Failures() >= old(Failures())
      ensures refused || (fromFile && old(log.Contents()) != []) <==> Failures() > old(Failures())
      ensures old(Roomy(0)) && !fromFile ==> !refused && !log.fdOpen && Used() <= old(Used())
    {
      hide Log.Valid, Total;
      ghost var q := log.Contents();
      EmptyQueue(log);
      var n := log.NumEntries();
      if n == 0 { log.Wipe(); }
      var u := log.Unread(e);
      refused := u != Binlog.OK;
      TotalFirst(q, e);
      assert q == [] ==> [e] + q == [e];
    }

    /** The rest of the failure branch: the new event goes behind the backlog. */
    method Requeue(e: seq<octet>, fromFile: bool, pkt: Option<Packet>) returns (r: int, broken: bool)
      requires log.Valid() && Sendable(e) && AllSendable(log.Contents()) && (pkt.Some? ==> Sendable(pkt.value.data))
      requires eventsLogged == |log.Contents()| + 1 && bytesLogged == Total(log.Contents()) + |e|
      requires !fromFile && log.Contents() != [] ==>
                 log.cache != [] && log.fileReadPos == 0 && (log.readIndex > 0 || log.writeIndex == 0)
      requires fromFile ==> log.fileReadPos >= |e|
      modifies log, `eventsLogged, `bytesLogged, `eventsDropped, `bytesDropped
      ensures !broken ==>
                Valid() && r == 0
                && log.Contents() == [e] + old(log.Contents())
                                     + if pkt.Some? then Kept(pkt.value) else []
      ensures Failures() >= old(Failures()) && (broken <==> Failures() > old(Failures()))
      ensures old(Roomy(OptCost(pkt))) && !fromFile ==> !broken && !log.fdOpen && Used() <= old(Used()) + OptCost(pkt)
    {
      hide Log.Valid, Total;
      var more := log.NumEntries();
      var refused := PutBack(e, fromFile);
      if refused || (fromFile && more > 0) {
        return -1, true;
      }
      if pkt.Some? {
        r, broken := BinlogAdd(pkt.value);
      } else {
        r, broken := 0, false;
      }
    }

    /** node_send_binlog. */
    method SendBinlog(pkt: Option<Packet>) returns (r: int, broken: bool)
      requires Valid() && (pkt.Some? ==> Sendable(pkt.value.data))
      modifies this, log
      ensures !broken ==> Valid() && r == 0
      // everything that was tried went out, or else the rest is still queued and the new event behind it
      ensures !broken && connected == old(connected) ==> All() == old(All())
      ensures !broken && connected != old(connected) ==>
                !connected && log.Contents() != []
                && All() == old(All()) + if pkt.Some? then Kept(pkt.value) else []
      // if the socket takes all of it, all of it goes out
      ensures old(connected) && SmoothSince(old(asked)) ==>
                !broken && connected && log.Contents() == [] && wire == old(wire) + old(log.Contents())
      ensures asked >= old(asked) && (connected ==> old(connected))
      ensures old(!connected) && !broken ==> wire == old(wire) && log.Contents() == old(log.Contents())
      // and it goes wrong exactly when the backlog fails
      ensures Failures() >= old(Failures()) && (broken <==> Failures() > old(Failures()))
      ensures old(Roomy(OptCost(pkt))) ==> !broken && !log.fdOpen && Used() <= old(Used()) + OptCost(pkt)
    {
      hide Log.Valid, Total, AllSendable;
      var more := true;
      while more
        invariant Valid() && connected == old(connected) && All() == old(All()) && Failures() == old(Failures())
        invariant old(Roomy(OptCost(pkt))) ==> Roomy(OptCost(pkt)) && Used() <= old(Used())
        invariant asked >= old(asked) && SmoothSince(old(asked)) && (!connected ==> wire == old(wire) && log.Contents() == old(log.Contents()))
        decreases more, |log.Contents()|
      {
        if !connected { break; }
        var writable := WriteOk();
        if !writable { break; }
        ghost var w := wire;
        var sent, e, fromFile;
        more, sent, e, fromFile := SendFirst();
        if !more { break; }
        if sent { continue; }
        Associate(w, [e], log.Contents());
        Associate(w, [e] + log.Contents(), if pkt.Some? then Kept(pkt.value) else []);
        r, broken := Requeue(e, fromFile, pkt);
        return;
      }
      r, broken := 0, false;
    }

    /** Takes the first entry of the backlog and sends it; it is counted if it goes out. */
    method SendFirst() returns (found: bool, sent: bool, e: seq<octet>, fromFile: bool)
      requires Valid() && connected
      modifies this, log
      ensures log.Valid() && AllSendable(log.Contents()) && Failures() == old(Failures())
      ensures found <==> old(log.Contents()) != []
      ensures !found ==> Valid() && log.Contents() == [] && connected && wire == old(wire) && asked == old(asked)
      ensures found ==> old(log.Contents()) == [e] + log.Contents() && Sendable(e)
      ensures found ==> asked == old(asked) + 1 && (sent <==> net(old(asked)).Good?)
      ensures found && sent ==> Valid() && connected && wire == old(wire) + [e] && All() == old(All())
      ensures found && !sent ==>
                !connected && wire == old(wire) && eventsLogged == |log.Contents()| + 1 && bytesLogged == Total(log.Contents()) + |e|
      ensures found && !fromFile && log.Contents() != [] ==>
                log.cache != [] && log.fileReadPos == 0 && (log.readIndex > 0 || log.writeIndex == 0)
      ensures found && fromFile ==> log.fileReadPos >= |e|
      ensures log.memSize == old(log.memSize) && (log.fdOpen ==> old(log.fdOpen)) && (found && fromFile ==> old(log.fdOpen))
    {
      hide Log.Valid, Total, AllSendable;
      ghost var w := wire;
      sent := false;
      found, e, fromFile := TakeFirst();
      if !found { return; }
      var r := Send(e);
      sent := r == |e|;
      Associate(w, [e], log.Contents());
      if sent { eventsLogged, bytesLogged := eventsLogged - 1, bytesLogged - |e|; }
    }

    /** The first entry of the backlog, and which tier it came from. */
    method TakeFirst() returns (found: bool, e: seq<octet>, fromFile: bool)
      requires Valid()
      modifies log
      ensures log.Valid() && AllSendable(log.Contents()) && Failures() == old(Failures())
      ensures found <==> old(log.Contents()) != []
      ensures !found ==> Valid() && log.Contents() == []
      ensures found ==> old(log.Contents()) == [e] + log.Contents() && Sendable(e) && Total(old(log.Contents())) == |e| + Total(log.Contents())
      ensures found && !fromFile && log.Contents() != [] ==>
                log.cache != [] && log.fileReadPos == 0 && (log.readIndex > 0 || log.writeIndex == 0)
      ensures found && fromFile ==> log.fileReadPos >= |e|
      ensures log.memSize == old(log.memSize) && (log.fdOpen ==> old(log.fdOpen)) && (found && fromFile ==> old(log.fdOpen))
    {
      hide Log.Valid, Total;
      ghost var q := log.Contents();
      MemoryEmptyIff(log);
      fromFile := log.readIndex >= log.writeIndex;
      var x;
      x, e := log.Read();
      found := x == Binlog.OK;
      if found {
        QueueHead(q, []);
        TotalFirst(q[1..], e);
      }
    }

    /** An event that cannot go out now, behind all that has been offered before. */
    method Stash(pkt: Packet, ghost all: seq<seq<octet>>, ghost first: seq<seq<octet>>) returns (r: int, broken: bool)
      requires Valid() && Sendable(pkt.data) && All() == all + first
      requires first == [] || first == Kept(pkt)
      modifies log, `eventsLogged, `bytesLogged, `eventsDropped, `bytesDropped
      ensures !broken ==> Valid() && r == 0 && exists c :: Copies(pkt, c) && All() == all + c
      ensures !broken ==> log.Contents() == old(log.Contents()) + Kept(pkt)
      ensures Failures() >= old(Failures()) && (broken <==> Failures() > old(Failures()))
      ensures old(Roomy(Cost(pkt))) ==> !broken && !log.fdOpen && Used() <= old(Used()) + Cost(pkt)
    {
      hide Log.Valid, Total;
      Associate(wire, log.Contents(), Kept(pkt));
      Associate(all, first, Kept(pkt));
      KeptCopies(pkt, first);
      r, broken := BinlogAdd(pkt);
    }

    /** node_send_event, with polled for a negative msec. */
    method SendEvent(pkt: Packet, polled: bool) returns (r: int, broken: bool)
      requires Valid() && HDR_SIZE <= |pkt.data|
      modifies this, log
      ensures !broken ==> Valid()
      ensures !broken && !Sendable(pkt.data) ==> r == -1 && All() == old(All())
      ensures !broken && Sendable(pkt.data) ==>
                r == 0 && exists c :: Copies(pkt, c) && All() == old(All()) + c
      // if the socket takes all it is given, the event goes out behind the whole backlog
      ensures old(connected) && Sendable(pkt.data) && SmoothSince(old(asked)) ==>
                !broken && connected && log.Contents() == [] && wire == old(wire) + old(log.Contents()) + [pkt.data]
      // a socket that was polled before is not asked again, and one that is not writable leaves all as it was
      ensures old(connected) && polled && old(log.Contents()) == [] && Sendable(pkt.data) ==>
                asked == old(asked) + 1 && (connected <==> net(old(asked)).Good?)
      ensures old(connected) && !polled && net(old(asked)).Bad? && Sendable(pkt.data) && !broken ==>
                asked == old(asked) + 1 && connected && wire == old(wire) && log.Contents() == old(log.Contents()) + Kept(pkt)
      // without a connection it waits
      ensures old(!connected) && Sendable(pkt.data) && !broken ==>
                !connected && wire == old(wire) && log.Contents() == old(log.Contents()) + Kept(pkt)
      ensures !Sendable(pkt.data) ==>
                !broken && wire == old(wire) && log.Contents() == old(log.Contents()) && connected == old(connected)
      ensures asked >= old(asked)
      ensures Failures() >= old(Failures()) && (broken <==> Failures() > old(Failures()))
      ensures old(Roomy(2 * Cost(pkt))) ==> !broken && !log.fdOpen && Used() <= old(Used()) + 2 * Cost(pkt)
    {
      hide Log.Valid, Total, Copies, Kept, Cost;
      if |pkt.data| > MAX_PKT_SIZE { return -1, false; }
      ghost var all := All();
      assert all + [] == all;
      if !connected {
        r, broken := Stash(pkt, all, []);
        return;
      }
      if !polled {
        var writable := WriteOk();
        if !writable {
          r, broken := Stash(pkt, all, []);
          return;
        }
      }
      r, broken := SendBehind(pkt);
    }

    /** The event goes out behind the backlog, or into it. */
    method SendBehind(pkt: Packet) returns (r: int, broken: bool)
      requires Valid() && Sendable(pkt.data) && connected
      modifies this, log
      ensures !broken ==> Valid() && r == 0 && exists c :: Copies(pkt, c) && All() == old(All()) + c
      ensures SmoothSince(old(asked)) ==>
                !broken && connected && log.Contents() == [] && wire == old(wire) + old(log.Contents()) + [pkt.data]
      ensures old(log.Contents()) == [] ==> asked == old(asked) + 1 && (connected <==> net(old(asked)).Good?)
      ensures asked >= old(asked)
      ensures Failures() >= old(Failures()) && (broken <==> Failures() > old(Failures()))
      ensures old(Roomy(2 * Cost(pkt))) ==> !broken && !log.fdOpen && Used() <= old(Used()) + 2 * Cost(pkt)
    {
      hide Log.Valid, Total, Copies, Kept, Cost;
      ghost var all := All();
      assert all + [] == all;
      var n := log.NumEntries();
      if n > 0 {
        r, broken := SendBinlog(Some(pkt));
        if broken { return; }
      }
      ghost var first := if connected then [] else Kept(pkt);
      assert All() == all + first;
      n := log.NumEntries();
      if n > 0 {
        r, broken := Stash(pkt, all, first);
        return;
      }
      r, broken := SendNow(pkt);
    }

    /** With an empty backlog the event goes out, or becomes the backlog. */
    method SendNow(pkt: Packet) returns (r: int, broken: bool)
      requires Valid() && Sendable(pkt.data) && connected && log.Contents() == []
      modifies this, log
      ensures !broken ==> Valid() && r == 0 && exists c :: Copies(pkt, c) && All() == old(All()) + c
      ensures connected ==> !broken && wire == old(wire) + [pkt.data] && log.Contents() == []
      ensures asked == old(asked) + 1 && (connected <==> net(old(asked)).Good?)
      ensures Failures() >= old(Failures()) && (broken <==> Failures() > old(Failures()))
      ensures old(Roomy(Cost(pkt))) ==> !broken && !log.fdOpen && Used() <= old(Used()) + Cost(pkt)
    {
      hide Log.Valid, Total;
      ghost var all := All();
      assert wire == all;
      var result := Send(pkt.data);
      if result == |pkt.data| {
        assert Copies(pkt, [pkt.data]);
        return 0, false;
      }
      assert all + [] == all;
      r, broken := Stash(pkt, all, []);
    }
  }

  // ---- whole runs ----------------------------------------------------------

  datatype Event = Offer(pkt: Packet, polled: bool) | Connect | Disconnect | Flush

  /** The events offered that were not refused for their size. */
  function Offered(run: seq<Event>): seq<Packet> {
    if run == [] then []
    else
      var n := |run| - 1;
      Offered(run[..n]) + if run[n].Offer? && Sendable(run[n].pkt.data) then [run[n].pkt] else []
  }

  lemma OfferedNext(run: seq<Event>, i: nat)
    requires i < |run|
    ensures Offered(run[..i + 1])
         == if run[i].Offer? && Sendable(run[i].pkt.data) then Offered(run[..i]) + [run[i].pkt] else Offered(run[..i])
  {
    assert run[..i + 1][..i] == run[..i];
  }

  /** What the events offered take in memory, each put there once. */
  function Footprint(run: seq<Event>): nat {
    if run == [] then 0
    else
      var n := |run| - 1;
      Footprint(run[..n]) + if run[n].Offer? then Cost(run[n].pkt) else 0
  }

  lemma FootprintNext(run: seq<Event>, i: nat)
    requires i < |run|
    ensures Footprint(run[..i + 1]) == Footprint(run[..i]) + if run[i].Offer? then Cost(run[i].pkt) else 0
  {
    assert run[..i + 1][..i] == run[..i];
  }

  lemma {:induction false} FootprintGrows(run: seq<Event>, i: nat)
    requires i <= |run|
    ensures Footprint(run[..i]) <= Footprint(run)
    decreases |run| - i
  {
    if i < |run| {
      FootprintNext(run, i);
      FootprintGrows(run, i + 1);
    } else {
      assert run[..i] == run;
    }
  }

  /** A node with a network that takes all it is given: what has gone out, what waits, and whether there is a connection. */
  datatype Ideal = Ideal(wire: seq<seq<octet>>, queue: seq<seq<octet>>, up: bool)

  function IdealStep(s: Ideal, e: Event): Ideal {
    match e
    case Connect => s.(up := true)
    case Disconnect => s.(up := false)
    case Flush => if s.up then Ideal(s.wire + s.queue, [], true) else s
    case Offer(pkt, _) =>
      if !Sendable(pkt.data) then s
      else if s.up then Ideal(s.wire + s.queue + [pkt.data], [], true)
      else s.(queue := s.queue + Kept(pkt))
  }

  function IdealRun(run: seq<Event>): Ideal {
    if run == [] then Ideal([], [], false) else IdealStep(IdealRun(run[..|run| - 1]), run[|run| - 1])
  }

  lemma IdealNext(run: seq<Event>, i: nat)
    requires i < |run|
    ensures IdealRun(run[..i + 1]) == IdealStep(IdealRun(run[..i]), run[i]) && IdealRun([]) == Ideal([], [], false)
  {
    assert run[..i + 1][..i] == run[..i];
  }

  /**
   Any run of offers, connection losses and reconnects, whatever the sockets do:
   what went out, then what is queued, is what was offered, in order, nothing
   lost, a repeat next to its original. It is broken off exactly when the
   backlog fails: when it refuses an event, or has to take one back into its
   file. That never happens if memory has room for the events offered, twice. As
   long as the sockets take what they are given, all that is offered with a
   connection goes out at once, behind what was waiting, and nothing else waits.
   */
  method Run(hasPath: bool, msize: nat, fsize: nat, run: seq<Event>, net: nat -> Answer)
    returns (out: seq<seq<octet>>, logged: int, bytes: int, broken: bool, ghost log: Log, ghost asked: nat)
    requires fsize > 0 ==> hasPath
    requires forall i :: 0 <= i < |run| && run[i].Offer? ==> HDR_SIZE <= |run[i].pkt.data|
    ensures !broken ==> Stutters(Offered(run), out)
    ensures !broken ==> 0 <= logged <= |out| && bytes == Total(out[|out| - logged..])
    ensures !broken && (forall i: nat :: i < asked ==> net(i).Good?) ==>
              out == IdealRun(run).wire + IdealRun(run).queue && logged == |IdealRun(run).queue|
    ensures log.maxMemSize == msize && (broken <==> log.refusals > 0 || log.slips > 0)
    ensures 2 * Footprint(run) + SLOT < msize <= TWO32 ==> !broken
  {
    hide Log.Valid, Total, Stutters, Offered, Copies, Footprint, IdealRun;
    var node := new Node(hasPath, msize, fsize, net);
    broken, log := false, node.log;
    NothingOffered();
    assert run[..0] == [];
    assert IdealRun([]) == Ideal([], [], false) by { NothingRun(); }
    for i := 0 to |run|
      invariant fresh(node) && fresh(node.log) && node.log.maxMemSize == msize && node.Valid() && node.Failures() == 0
      invariant node.net == net && (node.SmoothSince(0) ==> IdealRun(run[..i]) == Ideal(node.wire, node.log.Contents(), node.connected))
      invariant log == node.log && Stutters(Offered(run[..i]), node.All())
      invariant 2 * Footprint(run) + SLOT < msize <= TWO32 ==>
                  !node.log.fdOpen && node.Used() <= 2 * Footprint(run[..i]) + SLOT
    {
      OfferedNext(run, i);
      FootprintNext(run, i);
      FootprintGrows(run, i + 1);
      IdealNext(run, i);
      match run[i] {
        case Offer(pkt, polled) =>
          ghost var before := node.All();
          var r;
          r, broken := node.SendEvent(pkt, polled);
          if broken { return [], 0, 0, true, node.log, node.asked; }
          if Sendable(pkt.data) {
            ghost var c :| Copies(pkt, c) && node.All() == before + c;
            StuttersMore(Offered(run[..i]), before, pkt, c);
          }
        case Connect => node.connected := true;
        case Disconnect => node.connected := false;
        case Flush =>
          var r;
          ghost var before := node.All();
          r, broken := node.SendBinlog(None);
          if broken { return [], 0, 0, true, node.log, node.asked; }
          assert before + [] == before;
      }
    }
    assert run[..|run|] == run;
    out, logged, bytes, asked := node.wire, node.eventsLogged, node.bytesLogged, node.asked;
    ghost var all, queue := node.All(), node.log.Contents();
    var rest := Drain(node.log);
    out := out + rest;
    assert out[|out| - logged..] == queue;
  }

  /** Everything in the backlog, by reading it. */
  method Drain(log: Log) returns (rest: seq<seq<octet>>)
    requires log.Valid()
    modifies log
    ensures rest == old(log.Contents()) && log.refusals == old(log.refusals) && log.slips == old(log.slips)
  {
    hide Log.Valid;
    rest := [];
    while true
      invariant log.Valid() && rest + log.Contents() == old(log.Contents())
      invariant log.refusals == old(log.refusals) && log.slips == old(log.slips)
      decreases |log.Contents()|
    {
      ghost var q := log.Contents();
      var x, e := log.Read();
      if x != Binlog.OK { return; }
      QueueHead(q, rest);
      rest := rest + [e];
    }
  }

  lemma NothingRun()
    ensures IdealRun([]) == Ideal([], [], false)
  {
  }

  lemma NothingOffered()
    ensures Offered([]) == [] && Stutters([], []) && Footprint([]) == 0
  {
  }

  lemma EmptyQueue(log: Log)
    requires log.Valid()
    ensures log.Contents() == [] ==> log.fileQ == []
  {
  }

  lemma MemoryEmptyIff(log: Log)
    requires log.Valid()
    ensures log.memQ == [] <==> log.readIndex >= log.writeIndex
    ensures !log.fdOpen ==> log.fileQ == []
  {
    FileEmptyIff(log.file, log.fileSize, log.fileReadPos, log.fileEntries, log.fileQ);
  }

  lemma QueueHead(q: seq<seq<octet>>, w: seq<seq<octet>>)
    requires q != []
    ensures q == [q[0]] + q[1..] && w + q == w + [q[0]] + q[1..]
  {
  }

  lemma TotalFirst(q: seq<seq<octet>>, e: seq<octet>)
    ensures Total([e] + q) == |e| + Total(q)
  {
    assert ([e] + q)[1..] == q;
  }
}
