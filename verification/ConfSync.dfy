/**
 Who sends configuration to whom: node_oconf_cmp of shared/node.c, run at both
 ends of a connection, and the choice made from it in module/script-helpers.c.
 */
module ConfSync {
  import opened Options
  import opened PeerOrder
  import opened NodeStates
  import opened Words

  type Hash = seq<nat>

  /** The part of merlin_nodeinfo that the comparison looks at. */
  datatype Info = Info(lastCfgChange: int, hash: Hash, start: Timeval)

  /** own is ipc.info, expected what is expected of the other node, fetches whether "mon oconf fetch" is configured for it. */
  function OconfCmp(kind: Kind, fetches: bool, own: Info, expected: Info, info: Info): int {
    var tdelta := Int32(info.lastCfgChange - expected.lastCfgChange);
    if kind == MASTER then
      if fetches && tdelta > 0 then 1 else if fetches && tdelta < 0 then -1 else 0
    else if info.hash == expected.hash then 0
    else if tdelta == 0 then
      if kind == POLLER then -1
      else if own.start.sec < info.start.sec then -1
      else if own.start.sec > info.start.sec then 1
      else if own.start.usec < info.start.usec then -1
      else if own.start.usec == info.start.usec then -1
      else 1
    else tdelta
  }

  /** Of a peer a node expects its own configuration. */
  function PeerCmp(own: Info, info: Info): int { OconfCmp(PEER, false, own, own, info) }

  // ---- peers ---------------------------------------------------------------

  /** The later configuration wins, and the node that started earlier if they are of the same time. */
  predicate Wins(a: Info, b: Info) {
    a.lastCfgChange > b.lastCfgChange || (a.lastCfgChange == b.lastCfgChange && Earlier(a.start, b.start))
  }

  predicate Tied(a: Info, b: Info) { a.lastCfgChange == b.lastCfgChange && a.start == b.start }

  /** How much later b's configuration is than a's, as the comparison sees it. */
  function Ahead(a: Info, b: Info): (r: int)
    ensures 0 <= r < TWO32
  {
    (b.lastCfgChange - a.lastCfgChange) % TWO32
  }

  /** What the comparison comes to for peers with different configurations. */
  lemma PeerCmpSigns(a: Info, b: Info)
    requires a.hash != b.hash
    ensures PeerCmp(a, b) < 0 <==> Ahead(a, b) >= TWO31 || (Ahead(a, b) == 0 && !Earlier(b.start, a.start))
    ensures PeerCmp(a, b) > 0 <==> 0 < Ahead(a, b) < TWO31 || (Ahead(a, b) == 0 && Earlier(b.start, a.start))
    ensures Ahead(a, b) == 0 ==> PeerCmp(a, b) == 1 || PeerCmp(a, b) == -1
  {
    Int32Sign(b.lastCfgChange - a.lastCfgChange);
  }

  lemma AheadBack(a: Info, b: Info)
    ensures Ahead(b, a) == if Ahead(a, b) == 0 then 0 else TWO32 - Ahead(a, b)
  {
    var x := b.lastCfgChange - a.lastCfgChange;
    assert a.lastCfgChange - b.lastCfgChange == -x;
  }

  /** Times that the comparison takes for 2^31 seconds apart, or for the same, with the same start. */
  predicate BothWin(a: Info, b: Info) {
    Ahead(a, b) == TWO31 || (Ahead(a, b) == 0 && a.start == b.start)
  }

  /** With different configurations one end pushes exactly when the other fetches, unless both win: then, and only then, both push. */
  lemma EndsAgree(a: Info, b: Info)
    requires a.hash != b.hash
    ensures PeerCmp(a, b) < 0 && PeerCmp(b, a) < 0 <==> BothWin(a, b)
    ensures !BothWin(a, b) ==> (PeerCmp(a, b) < 0 <==> PeerCmp(b, a) > 0) && (PeerCmp(a, b) > 0 <==> PeerCmp(b, a) < 0)
  {
    hide PeerCmp, Ahead;
    PeerCmpSigns(a, b);
    PeerCmpSigns(b, a);
    AheadBack(a, b);
  }

  /** What is meant: a node pushes if it wins or is tied, and fetches if it loses. */
  predicate RightWay(a: Info, b: Info) {
    (PeerCmp(a, b) < 0 <==> Wins(a, b) || Tied(a, b)) && (PeerCmp(a, b) > 0 <==> Wins(b, a))
  }

  /**
   Configuration times whose difference keeps its sign modulo 2^32. If it
   becomes 0 the start times decide, and may happen to be right.
   */
  predicate Near(a: Info, b: Info) {
    var d := b.lastCfgChange - a.lastCfgChange;
    if d > 0 then 0 < Ahead(a, b) < TWO31 || (Ahead(a, b) == 0 && Earlier(b.start, a.start))
    else if d < 0 then Ahead(a, b) > TWO31 || (Ahead(a, b) == 0 && Earlier(a.start, b.start))
    else true
  }

  /** With different configurations both ends do what is meant exactly when their times are near. */
  lemma DirectionExact(a: Info, b: Info)
    requires a.hash != b.hash
    ensures RightWay(a, b) && RightWay(b, a) <==> Near(a, b)
  {
    hide PeerCmp;
    PeerCmpSigns(a, b);
    PeerCmpSigns(b, a);
    AheadBack(a, b);
    assert a.lastCfgChange == b.lastCfgChange ==> Ahead(a, b) == 0;
    hide Ahead;
  }

  lemma NearBack(a: Info, b: Info)
    ensures Near(a, b) <==> Near(b, a)
  {
    AheadBack(a, b);
    hide Ahead;
  }

  /** Less than 2^31 seconds are enough. */
  lemma CloseIsNear(a: Info, b: Info)
    requires -TWO31 < a.lastCfgChange - b.lastCfgChange < TWO31
    ensures Near(a, b)
  {
    var d := b.lastCfgChange - a.lastCfgChange;
    assert d > 0 ==> d % TWO32 == d;
    assert d < 0 ==> d % TWO32 == TWO32 + d;
  }

  /** With near times a node pushes if it wins or is tied, and fetches if it loses; it always does one. */
  lemma Direction(a: Info, b: Info)
    requires a.hash != b.hash && Near(a, b)
    ensures PeerCmp(a, b) < 0 <==> Wins(a, b) || Tied(a, b)
    ensures PeerCmp(a, b) > 0 <==> Wins(b, a)
  {
    hide PeerCmp, Near, Wins, Tied;
    DirectionExact(a, b);
  }

  /** Nothing is done exactly when the configurations are the same. */
  lemma NothingToDo(a: Info, b: Info)
    ensures a.hash == b.hash <==> PeerCmp(a, b) == 0
  {
    if a.hash != b.hash { PeerCmpSigns(a, b); }
  }

  /** Times 2^31 seconds apart can send the older configuration over the newer one, and make three peers push in a circle. */
  lemma TooFarApart(h: Hash, h': Hash, h'': Hash)
    requires h != h' && h' != h'' && h'' != h
    ensures var a, b := Info(0, h, Timeval(1, 0)), Info(TWO31, h', Timeval(2, 0));
            PeerCmp(a, b) < 0 && PeerCmp(b, a) < 0 && Wins(b, a) && !Near(a, b)
    ensures var t := Timeval(1, 0);
            var a, b, c := Info(0x1_0000_0000, h, t), Info(0xb000_0000, h', t), Info(0x6000_0000, h'', t);
            PeerCmp(a, b) < 0 && PeerCmp(b, c) < 0 && PeerCmp(c, a) < 0
  {
    var a, b := Info(0, h, Timeval(1, 0)), Info(TWO31, h', Timeval(2, 0));
    PeerCmpSigns(a, b);
    PeerCmpSigns(b, a);
  }

  /** Peers that can be told apart, pairwise. */
  ghost predicate Distinguished(peers: seq<Info>) {
    forall i, j :: 0 <= i < j < |peers| ==>
      peers[i].hash != peers[j].hash && Near(peers[i], peers[j]) && !Tied(peers[i], peers[j])
  }

  /** Peers whose times are less than 2^31 seconds apart can be, if their configurations differ and they are not tied. */
  lemma CloseTogether(peers: seq<Info>, from: int)
    requires forall i :: 0 <= i < |peers| ==> from <= peers[i].lastCfgChange < from + TWO31
    requires forall i, j :: 0 <= i < j < |peers| ==> peers[i].hash != peers[j].hash && !Tied(peers[i], peers[j])
    ensures Distinguished(peers)
  {
    hide Near, Tied;
    forall i, j | 0 <= i < j < |peers| ensures Near(peers[i], peers[j]) {
      CloseIsNear(peers[i], peers[j]);
    }
  }

  lemma WinsIsOrder(a: Info, b: Info, c: Info)
    ensures !Wins(a, a)
    ensures Wins(a, b) && Wins(b, c) ==> Wins(a, c)
    ensures Wins(a, b) || Wins(b, a) || Tied(a, b)
  {
  }

  /** route is a way through the peers along which each pushes to the next. */
  ghost predicate PushRoute(peers: seq<Info>, route: seq<nat>) {
    && (forall i :: 0 <= i < |route| ==> route[i] < |peers|)
    && (forall i :: 0 < i < |route| ==> route[i - 1] != route[i] && PeerCmp(peers[route[i - 1]], peers[route[i]]) < 0)
  }

  lemma {:induction false} RouteDescends(peers: seq<Info>, route: seq<nat>)
    requires Distinguished(peers) && PushRoute(peers, route) && |route| > 1
    ensures Wins(peers[route[0]], peers[route[|route| - 1]])
  {
    hide PeerCmp, Near;
    var n := |route| - 1;
    var a, b := peers[route[n - 1]], peers[route[n]];
    assert PeerCmp(a, b) < 0;
    assert a.hash != b.hash && Near(a, b) && !Tied(a, b) by {
      if route[n - 1] > route[n] { assert peers[route[n]].hash != peers[route[n - 1]].hash; NearBack(a, b); }
    }
    Direction(a, b);
    if n > 1 {
      var front := route[..n];
      assert PushRoute(peers, front);
      RouteDescends(peers, front);
      WinsIsOrder(peers[route[0]], a, b);
    }
  }

  /** Pushing never goes round in circles. */
  lemma NoCycle(peers: seq<Info>, route: seq<nat>)
    requires Distinguished(peers) && PushRoute(peers, route) && |route| > 1
    ensures route[0] != route[|route| - 1]
  {
    RouteDescends(peers, route);
    WinsIsOrder(peers[route[0]], peers[route[0]], peers[route[0]]);
  }

  /** There is exactly one peer that fetches from nobody, and it pushes to everybody. */
  lemma {:induction false} OneSource(peers: seq<Info>) returns (top: nat)
    requires Distinguished(peers) && peers != []
    ensures top < |peers|
    ensures forall i :: 0 <= i < |peers| && i != top ==> Wins(peers[top], peers[i]) && PeerCmp(peers[i], peers[top]) > 0
  {
    hide PeerCmp, Near;
    var n := |peers| - 1;
    top := n;
    if n > 0 {
      var best := OneSource(peers[..n]);
      if Wins(peers[best], peers[n]) {
        top := best;
      } else {
        WinsIsOrder(peers[best], peers[n], peers[n]);
        forall i | 0 <= i < n ensures Wins(peers[n], peers[i]) {
          if i != best {
            assert peers[i] == peers[..n][i];
            WinsIsOrder(peers[n], peers[best], peers[i]);
          }
        }
      }
    }
    forall i | 0 <= i < |peers| && i != top
      ensures Wins(peers[top], peers[i]) && PeerCmp(peers[i], peers[top]) > 0
    {
      if top < n && i < n { assert peers[i] == peers[..n][i] && peers[top] == peers[..n][top]; }
      NearBack(peers[i], peers[top]);
      assert peers[i].hash != peers[top].hash && Near(peers[i], peers[top]);
      Direction(peers[i], peers[top]);
    }
  }

  // ---- the choice of command -----------------------------------------------

  datatype Step = Nothing | NoSync | Push | Fetch

  /** What csync_node_active sees of a node: its commands, where "no" switches one off, and its flags. */
  datatype Config = Config(kind: Kind, push: Option<string>, fetch: Option<string>, connect: bool, configured: bool,
                           allPeersActive: bool)

  predicate Usable(cmd: Option<string>) { cmd.Some? && cmd.value != "no" }

  function Choose(c: Config, tdelta: int, realTdelta: int): Step {
    if c.push.None? && c.fetch.None? then NoSync
    else if c.kind == POLLER && realTdelta >= 0 && !c.allPeersActive then Nothing
    else if !c.connect && !c.configured then Nothing
    else if c.kind == MASTER then (if Usable(c.fetch) then Fetch else Nothing)
    else if c.kind == POLLER then (if Usable(c.push) then Push else Nothing)
    else if tdelta < 0 then (if Usable(c.push) then Push else Nothing)
    else if tdelta > 0 then (if Usable(c.fetch) then Fetch else Nothing)
    else Nothing
  }

  /** A peer that may both push and fetch. */
  predicate Synced(c: Config) { c.kind == PEER && (c.connect || c.configured) && Usable(c.push) && Usable(c.fetch) }

  /**
   Two peers that both may push and fetch: they both push exactly when both
   win; otherwise one does the one exactly when the other does the other, and
   with near times the winner pushes.
   */
  lemma CommandsAgree(a: Info, b: Info, ca: Config, cb: Config, ra: int, rb: int)
    requires a.hash != b.hash && Synced(ca) && Synced(cb)
    ensures Choose(ca, PeerCmp(a, b), ra) == Push && Choose(cb, PeerCmp(b, a), rb) == Push <==> BothWin(a, b)
    ensures !BothWin(a, b) ==> (Choose(ca, PeerCmp(a, b), ra) == Push <==> Choose(cb, PeerCmp(b, a), rb) == Fetch)
    ensures !BothWin(a, b) ==> (Choose(ca, PeerCmp(a, b), ra) == Fetch <==> Choose(cb, PeerCmp(b, a), rb) == Push)
    ensures Near(a, b) && !Tied(a, b) ==> Choose(ca, PeerCmp(a, b), ra) == if Wins(a, b) then Push else Fetch
  {
    hide PeerCmp, Near, BothWin;
    EndsAgree(a, b);
    NothingToDo(a, b);
    NothingToDo(b, a);
    WinsIsOrder(a, b, b);
    if Near(a, b) { Direction(a, b); }
  }

  // ---- masters and pollers -------------------------------------------------

  /** What is done about a node's configuration: the other one's replaces the local one, or the other way round. */
  datatype Flow = FromThem | ToThem | Neither

  function FlowOf(step: Step): Flow { match step case Fetch => FromThem case Push => ToThem case _ => Neither }

  /** The commands may be run for this node at all. */
  predicate Enabled(c: Config) { c.connect || c.configured }

  /** A configuration never goes to a master or comes from a poller, and goes the other way exactly if that is enabled. */
  lemma Downwards(c: Config, tdelta: int, realTdelta: int)
    requires c.kind == MASTER || c.kind == POLLER
    ensures var flow := FlowOf(Choose(c, tdelta, realTdelta));
            if c.kind == MASTER then flow != ToThem && (flow == FromThem <==> Enabled(c) && c.fetch.Some? && c.fetch.value != "no")
            else flow != FromThem && (flow == ToThem <==> Enabled(c) && c.push.Some? && c.push.value != "no" && (realTdelta < 0 || c.allPeersActive))
  {
  }

  /** A node with no commands at all is disconnected. */
  lemma NoCommands(c: Config, tdelta: int, realTdelta: int)
    ensures Choose(c, tdelta, realTdelta) == NoSync <==> c.push.None? && c.fetch.None?
  {
  }

  /** Among peers it goes to the one that is behind. */
  lemma Sideways(c: Config, tdelta: int, realTdelta: int)
    requires c.kind == PEER
    ensures var flow := FlowOf(Choose(c, tdelta, realTdelta));
            && (flow == ToThem <==> Enabled(c) && c.push.Some? && c.push.value != "no" && tdelta < 0)
            && (flow == FromThem <==> Enabled(c) && c.fetch.Some? && c.fetch.value != "no" && tdelta > 0)
  {
  }

  /**
   At the two ends of one connection, between a master and its poller, the
   master's configuration is the only one that moves, whatever the two know of
   each other and have configured.
   */
  lemma MasterPrevails(atPoller: Config, atMaster: Config, d: int, rd: int, e: int, re: int)
    requires atPoller.kind == MASTER && atMaster.kind == POLLER
    ensures FlowOf(Choose(atPoller, d, rd)) in {FromThem, Neither} && FlowOf(Choose(atMaster, e, re)) in {ToThem, Neither}
  {
    Downwards(atPoller, d, rd);
    Downwards(atMaster, e, re);
  }

  /** A master's configuration is only looked at by a node that fetches it; then it is newer or older as its time is. */
  lemma MasterCmp(fetches: bool, own: Info, expected: Info, info: Info)
    ensures !fetches ==> OconfCmp(MASTER, fetches, own, expected, info) == 0
    ensures fetches ==> (OconfCmp(MASTER, fetches, own, expected, info) > 0 <==> 0 < Ahead(expected, info) < TWO31)
    ensures fetches ==> (OconfCmp(MASTER, fetches, own, expected, info) < 0 <==> Ahead(expected, info) >= TWO31)
    ensures fetches && KeepsSign(info.lastCfgChange - expected.lastCfgChange) ==>
              (OconfCmp(MASTER, fetches, own, expected, info) > 0 <==> info.lastCfgChange > expected.lastCfgChange)
              && (OconfCmp(MASTER, fetches, own, expected, info) < 0 <==> info.lastCfgChange < expected.lastCfgChange)
  {
    Int32Sign(info.lastCfgChange - expected.lastCfgChange);
  }

  /** A poller with another configuration than expected is behind, unless its time is later. */
  lemma PollerCmp(fetches: bool, own: Info, expected: Info, info: Info)
    ensures OconfCmp(POLLER, fetches, own, expected, info) == 0 <==> info.hash == expected.hash
    ensures info.hash != expected.hash ==> (OconfCmp(POLLER, fetches, own, expected, info) > 0 <==> 0 < Ahead(expected, info) < TWO31)
    ensures info.hash != expected.hash && KeepsSign(info.lastCfgChange - expected.lastCfgChange) ==>
              (OconfCmp(POLLER, fetches, own, expected, info) < 0 <==> info.lastCfgChange <= expected.lastCfgChange)
  {
    Int32Sign(info.lastCfgChange - expected.lastCfgChange);
  }

  // ---- one attempt at a time -----------------------------------------------

  /** The attempt bookkeeping of one node. */
  class Attempts {
    var last: int
    var count: nat
    var pushing: bool
    var fetching: bool

    constructor ()
      ensures last == 0 && count == 0 && !pushing && !fetching
    {
      last, count, pushing, fetching := 0, 0, false, false;
    }

    /** The rest of csync_node_active, at time now. The command ":" is not run. */
    method NodeActive(c: Config, tdelta: int, realTdelta: int, now: int) returns (started: bool)
      modifies this
      ensures started <==> old((Choose(c, tdelta, realTdelta) == Push && !pushing)
                               || (Choose(c, tdelta, realTdelta) == Fetch && !fetching)) && old(last) < now - 30
      ensures started ==> last == now && count == old(count) + 1
      ensures started ==> pushing == (old(pushing) || (Choose(c, tdelta, realTdelta) == Push && c.push != Some(":")))
      ensures started ==> fetching == (old(fetching) || (Choose(c, tdelta, realTdelta) == Fetch && c.fetch != Some(":")))
      ensures !started ==> unchanged(this)
      // nothing is ever pushed to a master or fetched from a poller
      ensures c.kind == MASTER ==> pushing == old(pushing)
      ensures c.kind == POLLER ==> fetching == old(fetching)
    {
      var child := Choose(c, tdelta, realTdelta);
      if child == Nothing || child == NoSync { return false; }
      if (child == Push && pushing) || (child == Fetch && fetching) { return false; }
      if last >= now - 30 { return false; }
      count := count + 1;
      last := now;
      if child == Push {
        if c.push.value != ":" { pushing := true; }
      } else {
        if c.fetch.value != ":" { fetching := true; }
      }
      return true;
    }
  }
}
