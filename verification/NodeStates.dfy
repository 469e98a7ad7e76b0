/**
 The connection state of the nodes a module knows: node_set_state and
 node_disconnect of shared/node.c with the action handlers of module/module.c.
 A state change may send a control packet, which may fail and so disconnect the
 node again before the change is over.
 */
module NodeStates {
  import opened Options
  import opened PeerOrder

  datatype Kind = LOCAL | MASTER | PEER | POLLER

  const NEVER := Timeval(0, 0)

  /** The transitions listed in node_set_state, for every node but the local one. */
  predicate Legal(from: State, to: State) {
    match to
    case NONE => true
    case _ =>
      match from
      case NONE => to == PENDING || to == NEGOTIATING
      case PENDING => true
      case NEGOTIATING => to == CONNECTED
      case CONNECTED => false
  }

  function Level(s: State): nat {
    match s case NONE => 0 case PENDING => 1 case NEGOTIATING => 2 case CONNECTED => 3
  }

  /** A connection is built up step by step, but not in one, and is torn down at once. */
  lemma LegalLevels(from: State, to: State)
    requires from != to
    ensures Legal(from, to) <==> to == NONE || (Level(from) < Level(to) && !(from == NONE && to == CONNECTED))
  {
  }

  /**
   What becomes of a node that is to change its state; sent says whether the
   control packet that goes with the change is sent. A change that is not listed
   and one that cannot be sent drop the node, and a node that is dropped or
   leaves CONNECTED is forgotten. The local node forgets nothing.
   */
  function Changed(local: bool, p: Peer, state: State, sent: bool): Peer {
    if p.state == state then p
    else if local then p.(state := if state == CONNECTED && !sent then NONE else state)
    else if !Legal(p.state, state) || (state == NEGOTIATING && !sent) || (state == NONE && p.state == CONNECTED) then Peer(NONE, NEVER)
    else p.(state := state)
  }

  lemma {:induction false} NumUpSame(v: View, w: View, s: seq<NodeId>)
    requires Known(v, s) && Known(w, s) && forall i :: 0 <= i < |s| ==> (Up(v, s[i]) <==> Up(w, s[i]))
    ensures NumUp(v, s) == NumUp(w, s)
  {
    if s != [] { NumUpSame(v, w, s[1..]); }
  }

  /** Nodes of kind k that are connected. */
  ghost function Linked(kind: map<NodeId, Kind>, known: map<NodeId, Peer>, k: Kind): set<NodeId> {
    set n | n in known && n in kind && kind[n] == k && known[n].state == CONNECTED
  }

  /** Changing the state of one node changes one count, by one, and only to or from CONNECTED. */
  lemma LinkedChange(kind: map<NodeId, Kind>, known: map<NodeId, Peer>, n: NodeId, p: Peer, k: Kind)
    requires n in known && n in kind
    ensures var was, now := known[n].state == CONNECTED, p.state == CONNECTED;
            |Linked(kind, known[n := p], k)| == |Linked(kind, known, k)|
              + if kind[n] == k && now && !was then 1 else if kind[n] == k && was && !now then -1 else 0
  {
    var a, b := Linked(kind, known, k), Linked(kind, known[n := p], k);
    var was, now := known[n].state == CONNECTED, p.state == CONNECTED;
    assert forall m :: m != n ==> (m in b <==> m in a);
    assert (n in a <==> kind[n] == k && was) && (n in b <==> kind[n] == k && now);
    hide Linked;
    if kind[n] == k && now && !was {
      assert b == a + {n};
    } else if kind[n] == k && was && !now {
      assert b == a - {n};
    } else {
      assert b == a;
    }
  }

  /** A group is counted and numbered: its active nodes are the ones that are up and have the lowest numbers. */
  ghost predicate Counted(v: View, s: seq<NodeId>, active: nat, peerId: map<NodeId, nat>) {
    && Known(v, s) && active == NumUp(v, s)
    && (forall i :: 0 <= i < |s| ==> (Up(v, s[i]) <==> i < active))
    && (forall i :: 0 <= i < active ==> s[i] in peerId && peerId[s[i]] == i)
  }

  lemma CountedSame(v: View, w: View, s: seq<NodeId>, active: nat, peerId: map<NodeId, nat>)
    requires Counted(v, s, active, peerId) && v.self == w.self && Known(w, s)
    requires forall i :: 0 <= i < |s| ==> (v.known[s[i]].state == CONNECTED <==> w.known[s[i]].state == CONNECTED) || s[i] == v.self
    ensures Counted(w, s, active, peerId)
  {
    NumUpSame(v, w, s);
  }

  ghost predicate InOrder(v: View, order: seq<seq<NodeId>>, g: nat) {
    g < |order| && Known(v, order[g]) && Sorted(v, order[g])
  }

  /** The groups list every node that has one, once, in its own. */
  ghost predicate Partition(groupOf: map<NodeId, nat>, order: seq<seq<NodeId>>) {
    && (forall n :: n in groupOf ==> groupOf[n] < |order| && n in order[groupOf[n]])
    && (forall g, i :: 0 <= g < |order| && 0 <= i < |order[g]| ==> order[g][i] in groupOf && groupOf[order[g][i]] == g)
    && (forall g :: 0 <= g < |order| ==> Distinct(order[g]))
  }

  lemma Reordered(groupOf: map<NodeId, nat>, order: seq<seq<NodeId>>, g: nat, s: seq<NodeId>)
    requires Partition(groupOf, order) && g < |order| && multiset(s) == multiset(order[g])
    ensures Partition(groupOf, order[g := s])
  {
    PermutedDistinct(order[g], s);
    forall i | 0 <= i < |s| ensures s[i] in groupOf && groupOf[s[i]] == g {
      assert s[i] in order[g];
    }
  }

  /** The groups at one moment, and what is known of their members. */
  datatype Snapshot = Snapshot(view: View, order: seq<seq<NodeId>>, active: seq<nat>)

  /** In every group the active nodes are in order. */
  ghost predicate AllLead(s: Snapshot) {
    |s.order| == |s.active| && forall g :: 0 <= g < |s.order| ==> Leads(s.view, s.order[g], s.active[g])
  }

  function Announced(v: View, n: NodeId, start: Timeval): View
    requires n in v.known
  {
    v.(known := v.known[n := v.known[n].(start := start)])
  }

  /** With this start time a node that is connected is still in order with those next to it. */
  predicate InPlace(s: Snapshot, n: NodeId, start: Timeval) {
    n in s.view.known && s.view.known[n].state == CONNECTED ==>
      forall g, p :: 0 <= g < |s.order| && g < |s.active| && 0 <= p < |s.order[g]| && s.order[g][p] == n ==>
        Between(Announced(s.view, n, start), s.order[g], s.active[g], p)
  }

  class Module {
    const self: NodeId
    const kind: map<NodeId, Kind>
    /** The peer group of every node that has one; the local group is 0. */
    const groupOf: map<NodeId, nat>
    var known: map<NodeId, Peer>
    var activeMasters: int
    var activePeers: int
    var activePollers: int
    var order: seq<seq<NodeId>>
    var active: seq<nat>
    var peerId: map<NodeId, nat>

    ghost function Sees(): View
      reads this
    {
      View(self, known)
    }

    /** The configuration, which never changes: who there is and in which group. */
    ghost predicate Configured()
      reads this
    {
      && known.Keys == kind.Keys && self in kind
      && (forall n :: n in kind ==> (kind[n] == LOCAL <==> n == self))
      && (forall n :: n in kind ==> (n in groupOf <==> kind[n] != MASTER))
      && groupOf.Keys <= kind.Keys && |order| == |active| && Partition(groupOf, order)
      && Clocks(Sees()) && Microseconds(Sees())
    }

    ghost predicate CountersRight()
      reads this
    {
      && activeMasters == |Linked(kind, known, MASTER)|
      && activePeers == |Linked(kind, known, PEER)|
      && activePollers == |Linked(kind, known, POLLER)|
    }

    ghost predicate GroupsRight()
      reads this
    {
      |order| == |active| && forall g :: 0 <= g < |order| ==> Counted(Sees(), order[g], active[g], peerId)
    }

    ghost predicate Valid()
      reads this
    {
      Configured() && CountersRight() && GroupsRight()
    }

    ghost function Now(): Snapshot
      reads this
    {
      Snapshot(Sees(), order, active)
    }

    ghost predicate Ordered()
      reads this
    {
      AllLead(Now())
    }

    /** At startup nobody is connected and the local group is numbered. */
    constructor (self: NodeId, kind: map<NodeId, Kind>, groupOf: map<NodeId, nat>, order: seq<seq<NodeId>>, start: Timeval)
      requires self in kind && (forall n :: n in kind ==> (kind[n] == LOCAL <==> n == self))
      requires forall n :: n in kind ==> (n in groupOf <==> kind[n] != MASTER)
      requires groupOf.Keys <= kind.Keys && Partition(groupOf, order) && groupOf[self] == 0
      requires InRange(start)
      ensures Valid() && this.kind == kind && this.self == self && this.groupOf == groupOf
      ensures known.Keys == kind.Keys && forall n :: n in known ==> known[n].state == NONE
      ensures forall n :: n in known && n != self ==> known[n].start == NEVER
      ensures known[self].start == start && Ordered() && |this.order| == |order|
    {
      hide NumUp, Sorted, CmpPeer, Partition, Leads, Clocks, Microseconds, Counted, Linked;
      this.self, this.kind, this.groupOf, this.order := self, kind, groupOf, order;
      known := map n | n in kind :: Peer(NONE, if n == self then start else NEVER);
      activeMasters, activePeers, activePollers := 0, 0, 0;
      active := seq(|order|, _ => 0);
      peerId := map[];
      new;
      NobodyLinked(kind, known);
      StartClocks(Sees(), start);
      GroupInRange(this, self);
      OthersDown(this);
      ghost var v, o := Sees(), order;
      AssignPeerIds(0);
      NobodyLeads(v, o, active);
    }

    /** The numbering loop of pgroup_assign_peer_ids. */
    method Number(s: seq<NodeId>) returns (count: nat)
      requires Known(Sees(), s) && Distinct(s) && forall i :: 0 <= i < |s| ==> (Up(Sees(), s[i]) <==> i < NumUp(Sees(), s))
      modifies `peerId
      ensures count == NumUp(Sees(), s)
      ensures forall j :: 0 <= j < |s| ==> s[j] in peerId && peerId[s[j]] == j
      ensures forall n :: n in old(peerId) && n !in s ==> n in peerId && peerId[n] == old(peerId)[n]
    {
      hide NumUp;
      ghost var k := NumUp(Sees(), s);
      count := 0;
      for i := 0 to |s|
        invariant count == if i < k then i else k
        invariant forall j :: 0 <= j < i ==> s[j] in peerId && peerId[s[j]] == j
        invariant forall n :: n in old(peerId) && n !in s ==> n in peerId && peerId[n] == old(peerId)[n]
      {
        peerId := peerId[s[i] := i];
        if s[i] == self || known[s[i]].state == CONNECTED { count := count + 1; }
      }
    }

    /** pgroup_assign_peer_ids: sort, number, count. */
    method AssignPeerIds(g: nat)
      requires Configured() && g < |order|
      requires forall h :: 0 <= h < |order| && h != g ==> Counted(Sees(), order[h], active[h], peerId)
      modifies `order, `active, `peerId
      ensures Configured() && GroupsRight()
      ensures InOrder(Sees(), order, g) && |order| == |old(order)| && Leads(Sees(), order[g], active[g])
      ensures forall h :: 0 <= h < |order| && h != g ==> order[h] == old(order)[h] && active[h] == old(active)[h]
    {
      hide NumUp, Sorted, CmpPeer, Clocks, Microseconds, Partition, Leads;
      AllKnown(this, g);
      var s := Qsort(View(self, known), order[g]);
      Distincts(groupOf, order, g, s);
      UpFirst(Sees(), s);
      SortedLeads(Sees(), s);
      Reordered(groupOf, order, g, s);
      Elsewhere(groupOf, order, g, s);
      order := order[g := s];
      var count := Number(s);
      active := active[g := count];
    }

    /** The groups whose active nodes are not touched by a change of n are still right. */
    ghost predicate RightBut(n: NodeId)
      reads this
    {
      |order| == |active| && forall g :: 0 <= g < |order| && !(n in groupOf && groupOf[n] == g) ==> Counted(Sees(), order[g], active[g], peerId)
    }

    /** Each group is as it was, or has its active nodes in order. */
    ghost predicate Resorted(o: seq<seq<NodeId>>, a: seq<nat>)
      reads this
    {
      && |order| == |active| == |o| == |a|
      && forall g :: 0 <= g < |order| ==> Leads(Sees(), order[g], active[g]) || (order[g] == o[g] && active[g] == a[g])
    }

    /** The group of a node that came or went is arranged anew. */
    method Rearrange(n: NodeId)
      requires Configured() && CountersRight() && RightBut(n) && n in known
      modifies `order, `active, `peerId
      ensures Valid() && |order| == |old(order)| && Resorted(old(order), old(active))
    {
      hide Clocks, Microseconds, Linked, Counted, Partition, NumUp, Leads;
      if n in groupOf {
        GroupInRange(this, n);
        AssignPeerIds(groupOf[n]);
      } else {
        NothingElse(this, n);
      }
    }

    /** Moves the counter of the node's kind. */
    method Recount(n: NodeId, state: State)
      requires CountersRight() && known.Keys == kind.Keys && n in known && known[n].state != state
      modifies `activeMasters, `activePeers, `activePollers
      ensures var now := known[n := known[n].(state := state)];
              && activeMasters == |Linked(kind, now, MASTER)|
              && activePeers == |Linked(kind, now, PEER)|
              && activePollers == |Linked(kind, now, POLLER)|
    {
      hide Linked;
      ghost var p := known[n].(state := state);
      LinkedChange(kind, known, n, p, MASTER);
      LinkedChange(kind, known, n, p, PEER);
      LinkedChange(kind, known, n, p, POLLER);
      var add := if state == CONNECTED then 1 else if known[n].state == CONNECTED then -1 else 0;
      if kind[n] == POLLER {
        activePollers := activePollers + add;
      } else if kind[n] == PEER {
        activePeers := activePeers + add;
      } else if kind[n] == MASTER {
        activeMasters := activeMasters + add;
      }
    }

    /** Sets the state of a node and moves the counter of its kind. */
    method Change(n: NodeId, state: State)
      requires Valid() && n in known && known[n].state != state
      modifies `known, `activeMasters, `activePeers, `activePollers
      ensures Configured() && CountersRight() && RightBut(n)
      ensures known == old(known)[n := old(known)[n].(state := state)]
      ensures n == self || (state != CONNECTED && old(known)[n].state != CONNECTED) ==> GroupsRight()
    {
      hide Clocks, Microseconds, Linked, Counted, Partition;
      Recount(n, state);
      ghost var v := Sees();
      known := known[n := known[n].(state := state)];
      SameStarts(v, Sees(), n, state);
      StillCounted(this, v, n);
    }

    /** memset of a node's info: its start time is unknown again. */
    method Clear(n: NodeId)
      requires Configured() && CountersRight() && n in known
      modifies `known
      ensures Configured() && CountersRight() && known == old(known)[n := old(known)[n].(start := NEVER)]
      ensures old(RightBut(n)) ==> RightBut(n)
      ensures old(GroupsRight()) ==> GroupsRight()
    {
      hide Clocks, Microseconds, Linked, Counted, Partition;
      var p := known[n].(start := NEVER);
      LinkedChange(kind, known, n, p, MASTER);
      LinkedChange(kind, known, n, p, PEER);
      LinkedChange(kind, known, n, p, POLLER);
      ghost var v := Sees();
      known := known[n := p];
      Forget(v, Sees(), n);
      StillCounted(this, v, n);
    }

    /** node_set_state. A send that fails disconnects the node on the way. */
    method SetState(n: NodeId, state: State, sent: bool)
      requires Valid() && n in known
      modifies this
      ensures Valid() && known == old(known)[n := Changed(n == self, old(known)[n], state, sent)] && |order| == |old(order)|
      ensures Resorted(old(order), old(active))
      decreases if state == NONE then 0 else 2
    {
      hide Clocks, Microseconds, Linked, Counted, Partition, NumUp, Leads;
      var was := known[n].state;
      if was == state { return; }
      if state != NONE && n != self && !Legal(was, state) {
        Disconnect(n);
        return;
      }
      Change(n, state);
      if state == NEGOTIATING && n != self && !sent { Disconnect(n); }
      if known[n].state != CONNECTED && was != CONNECTED { return; }
      if n == self {
        if state == CONNECTED && !sent { Disconnect(n); }
        return;
      }
      if state == NONE { Clear(n); }
      Rearrange(n);
    }

    /** node_disconnect. */
    method Disconnect(n: NodeId)
      requires Valid() && n in known
      modifies this
      ensures Valid() && |order| == |old(order)|
      ensures known == old(known)[n := Peer(NONE, if n == self then old(known)[n].start else NEVER)]
      ensures Resorted(old(order), old(active))
      decreases 1
    {
      hide Clocks, Microseconds, Linked, Counted, Partition, NumUp, Leads;
      SetState(n, NONE, true);
      ghost var v := Sees();
      if n != self { Clear(n); }
      StillLeads(v, Sees(), n, order, active);
    }

    /**
     handle_control for CTRL_ACTIVE from a compatible node. A node that is
     connected is not sorted in anew: its group stays in order if and only if the
     node is in place with its new start time.
     */
    method HandleActive(n: NodeId, start: Timeval)
      requires Valid() && n in known && n != self
      requires InRange(start)
      requires forall m :: m in known && known[m].start.sec != 0 && start.sec != 0 ==> Comparable(known[m].start, start)
      modifies this
      ensures Valid() && |order| == |old(order)|
      // a change that is not listed drops the node
      ensures known == old(known)[n := if old(known)[n].state == CONNECTED || Legal(old(known)[n].state, CONNECTED)
                                       then Peer(CONNECTED, start) else Peer(NONE, NEVER)]
      ensures Resorted(old(order), old(active))
      ensures old(known)[n].state == CONNECTED ==> Now() == old(Now()).(view := Announced(old(Sees()), n, start))
      ensures old(known)[n].state == CONNECTED && old(Ordered()) ==> (Ordered() <==> InPlace(old(Now()), n, start))
    {
      hide Clocks, Microseconds, Linked, Counted, Partition, NumUp, Leads;
      var was := known[n].state;
      ghost var s := Now();
      Learn(n, start);
      if was != CONNECTED {
        SetState(n, CONNECTED, true);
      } else if AllLead(s) {
        InPlaceLeads(s, n, start, groupOf);
      }
    }

    /** memcpy of the node's info. */
    method Learn(n: NodeId, start: Timeval)
      requires Valid() && n in known && InRange(start)
      requires forall m :: m in known && known[m].start.sec != 0 && start.sec != 0 ==> Comparable(known[m].start, start)
      modifies `known
      ensures Valid() && known == old(known)[n := old(known)[n].(start := start)]
    {
      hide Linked, Counted, Partition;
      var p := known[n].(start := start);
      LinkedChange(kind, known, n, p, MASTER);
      LinkedChange(kind, known, n, p, PEER);
      LinkedChange(kind, known, n, p, POLLER);
      ghost var v := Sees();
      known := known[n := p];
      NewStart(v, Sees(), n, start);
      StillCounted(this, v, n);
    }
  }

  /** The active nodes of a group stay in order when a node that is not among them forgets its start time. */
  lemma StillLeads(v: View, w: View, n: NodeId, order: seq<seq<NodeId>>, active: seq<nat>)
    requires |order| == |active| && v.self == w.self && n in v.known && w.known.Keys == v.known.Keys
    requires forall m :: m in v.known && m != n ==> w.known[m] == v.known[m]
    requires n != v.self ==> v.known[n].state != CONNECTED && w.known[n].state != CONNECTED
    requires n == v.self ==> w.known[n].start == v.known[n].start
    ensures forall g :: 0 <= g < |order| && Leads(v, order[g], active[g]) ==> Leads(w, order[g], active[g])
  {
    forall g | 0 <= g < |order| && Leads(v, order[g], active[g]) ensures Leads(w, order[g], active[g]) {
      LeadsSame(v, w, order[g], active[g]);
    }
  }

  /** Whether the first k lead depends on who is up and on the start times of those. */
  lemma LeadsSame(v: View, w: View, s: seq<NodeId>, k: nat)
    requires v.self == w.self && w.known.Keys == v.known.Keys && Leads(v, s, k)
    requires forall i :: 0 <= i < |s| ==> (Up(v, s[i]) <==> Up(w, s[i]))
    requires forall i :: 0 <= i < k ==> w.known[s[i]].start == v.known[s[i]].start
    ensures Leads(w, s, k)
  {
    hide TimevalComp;
    forall i, j | 0 <= i < j < k ensures CmpPeer(w, s[i], s[j]) <= 0 {
      assert CmpPeer(v, s[i], s[j]) <= 0;
    }
  }

  /** The order of the active nodes survives a new start time exactly when its node is in place. */
  lemma InPlaceLeads(s: Snapshot, n: NodeId, start: Timeval, groupOf: map<NodeId, nat>)
    requires AllLead(s) && Partition(groupOf, s.order) && n in s.view.known && s.view.known[n].state == CONNECTED
    requires var w := Announced(s.view, n, start); Clocks(w) && Microseconds(w)
    ensures AllLead(s.(view := Announced(s.view, n, start))) <==> InPlace(s, n, start)
  {
    hide Between, Clocks, Microseconds, CmpPeer;
    var v, w := s.view, Announced(s.view, n, start);
    forall g, p | 0 <= g < |s.order| && 0 <= p < |s.order[g]| && s.order[g][p] == n
      ensures Leads(w, s.order[g], s.active[g]) <==> Between(w, s.order[g], s.active[g], p)
    {
      BetweenLeads(v, w, s.order[g], s.active[g], p);
    }
    forall g | 0 <= g < |s.order| && n !in s.order[g] ensures Leads(w, s.order[g], s.active[g]) {
      LeadsSame(v, w, s.order[g], s.active[g]);
    }
  }

  lemma NewStart(v: View, w: View, n: NodeId, start: Timeval)
    requires Clocks(v) && Microseconds(v) && n in v.known && InRange(start)
    requires forall m :: m in v.known && v.known[m].start.sec != 0 && start.sec != 0 ==> Comparable(v.known[m].start, start)
    requires w.known == v.known[n := v.known[n].(start := start)]
    ensures Clocks(w) && Microseconds(w)
  {
    forall a, b | a in w.known && b in w.known && w.known[a].start.sec != 0 && w.known[b].start.sec != 0
      ensures Comparable(w.known[a].start, w.known[b].start)
    {
      if a != n && b != n {
        assert Comparable(v.known[a].start, v.known[b].start);
      } else if a == n && b == n {
        NearComparable(start, start);
      }
    }
  }

  lemma NobodyLinked(kind: map<NodeId, Kind>, known: map<NodeId, Peer>)
    requires forall n :: n in known ==> known[n].state == NONE
    ensures forall k :: Linked(kind, known, k) == {}
  {
  }

  lemma StartClocks(v: View, start: Timeval)
    requires InRange(start) && v.self in v.known && v.known[v.self].start == start
    requires forall n :: n in v.known && n != v.self ==> v.known[n].start == NEVER
    ensures Clocks(v) && Microseconds(v)
  {
  }

  /** Where nobody is up, nobody is out of order. */
  lemma NobodyLeads(v: View, order: seq<seq<NodeId>>, active: seq<nat>)
    requires |order| == |active|
    ensures forall h :: 0 <= h < |order| && active[h] == 0 && NoneUp(v, order[h]) ==> Leads(v, order[h], active[h])
  {
  }

  ghost predicate NoneUp(v: View, s: seq<NodeId>) {
    Known(v, s) && forall i :: 0 <= i < |s| ==> !Up(v, s[i])
  }

  lemma OthersDown(m: Module)
    requires m.Configured() && m.groupOf[m.self] == 0
    requires forall n :: n in m.known ==> m.known[n].state == NONE
    requires forall g :: 0 <= g < |m.active| ==> m.active[g] == 0
    ensures forall h :: 0 <= h < |m.order| && h != 0 ==>
              Counted(m.Sees(), m.order[h], m.active[h], m.peerId) && NoneUp(m.Sees(), m.order[h])
  {
    hide NumUp, Clocks, Microseconds;
    forall h | 1 <= h < |m.order|
      ensures Counted(m.Sees(), m.order[h], m.active[h], m.peerId) && NoneUp(m.Sees(), m.order[h])
    {
      AllUp(m.Sees(), m.order[h], false);
    }
  }

  // ---- whole runs ----------------------------------------------------------

  datatype Event = Set(n: NodeId, state: State, sent: bool) | Drop(n: NodeId) | Active(n: NodeId, start: Timeval)

  /** Start times that can be compared with each other. */
  ghost predicate Comparables(times: set<Timeval>) {
    && (forall t :: t in times ==> InRange(t))
    && forall a, b :: a in times && b in times && a.sec != 0 && b.sec != 0 ==> Comparable(a, b)
  }

  ghost predicate AllIn(known: map<NodeId, Peer>, times: set<Timeval>) {
    forall n :: n in known ==> known[n].start == NEVER || known[n].start in times
  }

  /** The start time that n has announced since it was last dropped. */
  function Claims(events: seq<Event>, n: NodeId): Option<Timeval> {
    if events == [] then None
    else
      var rest, e := events[..|events| - 1], events[|events| - 1];
      if e.n != n then Claims(rest, n)
      else match e
        case Active(_, start) => Some(start)
        case Drop(_) => None
        case Set(_, state, _) => if state == NONE then None else Claims(rest, n)
  }

  /** Nodes are connected by announcing themselves only, and announce the same start time until they are dropped. */
  predicate Steady(events: seq<Event>, self: NodeId) {
    forall i :: 0 <= i < |events| && events[i].n != self ==>
      match events[i]
      case Active(n, start) => Claims(events[..i], n) == None || Claims(events[..i], n) == Some(start)
      case Set(n, state, _) => state != CONNECTED
      case Drop(_) => true
  }

  /** Whoever is connected has the start time it has claimed. */
  ghost predicate Claimed(known: map<NodeId, Peer>, self: NodeId, events: seq<Event>) {
    forall n :: n in known && n != self && known[n].state == CONNECTED ==> Claims(events, n) == Some(known[n].start)
  }

  /** What one event does to the order of the active nodes. */
  lemma StaysOrdered(v: View, w: View, n: NodeId, o: seq<seq<NodeId>>, a: seq<nat>, order: seq<seq<NodeId>>, active: seq<nat>)
    requires |order| == |active| == |o| == |a| && v.self == w.self && n in v.known && w.known.Keys == v.known.Keys
    requires forall m :: m in v.known && m != n ==> w.known[m] == v.known[m]
    requires forall g :: 0 <= g < |order| ==> Leads(v, o[g], a[g]) && Fronts(w, order[g], active[g])
    requires forall g :: 0 <= g < |order| ==> Leads(w, order[g], active[g]) || (order[g] == o[g] && active[g] == a[g])
    requires Up(v, n) && Up(w, n) ==> w.known[n].start == v.known[n].start
    ensures forall g :: 0 <= g < |order| ==> Leads(w, order[g], active[g])
  {
    hide CmpPeer;
    forall g | 0 <= g < |order| && order[g] == o[g] && active[g] == a[g] ensures Leads(w, order[g], active[g]) {
      LeadsSame(v, w, order[g], active[g]);
    }
  }

  lemma CountedFronts(m: Module)
    requires m.Valid()
    ensures |m.order| == |m.active| && forall g :: 0 <= g < |m.order| ==> Fronts(m.Sees(), m.order[g], m.active[g])
  {
    hide NumUp, Clocks, Microseconds, Linked, Partition;
    forall g | 0 <= g < |m.order| ensures Fronts(m.Sees(), m.order[g], m.active[g]) {
      assert Counted(m.Sees(), m.order[g], m.active[g], m.peerId);
    }
  }

  /** What an event makes of its node. */
  function Affected(local: bool, p: Peer, e: Event): Peer {
    match e
    case Set(_, state, sent) => Changed(local, p, state, sent)
    case Drop(_) => Peer(NONE, if local then p.start else NEVER)
    case Active(_, start) =>
      if local then p
      else if p.state == CONNECTED || Legal(p.state, CONNECTED) then Peer(CONNECTED, start)
      else Peer(NONE, NEVER)
  }

  /** What an event does: it changes its own node only, and leaves the groups alone if that was connected and announces itself. */
  ghost predicate Follows(s: Snapshot, e: Event, t: Snapshot) {
    && e.n in s.view.known && t.view.self == s.view.self
    && t.view.known == s.view.known[e.n := Affected(e.n == s.view.self, s.view.known[e.n], e)]
    && (e.Active? && e.n != s.view.self && s.view.known[e.n].state == CONNECTED ==> t.order == s.order && t.active == s.active)
  }

  /** The states of remote nodes change by listed transitions only. */
  lemma FollowsLegal(s: Snapshot, e: Event, t: Snapshot)
    requires Follows(s, e, t)
    ensures forall n :: n in s.view.known && n != s.view.self ==>
              t.view.known[n].state == s.view.known[n].state || Legal(s.view.known[n].state, t.view.known[n].state)
  {
  }

  /** An event leaves its node in place. */
  predicate Keeps(s: Snapshot, e: Event) { e.Active? && e.n != s.view.self ==> InPlace(s, e.n, e.start) }

  /** One event, with the start times seen so far among times. The groups stay in order if and only if it keeps its node in place. */
  method Step(m: Module, e: Event, ghost times: set<Timeval>)
    requires m.Valid() && Comparables(times) && AllIn(m.known, times) && e.n in m.known && (e.Active? ==> e.start in times)
    modifies m
    ensures m.Valid() && AllIn(m.known, times) && m.known.Keys == old(m.known).Keys && Follows(old(m.Now()), e, m.Now())
    ensures old(m.Ordered()) ==> (m.Ordered() <==> Keeps(old(m.Now()), e))
  {
    hide Module.Valid, Leads, Fronts, Comparables, Between;
    CountedFronts(m);
    ghost var s := m.Now();
    match e
    case Set(n, state, sent) =>
      m.SetState(n, state, e.sent);
      if AllLead(s) { StepOrdered(m, s, n); }
    case Drop(n) =>
      m.Disconnect(n);
      if AllLead(s) { StepOrdered(m, s, n); }
    case Active(n, start) =>
      if n != m.self {
        TimesComparable(m.known, times, start);
        m.HandleActive(n, start);
        if AllLead(s) && s.view.known[n].state != CONNECTED { StepOrdered(m, s, n); }
      }
  }

  lemma TimesComparable(known: map<NodeId, Peer>, times: set<Timeval>, start: Timeval)
    requires Comparables(times) && AllIn(known, times) && start in times
    ensures InRange(start)
    ensures forall m :: m in known && known[m].start.sec != 0 && start.sec != 0 ==> Comparable(known[m].start, start)
  {
    hide Comparable;
  }

  lemma ClaimsNext(events: seq<Event>, i: nat, n: NodeId)
    requires i < |events|
    ensures var e := events[i];
            Claims(events[..i + 1], n) ==
            if e.n != n then Claims(events[..i], n)
            else match e
              case Active(_, start) => Some(start)
              case Drop(_) => None
              case Set(_, state, _) => if state == NONE then None else Claims(events[..i], n)
  {
    assert events[..i + 1][..i] == events[..i];
  }

  /** In a steady run, whoever is connected keeps the start time it has claimed, and so its place. */
  lemma StepClaimed(s: Snapshot, t: Snapshot, events: seq<Event>, i: nat)
    requires i < |events| && Steady(events, s.view.self) && Claimed(s.view.known, s.view.self, events[..i])
    requires Follows(s, events[i], t) && AllLead(s)
    ensures Claimed(t.view.known, t.view.self, events[..i + 1]) && Keeps(s, events[i])
  {
    hide Claims, Leads, Between;
    var known, self, e := t.view.known, s.view.self, events[i];
    forall n | n in known && n != self && known[n].state == CONNECTED
      ensures Claims(events[..i + 1], n) == Some(known[n].start)
    {
      ClaimsNext(events, i, n);
    }
    if e.Active? && e.n != self && s.view.known[e.n].state == CONNECTED {
      assert Announced(s.view, e.n, e.start) == s.view;
      SamePlace(s, e.n);
    }
  }

  lemma SamePlace(s: Snapshot, n: NodeId)
    requires AllLead(s) && n in s.view.known && s.view.known[n].state == CONNECTED
    ensures InPlace(s, n, s.view.known[n].start)
  {
    hide CmpPeer;
    assert Announced(s.view, n, s.view.known[n].start) == s.view;
    forall g, p | 0 <= g < |s.order| && 0 <= p < |s.order[g]| && s.order[g][p] == n
      ensures Between(s.view, s.order[g], s.active[g], p)
    {
      assert Leads(s.view, s.order[g], s.active[g]);
    }
  }

  /** Before the first event nobody is connected, and only the local node's start time is known. */
  ghost predicate Begins(s: Snapshot, start: Timeval) {
    && (forall n :: n in s.view.known ==> s.view.known[n].state == NONE)
    && (forall n :: n in s.view.known ==> s.view.known[n].start == if n == s.view.self then start else NEVER)
  }

  /** A run of events, from one snapshot to the next. */
  ghost predicate Traces(trace: seq<Snapshot>, events: seq<Event>) {
    |trace| == |events| + 1 && forall i :: 0 <= i < |events| ==> Follows(trace[i], events[i], trace[i + 1])
  }

  /**
   Whatever happens to the connections, and whatever sends fail, only the listed
   transitions occur and the counts are right afterwards. The active nodes of every group are in order all the time
   if and only if every connected node that announces a start time is in place
   with it. If connected nodes repeat their start times, they are.
   */
  method Run(self: NodeId, kind: map<NodeId, Kind>, groupOf: map<NodeId, nat>, order: seq<seq<NodeId>>, start: Timeval,
             events: seq<Event>, ghost times: set<Timeval>)
    returns (m: Module, ghost trace: seq<Snapshot>)
    requires self in kind && (forall n :: n in kind ==> (kind[n] == LOCAL <==> n == self))
    requires forall n :: n in kind ==> (n in groupOf <==> kind[n] != MASTER)
    requires groupOf.Keys <= kind.Keys && Partition(groupOf, order) && groupOf[self] == 0
    requires Comparables(times) && start in times
    requires forall i :: 0 <= i < |events| ==> events[i].n in kind && (events[i].Active? ==> events[i].start in times)
    ensures m.Valid() && m.kind == kind && m.self == self && m.groupOf == groupOf
    ensures Traces(trace, events) && trace[|events|] == m.Now()
    ensures trace[0].view.self == self && trace[0].view.known.Keys == kind.Keys && Begins(trace[0], start)
    ensures (forall i :: 0 <= i <= |events| ==> AllLead(trace[i])) <==> (forall i :: 0 <= i < |events| ==> Keeps(trace[i], events[i]))
    ensures Steady(events, self) ==> m.Ordered() && forall i :: 0 <= i < |events| ==> Keeps(trace[i], events[i])
  {
    hide Partition, Module.Valid, AllLead, AllIn, Comparables, Claims, Steady, Claimed, Follows, Keeps, Begins;
    m := new Module(self, kind, groupOf, order, start) by { TimeInRange(times, start); }
    StartsIn(m, times);
    StartBegins(m.Now(), start);
    trace := [m.Now()];
    for i := 0 to |events|
      invariant fresh(m) && m.Valid() && AllIn(m.known, times) && m.known.Keys == kind.Keys
      invariant m.kind == kind && m.self == self && m.groupOf == groupOf
      invariant Traces(trace, events[..i]) && trace[i] == m.Now()
      invariant trace[0].view.self == self && trace[0].view.known.Keys == kind.Keys && Begins(trace[0], start)
      invariant (forall j :: 0 <= j <= i ==> AllLead(trace[j])) <==> (forall j :: 0 <= j < i ==> Keeps(trace[j], events[j]))
      invariant Steady(events, self) ==> Claimed(m.known, self, events[..i]) && forall j :: 0 <= j < i ==> Keeps(trace[j], events[j])
    {
      ghost var s := m.Now();
      Step(m, events[i], times);
      ghost var more := trace + [m.Now()];
      TraceMore(trace, m.Now(), events, i);
      if Steady(events, self) { StepClaimed(s, m.Now(), events, i); }
      trace := more;
    }
    assert events[..|events|] == events;
  }

  lemma TraceMore(trace: seq<Snapshot>, t: Snapshot, events: seq<Event>, i: nat)
    requires i < |events| && Traces(trace, events[..i]) && Follows(trace[i], events[i], t)
    ensures Traces(trace + [t], events[..i + 1])
  {
    hide Follows;
    assert forall j :: 0 <= j < i ==> events[..i + 1][j] == events[..i][j];
  }

  lemma StartBegins(s: Snapshot, start: Timeval)
    requires forall n :: n in s.view.known ==> s.view.known[n].state == NONE
    requires forall n :: n in s.view.known && n != s.view.self ==> s.view.known[n].start == NEVER
    requires s.view.self in s.view.known && s.view.known[s.view.self].start == start
    ensures Begins(s, start)
  {
  }

  lemma TimeInRange(times: set<Timeval>, t: Timeval)
    requires Comparables(times) && t in times
    ensures InRange(t)
  {
  }

  /** The order survives an event that leaves the start times of active nodes alone. */
  lemma StepOrdered(m: Module, s: Snapshot, n: NodeId)
    requires m.Valid() && m.Resorted(s.order, s.active) && AllLead(s)
    requires s.view.self == m.self && n in s.view.known && m.known.Keys == s.view.known.Keys
    requires forall k :: k in m.known && k != n ==> m.known[k] == s.view.known[k]
    requires if n == m.self then m.known[n].start == s.view.known[n].start
             else s.view.known[n].state == CONNECTED && m.known[n].state == CONNECTED ==> m.known[n].start == s.view.known[n].start
    ensures m.Ordered()
  {
    hide Module.Valid, Leads, Fronts;
    CountedFronts(m);
    StaysOrdered(s.view, m.Sees(), n, s.order, s.active, m.order, m.active);
  }

  lemma StartsIn(m: Module, times: set<Timeval>)
    requires m.self in m.known && m.known[m.self].start in times
    requires forall n :: n in m.known && n != m.self ==> m.known[n].start == NEVER
    requires forall n :: n in m.known ==> m.known[n].state == NONE
    ensures AllIn(m.known, times) && forall events :: Claimed(m.known, m.self, events)
  {
  }

  function TwoNodes(state: State, start: Timeval): map<NodeId, Peer> {
    map[1 := Peer(NONE, Timeval(10, 0)), 2 := Peer(state, start)]
  }

  const TWO_GROUPS: map<NodeId, nat> := map[1 := 0, 2 := 0]

  lemma TwoPartition()
    ensures Partition(TWO_GROUPS, [[1, 2]])
  {
  }

  /** Node 1 has started and is about to hear from node 2. */
  method Waiting() returns (m: Module)
    ensures fresh(m) && m.Valid() && m.Ordered() && m.self == 1 && |m.order| == 1 && m.groupOf == TWO_GROUPS
    ensures m.known == TwoNodes(PENDING, NEVER)
  {
    hide Module.Valid, NumUp, Leads, Partition;
    TwoPartition();
    m := new Module(1, map[1 := LOCAL, 2 := PEER], TWO_GROUPS, [[1, 2]], Timeval(10, 0));
    ghost var s := m.Now();
    m.SetState(2, PENDING, true);
    StepOrdered(m, s, 2);
  }

  /** Node 2 started 10 seconds later. */
  method Joined() returns (m: Module)
    ensures fresh(m) && m.Valid() && m.Ordered() && m.self == 1 && |m.order| == 1 && m.groupOf == TWO_GROUPS
    ensures m.known == TwoNodes(CONNECTED, Timeval(20, 0))
  {
    hide Module.Valid, NumUp, Comparable, Leads;
    m := Waiting();
    ghost var s := m.Now();
    NearComparable(Timeval(10, 0), Timeval(20, 0));
    m.HandleActive(2, Timeval(20, 0));
    StepOrdered(m, s, 2);
  }

  /** A node that announces another start time while it is connected is not sorted in anew. */
  method Restarted() returns (m: Module)
    ensures m.Valid() && !m.Ordered() && m.self == 1 && m.order == [[1, 2]] && m.active == [2]
    ensures m.known == TwoNodes(CONNECTED, Timeval(5, 0))
  {
    hide Module.Valid, NumUp, Comparable, Arranged, Leads, Fronts;
    m := Joined();
    OrderedArranged(m, 0);
    assert MembersOf(m.groupOf, 0) == {1, 2};
    FirstIsFirst(m.Sees(), m.order[0]);
    assert m.order == [[1, 2]];
    NearComparable(Timeval(10, 0), Timeval(5, 0));
    NearComparable(Timeval(20, 0), Timeval(5, 0));
    m.HandleActive(2, Timeval(5, 0));
    CountedFronts(m);
    BothUp(m.Sees(), m.order[0], m.active[0]);
    OutOfOrder(m.Sees());
  }

  lemma OutOfOrder(v: View)
    requires v == View(1, TwoNodes(CONNECTED, Timeval(5, 0)))
    ensures !Leads(v, [1, 2], 2)
  {
    var s: seq<NodeId> := [1, 2];
    assert CmpPeer(v, s[0], s[1]) == 5;
  }

  lemma FirstIsFirst(v: View, s: seq<NodeId>)
    requires v == View(1, TwoNodes(CONNECTED, Timeval(20, 0))) && Arranged(v, {1, 2}, s)
    ensures s == [1, 2]
  {
    hide NumUp;
    SizeOf(s, {1, 2});
    assert s[0] in s && s[1] in s;
    assert Up(v, s[0]) && Up(v, s[1]);
    assert CmpPeer(v, 2, 1) == 10;
  }

  lemma BothUp(v: View, s: seq<NodeId>, k: nat)
    requires s == [1, 2] && v.self == 1 && 2 in v.known && v.known[2].state == CONNECTED && Fronts(v, s, k)
    ensures k == 2
  {
    assert Up(v, s[1]);
  }

  function MembersOf(groupOf: map<NodeId, nat>, g: nat): set<NodeId> { set n | n in groupOf && groupOf[n] == g }

  /** The arrangement that agreement between the nodes rests on. */
  lemma OrderedArranged(m: Module, g: nat)
    requires m.Valid() && m.Ordered() && g < |m.order|
    ensures Arranged(m.Sees(), MembersOf(m.groupOf, g), m.order[g]) && m.active[g] == NumUp(m.Sees(), m.order[g])
  {
    hide NumUp, Clocks, Microseconds, Linked, Leads;
    assert Counted(m.Sees(), m.order[g], m.active[g], m.peerId);
  }

  // ---- what the counts mean ------------------------------------------------

  lemma {:induction false} NumUpIsSize(v: View, s: seq<NodeId>)
    requires Known(v, s) && Distinct(s)
    ensures NumUp(v, s) == |set n | n in s && Up(v, n)|
  {
    var all := set n | n in s && Up(v, n);
    if s == [] {
      assert all == {};
    } else {
      NumUpIsSize(v, s[1..]);
      var rest := set n | n in s[1..] && Up(v, n);
      assert forall n :: n in s <==> n == s[0] || n in s[1..];
      assert s[0] !in rest;
      assert all == if Up(v, s[0]) then rest + {s[0]} else rest;
    }
  }

  /** A group's active nodes are its connected members, and the local group's the local node besides. */
  lemma ActiveIsConnected(m: Module, g: nat)
    requires m.Valid() && g < |m.order|
    ensures m.active[g] == |set n | n in m.groupOf && m.groupOf[n] == g && (m.known[n].state == CONNECTED || n == m.self)|
    ensures forall n :: n in m.groupOf && m.groupOf[n] == g ==>
              (m.known[n].state == CONNECTED || n == m.self <==> n in m.order[g][..m.active[g]])
    ensures forall i :: 0 <= i < m.active[g] ==> m.order[g][i] in m.peerId && m.peerId[m.order[g][i]] == i
  {
    hide NumUp, Clocks, Microseconds;
    var s := m.order[g];
    assert Counted(m.Sees(), s, m.active[g], m.peerId);
    NumUpIsSize(m.Sees(), s);
    assert (set n | n in s && Up(m.Sees(), n))
        == set n | n in m.groupOf && m.groupOf[n] == g && (m.known[n].state == CONNECTED || n == m.self);
    forall n | n in m.groupOf && m.groupOf[n] == g
      ensures m.known[n].state == CONNECTED || n == m.self <==> n in s[..m.active[g]]
    {
      var i :| 0 <= i < |s| && s[i] == n;
      if i < m.active[g] { assert s[..m.active[g]][i] == n; }
    }
  }

  /**
   The handshake: a node that is asked to negotiate and then announces itself is
   connected, counted among those of its kind and among the active ones of its
   group.
   */
  method Handshake(self: NodeId, kind: map<NodeId, Kind>, groupOf: map<NodeId, nat>, order: seq<seq<NodeId>>, start: Timeval,
                   n: NodeId, since: Timeval) returns (m: Module)
    requires self in kind && (forall n :: n in kind ==> (kind[n] == LOCAL <==> n == self))
    requires forall n :: n in kind ==> (n in groupOf <==> kind[n] != MASTER)
    requires groupOf.Keys <= kind.Keys && Partition(groupOf, order) && groupOf[self] == 0
    requires Comparables({start, since}) && n in kind && n != self
    ensures m.Valid() && m.Ordered() && m.kind == kind && m.known[n] == Peer(CONNECTED, since)
    ensures forall k :: k in kind && k != n ==> m.known[k].state == NONE
    ensures if kind[n] == MASTER then m.activeMasters == 1 && m.activePeers == m.activePollers == 0
            else if kind[n] == PEER then m.activePeers == 1 && m.activeMasters == m.activePollers == 0
            else m.activePollers == 1 && m.activeMasters == m.activePeers == 0
    ensures n in groupOf ==> groupOf[n] < |m.order| && n in m.order[groupOf[n]][..m.active[groupOf[n]]]
  {
    hide Module.Valid, AllLead, Partition, Comparables, Steady, Keeps;
    var events := [Set(n, NEGOTIATING, true), Active(n, since)];
    ghost var trace;
    m, trace := Run(self, kind, groupOf, order, start, events, {start, since});
    TwoSteps(trace, events, start);
    TwoSteady(events, self);
    OneLinked(m, n);
    if n in groupOf {
      MemberInRange(m, n);
      ActiveIsConnected(m, groupOf[n]);
    }
  }

  lemma TwoSteps(trace: seq<Snapshot>, events: seq<Event>, start: Timeval)
    requires Traces(trace, events) && |events| == 2 && Begins(trace[0], start)
    requires events[0].Set? && events[0].state == NEGOTIATING && events[0].sent && events[1].Active? && events[1].n == events[0].n
    requires events[0].n != trace[0].view.self && trace[0].view.self in trace[0].view.known
    ensures var n, w := events[0].n, trace[2].view;
            && n in w.known && w.known[n] == Peer(CONNECTED, events[1].start) && w.known.Keys == trace[0].view.known.Keys
            && forall k :: k in w.known && k != n ==> w.known[k].state == NONE
  {
    assert Follows(trace[0], events[0], trace[1]) && Follows(trace[1], events[1], trace[1 + 1]);
  }

  lemma TwoSteady(events: seq<Event>, self: NodeId)
    requires |events| == 2 && events[0].Set? && events[0].state == NEGOTIATING && events[1].Active?
    ensures Steady(events, self)
  {
    assert events[..1][..0] == [] && events[..0] == [] && events[..1] == [events[0]];
    assert Claims([], events[1].n) == None;
  }

  lemma MemberInRange(m: Module, n: NodeId)
    requires m.Valid() && n in m.groupOf
    ensures m.groupOf[n] < |m.order|
  {
  }

  lemma OneLinked(m: Module, n: NodeId)
    requires m.Valid() && n in m.known && m.known[n].state == CONNECTED
    requires forall k :: k in m.known && k != n ==> m.known[k].state == NONE
    ensures n in m.kind && m.activeMasters == (if m.kind[n] == MASTER then 1 else 0)
    ensures m.activePeers == (if m.kind[n] == PEER then 1 else 0) && m.activePollers == if m.kind[n] == POLLER then 1 else 0
  {
    hide Module.GroupsRight, Partition, Clocks, Microseconds;
    forall k ensures Linked(m.kind, m.known, k) == if m.kind[n] == k then {n} else {} {
    }
  }

  /** A connected node stays so or is dropped. */
  lemma ConnectedLeaves(s: Snapshot, e: Event, t: Snapshot, n: NodeId)
    requires Follows(s, e, t) && n in s.view.known && n != s.view.self && s.view.known[n].state == CONNECTED
    ensures t.view.known[n].state == CONNECTED || t.view.known[n] == Peer(NONE, NEVER)
  {
    LegalLevels(CONNECTED, PENDING);
    LegalLevels(CONNECTED, NEGOTIATING);
  }

  /** With the peers in the local group, and nobody else, it has one active node more than there are active peers. */
  lemma LocalGroupActive(m: Module)
    requires m.Valid() && m.groupOf[m.self] == 0
    requires forall n :: n in m.groupOf && n != m.self ==> (m.groupOf[n] == 0 <==> m.kind[n] == PEER)
    ensures |m.active| > 0 && m.active[0] == m.activePeers + 1
  {
    hide Clocks, Microseconds, Counted, Linked;
    assert 0 < |m.order|;
    ActiveIsConnected(m, 0);
    PeersAndSelf(m.kind, m.known, m.groupOf, m.self);
  }

  lemma PeersAndSelf(kind: map<NodeId, Kind>, known: map<NodeId, Peer>, groupOf: map<NodeId, nat>, self: NodeId)
    requires groupOf.Keys <= kind.Keys == known.Keys && self in groupOf && groupOf[self] == 0 && kind[self] == LOCAL
    requires forall n :: n in kind && kind[n] == PEER ==> n in groupOf
    requires forall n :: n in groupOf && n != self ==> (groupOf[n] == 0 <==> kind[n] == PEER)
    ensures |set n | n in groupOf && groupOf[n] == 0 && (known[n].state == CONNECTED || n == self)| == |Linked(kind, known, PEER)| + 1
  {
    var local := set n | n in groupOf && groupOf[n] == 0 && (known[n].state == CONNECTED || n == self);
    var peers := Linked(kind, known, PEER);
    assert self !in peers;
    assert local == peers + {self};
  }

  /** A node without a group is in none of them. */
  lemma NothingElse(m: Module, n: NodeId)
    requires m.Configured() && m.RightBut(n) && n !in m.groupOf
    ensures m.GroupsRight()
  {
  }

  lemma GroupInRange(m: Module, n: NodeId)
    requires m.Configured() && n in m.groupOf
    ensures m.groupOf[n] < |m.order|
  {
  }

  /** Forgetting a start time leaves the others comparable. */
  lemma Forget(v: View, w: View, n: NodeId)
    requires Clocks(v) && Microseconds(v) && n in v.known
    requires w.known == v.known[n := v.known[n].(start := NEVER)]
    ensures Clocks(w) && Microseconds(w)
  {
  }

  lemma SameStarts(v: View, w: View, n: NodeId, s: State)
    requires Clocks(v) && Microseconds(v) && n in v.known
    requires w.known == v.known[n := v.known[n].(state := s)]
    ensures Clocks(w) && Microseconds(w)
  {
    forall a, b | a in w.known && b in w.known && w.known[a].start.sec != 0 && w.known[b].start.sec != 0
      ensures Comparable(w.known[a].start, w.known[b].start)
    {
      assert Comparable(v.known[a].start, v.known[b].start);
    }
  }

  lemma AllKnown(m: Module, g: nat)
    requires m.Configured() && g < |m.order|
    ensures Known(m.Sees(), m.order[g])
  {
    hide Clocks, Microseconds;
  }

  lemma Distincts(groupOf: map<NodeId, nat>, order: seq<seq<NodeId>>, g: nat, s: seq<NodeId>)
    requires Partition(groupOf, order) && g < |order| && multiset(s) == multiset(order[g])
    ensures Distinct(s)
  {
    PermutedDistinct(order[g], s);
  }

  lemma Elsewhere(groupOf: map<NodeId, nat>, order: seq<seq<NodeId>>, g: nat, s: seq<NodeId>)
    requires Partition(groupOf, order) && g < |order| && multiset(s) == multiset(order[g])
    ensures forall h, i :: 0 <= h < |order| && h != g && 0 <= i < |order[h]| ==> order[h][i] !in s
  {
    PermutedDistinct(order[g], s);
  }

  /** What was counted for a view still is for one that differs in n only, where n does not matter. */
  lemma StillCounted(m: Module, v: View, n: NodeId)
    requires |m.order| == |m.active| && Partition(m.groupOf, m.order) && m.groupOf.Keys <= m.kind.Keys == m.known.Keys == v.known.Keys
    requires v.self == m.self && n in v.known && forall a :: a in v.known && a != n ==> m.known[a] == v.known[a]
    ensures forall g :: 0 <= g < |m.order| && !(n in m.groupOf && m.groupOf[n] == g) && Counted(v, m.order[g], m.active[g], m.peerId)
              ==> Counted(m.Sees(), m.order[g], m.active[g], m.peerId)
    ensures n == m.self || (v.known[n].state == CONNECTED <==> m.known[n].state == CONNECTED) ==>
              forall g :: 0 <= g < |m.order| && Counted(v, m.order[g], m.active[g], m.peerId)
                ==> Counted(m.Sees(), m.order[g], m.active[g], m.peerId)
  {
    hide Counted, NumUp;
    forall g | 0 <= g < |m.order| && Counted(v, m.order[g], m.active[g], m.peerId)
          && (!(n in m.groupOf && m.groupOf[n] == g) || n == m.self || (v.known[n].state == CONNECTED <==> m.known[n].state == CONNECTED))
      ensures Counted(m.Sees(), m.order[g], m.active[g], m.peerId)
    {
      CountedSame(v, m.Sees(), m.order[g], m.active[g], m.peerId);
    }
  }
}
