/**
 Which node sends a notification (module/hooks.c): the owner of the object,
 unless it is a poller that leaves notifying to its masters.
 */
module Notifications {
  import opened Options
  import opened PeerOrder
  import opened Ownership
  import opened NodeStates

  /** What one node goes by: how it sees the others, and what it is configured to do. */
  datatype Site = Site(view: View, layout: Layout, kind: map<NodeId, Kind>, notifies: map<NodeId, bool>,
                       selfNotifies: bool, onlineMasters: nat, numPeers: nat, activePeers: nat, peerId: nat)

  datatype Verdict = Sent | LeftToMaster | LeftToPoller | LeftToPeer

  predicate ShouldRunCheck(s: Site, id: nat) { AssignedPeer(id, s.activePeers + 1) == s.peerId }

  function CanNotify(s: Site, nodes: seq<NodeId>): nat
    requires forall i :: 0 <= i < |nodes| ==> nodes[i] in s.notifies
  {
    if nodes == [] then 0
    else CanNotify(s, nodes[..|nodes| - 1]) + if s.notifies[nodes[|nodes| - 1]] then 1 else 0
  }

  ghost predicate ValidSite(s: Site) {
    && Ownership.Valid(s.layout)
    && forall g, i :: 0 <= g < |s.layout.groups| && 0 <= i < |s.layout.groups[g].nodes| ==>
         s.layout.groups[g].nodes[i] in s.notifies && s.layout.groups[g].nodes[i] in s.kind
  }

  /** pgroup_num_notify for the owner's group. */
  method PgroupNumNotify(s: Site, g: nat) returns (n: nat)
    requires ValidSite(s) && g < |s.layout.groups|
    ensures var pg := s.layout.groups[g]; pg.active <= |pg.nodes| && n == CanNotify(s, pg.nodes[..pg.active])
  {
    var pg := s.layout.groups[g];
    assert ValidGroup(pg, |s.layout.groupOf|);
    n := 0;
    for i := 0 to pg.active
      invariant n == CanNotify(s, pg.nodes[..i])
    {
      assert pg.nodes[..i + 1][..i] == pg.nodes[..i];
      if s.notifies[pg.nodes[i]] { n := n + 1; }
    }
  }

  /** The decision of hook_notification, for an object of this node. */
  ghost function Decide(s: Site, id: nat): Verdict
    requires ValidSite(s) && id < |s.layout.groupOf|
  {
    var owner := OwnerOf(s.layout, id);
    if s.onlineMasters > 0 && !s.selfNotifies then LeftToMaster
    else if owner == s.view.self then Sent
    else if owner in s.kind && s.kind[owner] == POLLER then
      if s.notifies[owner] then LeftToPoller
      else if (s.numPeers == 0 || ShouldRunCheck(s, id)) && NobodyNotifies(s, id) then Sent
      else LeftToPeer
    else if owner in s.kind && s.kind[owner] == PEER then LeftToPeer
    else Sent
  }

  ghost predicate NobodyNotifies(s: Site, id: nat)
    requires ValidSite(s) && id < |s.layout.groupOf|
  {
    var g := if s.layout.groupOf[id].Some? then s.layout.groupOf[id].value else 0;
    var pg := s.layout.groups[g];
    ValidGroup(pg, |s.layout.groupOf|) && CanNotify(s, pg.nodes[..pg.active]) == 0
  }

  lemma OwnerKnown(s: Site, id: nat)
    requires ValidSite(s) && id < |s.layout.groupOf|
    ensures OwnerOf(s.layout, id) in s.notifies && OwnerOf(s.layout, id) in s.kind
  {
    var g := if s.layout.groupOf[id].Some? then s.layout.groupOf[id].value else 0;
    assert ValidGroup(s.layout.groups[g], |s.layout.groupOf|) && ValidGroup(s.layout.groups[0], |s.layout.groupOf|);
  }

  /** The hook with its statistics: the verdict is counted, and only Sent lets the notification through. */
  class Hook {
    var stats: map<Verdict, nat>

    constructor ()
      ensures stats == map[Sent := 0, LeftToMaster := 0, LeftToPoller := 0, LeftToPeer := 0]
    {
      stats := map[Sent := 0, LeftToMaster := 0, LeftToPoller := 0, LeftToPeer := 0];
    }

    method Count(v: Verdict)
      requires v in stats
      modifies this
      ensures stats == old(stats)[v := old(stats)[v] + 1]
    {
      stats := stats[v := stats[v] + 1];
    }

    method Notification(s: Site, id: nat) returns (allowed: bool)
      requires ValidSite(s) && id < |s.layout.groupOf| && stats.Keys == {Sent, LeftToMaster, LeftToPoller, LeftToPeer}
      modifies this
      ensures allowed <==> Decide(s, id) == Sent
      ensures stats == old(stats)[Decide(s, id) := old(stats)[Decide(s, id)] + 1]
    {
      OwnerKnown(s, id);
      var owner := OwnerOf(s.layout, id);
      if s.onlineMasters > 0 && !s.selfNotifies {
        Count(LeftToMaster);
        return false;
      }
      if owner == s.view.self {
        Count(Sent);
        return true;
      } else if s.kind[owner] == POLLER {
        if s.notifies[owner] {
          Count(LeftToPoller);
          return false;
        }
        var g := if s.layout.groupOf[id].Some? then s.layout.groupOf[id].value else 0;
        assert ValidGroup(s.layout.groups[g], |s.layout.groupOf|);
        var n := PgroupNumNotify(s, g);
        if (s.numPeers == 0 || ShouldRunCheck(s, id)) && n == 0 {
          Count(Sent);
          return true;
        }
        Count(LeftToPeer);
        return false;
      } else if s.kind[owner] == PEER {
        Count(LeftToPeer);
        return false;
      }
      Count(Sent);
      return true;
    }
  }

  // ---- a whole cluster -----------------------------------------------------

  /** A poller group: who is in it, who of them is up, and what it is configured to do. */
  datatype Pollers = Pollers(members: set<NodeId>, up: set<NodeId>, takeover: bool, notifies: bool, map_: seq<bool>)

  datatype Cluster = Cluster(masters: set<NodeId>, up: set<NodeId>, groups: seq<Pollers>, groupOf: seq<Option<nat>>,
                             start: map<NodeId, Timeval>)

  /** Masters and pollers are different nodes; groups[0] stands for the masters. */
  ghost predicate ValidCluster(c: Cluster) {
    && c.up <= c.masters && c.groups != []
    && (forall k :: 1 <= k < |c.groups| ==> c.groups[k].members !! c.masters && c.groups[k].up <= c.groups[k].members)
    && (forall k :: 1 <= k < |c.groups| ==> |c.groups[k].map_| == |c.groupOf|)
    && (forall id :: 0 <= id < |c.groupOf| && c.groupOf[id].Some? ==>
          1 <= c.groupOf[id].value < |c.groups| && c.groups[c.groupOf[id].value].map_[id])
  }

  function LocalGroup(s: Site): Group {
    if s.layout.groups == [] then Group([], 0, false, None) else s.layout.groups[0]
  }

  /** Master m's own view of things, all of it correct. */
  ghost predicate MasterSite(c: Cluster, m: NodeId, s: Site) {
    && ValidCluster(c) && ValidSite(s) && m in c.up && s.view.self == m
    && |s.layout.groups| == |c.groups| && s.layout.groupOf == c.groupOf
    && Consistent(s.view, c.masters, c.up, c.start) && Numbered(s.view, c.masters, s.layout.groups[0])
    && s.onlineMasters == 0 && s.numPeers == |c.masters| - 1 && s.activePeers == |c.up| - 1
    && s.peerId < |s.layout.groups[0].nodes| && s.layout.groups[0].nodes[s.peerId] == m
    && (forall n :: n in c.masters && n != m ==> n in s.kind && s.kind[n] == PEER)
    && (forall k :: 1 <= k < |c.groups| ==> SeesPollers(c, k, s))
  }

  ghost predicate SeesPollers(c: Cluster, k: nat, s: Site)
    requires 1 <= k < |c.groups| == |s.layout.groups| && ValidSite(s)
  {
    var p, g := c.groups[k], s.layout.groups[k];
    && Consistent(s.view, p.members, p.up, c.start) && Numbered(s.view, p.members, g) && g.takeover == p.takeover
    && (forall n :: n in p.members ==> n in s.kind && s.kind[n] == POLLER && n in s.notifies && s.notifies[n] == p.notifies)
    && |p.map_| == |c.groupOf| && g.table.Some? && |g.table.value| == |c.groupOf|
    && (forall id :: 0 <= id < |c.groupOf| && c.groupOf[id] == Some(k) ==> g.table.value[id] == Rank(p.map_, id))
  }

  /** The same for a poller n of group k, which knows only the objects of that group. */
  ghost predicate PollerSite(c: Cluster, k: nat, n: NodeId, s: Site) {
    && ValidCluster(c) && ValidSite(s) && 1 <= k < |c.groups| && n in c.groups[k].up && s.view.self == n
    && Consistent(s.view, c.groups[k].members, c.groups[k].up, c.start)
    && Numbered(s.view, c.groups[k].members, s.layout.groups[0])
    && |s.layout.groupOf| == |Members(c.groups[k].map_)|
    && (forall i :: 0 <= i < |s.layout.groupOf| ==> s.layout.groupOf[i] == None)
    && s.onlineMasters == |c.up| && s.selfNotifies == c.groups[k].notifies
    && (forall o :: o in c.groups[k].members && o != n ==> o in s.kind && s.kind[o] == PEER)
  }

  lemma LocalFacts(c: Cluster, m: NodeId, s: Site)
    requires MasterSite(c, m, s)
    ensures Consistent(s.view, c.masters, c.up, c.start) && Numbered(s.view, c.masters, LocalGroup(s))
  {
  }

  ghost predicate MasterSites(c: Cluster, sites: map<NodeId, Site>) {
    ValidCluster(c) && c.up <= sites.Keys && forall m :: m in c.up ==> MasterSite(c, m, sites[m])
  }

  /** The masters, if any is up, agree on one of them for every object id. */
  lemma MastersChoose(c: Cluster, sites: map<NodeId, Site>, id: nat) returns (owner: NodeId)
    requires MasterSites(c, sites) && c.up != {}
    ensures owner in c.up
    ensures forall m, o :: m in c.up ==> (Chooses(LocalGroup(sites[m]), id, o) <==> o == owner)
    ensures forall m :: m in c.up ==> LocalGroup(sites[m]).active == |c.up|
  {
    hide Consistent, Numbered, Chooses, SeesPollers, MasterSite, LocalGroup;
    var n :| n in c.up;
    LocalFacts(c, n, sites[n]);
    var g := LocalGroup(sites[n]);
    owner := SameChoice(sites[n].view, sites[n].view, c.masters, c.up, c.start, g, g, id);
    forall m | m in c.up
      ensures LocalGroup(sites[m]).active == |c.up| && forall o :: Chooses(LocalGroup(sites[m]), id, o) <==> o == owner
    {
      LocalFacts(c, m, sites[m]);
      var same := SameChoice(sites[n].view, sites[m].view, c.masters, c.up, c.start, g, LocalGroup(sites[m]), id);
      assert Chooses(g, id, same);
    }
  }

  /** A master runs its own share of object ids: exactly the ones it is chosen for. */
  lemma MasterShare(c: Cluster, m: NodeId, s: Site, id: nat)
    requires MasterSite(c, m, s) && LocalGroup(s).active == |c.up|
    ensures s.numPeers == 0 || ShouldRunCheck(s, id) <==> Chooses(LocalGroup(s), id, m)
  {
    hide Consistent, SeesPollers, NumUp;
    var g := LocalGroup(s);
    assert ValidGroup(g, |s.layout.groupOf|);
    var p := AssignedPeer(id, |c.up|);
    SizeAtLeast(c.up, m);
    assert s.activePeers + 1 == |c.up|;
    if s.numPeers == 0 {
      Only(c.masters, c.up, m);
      assert p == 0 && g.nodes[0] in c.masters;
    }
  }

  lemma SizeAtLeast(s: set<NodeId>, m: NodeId)
    requires m in s
    ensures |s| >= 1
  {
    assert s == (s - {m}) + {m};
  }

  lemma Only(all: set<NodeId>, up: set<NodeId>, m: NodeId)
    requires m in up && up <= all && |all| == 1
    ensures all == up == {m}
  {
    assert |all - {m}| == 0;
    assert all == {m};
  }

  /** Object id is with the masters: no group has it, or a dead one they take over. */
  ghost predicate WithMasters(c: Cluster, id: nat)
    requires ValidCluster(c) && id < |c.groupOf|
  {
    c.groupOf[id].None? || (c.groups[c.groupOf[id].value].up == {} && c.groups[c.groupOf[id].value].takeover)
  }

  lemma MasterActive(c: Cluster, m: NodeId, s: Site, k: nat)
    requires MasterSite(c, m, s) && 1 <= k < |c.groups|
    ensures s.layout.groups[k].active == |c.groups[k].up|
  {
    hide Consistent, NumUp, Sorted;
    assert SeesPollers(c, k, s);
    var p := c.groups[k];
    SameNumbers(s.view, s.view, p.members, p.up, c.start, s.layout.groups[k].nodes, s.layout.groups[k].nodes);
  }

  /** What is with the masters is notified by the one that owns it. */
  lemma NotifyAsMaster(c: Cluster, m: NodeId, s: Site, id: nat)
    requires MasterSite(c, m, s) && id < |c.groupOf| && WithMasters(c, id)
    ensures Decide(s, id) == if Chooses(LocalGroup(s), id, m) then Sent else LeftToPeer
  {
    hide Consistent, NumUp, Sorted, SeesPollers;
    var g := LocalGroup(s);
    assert ValidGroup(g, |s.layout.groupOf|);
    if c.groupOf[id].Some? {
      MasterActive(c, m, s, c.groupOf[id].value);
      Takeover(c, s, c.groupOf[id].value);
    }
    var p := AssignedPeer(id, g.active);
    assert OwnerOf(s.layout, id) == g.nodes[p];
    assert g.nodes[p] in g.nodes;
  }

  lemma Takeover(c: Cluster, s: Site, k: nat)
    requires 1 <= k < |c.groups| == |s.layout.groups| && ValidSite(s) && SeesPollers(c, k, s)
    ensures s.layout.groups[k].takeover == c.groups[k].takeover && s.layout.groups[k].table.Some?
  {
  }

  /** What a poller group keeps is notified by a master exactly if the group leaves notifying to them and it is the master's share. */
  lemma NotifyForPollers(c: Cluster, m: NodeId, s: Site, id: nat)
    requires MasterSite(c, m, s) && id < |c.groupOf| && !WithMasters(c, id) && LocalGroup(s).active == |c.up|
    ensures Decide(s, id) == if c.groups[c.groupOf[id].value].notifies then LeftToPoller
                             else if Chooses(LocalGroup(s), id, m) then Sent else LeftToPeer
  {
    hide Consistent, NumUp, Sorted, Chooses;
    var k := c.groupOf[id].value;
    MasterActive(c, m, s, k);
    MasterShare(c, m, s, id);
    assert SeesPollers(c, k, s);
    var p, g := c.groups[k], s.layout.groups[k];
    assert ValidGroup(g, |s.layout.groupOf|);
    var owner := OwnerOf(s.layout, id);
    assert owner in g.nodes;
    assert owner in p.members && owner !in c.masters;
    if !p.notifies { NoneCan(s, g.nodes[..g.active]); }
  }

  lemma {:induction false} NoneCan(s: Site, nodes: seq<NodeId>)
    requires forall i :: 0 <= i < |nodes| ==> nodes[i] in s.notifies && !s.notifies[nodes[i]]
    ensures CanNotify(s, nodes) == 0
  {
    if nodes != [] { NoneCan(s, nodes[..|nodes| - 1]); }
  }

  /** A poller notifies exactly if it is chosen, and its group notifies or no master is online. */
  lemma NotifyAsPoller(c: Cluster, k: nat, n: NodeId, s: Site, rank: nat)
    requires PollerSite(c, k, n, s) && rank < |s.layout.groupOf|
    ensures Decide(s, rank) == if c.up != {} && !c.groups[k].notifies then LeftToMaster
                               else if Chooses(LocalGroup(s), rank, n) then Sent else LeftToPeer
  {
    hide Consistent, NumUp, Sorted;
    var g := LocalGroup(s);
    assert ValidGroup(g, |s.layout.groupOf|);
    assert |c.up| == 0 <==> c.up == {};
    var p := AssignedPeer(rank, g.active);
    assert OwnerOf(s.layout, rank) == g.nodes[p];
    assert g.nodes[p] in g.nodes;
  }

  ghost predicate PollerSites(c: Cluster, k: nat, sites: map<NodeId, Site>)
    requires 1 <= k < |c.groups|
  {
    c.groups[k].up <= sites.Keys && forall n :: n in c.groups[k].up ==> PollerSite(c, k, n, sites[n])
  }

  lemma {:induction false} MembersGrow(map_: seq<bool>, i: nat)
    requires i <= |map_|
    ensures |Members(map_[..i])| <= |Members(map_)|
    decreases |map_| - i
  {
    if i < |map_| {
      MembersMore(map_, i);
      MembersGrow(map_, i + 1);
    } else {
      assert map_[..i] == map_;
    }
  }

  lemma RankBelow(map_: seq<bool>, i: nat)
    requires i < |map_| && map_[i]
    ensures Rank(map_, i) < |Members(map_)|
  {
    MembersMore(map_, i);
    MembersGrow(map_, i + 1);
  }

  lemma PollerFacts(c: Cluster, k: nat, n: NodeId, s: Site)
    requires PollerSite(c, k, n, s)
    ensures Consistent(s.view, c.groups[k].members, c.groups[k].up, c.start)
    ensures Numbered(s.view, c.groups[k].members, LocalGroup(s))
    ensures |s.layout.groupOf| == |Members(c.groups[k].map_)|
  {
  }

  /** The pollers of a group agree on one of them for every rank. */
  lemma PollersChoose(c: Cluster, k: nat, sites: map<NodeId, Site>, rank: nat) returns (owner: NodeId)
    requires 1 <= k < |c.groups| && PollerSites(c, k, sites) && c.groups[k].up != {}
    ensures owner in c.groups[k].up
    ensures forall n, o :: n in c.groups[k].up ==> (Chooses(LocalGroup(sites[n]), rank, o) <==> o == owner)
  {
    hide Consistent, Numbered, Chooses, PollerSite, LocalGroup;
    var p := c.groups[k];
    var m :| m in p.up;
    PollerFacts(c, k, m, sites[m]);
    var g := LocalGroup(sites[m]);
    owner := SameChoice(sites[m].view, sites[m].view, p.members, p.up, c.start, g, g, rank);
    forall n | n in p.up
      ensures forall o :: Chooses(LocalGroup(sites[n]), rank, o) <==> o == owner
    {
      PollerFacts(c, k, n, sites[n]);
      var same := SameChoice(sites[m].view, sites[n].view, p.members, p.up, c.start, g, LocalGroup(sites[n]), rank);
      assert Chooses(g, rank, same);
    }
  }

  /** n allows the notification for an object it knows by this id. */
  ghost predicate Allows(s: Site, id: nat) {
    ValidSite(s) && id < |s.layout.groupOf| && Decide(s, id) == Sent
  }

  /**
   Nobody is there to notify for an object: the masters have it and none is up,
   or its group is dead, and either no master is up or the masters do not take
   over and believe that the group notifies.
   */
  predicate Orphaned(c: Cluster, id: nat)
    requires id < |c.groupOf| && (c.groupOf[id].Some? ==> c.groupOf[id].value < |c.groups|)
  {
    if c.groupOf[id].None? then c.up == {}
    else
      var p := c.groups[c.groupOf[id].value];
      p.up == {} && (c.up == {} || (!p.takeover && p.notifies))
  }

  /**
   Over the whole cluster, with masters online or without, at most one node
   allows the notification for an object, and exactly one does unless the object
   is orphaned.
   */
  lemma OneNotifier(c: Cluster, sites: map<NodeId, Site>, id: nat) returns (who: Option<NodeId>)
    requires MasterSites(c, sites) && id < |c.groupOf|
    requires c.groupOf[id].Some? ==> PollerSites(c, c.groupOf[id].value, sites)
    ensures forall m :: m in c.up ==> (Allows(sites[m], id) <==> who == Some(m))
    ensures c.groupOf[id].Some? ==>
              var p := c.groups[c.groupOf[id].value];
              forall n :: n in p.up ==> (Allows(sites[n], Rank(p.map_, id)) <==> who == Some(n))
    ensures who.Some? ==> who.value in c.up || (c.groupOf[id].Some? && who.value in c.groups[c.groupOf[id].value].up)
    ensures who.None? <==> Orphaned(c, id)
  {
    hide MasterSites, PollerSites, Allows, Rank;
    assert ValidCluster(c) by { CentreValid(c, sites); }
    var master := OneMaster(c, sites, id);
    who := master;
    if c.groupOf[id].Some? {
      var poller := OnePoller(c, c.groupOf[id].value, sites, id);
      if poller.Some? { who := poller; }
    }
  }

  lemma CentreValid(c: Cluster, sites: map<NodeId, Site>)
    requires MasterSites(c, sites)
    ensures ValidCluster(c)
  {
  }

  /** The masters notify for what is with them, and for the groups that leave it to them. */
  lemma OneMaster(c: Cluster, sites: map<NodeId, Site>, id: nat) returns (who: Option<NodeId>)
    requires MasterSites(c, sites) && id < |c.groupOf|
    ensures forall m :: m in c.up ==> (Allows(sites[m], id) <==> who == Some(m))
    ensures who.Some? ==> who.value in c.up
    ensures who.Some? <==> c.up != {} && (WithMasters(c, id) || !c.groups[c.groupOf[id].value].notifies)
  {
    hide Consistent, Numbered, Chooses, SeesPollers, MasterSite, LocalGroup, Decide, ValidSite;
    if c.up == {} { return None; }
    var master := MastersChoose(c, sites, id);
    var yes := WithMasters(c, id) || !c.groups[c.groupOf[id].value].notifies;
    who := if yes then Some(master) else None;
    forall m | m in c.up ensures Allows(sites[m], id) <==> who == Some(m) {
      SiteHas(c, m, sites[m]);
      if WithMasters(c, id) {
        NotifyAsMaster(c, m, sites[m], id);
      } else {
        NotifyForPollers(c, m, sites[m], id);
      }
    }
  }

  /** The pollers of a group notify for what it has if they are set to, or no master is online. */
  lemma OnePoller(c: Cluster, k: nat, sites: map<NodeId, Site>, id: nat) returns (who: Option<NodeId>)
    requires ValidCluster(c) && id < |c.groupOf| && c.groupOf[id] == Some(k) && PollerSites(c, k, sites)
    ensures forall n :: n in c.groups[k].up ==> (Allows(sites[n], Rank(c.groups[k].map_, id)) <==> who == Some(n))
    ensures who.Some? ==> who.value in c.groups[k].up
    ensures who.Some? <==> c.groups[k].up != {} && (c.up == {} || c.groups[k].notifies)
  {
    hide Consistent, Numbered, Chooses, PollerSite, LocalGroup, Decide, Rank, ValidSite;
    var p := c.groups[k];
    if p.up == {} { return None; }
    RankBelow(p.map_, id);
    var rank := Rank(p.map_, id);
    var poller := PollersChoose(c, k, sites, rank);
    who := if c.up == {} || p.notifies then Some(poller) else None;
    forall n | n in p.up ensures Allows(sites[n], rank) <==> who == Some(n) {
      PollerFacts(c, k, n, sites[n]);
      PollerHas(c, k, n, sites[n]);
      NotifyAsPoller(c, k, n, sites[n], rank);
    }
  }

  lemma SiteHas(c: Cluster, m: NodeId, s: Site)
    requires MasterSite(c, m, s)
    ensures ValidSite(s) && s.layout.groupOf == c.groupOf
  {
  }

  lemma PollerHas(c: Cluster, k: nat, n: NodeId, s: Site)
    requires PollerSite(c, k, n, s)
    ensures ValidSite(s)
  {
  }

  /** After a run in which connected nodes repeat their start times, the groups of a node are numbered as is assumed of a site. */
  lemma RunNumbers(m: Module, g: nat, takeover: bool, table: Option<seq<nat>>)
    requires m.Valid() && m.Ordered() && g < |m.order|
    ensures |m.active| == |m.order| && Numbered(m.Sees(), MembersOf(m.groupOf, g), Group(m.order[g], m.active[g], takeover, table))
  {
    hide Module.Valid;
    OrderedArranged(m, g);
  }

  // ---- such clusters exist -------------------------------------------------

  const STARTS := map[1 := Timeval(10, 0), 2 := Timeval(20, 0), 3 := Timeval(30, 0)]

  /** Two masters and one poller, with an object each for the masters and for the poller. */
  const SMALL := Cluster({1, 2}, {1, 2}, [Pollers({}, {}, false, false, []), Pollers({3}, {3}, true, true, [false, true])],
                         [None, Some(1)], STARTS)

  function Sight(self: NodeId): View {
    View(self, map[1 := Peer(CONNECTED, STARTS[1]), 2 := Peer(CONNECTED, STARTS[2]), 3 := Peer(CONNECTED, STARTS[3])])
  }

  function SmallSite(n: NodeId): Site {
    var kind := map[1 := PEER, 2 := PEER, 3 := POLLER];
    var notifies := map[1 := true, 2 := true, 3 := true];
    if n == 3 then
      Site(Sight(3), Layout([Group([3], 1, true, None)], [None]), kind, notifies, true, 2, 0, 0, 0)
    else
      Site(Sight(n), Layout([Group([1, 2], 2, true, None), Group([3], 1, true, Some([0, 0]))], [None, Some(1)]),
           kind, notifies, true, 0, 1, 1, if n == 1 then 0 else 1)
  }

  lemma SmallSights(n: NodeId)
    requires n in {1, 2, 3}
    ensures Clocks(Sight(n)) && Microseconds(Sight(n))
    ensures n != 3 ==> Consistent(Sight(n), {1, 2}, {1, 2}, STARTS)
    ensures Consistent(Sight(n), {3}, {3}, STARTS)
  {
    hide Comparable;
    var v := Sight(n);
    forall a, b | a in v.known && b in v.known ensures Comparable(v.known[a].start, v.known[b].start) {
      NearComparable(v.known[a].start, v.known[b].start);
    }
  }

  lemma SmallNumbers(n: NodeId)
    requires n in {1, 2, 3}
    ensures n != 3 ==> Numbered(Sight(n), {1, 2}, Group([1, 2], 2, true, None))
    ensures forall t :: Numbered(Sight(n), {3}, Group([3], 1, true, t))
  {
    var v := Sight(n);
    assert CmpPeer(v, 1, 2) <= 0;
    assert [1, 2][1..] == [2] && [2][1..] == [] && [3][1..] == [];
    assert NumUp(v, [2]) == 1 && NumUp(v, [1, 2]) == 2 && NumUp(v, [3]) == 1;
  }

  lemma SmallRanks()
    ensures Members([false, true]) == [1] && Rank([false, true], 1) == 0
  {
    assert [false, true][..1] == [false] && [false][..0] == [];
    assert Members([]) == [] && Members([false]) == [];
  }

  lemma SmallValid()
    ensures ValidCluster(SMALL)
  {
  }

  lemma SmallSitesValid(n: NodeId)
    requires n in {1, 2, 3}
    ensures ValidSite(SmallSite(n))
  {
    var l := SmallSite(n).layout;
    assert forall g :: 0 <= g < |l.groups| ==> ValidGroup(l.groups[g], |l.groupOf|);
  }

  lemma SmallPollers(n: NodeId)
    requires n in {1, 2} && ValidSite(SmallSite(n))
    ensures SeesPollers(SMALL, 1, SmallSite(n))
  {
    hide Consistent, Numbered, Members, ValidSite;
    SmallRanks();
    SmallSights(n);
    SmallNumbers(n);
  }

  lemma SmallLocal(n: NodeId)
    requires n in {1, 2}
    ensures Sight(n).self == n && Consistent(Sight(n), {1, 2}, {1, 2}, STARTS) && Numbered(Sight(n), {1, 2}, Group([1, 2], 2, true, None))
  {
    hide Consistent, Numbered;
    SmallSights(n);
    SmallNumbers(n);
  }

  lemma SmallMaster(n: NodeId)
    requires n in {1, 2}
    ensures MasterSite(SMALL, n, SmallSite(n))
  {
    hide Consistent, Numbered, SeesPollers, ValidCluster, ValidSite, Sight, Clocks, Microseconds;
    SmallValid();
    SmallSitesValid(n);
    SmallLocal(n);
    SmallPollers(n);
    assert |{1, 2}| == 2;
  }

  lemma SmallPoller()
    ensures PollerSite(SMALL, 1, 3, SmallSite(3))
  {
    hide Consistent, Numbered, Members, ValidCluster, ValidSite;
    SmallRanks();
    SmallValid();
    SmallSitesValid(3);
    SmallSights(3);
    SmallNumbers(3);
    assert |{1, 2}| == 2;
  }

  /** The hypotheses of OneNotifier hold of a small cluster. */
  lemma SmallCluster()
    ensures var sites := map[1 := SmallSite(1), 2 := SmallSite(2), 3 := SmallSite(3)];
            MasterSites(SMALL, sites) && PollerSites(SMALL, 1, sites)
  {
    hide MasterSite, PollerSite, SmallSite, ValidCluster;
    SmallValid();
    SmallMaster(1);
    SmallMaster(2);
    SmallPoller();
  }

  /** The same cluster with no master up and a poller that is set not to notify. */
  const ALONE := SMALL.(up := {}, groups := [SMALL.groups[0], SMALL.groups[1].(notifies := false)])

  /** So they do of one with no master online, in which the poller notifies although it is set not to. */
  lemma AloneCluster()
    ensures var s := SmallSite(3).(selfNotifies := false, onlineMasters := 0);
            MasterSites(ALONE, map[3 := s]) && PollerSites(ALONE, 1, map[3 := s]) && Allows(s, 0)
  {
    hide Consistent, Numbered, Members, ValidSite;
    var s := SmallSite(3).(selfNotifies := false, onlineMasters := 0);
    SmallRanks();
    SmallSitesValid(3);
    assert ValidSite(s) by { SameLayout(SmallSite(3), s); }
    SmallSights(3);
    SmallNumbers(3);
    assert ValidCluster(ALONE);
    assert PollerSite(ALONE, 1, 3, s);
  }

  lemma SameLayout(s: Site, s': Site)
    requires ValidSite(s) && s'.layout == s.layout && s'.kind == s.kind && s'.notifies == s.notifies
    ensures ValidSite(s')
  {
  }
}
