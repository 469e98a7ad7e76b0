/**
 The check accounting of shared/pgroup.c: pgroup_map_objects fills share tables
 for every number of active nodes, and pgroup_reassign_checks reads each node's
 current load off them. The figures are the sizes of what the nodes really own.
 */
module Accounting {
  import opened Options
  import opened PeerOrder
  import opened Ownership

  /** The share tables of all groups, and which objects each poller group has. */
  datatype Tables = Tables(maps: seq<seq<bool>>, assign: seq<Shares>, inherit: seq<Shares>)

  function Unclaimed(groupOf: seq<Option<nat>>): (m: seq<bool>)
    ensures |m| == |groupOf|
  {
    seq(|groupOf|, i requires 0 <= i < |groupOf| => groupOf[i].None?)
  }

  /** Poller groups of one hostgroup each, not overlapping, with the tables made for them. */
  ghost predicate Prepared(l: Layout, t: Tables) {
    && Valid(l) && |t.maps| == |t.assign| == |t.inherit| == |l.groups|
    && (forall g :: 0 <= g < |l.groups| ==> |t.maps[g]| == |l.groupOf|)
    && (forall g, id :: 1 <= g < |l.groups| && 0 <= id < |l.groupOf| ==>
          (t.maps[g][id] <==> l.groupOf[id] == Some(g)))
    && (forall g, id :: 1 <= g < |l.groups| && 0 <= id < |l.groupOf| && t.maps[g][id] ==>
          l.groups[g].table.value[id] == Rank(t.maps[g], id))
    && (forall g :: 1 <= g < |l.groups| ==>
          && Counts(t.assign[g], Upto(|Members(t.maps[g])|)) && Counts(t.inherit[g], Members(t.maps[g]))
          && |l.groups[g].nodes| <= |t.assign[g]| && |l.groups[0].nodes| <= |t.inherit[g]|)
    && Counts(t.assign[0], Members(Unclaimed(l.groupOf))) && |l.groups[0].nodes| <= |t.assign[0]|
  }

  /** No node is in two groups. */
  ghost predicate Disjoint(l: Layout) {
    forall g, h, i, j :: 0 <= g < h < |l.groups| && 0 <= i < |l.groups[g].nodes| && 0 <= j < |l.groups[h].nodes|
      ==> l.groups[g].nodes[i] != l.groups[h].nodes[j]
  }

  /** The part of pgroup_map_objects that counts what no poller handles. */
  method CountLocal(groupOf: seq<Option<nat>>, rows: nat) returns (assign: Shares)
    ensures |assign| == rows && Counts(assign, Members(Unclaimed(groupOf)))
  {
    hide Members, Tally;
    assign := NoShares(rows);
    ghost var free := Unclaimed(groupOf);
    NoMembers();
    assert free[..0] == [];
    for i := 0 to |groupOf|
      invariant |assign| == rows && Counts(assign, Members(free[..i]))
    {
      MembersMore(free, i);
      if groupOf[i].None? {
        ghost var was := assign;
        for x := 0 to rows
          invariant Bumped(was, i, assign, x)
        {
          var peerId := i % (x + 1);
          assign := assign[x := assign[x][peerId := assign[x][peerId] + 1]];
        }
        CountsBumped(was, Members(free[..i]), i, assign);
      } else {
        assert Members(free[..i]) + [] == Members(free[..i]);
      }
    }
    assert free[..|groupOf|] == free;
  }

  ghost predicate NotOverlapping(maps: seq<seq<bool>>, n: nat) {
    && (forall g :: 0 <= g < |maps| ==> |maps[g]| == n)
    && (forall g, h, id :: 1 <= g < h < |maps| && 0 <= id < n ==> !(maps[g][id] && maps[h][id]))
  }

  /** Objects belong to the one group below h whose bitmap has them. */
  ghost predicate Claimed(maps: seq<seq<bool>>, h: nat, groupOf: seq<Option<nat>>)
    requires h <= |maps| && NotOverlapping(maps, |groupOf|)
  {
    && (forall id :: 0 <= id < |groupOf| && groupOf[id].Some? ==> 1 <= groupOf[id].value < h)
    && (forall g, id :: 1 <= g < h && 0 <= id < |groupOf| ==> (maps[g][id] <==> groupOf[id] == Some(g)))
  }

  /** host_id2pg for one more group. */
  method Claim(maps: seq<seq<bool>>, h: nat, groupOf: seq<Option<nat>>) returns (groupOf': seq<Option<nat>>)
    requires 1 <= h < |maps| && NotOverlapping(maps, |groupOf|) && Claimed(maps, h, groupOf)
    ensures |groupOf'| == |groupOf| && Claimed(maps, h + 1, groupOf')
  {
    groupOf' := groupOf;
    for id := 0 to |groupOf|
      invariant |groupOf'| == |groupOf|
      invariant forall j :: 0 <= j < |groupOf| ==> groupOf'[j] == if j < id && maps[h][j] then Some(h) else groupOf[j]
    {
      if maps[h][id] { groupOf' := groupOf'[id := Some(h)]; }
    }
  }

  ghost predicate TablesFor(g: Group, map_: seq<bool>, assign: Shares, inherit: Shares, masters: nat) {
    && g.table.Some? && |g.table.value| == |map_|
    && (forall id :: 0 <= id < |map_| && map_[id] ==> g.table.value[id] == Rank(map_, id))
    && Counts(assign, Upto(|Members(map_)|)) && Counts(inherit, Members(map_))
    && |g.nodes| <= |assign| && masters <= |inherit|
  }

  method GroupTables(g: Group, map_: seq<bool>, masters: nat) returns (g': Group, assign: Shares, inherit: Shares)
    ensures g' == g.(table := g'.table) && TablesFor(g', map_, assign, inherit, masters)
  {
    hide Members, Counts, Rank;
    var alloc := if masters < |g.nodes| then |g.nodes| else masters;
    var table, a, h := CreateIdTables(map_, alloc);
    g', assign, inherit := g.(table := Some(table)), a, h;
  }

  /** The groups gs are those of groups, with tables made for the bitmaps from 1 up to h. */
  ghost predicate Tabled(groups: seq<Group>, maps: seq<seq<bool>>, h: nat, gs: seq<Group>, assign: seq<Shares>, inherit: seq<Shares>)
    requires groups != [] && |maps| == |groups| && h <= |groups|
  {
    && |gs| == |assign| == |inherit| == h > 0 && gs[0] == groups[0]
    && forall g :: 1 <= g < h ==>
         gs[g] == groups[g].(table := gs[g].table) && TablesFor(gs[g], maps[g], assign[g], inherit[g], |groups[0].nodes|)
  }

  lemma AllPrepared(groups: seq<Group>, maps: seq<seq<bool>>, gs: seq<Group>, groupOf: seq<Option<nat>>,
                    assign: seq<Shares>, inherit: seq<Shares>, local: Shares)
    requires groups != [] && |maps| == |groups| && NotOverlapping(maps, |groupOf|)
    requires forall g :: 0 <= g < |groups| ==> groups[g].table.None? && ValidGroup(groups[g], |groupOf|)
    requires Tabled(groups, maps, |groups|, gs, assign, inherit) && Claimed(maps, |groups|, groupOf)
    requires Counts(local, Members(Unclaimed(groupOf))) && |local| == |groups[0].nodes|
    ensures Prepared(Layout(gs, groupOf), Tables(maps, assign[0 := local], inherit))
  {
    hide Members, Counts, Rank, Unclaimed;
    forall g | 0 <= g < |gs|
      ensures ValidGroup(gs[g], |groupOf|) && (g > 0 ==> gs[g].table.Some?)
    {
      assert ValidGroup(groups[g], |groupOf|);
    }
    assert Valid(Layout(gs, groupOf));
  }

  /** pgroup_map_objects: groups come without tables, and maps says which objects their hostgroups select. */
  method MapObjects(groups: seq<Group>, maps: seq<seq<bool>>, n: nat) returns (l: Layout, t: Tables)
    requires groups != [] && |maps| == |groups| && NotOverlapping(maps, n)
    requires forall g :: 0 <= g < |groups| ==> groups[g].table.None? && ValidGroup(groups[g], n)
    ensures Prepared(l, t) && t.maps == maps && |l.groupOf| == n && |l.groups| == |groups|
    ensures forall g :: 0 <= g < |groups| ==> l.groups[g] == groups[g].(table := l.groups[g].table)
  {
    hide Members, Counts, Rank, NotOverlapping, ValidGroup, TablesFor, Claimed, Prepared;
    var groupOf: seq<Option<nat>> := seq(n, _ => None);
    NothingClaimed(maps, groupOf);
    var gs, assign, inherit := [groups[0]], [[]], [[]];
    for g := 1 to |groups|
      invariant Tabled(groups, maps, g, gs, assign, inherit) && |groupOf| == n && Claimed(maps, g, groupOf)
    {
      var g', a, h := GroupTables(groups[g], maps[g], |groups[0].nodes|);
      groupOf := Claim(maps, g, groupOf);
      gs, assign, inherit := gs + [g'], assign + [a], inherit + [h];
    }
    var local := CountLocal(groupOf, |groups[0].nodes|);
    AllPrepared(groups, maps, gs, groupOf, assign, inherit, local);
    l, t := Layout(gs, groupOf), Tables(maps, assign[0 := local], inherit);
  }

  lemma NothingClaimed(maps: seq<seq<bool>>, groupOf: seq<Option<nat>>)
    requires maps != [] && NotOverlapping(maps, |groupOf|) && forall i :: 0 <= i < |groupOf| ==> groupOf[i] == None
    ensures Claimed(maps, 1, groupOf)
  {
  }

  // ---- what a node owns ----------------------------------------------------

  /** How many of the first k objects node n owns. */
  ghost function Owned(l: Layout, n: NodeId, k: nat): nat
    requires Valid(l) && k <= |l.groupOf|
  {
    if k == 0 then 0 else Owned(l, n, k - 1) + if OwnerOf(l, k - 1) == n then 1 else 0
  }

  /** How many of them it owns in place of a poller group. */
  ghost function OwnedForGroups(l: Layout, n: NodeId, k: nat): nat
    requires Valid(l) && k <= |l.groupOf|
  {
    if k == 0 then 0 else OwnedForGroups(l, n, k - 1) + if l.groupOf[k - 1].Some? && OwnerOf(l, k - 1) == n then 1 else 0
  }

  predicate TakenOver(g: Group) { g.active == 0 && g.takeover }

  /** What the p-th of m masters inherits of the first k objects, from dead groups below h. */
  ghost function Inherited(l: Layout, t: Tables, h: nat, m: nat, p: nat, k: nat): nat
    requires |t.maps| == |l.groups| && 1 <= h <= |l.groups| && m > 0
    requires forall g :: 0 <= g < |l.groups| ==> k <= |t.maps[g]|
  {
    if h == 1 then 0
    else Inherited(l, t, h - 1, m, p, k)
         + if TakenOver(l.groups[h - 1]) then Tally(Members(t.maps[h - 1][..k]), m, p) else 0
  }

  /** One more object adds to what is inherited exactly if a dead group has it and its number is p. */
  lemma {:induction false} InheritedMore(l: Layout, t: Tables, h: nat, m: nat, p: nat, k: nat)
    requires Prepared(l, t) && 1 <= h <= |l.groups| && m > 0 && k < |l.groupOf|
    ensures var g := l.groupOf[k];
            Inherited(l, t, h, m, p, k + 1) == Inherited(l, t, h, m, p, k)
              + if g.Some? && g.value < h && TakenOver(l.groups[g.value]) && k % m == p then 1 else 0
  {
    hide Members, Tally;
    if h > 1 {
      InheritedMore(l, t, h - 1, m, p, k);
      MembersMore(t.maps[h - 1], k);
      TallyMore(Members(t.maps[h - 1][..k]), k, m, p);
      assert Members(t.maps[h - 1][..k]) + [] == Members(t.maps[h - 1][..k]);
    }
  }

  lemma {:induction false} MasterOwns(l: Layout, t: Tables, p: nat, k: nat)
    requires Prepared(l, t) && Disjoint(l) && p < l.groups[0].active && k <= |l.groupOf|
    ensures Owned(l, l.groups[0].nodes[p], k)
         == Tally(Members(Unclaimed(l.groupOf)[..k]), l.groups[0].active, p)
            + Inherited(l, t, |l.groups|, l.groups[0].active, p, k)
    ensures OwnedForGroups(l, l.groups[0].nodes[p], k) == Inherited(l, t, |l.groups|, l.groups[0].active, p, k)
  {
    hide Members, Tally, Inherited, Rank, Disjoint, OwnerOf, Counts;
    var m, free := l.groups[0].active, Unclaimed(l.groupOf);
    if k == 0 {
      assert free[..0] == [];
      NoMembers();
      NoTally(m, p);
      NothingOwned(l, l.groups[0].nodes[p]);
      NothingInherited(l, t, |l.groups|, m, p);
    } else {
      MasterOwns(l, t, p, k - 1);
      MembersMore(free, k - 1);
      TallyMore(Members(free[..k - 1]), k - 1, m, p);
      assert Members(free[..k - 1]) + [] == Members(free[..k - 1]);
      InheritedMore(l, t, |l.groups|, m, p, k - 1);
      MasterOwnsOne(l, p, k - 1);
    }
  }

  lemma NoTally(m: nat, p: nat)
    requires m > 0
    ensures Tally([], m, p) == 0
  {
  }

  lemma NothingOwned(l: Layout, n: NodeId)
    requires Valid(l)
    ensures Owned(l, n, 0) == OwnedForGroups(l, n, 0) == 0
  {
  }

  lemma {:induction false} NothingInherited(l: Layout, t: Tables, h: nat, m: nat, p: nat)
    requires Prepared(l, t) && 1 <= h <= |l.groups| && m > 0
    ensures Inherited(l, t, h, m, p, 0) == 0
  {
    if h > 1 {
      NothingInherited(l, t, h - 1, m, p);
      assert t.maps[h - 1][..0] == [];
    }
  }

  lemma MasterOwnsOne(l: Layout, p: nat, id: nat)
    requires Valid(l) && Disjoint(l) && p < l.groups[0].active && id < |l.groupOf|
    ensures OwnerOf(l, id) == l.groups[0].nodes[p] <==>
            id % l.groups[0].active == p && (l.groupOf[id].None? || TakenOver(l.groups[l.groupOf[id].value]))
  {
    var m := l.groups[0].active;
    var q := AssignedPeer(id, m);
    assert q == id % m;
    if l.groupOf[id].Some? {
      var g := l.groupOf[id].value;
      assert ValidGroup(l.groups[g], |l.groupOf|) && ValidGroup(l.groups[0], |l.groupOf|);
    }
  }

  lemma {:induction false} PollerOwns(l: Layout, t: Tables, g: nat, p: nat, k: nat)
    requires Prepared(l, t) && Disjoint(l) && 1 <= g < |l.groups| && p < l.groups[g].active && k <= |l.groupOf|
    ensures Owned(l, l.groups[g].nodes[p], k) == Tally(Upto(|Members(t.maps[g][..k])|), l.groups[g].active, p)
  {
    var m := l.groups[g].active;
    if k == 0 {
      assert t.maps[g][..0] == [];
    } else {
      PollerOwns(l, t, g, p, k - 1);
      hide Members, Tally;
      MembersMore(t.maps[g], k - 1);
      var x := |Members(t.maps[g][..k - 1])|;
      TallyMore(Upto(x), x, m, p);
      UptoMore(x);
      assert Members(t.maps[g][..k - 1]) + [] == Members(t.maps[g][..k - 1]);
      PollerOwnsOne(l, g, p, k - 1);
    }
  }

  lemma PollerOwnsOne(l: Layout, g: nat, p: nat, id: nat)
    requires Valid(l) && Disjoint(l) && 1 <= g < |l.groups| && p < l.groups[g].active && id < |l.groupOf|
    ensures OwnerOf(l, id) == l.groups[g].nodes[p] <==>
            l.groupOf[id] == Some(g) && l.groups[g].table.value[id] % l.groups[g].active == p
  {
    assert ValidGroup(l.groups[g], |l.groupOf|) && ValidGroup(l.groups[0], |l.groupOf|);
    if l.groupOf[id].Some? {
      var h := l.groupOf[id].value;
      assert ValidGroup(l.groups[h], |l.groupOf|);
    }
  }

  // ---- reading the tables --------------------------------------------------

  /**
   The first active nodes of every group are the connected ones. The local node
   counts as active whether it is connected to its daemon or not.
   */
  ghost predicate ActiveConnected(l: Layout, self: NodeId, connected: set<NodeId>)
    requires l.groups != []
  {
    && (forall i :: 0 <= i < |l.groups[0].nodes| && l.groups[0].nodes[i] != self ==>
          (l.groups[0].nodes[i] in connected <==> i < l.groups[0].active))
    && (forall g, i :: 1 <= g < |l.groups| && 0 <= i < |l.groups[g].nodes| ==>
          (l.groups[g].nodes[i] in connected <==> i < l.groups[g].active))
  }

  /** The load of every active master, with what it has inherited from dead groups below h if it is connected. */
  ghost predicate MastersRight(l: Layout, t: Tables, h: nat, connected: set<NodeId>, current: map<NodeId, nat>, extra: map<NodeId, nat>)
    requires Prepared(l, t) && 1 <= h <= |l.groups|
  {
    var m := l.groups[0].active;
    forall p :: 0 <= p < m ==>
      && l.groups[0].nodes[p] in current && l.groups[0].nodes[p] in extra
      && current[l.groups[0].nodes[p]] == t.assign[0][m - 1][p]
      && extra[l.groups[0].nodes[p]] == if l.groups[0].nodes[p] in connected then Inherited(l, t, h, m, p, |l.groupOf|) else 0
  }

  ghost predicate GroupRight(l: Layout, t: Tables, g: nat, current: map<NodeId, nat>)
    requires Prepared(l, t) && 1 <= g < |l.groups|
  {
    var a := l.groups[g].active;
    && (forall p :: 0 <= p < a ==>
          l.groups[g].nodes[p] in current && current[l.groups[g].nodes[p]] == t.assign[g][a - 1][p])
    && (a > 0 ==> forall p :: a <= p < |l.groups[g].nodes| ==> l.groups[g].nodes[p] in current && current[l.groups[g].nodes[p]] == 0)
  }

  /**
   Every active node's figures come to the number of objects it owns, and in a
   group with active nodes those of the others to 0. An exception is
   that a master that is not connected, which only the local one can be, is not
   given what it owns in place of poller groups.
   */
  ghost predicate LoadsOwned(l: Layout, connected: set<NodeId>, current: map<NodeId, nat>, extra: map<NodeId, nat>)
    requires Valid(l)
  {
    && (forall p :: 0 <= p < l.groups[0].active ==>
          && MasterAt(l, p) in current && MasterAt(l, p) in extra
          && current[MasterAt(l, p)] + extra[MasterAt(l, p)] == Load(l, connected, MasterAt(l, p)))
    && (forall g, p :: 1 <= g < |l.groups| && 0 <= p < l.groups[g].active ==>
          && NodeAt(l, g, p) in current && current[NodeAt(l, g, p)] == Owned(l, NodeAt(l, g, p), |l.groupOf|))
    && (forall g, p :: 1 <= g < |l.groups| && 0 < l.groups[g].active <= p < |l.groups[g].nodes| ==>
          l.groups[g].nodes[p] in current && current[l.groups[g].nodes[p]] == 0)
  }

  ghost function Load(l: Layout, connected: set<NodeId>, n: NodeId): int
    requires Valid(l)
  {
    Owned(l, n, |l.groupOf|) - if n in connected then 0 else OwnedForGroups(l, n, |l.groupOf|)
  }

  function NodeAt(l: Layout, g: nat, p: nat): NodeId
    requires Valid(l) && g < |l.groups| && p < l.groups[g].active
  {
    assert ValidGroup(l.groups[g], |l.groupOf|);
    l.groups[g].nodes[p]
  }

  function MasterAt(l: Layout, p: nat): NodeId
    requires Valid(l) && p < l.groups[0].active
  {
    NodeAt(l, 0, p)
  }

  lemma LoadsAreOwned(l: Layout, t: Tables, connected: set<NodeId>, current: map<NodeId, nat>, extra: map<NodeId, nat>)
    requires Prepared(l, t) && Disjoint(l) && MastersRight(l, t, |l.groups|, connected, current, extra)
    requires forall g :: 1 <= g < |l.groups| ==> GroupRight(l, t, g, current)
    ensures LoadsOwned(l, connected, current, extra)
  {
    hide Counts, Members, Rank, Inherited, Tally, Owned, OwnedForGroups;
    var m := l.groups[0].active;
    forall p | 0 <= p < m
      ensures MasterAt(l, p) in current && MasterAt(l, p) in extra
      ensures current[MasterAt(l, p)] + extra[MasterAt(l, p)] == Load(l, connected, MasterAt(l, p))
    {
      MasterOwns(l, t, p, |l.groupOf|);
      RowOf(t.assign[0], m, Members(Unclaimed(l.groupOf)));
      assert Unclaimed(l.groupOf)[..|l.groupOf|] == Unclaimed(l.groupOf);
    }
    forall g, p | 1 <= g < |l.groups| && 0 <= p < l.groups[g].active
      ensures NodeAt(l, g, p) in current && current[NodeAt(l, g, p)] == Owned(l, NodeAt(l, g, p), |l.groupOf|)
    {
      PollerOwns(l, t, g, p, |l.groupOf|);
      assert GroupRight(l, t, g, current);
      RowOf(t.assign[g], l.groups[g].active, Upto(|Members(t.maps[g])|));
      assert t.maps[g][..|l.groupOf|] == t.maps[g];
    }
    forall g, p | 1 <= g < |l.groups| && 0 < l.groups[g].active <= p < |l.groups[g].nodes|
      ensures l.groups[g].nodes[p] in current && current[l.groups[g].nodes[p]] == 0
    {
      assert GroupRight(l, t, g, current);
    }
  }

  class Accounts {
    var current: map<NodeId, nat>
    var extra: map<NodeId, nat>

    constructor ()
      ensures current == extra == map[]
    {
      current, extra := map[], map[];
    }

    method ResetMasters(l: Layout, t: Tables)
      requires Prepared(l, t)
      modifies this
      ensures forall connected :: MastersRight(l, t, 1, connected, current, extra)
      ensures forall n :: n !in l.groups[0].nodes ==> (n in extra <==> n in old(extra)) && (n in extra ==> extra[n] == old(extra)[n])
    {
      hide Counts, Members, Rank;
      var pg := l.groups[0];
      var m := pg.active;
      if m > 0 { RowOf(t.assign[0], m, Members(Unclaimed(l.groupOf))); }
      assert ValidGroup(pg, |l.groupOf|);
      for i := 0 to m
        invariant forall p :: 0 <= p < i ==>
                    && pg.nodes[p] in current && pg.nodes[p] in extra
                    && current[pg.nodes[p]] == t.assign[0][m - 1][p] && extra[pg.nodes[p]] == 0
        invariant forall n :: n !in pg.nodes ==> (n in extra <==> n in old(extra)) && (n in extra ==> extra[n] == old(extra)[n])
      {
        extra := extra[pg.nodes[i] := 0];
        current := current[pg.nodes[i] := t.assign[0][m - 1][i]];
      }
    }

    /** The masters take over a dead group. */
    method Inherit(l: Layout, t: Tables, g: nat, self: NodeId, connected: set<NodeId>)
      requires Prepared(l, t) && 1 <= g < |l.groups| && TakenOver(l.groups[g]) && ActiveConnected(l, self, connected)
      requires MastersRight(l, t, g, connected, current, extra)
      modifies `extra
      ensures MastersRight(l, t, g + 1, connected, current, extra)
      ensures forall n :: n !in l.groups[0].nodes ==> (n in extra <==> n in old(extra)) && (n in extra ==> extra[n] == old(extra)[n])
    {
      hide Counts, Members, Rank, Inherited;
      var pg := l.groups[0];
      var m := pg.active;
      if m > 0 { RowOf(t.inherit[g], m, Members(t.maps[g])); }
      assert ValidGroup(pg, |l.groupOf|);
      ghost var was := extra;
      for x := 0 to m
        invariant forall p :: 0 <= p < m ==>
                    pg.nodes[p] in extra && extra[pg.nodes[p]] == was[pg.nodes[p]] + if p < x && pg.nodes[p] in connected then t.inherit[g][m - 1][p] else 0
        invariant forall n :: n !in pg.nodes ==> (n in extra <==> n in was) && (n in extra ==> extra[n] == was[n])
      {
        var node := pg.nodes[x];
        if node !in connected { continue; }
        extra := extra[node := extra[node] + t.inherit[g][m - 1][x]];
      }
      forall p | 0 <= p < m
        ensures extra[pg.nodes[p]] == if pg.nodes[p] in connected then Inherited(l, t, g + 1, m, p, |l.groupOf|) else 0
      {
        InheritedNext(l, t, g, m, p);
      }
    }

    /** The load of an active poller group. */
    method SetGroup(l: Layout, t: Tables, g: nat, self: NodeId, connected: set<NodeId>)
      requires Prepared(l, t) && 1 <= g < |l.groups| && l.groups[g].active > 0 && ActiveConnected(l, self, connected)
      modifies `current
      ensures GroupRight(l, t, g, current)
      ensures forall n :: n !in l.groups[g].nodes ==> (n in current <==> n in old(current)) && (n in current ==> current[n] == old(current)[n])
    {
      hide Counts, Members, Rank;
      var pg := l.groups[g];
      var a := pg.active;
      RowOf(t.assign[g], a, Upto(|Members(t.maps[g])|));
      assert ValidGroup(pg, |l.groupOf|);
      for x := 0 to |pg.nodes|
        invariant forall p :: 0 <= p < x && p < a ==> pg.nodes[p] in current && current[pg.nodes[p]] == t.assign[g][a - 1][p]
        invariant forall p :: a <= p < x ==> pg.nodes[p] in current && current[pg.nodes[p]] == 0
        invariant forall n :: n !in pg.nodes ==> (n in current <==> n in old(current)) && (n in current ==> current[n] == old(current)[n])
      {
        var node := pg.nodes[x];
        if node !in connected {
          current := current[node := 0];
          continue;
        }
        current := current[node := t.assign[g][a - 1][x]];
      }
    }

    /** pgroup_reassign_checks. */
    method Reassign(l: Layout, t: Tables, self: NodeId, connected: set<NodeId>)
      requires Prepared(l, t) && Disjoint(l) && ActiveConnected(l, self, connected)
      modifies this
      ensures LoadsOwned(l, connected, current, extra)
      ensures forall n :: n !in l.groups[0].nodes ==> (n in extra <==> n in old(extra)) && (n in extra ==> extra[n] == old(extra)[n])
    {
      assert l.groups != [];
      hide Counts, Members, Rank, Inherited, Prepared, MastersRight, GroupRight;
      ResetMasters(l, t);
      for i := 1 to |l.groups|
        invariant MastersRight(l, t, i, connected, current, extra)
        invariant forall g :: 1 <= g < i ==> GroupRight(l, t, g, current)
        invariant forall n :: n !in l.groups[0].nodes ==> (n in extra <==> n in old(extra)) && (n in extra ==> extra[n] == old(extra)[n])
      {
        var pg := l.groups[i];
        if pg.active == 0 {
          if !pg.takeover {
            NotInherited(l, t, i, connected, current, extra);
            continue;
          }
          Inherit(l, t, i, self, connected);
        } else {
          NotInherited(l, t, i, connected, current, extra);
          ghost var was := current;
          SetGroup(l, t, i, self, connected);
          OthersKept(l, t, i, connected, was, current, extra);
        }
      }
      LoadsAreOwned(l, t, connected, current, extra);
    }
  }

  lemma RowOf(t: Shares, m: nat, ids: seq<nat>)
    requires Counts(t, ids) && 0 < m <= |t|
    ensures |t[m - 1]| == m && forall p :: 0 <= p < m ==> t[m - 1][p] == Tally(ids, m, p)
  {
  }

  lemma InheritedNext(l: Layout, t: Tables, g: nat, m: nat, p: nat)
    requires Prepared(l, t) && 1 <= g < |l.groups| && 0 < m <= |l.groups[0].nodes| && p < m
    ensures |t.inherit[g]| >= m && |t.inherit[g][m - 1]| == m
    ensures Inherited(l, t, g + 1, m, p, |l.groupOf|)
         == Inherited(l, t, g, m, p, |l.groupOf|) + if TakenOver(l.groups[g]) then t.inherit[g][m - 1][p] else 0
  {
    hide Members, Tally, Rank, Counts;
    RowOf(t.inherit[g], m, Members(t.maps[g]));
    assert t.maps[g][..|l.groupOf|] == t.maps[g];
  }

  lemma NotInherited(l: Layout, t: Tables, g: nat, connected: set<NodeId>, current: map<NodeId, nat>, extra: map<NodeId, nat>)
    requires Prepared(l, t) && 1 <= g < |l.groups| && !TakenOver(l.groups[g]) && MastersRight(l, t, g, connected, current, extra)
    ensures MastersRight(l, t, g + 1, connected, current, extra)
  {
  }

  /** Setting the loads of one group leaves those of the others alone. */
  lemma OthersKept(l: Layout, t: Tables, i: nat, connected: set<NodeId>, was: map<NodeId, nat>, current: map<NodeId, nat>, extra: map<NodeId, nat>)
    requires Prepared(l, t) && Disjoint(l) && 1 <= i < |l.groups|
    requires forall n :: n !in l.groups[i].nodes ==> (n in current <==> n in was) && (n in current ==> current[n] == was[n])
    ensures MastersRight(l, t, i + 1, connected, was, extra) ==> MastersRight(l, t, i + 1, connected, current, extra)
    ensures forall g :: 1 <= g < i && GroupRight(l, t, g, was) ==> GroupRight(l, t, g, current)
  {
    hide Counts, Members, Rank, Inherited;
    forall g, p | 0 <= g < i && 0 <= p < l.groups[g].active
      ensures p < |l.groups[g].nodes| && l.groups[g].nodes[p] !in l.groups[i].nodes
    {
      assert ValidGroup(l.groups[g], |l.groupOf|);
    }
  }

  /** A single master that is not connected to its daemon owns the object of a dead group, and is given nothing. */
  method Unconnected() returns (l: Layout, current: nat, extra: nat)
    ensures Valid(l) && |l.groupOf| == 1 && Owned(l, 1, 1) == 1 && current + extra == 0
  {
    hide Prepared, Valid, LoadsOwned, ActiveConnected, Disjoint, ValidGroup, OwnerOf;
    var groups := [Group([1], 1, false, None), Group([2], 0, true, None)];
    var maps := [[false], [true]];
    TwoGroups(groups, maps);
    var t;
    l, t := MapObjects(groups, maps, 1);
    TwoPrepared(l, t);
    var a := new Accounts();
    a.Reassign(l, t, 1, {});
    TwoLoads(l, a.current, a.extra);
    current, extra := a.current[1], a.extra[1];
  }

  lemma TwoGroups(groups: seq<Group>, maps: seq<seq<bool>>)
    requires groups == [Group([1], 1, false, None), Group([2], 0, true, None)] && maps == [[false], [true]]
    ensures NotOverlapping(maps, 1) && forall g :: 0 <= g < |groups| ==> groups[g].table.None? && ValidGroup(groups[g], 1)
  {
  }

  lemma TwoPrepared(l: Layout, t: Tables)
    requires Prepared(l, t) && t.maps == [[false], [true]] && |l.groupOf| == 1 && |l.groups| == 2
    requires l.groups[0].nodes == [1] && l.groups[0].active == 1
    requires l.groups[1].nodes == [2] && l.groups[1].active == 0 && l.groups[1].takeover
    ensures Valid(l) && l.groupOf == [Some(1)] && OwnerOf(l, 0) == 1 && Disjoint(l) && ActiveConnected(l, 1, {})
  {
    hide Counts, Members, Rank;
    assert t.maps[1][0];
    assert ValidGroup(l.groups[0], 1) && ValidGroup(l.groups[1], 1);
  }

  lemma TwoLoads(l: Layout, current: map<NodeId, nat>, extra: map<NodeId, nat>)
    requires Valid(l) && l.groupOf == [Some(1)] && OwnerOf(l, 0) == 1 && l.groups[0].nodes == [1] && l.groups[0].active == 1
    requires LoadsOwned(l, {}, current, extra)
    ensures Owned(l, 1, 1) == 1 && 1 in current && 1 in extra && current[1] + extra[1] == 0
  {
    hide Valid, OwnerOf;
    assert MasterAt(l, 0) == 1;
    NothingOwned(l, 1);
  }

  // ---- totals and shares ---------------------------------------------------

  ghost function SumOwned(l: Layout, ns: seq<NodeId>, k: nat): nat
    requires Valid(l) && k <= |l.groupOf|
  {
    if ns == [] then 0 else Owned(l, ns[0], k) + SumOwned(l, ns[1..], k)
  }

  /** The active nodes of the groups below h. */
  ghost function Actives(l: Layout, h: nat): seq<NodeId>
    requires Valid(l) && h <= |l.groups|
  {
    if h == 0 then []
    else assert ValidGroup(l.groups[h - 1], |l.groupOf|);
         Actives(l, h - 1) + l.groups[h - 1].nodes[..l.groups[h - 1].active]
  }

  lemma {:induction false} SumNone(l: Layout, ns: seq<NodeId>)
    requires Valid(l)
    ensures SumOwned(l, ns, 0) == 0
  {
    if ns != [] { SumNone(l, ns[1..]); }
  }

  /** One more object adds one to the total if its owner is listed, once, and nothing if it is not. */
  lemma {:induction false} SumMore(l: Layout, ns: seq<NodeId>, k: nat)
    requires Valid(l) && 0 < k <= |l.groupOf| && Distinct(ns)
    ensures SumOwned(l, ns, k) == SumOwned(l, ns, k - 1) + if OwnerOf(l, k - 1) in ns then 1 else 0
  {
    hide OwnerOf;
    if ns != [] {
      SumMore(l, ns[1..], k);
      assert OwnerOf(l, k - 1) in ns <==> OwnerOf(l, k - 1) == ns[0] || OwnerOf(l, k - 1) in ns[1..];
    }
  }

  lemma {:induction false} ActiveFrom(l: Layout, h: nat, n: NodeId) returns (g: nat, i: nat)
    requires Valid(l) && h <= |l.groups| && n in Actives(l, h)
    ensures g < h && i < l.groups[g].active && NodeAt(l, g, i) == n
  {
    if n in Actives(l, h - 1) {
      g, i := ActiveFrom(l, h - 1, n);
    } else {
      g := h - 1;
      i :| 0 <= i < l.groups[g].active && l.groups[g].nodes[i] == n;
    }
  }

  lemma {:induction false} ActivesHave(l: Layout, h: nat, g: nat, i: nat)
    requires Valid(l) && g < h <= |l.groups| && i < l.groups[g].active
    ensures NodeAt(l, g, i) in Actives(l, h)
  {
    if g < h - 1 {
      ActivesHave(l, h - 1, g, i);
    } else {
      assert ValidGroup(l.groups[g], |l.groupOf|);
      assert l.groups[g].nodes[i] == l.groups[g].nodes[..l.groups[g].active][i];
    }
  }

  lemma {:induction false} ActivesDistinct(l: Layout, h: nat)
    requires Valid(l) && Disjoint(l) && h <= |l.groups|
    ensures Distinct(Actives(l, h))
  {
    if h > 0 {
      ActivesDistinct(l, h - 1);
      assert ValidGroup(l.groups[h - 1], |l.groupOf|);
      var p, q := Actives(l, h - 1), l.groups[h - 1].nodes[..l.groups[h - 1].active];
      forall i, j | 0 <= i < |p| && 0 <= j < |q|
        ensures p[i] != q[j]
      {
        assert p[i] in p;
        var g, x := ActiveFrom(l, h - 1, p[i]);
        assert ValidGroup(l.groups[g], |l.groupOf|);
      }
    }
  }

  lemma OwnerActive(l: Layout, id: nat)
    requires Valid(l) && id < |l.groupOf| && l.groups[0].active > 0
    requires forall g :: 1 <= g < |l.groups| ==> l.groups[g].active > 0 || l.groups[g].takeover
    ensures OwnerOf(l, id) in Actives(l, |l.groups|)
  {
    hide Actives;
    var g := if l.groupOf[id].Some? && !TakenOver(l.groups[l.groupOf[id].value]) then l.groupOf[id].value else 0;
    assert ValidGroup(l.groups[g], |l.groupOf|);
    var realId := if l.groups[g].table.Some? then l.groups[g].table.value[id] else id;
    ActivesHave(l, |l.groups|, g, AssignedPeer(realId, l.groups[g].active));
  }

  /** If every dead group is taken over, the active nodes together own every object, each once. */
  lemma {:induction false} EverythingOwned(l: Layout, k: nat)
    requires Valid(l) && Disjoint(l) && k <= |l.groupOf| && l.groups[0].active > 0
    requires forall g :: 1 <= g < |l.groups| ==> l.groups[g].active > 0 || l.groups[g].takeover
    ensures SumOwned(l, Actives(l, |l.groups|), k) == k
  {
    hide Actives, OwnerOf, Owned;
    if k == 0 {
      SumNone(l, Actives(l, |l.groups|));
    } else {
      EverythingOwned(l, k - 1);
      ActivesDistinct(l, |l.groups|);
      SumMore(l, Actives(l, |l.groups|), k);
      OwnerActive(l, k - 1);
    }
  }

  lemma DivStep(k: nat, m: nat)
    requires m > 0
    ensures if k % m == m - 1 then (k + 1) / m == k / m + 1 && (k + 1) % m == 0
            else (k + 1) / m == k / m && (k + 1) % m == k % m + 1
  {
    var q, r := k / m, k % m;
    assert k == q * m + r;
    if r == m - 1 {
      assert k + 1 == (q + 1) * m;
      Quotient(q + 1, m, 0);
    } else {
      Quotient(q, m, r + 1);
    }
  }

  lemma Quotient(q: nat, m: nat, r: nat)
    requires r < m
    ensures (q * m + r) / m == q && (q * m + r) % m == r
  {
    var x := q * m + r;
    Division(x, m);
    OneQuotient(q, r, x / m, x % m, m);
  }

  lemma Division(x: nat, m: nat)
    requires m > 0
    ensures x == x / m * m + x % m && 0 <= x / m
  {
  }

  lemma OneQuotient(a: nat, r: nat, b: nat, s: nat, m: nat)
    requires a * m + r == b * m + s && r < m && s < m
    ensures a == b && r == s
  {
    if a < b {
      Multiple(b - a, m);
      Distribute(b, a, m);
    } else if b < a {
      Multiple(a - b, m);
      Distribute(a, b, m);
    }
  }

  lemma Multiple(k: nat, m: nat)
    requires k >= 1
    ensures k * m >= m
  {
  }

  lemma Distribute(a: int, b: int, m: int)
    ensures (a - b) * m == a * m - b * m
  {
  }

  /** What number p of m gets of k objects: as even as can be, the first numbers one more. */
  lemma {:induction false} Share(k: nat, m: nat, p: nat)
    requires p < m
    ensures Tally(Upto(k), m, p) == k / m + if p < k % m then 1 else 0
  {
    if k == 0 {
      Quotient(0, m, 0);
    } else {
      Share(k - 1, m, p);
      UptoMore(k - 1);
      TallyMore(Upto(k - 1), k - 1, m, p);
      DivStep(k - 1, m);
    }
  }

  /** The loads in an active poller group differ by at most one. */
  lemma FairShares(l: Layout, t: Tables, g: nat, p: nat, q: nat)
    requires Prepared(l, t) && Disjoint(l) && 1 <= g < |l.groups| && p < l.groups[g].active && q < l.groups[g].active
    ensures Owned(l, NodeAt(l, g, p), |l.groupOf|) <= Owned(l, NodeAt(l, g, q), |l.groupOf|) + 1
  {
    hide Members, Rank, Tally, Owned, Counts;
    PollerOwns(l, t, g, p, |l.groupOf|);
    PollerOwns(l, t, g, q, |l.groupOf|);
    var k := |Members(t.maps[g][..|l.groupOf|])|;
    Share(k, l.groups[g].active, p);
    Share(k, l.groups[g].active, q);
  }
}
