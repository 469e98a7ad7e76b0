/**
 Which node checks which object (shared/pgroup.c and shared/pgroup.h), and the
 tables that say in advance how many objects that will be. Hosts and services
 have tables of the same form; here they are objects with ids from 0 on.
 */
module Ownership {
  import opened Options
  import opened PeerOrder

  /** What host_id_table holds for an object that is not in the group. */
  const NOT_MEMBER: nat := 0xffff_ffff

  /** A peer group in its current order. The local group has no id table. */
  datatype Group = Group(nodes: seq<NodeId>, active: nat, takeover: bool, table: Option<seq<nat>>)

  /** All peer groups, the local one first, and for each object the poller group that has it, if any. */
  datatype Layout = Layout(groups: seq<Group>, groupOf: seq<Option<nat>>)

  function AssignedPeer(id: nat, active: nat): (p: nat)
    ensures p == 0 || p < active
  {
    if active != 0 then id % active else 0
  }

  ghost predicate ValidGroup(g: Group, objects: nat) {
    && g.nodes != [] && g.active <= |g.nodes| && Distinct(g.nodes)
    && (g.table.Some? ==> |g.table.value| == objects)
  }

  ghost predicate Valid(l: Layout) {
    && l.groups != [] && l.groups[0].table.None?
    && (forall g :: 0 <= g < |l.groups| ==> ValidGroup(l.groups[g], |l.groupOf|))
    && (forall g :: 1 <= g < |l.groups| ==> l.groups[g].table.Some?)
    && (forall id :: 0 <= id < |l.groupOf| && l.groupOf[id].Some? ==> 1 <= l.groupOf[id].value < |l.groups|)
  }

  function PgroupNode(l: Layout, g: nat, id: nat): NodeId
    requires Valid(l) && g < |l.groups| && id < |l.groupOf|
  {
    var pg := l.groups[g];
    if pg.table.Some? && pg.active == 0 && pg.takeover then
      l.groups[0].nodes[AssignedPeer(id, l.groups[0].active)]
    else
      var realId := if pg.table.Some? then pg.table.value[id] else id;
      pg.nodes[AssignedPeer(realId, pg.active)]
  }

  /** pgroup_host_node and pgroup_service_node. */
  function OwnerOf(l: Layout, id: nat): NodeId
    requires Valid(l) && id < |l.groupOf|
  {
    PgroupNode(l, if l.groupOf[id].Some? then l.groupOf[id].value else 0, id)
  }

  // ---- agreement -----------------------------------------------------------

  /** Group g of layout l is what v makes of the members by sorting and counting. */
  ghost predicate Numbered(v: View, members: set<NodeId>, g: Group) {
    Arranged(v, members, g.nodes) && g.active == NumUp(v, g.nodes)
  }

  /** g gives an object of this rank to n. */
  predicate Chooses(g: Group, rank: nat, n: NodeId) {
    var p := AssignedPeer(rank, g.active);
    p < |g.nodes| && g.nodes[p] == n
  }

  /** Nodes that know a group alike give an object of the same rank in it to the same active node. */
  lemma SameChoice(v: View, w: View, members: set<NodeId>, up: set<NodeId>, start: map<NodeId, Timeval>,
                   g: Group, h: Group, rank: nat)
    returns (owner: NodeId)
    requires Consistent(v, members, up, start) && Consistent(w, members, up, start)
    requires Numbered(v, members, g) && Numbered(w, members, h) && up != {}
    ensures g.active == h.active == |up| > 0 && owner in up
    ensures forall n :: (Chooses(g, rank, n) <==> n == owner) && (Chooses(h, rank, n) <==> n == owner)
  {
    hide NumUp, Sorted, Consistent;
    SameNumbers(v, w, members, up, start, g.nodes, h.nodes);
    ActivesByStart(v, members, up, start, g.nodes);
    var p := AssignedPeer(rank, g.active);
    assert g.nodes[p] == g.nodes[..g.active][p] && h.nodes[p] == h.nodes[..g.active][p];
    owner := g.nodes[p];
  }

  /** A clique: nodes that are all up, know each other so, and have each numbered the group. */
  ghost predicate Clique(views: map<NodeId, View>, groups: map<NodeId, Group>,
                         members: set<NodeId>, up: set<NodeId>, start: map<NodeId, Timeval>) {
    && up != {} && up <= views.Keys && up <= groups.Keys
    && forall n :: n in up ==>
         && views[n].self == n && Consistent(views[n], members, up, start)
         && Numbered(views[n], members, groups[n])
  }

  /** In a clique, every peer gives an object to the same peer, so exactly one takes it as its own. */
  lemma OneOwner(views: map<NodeId, View>, groups: map<NodeId, Group>,
                 members: set<NodeId>, up: set<NodeId>, start: map<NodeId, Timeval>, id: nat)
    returns (owner: NodeId)
    requires Clique(views, groups, members, up, start)
    ensures owner in up
    ensures forall n, o :: n in up ==> (Chooses(groups[n], id, o) <==> o == owner)
    ensures forall n :: n in up ==> groups[n].active == |up|
  {
    var m :| m in up;
    hide Consistent, Numbered, Chooses;
    owner := SameChoice(views[m], views[m], members, up, start, groups[m], groups[m], id);
    forall n | n in up
      ensures groups[n].active == |up| && forall o :: Chooses(groups[n], id, o) <==> o == owner
    {
      var same := SameChoice(views[m], views[n], members, up, start, groups[m], groups[n], id);
      assert Chooses(groups[m], id, same);
    }
  }

  /**
   A poller numbers the objects of its group from 0 in the order the masters
   have them, so its id for an object is the object's rank at the master. If
   master and poller know the poller group alike, they choose the same poller.
   */
  lemma PollerAgrees(v: View, w: View, members: set<NodeId>, up: set<NodeId>, start: map<NodeId, Timeval>,
                     l: Layout, k: nat, l': Layout, map_: seq<bool>, id: nat)
    requires Consistent(v, members, up, start) && Consistent(w, members, up, start) && up != {}
    requires Valid(l) && Valid(l') && 1 <= k < |l.groups| && id < |l.groupOf| == |map_|
    requires Numbered(v, members, l.groups[k]) && Numbered(w, members, l'.groups[0])
    requires l.groupOf[id] == Some(k) && map_[id] && l.groups[k].table.value[id] == Rank(map_, id)
    requires Rank(map_, id) < |l'.groupOf| && l'.groupOf[Rank(map_, id)] == None
    ensures OwnerOf(l, id) == OwnerOf(l', Rank(map_, id)) && OwnerOf(l, id) in up
  {
    hide Consistent, Numbered, Rank;
    var owner := SameChoice(v, w, members, up, start, l.groups[k], l'.groups[0], Rank(map_, id));
    assert Chooses(l.groups[k], Rank(map_, id), OwnerOf(l, id));
    assert Chooses(l'.groups[0], Rank(map_, id), OwnerOf(l', Rank(map_, id)));
  }

  // ---- the id and share tables ---------------------------------------------

  /** The objects in a bitmap, in order. */
  function Members(map_: seq<bool>): (ids: seq<nat>)
    ensures forall i :: 0 <= i < |ids| ==> ids[i] < |map_|
  {
    if map_ == [] then []
    else
      var n := |map_| - 1;
      Members(map_[..n]) + if map_[n] then [n] else []
  }

  /** How many objects of the bitmap come before i: its id on the pollers. */
  function Rank(map_: seq<bool>, i: nat): nat
    requires i <= |map_|
  {
    |Members(map_[..i])|
  }

  /** How many of ids fall to number p out of m. */
  function Tally(ids: seq<nat>, m: nat, p: nat): nat
    requires m > 0
  {
    if ids == [] then 0
    else
      var n := |ids| - 1;
      Tally(ids[..n], m, p) + if ids[n] % m == p then 1 else 0
  }

  function Upto(k: nat): (s: seq<nat>) { seq(k, i requires 0 <= i < k => i) }

  lemma TallyMore(ids: seq<nat>, x: nat, m: nat, p: nat)
    requires m > 0
    ensures Tally(ids + [x], m, p) == Tally(ids, m, p) + if x % m == p then 1 else 0
  {
    assert (ids + [x])[..|ids|] == ids;
  }

  lemma UptoMore(k: nat)
    ensures Upto(k + 1) == Upto(k) + [k]
  {
  }

  lemma MembersMore(map_: seq<bool>, i: nat)
    requires i < |map_|
    ensures Members(map_[..i + 1]) == Members(map_[..i]) + if map_[i] then [i] else []
  {
    assert map_[..i + 1][..i] == map_[..i];
  }

  type Shares = seq<seq<nat>>

  /** Row n says how many of ids each of n + 1 nodes gets. */
  ghost predicate Counts(t: Shares, ids: seq<nat>) {
    forall n :: 0 <= n < |t| ==> |t[n]| == n + 1 && forall p :: 0 <= p <= n ==> t[n][p] == Tally(ids, n + 1, p)
  }

  /** t' is t with the share that id x falls to one larger in every row. */
  ghost predicate Bumped(t: Shares, x: nat, t': Shares, rows: nat) {
    && |t'| == |t| && rows <= |t|
    && (forall n :: 0 <= n < |t| ==> |t[n]| == n + 1)
    && (forall n :: 0 <= n < rows ==> t'[n] == t[n][x % (n + 1) := t[n][x % (n + 1)] + 1])
    && (forall n :: rows <= n < |t| ==> t'[n] == t[n])
  }

  lemma CountsBumped(t: Shares, ids: seq<nat>, x: nat, t': Shares)
    requires Counts(t, ids) && Bumped(t, x, t', |t|)
    ensures Counts(t', ids + [x])
  {
    forall n, p | 0 <= n < |t'| && 0 <= p <= n
      ensures t'[n][p] == Tally(ids + [x], n + 1, p)
    {
      TallyMore(ids, x, n + 1, p);
    }
  }

  /** calloc: a triangle of zeros. */
  function NoShares(rows: nat): (t: Shares)
    ensures |t| == rows && Counts(t, [])
  {
    seq(rows, n requires 0 <= n < rows => seq(n + 1, _ => 0))
  }

  /** One more member: rank x among the group's objects, id i among all. */
  method CountMember(assign: Shares, inherit: Shares, x: nat, i: nat) returns (assign': Shares, inherit': Shares)
    requires |assign| == |inherit|
    requires forall n :: 0 <= n < |assign| ==> |assign[n]| == |inherit[n]| == n + 1
    ensures Bumped(assign, x, assign', |assign|) && Bumped(inherit, i, inherit', |inherit|)
  {
    assign', inherit' := assign, inherit;
    for n := 0 to |assign|
      invariant Bumped(assign, x, assign', n) && Bumped(inherit, i, inherit', n)
    {
      var peerId := x % (n + 1);
      assign' := assign'[n := assign'[n][peerId := assign'[n][peerId] + 1]];
      inherit' := inherit'[n := inherit'[n][i % (n + 1) := inherit'[n][i % (n + 1)] + 1]];
    }
  }

  /** pg_create_id_convtables, for a group of one hostgroup: the tables start out empty. */
  method CreateIdTables(map_: seq<bool>, alloc: nat) returns (table: seq<nat>, assign: Shares, inherit: Shares)
    ensures |table| == |map_|
    ensures forall i :: 0 <= i < |map_| ==> table[i] == if map_[i] then Rank(map_, i) else NOT_MEMBER
    ensures |assign| == |inherit| == alloc
    ensures Counts(assign, Upto(|Members(map_)|)) && Counts(inherit, Members(map_))
  {
    hide Members, Tally;
    table := seq(|map_|, _ => NOT_MEMBER);
    assign, inherit := NoShares(alloc), NoShares(alloc);
    var x := 0;
    NoMembers();
    assert map_[..0] == [] && Upto(0) == [];
    for i := 0 to |map_|
      invariant |table| == |map_| && |assign| == |inherit| == alloc && x == |Members(map_[..i])|
      invariant forall j :: 0 <= j < |map_| ==> table[j] == if j < i && map_[j] then Rank(map_, j) else NOT_MEMBER
      invariant Counts(assign, Upto(x)) && Counts(inherit, Members(map_[..i]))
    {
      MembersMore(map_, i);
      if map_[i] {
        table := table[i := x];
        var a, h := CountMember(assign, inherit, x, i);
        CountsBumped(assign, Upto(x), x, a);
        CountsBumped(inherit, Members(map_[..i]), i, h);
        UptoMore(x);
        assign, inherit, x := a, h, x + 1;
      } else {
        assert Members(map_[..i]) + [] == Members(map_[..i]);
      }
    }
    assert map_[..|map_|] == map_;
  }

  lemma NoMembers()
    ensures Members([]) == []
  {
  }
}
