/**
 Who executed which check last: set_host_check_node and set_service_check_node
 of module/module.c, which move a check from the count of one node to that of
 another. Checks that nobody has reported yet belong to a node of their own.
 */
module CheckNodes {
  import opened Options
  import opened PeerOrder
  import opened Words

  /** What an unsigned counter holds. */
  function Wrap(x: int): nat { x % TWO32 }

  lemma WrapStep(x: int)
    ensures Wrap(Wrap(x) + 1) == Wrap(x + 1) && Wrap(Wrap(x) - 1) == Wrap(x - 1)
  {
  }

  /** A check of this object was reported by this node. */
  datatype Report = Report(node: NodeId, id: nat)

  /** The objects of the table that are with n. */
  function With(table: seq<Option<NodeId>>, n: Option<NodeId>): nat {
    if table == [] then 0
    else With(table[..|table| - 1], n) + if table[|table| - 1] == n then 1 else 0
  }

  lemma {:induction false} WithUpdate(table: seq<Option<NodeId>>, id: nat, x: Option<NodeId>, n: Option<NodeId>)
    requires id < |table|
    ensures With(table[id := x], n) == With(table, n) - (if table[id] == n then 1 else 0) + if x == n then 1 else 0
    decreases |table|
  {
    var last := |table| - 1;
    var t := table[id := x];
    if id == last {
      assert t[..last] == table[..last];
    } else {
      assert t[..last] == table[..last][id := x];
      WithUpdate(table[..last], id, x, n);
    }
  }

  lemma {:induction false} AllUntracked(table: seq<Option<NodeId>>, n: Option<NodeId>)
    requires forall i :: 0 <= i < |table| ==> table[i] == None
    ensures With(table, n) == if n == None then |table| else 0
  {
    if table != [] { AllUntracked(table[..|table| - 1], n); }
  }

  /** The node that reported last for each object, if any did. */
  function LastReports(size: nat, reports: seq<Report>): (t: seq<Option<NodeId>>)
    ensures |t| == size
  {
    if reports == [] then seq(size, _ => None)
    else
      var t := LastReports(size, reports[..|reports| - 1]);
      var r := reports[|reports| - 1];
      if r.id < size then t[r.id := Some(r.node)] else t
  }

  class Tracker {
    var table: seq<Option<NodeId>>
    /** The 32-bit counters of the nodes, and that of the untracked checks. */
    var checks: map<NodeId, nat>
    var untracked: nat

    /** Every node's count is the number of objects that are with it; untracked counts down from zero. */
    ghost predicate Valid()
      reads this
    {
      && (forall n :: n in checks ==> checks[n] == Wrap(With(table, Some(n))))
      && (forall i :: 0 <= i < |table| && table[i].Some? ==> table[i].value in checks)
      && untracked == Wrap(With(table, None) - |table|)
    }

    constructor (nodes: set<NodeId>, size: nat)
      ensures Valid() && checks.Keys == nodes && table == LastReports(size, [])
    {
      table := seq(size, _ => None);
      checks := map n | n in nodes :: 0;
      untracked := 0;
      new;
      AllUntracked(table, None);
      forall n | n in checks ensures With(table, Some(n)) == 0 { AllUntracked(table, Some(n)); }
    }

    method SetCheckNode(node: NodeId, id: nat)
      requires Valid() && node in checks && id < |table|
      modifies this
      ensures Valid() && checks.Keys == old(checks.Keys) && table == old(table)[id := Some(node)]
    {
      hide With, Wrap;
      var previous := table[id];
      if previous == Some(node) { return; }
      forall n { WithUpdate(table, id, Some(node), n); }
      WrapStep(With(table, previous));
      WrapStep(With(table, None) - |table|);
      WrapStep(With(table, Some(node)));
      if previous.None? {
        var before: int := untracked;
        untracked := Wrap(before - 1);
      } else {
        var before: int := checks[previous.value];
        checks := checks[previous.value := Wrap(before - 1)];
      }
      checks := checks[node := Wrap(checks[node] + 1)];
      table := table[id := Some(node)];
    }
  }

  /** After any run of reports, a node's counter is the number of objects it was the last to report. */
  method Run(nodes: set<NodeId>, size: nat, reports: seq<Report>) returns (checks: map<NodeId, nat>, untracked: nat)
    requires forall i :: 0 <= i < |reports| ==> reports[i].node in nodes && reports[i].id < size
    ensures checks.Keys == nodes
    ensures forall n :: n in nodes ==> checks[n] == Wrap(With(LastReports(size, reports), Some(n)))
    ensures untracked == Wrap(With(LastReports(size, reports), None) - size)
  {
    hide With, Wrap;
    var t := new Tracker(nodes, size);
    assert reports[..0] == [];
    for i := 0 to |reports|
      invariant t.Valid() && t.checks.Keys == nodes && t.table == LastReports(size, reports[..i])
    {
      assert reports[..i + 1][..i] == reports[..i];
      t.SetCheckNode(reports[i].node, reports[i].id);
    }
    assert reports[..|reports|] == reports;
    return t.checks, t.untracked;
  }
}
