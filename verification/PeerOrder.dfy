/**
 How a node puts the members of a peer group in order (shared/pgroup.c): those
 it is connected to first, itself among them, and the earliest started first.
 */
module PeerOrder {
  import opened Words

  type NodeId = nat

  datatype State = NONE | PENDING | NEGOTIATING | CONNECTED

  datatype Timeval = Timeval(sec: int, usec: int)

  /** What a node knows of another one. A start time of zero seconds means it has not said. */
  datatype Peer = Peer(state: State, start: Timeval)

  /** One node's knowledge of all the nodes, itself included. */
  datatype View = View(self: NodeId, known: map<NodeId, Peer>)

  predicate Up(v: View, n: NodeId)
    requires n in v.known
  {
    n == v.self || v.known[n].state == CONNECTED
  }

  function TimevalComp(a: Timeval, b: Timeval): int {
    if a.sec == b.sec then Int32(a.usec - b.usec) else Int32(a.sec - b.sec)
  }

  function CmpPeer(v: View, a: NodeId, b: NodeId): int
    requires a in v.known && b in v.known
  {
    var sa := if a == v.self then CONNECTED else v.known[a].state;
    var sb := if b == v.self then CONNECTED else v.known[b].state;
    var ta, tb := v.known[a].start, v.known[b].start;
    if sa != sb && sa == CONNECTED then -1
    else if sa != sb && sb == CONNECTED then 1
    else if ta.sec != 0 && tb.sec == 0 then -1
    else if tb.sec != 0 && ta.sec == 0 then 1
    else TimevalComp(ta, tb)
  }

  predicate InRange(t: Timeval) { 0 <= t.usec < 1000000 }

  predicate Earlier(a: Timeval, b: Timeval) { a.sec < b.sec || (a.sec == b.sec && a.usec < b.usec) }

  /** The comparison has the right sign. */
  predicate SignRight(a: Timeval, b: Timeval) {
    (TimevalComp(a, b) < 0 <==> Earlier(a, b)) && (TimevalComp(a, b) > 0 <==> Earlier(b, a))
  }

  /** Differences in seconds that keep their sign, modulo 2^32. */
  predicate KeepsSign(d: int) {
    d == 0 || if d > 0 then 0 < d % TWO32 < TWO31 else d % TWO32 >= TWO31
  }

  lemma Int32Sign(x: int)
    ensures Int32(x) < 0 <==> x % TWO32 >= TWO31
    ensures Int32(x) > 0 <==> 0 < x % TWO32 < TWO31
  {
  }

  lemma Small(x: int)
    requires -TWO31 <= x < TWO31
    ensures Int32(x) == x
  {
  }

  /** The comparison of two start times has the right sign exactly when their difference in seconds keeps its own. */
  lemma SignExact(a: Timeval, b: Timeval)
    requires InRange(a) && InRange(b)
    ensures SignRight(a, b) <==> KeepsSign(a.sec - b.sec)
  {
    Int32Sign(a.sec - b.sec);
    Small(a.usec - b.usec);
  }

  /** Start times that compare right in both directions. */
  ghost predicate Comparable(a: Timeval, b: Timeval) {
    InRange(a) && InRange(b) && KeepsSign(a.sec - b.sec) && KeepsSign(b.sec - a.sec)
  }

  /** Less than 2^31 seconds are enough. */
  lemma NearComparable(a: Timeval, b: Timeval)
    requires InRange(a) && InRange(b) && -TWO31 < a.sec - b.sec < TWO31
    ensures Comparable(a, b)
  {
    var d := a.sec - b.sec;
    assert d > 0 ==> d % TWO32 == d && -d % TWO32 == TWO32 - d;
    assert d < 0 ==> d % TWO32 == TWO32 + d && -d % TWO32 == -d;
  }

  ghost predicate Clocks(v: View) {
    forall a, b :: a in v.known && b in v.known && v.known[a].start.sec != 0 && v.known[b].start.sec != 0
      ==> Comparable(v.known[a].start, v.known[b].start)
  }

  ghost predicate Microseconds(v: View) {
    forall a :: a in v.known ==> InRange(v.known[a].start)
  }

  /** The order that is meant: connected, then started, then earlier, in that order of importance. */
  predicate Before(v: View, a: NodeId, b: NodeId)
    requires a in v.known && b in v.known
  {
    var ta, tb := v.known[a].start, v.known[b].start;
    if Up(v, a) != Up(v, b) then Up(v, a)
    else if (ta.sec != 0) != (tb.sec != 0) then ta.sec != 0
    else Earlier(ta, tb)
  }

  /** The comparison of two nodes has the right sign, both ways round. */
  predicate CmpRight(v: View, a: NodeId, b: NodeId)
    requires a in v.known && b in v.known
  {
    && (CmpPeer(v, a, b) < 0 <==> Before(v, a, b)) && (CmpPeer(v, a, b) > 0 <==> Before(v, b, a))
    && (CmpPeer(v, b, a) < 0 <==> Before(v, b, a)) && (CmpPeer(v, b, a) > 0 <==> Before(v, a, b))
  }

  /** Whether two nodes are told apart before their start times are compared. */
  predicate Decided(v: View, a: NodeId, b: NodeId)
    requires a in v.known && b in v.known
  {
    Up(v, a) != Up(v, b) || (v.known[a].start.sec != 0) != (v.known[b].start.sec != 0)
  }

  /** That is so exactly when the start times do not matter or are comparable. */
  lemma CmpExact(v: View, a: NodeId, b: NodeId)
    requires a in v.known && b in v.known && Microseconds(v)
    ensures CmpRight(v, a, b) <==> Decided(v, a, b) || Comparable(v.known[a].start, v.known[b].start)
  {
    hide KeepsSign, TimevalComp;
    SignExact(v.known[a].start, v.known[b].start);
    SignExact(v.known[b].start, v.known[a].start);
  }

  /** With comparable clocks, the comparison is a sign for that order. */
  lemma CmpIsOrder(v: View, a: NodeId, b: NodeId)
    requires a in v.known && b in v.known && Clocks(v) && Microseconds(v)
    ensures CmpPeer(v, a, b) < 0 <==> Before(v, a, b)
    ensures CmpPeer(v, a, b) > 0 <==> Before(v, b, a)
  {
    hide CmpPeer, Before;
    CmpExact(v, a, b);
    if v.known[a].start.sec == 0 && v.known[b].start.sec == 0 {
      NearComparable(v.known[a].start, v.known[b].start);
    }
  }

  /** A node that started first is placed last when another started 2^31 + 1 seconds later. */
  lemma FarApart()
    ensures var a, b := Timeval(1, 0), Timeval(1 + TWO31 + 1, 0);
            Earlier(a, b) && TimevalComp(a, b) > 0 && !KeepsSign(a.sec - b.sec)
  {
    SignExact(Timeval(1, 0), Timeval(1 + TWO31 + 1, 0));
  }

  predicate Known(v: View, s: seq<NodeId>) { forall i :: 0 <= i < |s| ==> s[i] in v.known }

  ghost predicate Sorted(v: View, s: seq<NodeId>)
    requires Known(v, s)
  {
    forall i, j :: 0 <= i < j < |s| ==> CmpPeer(v, s[i], s[j]) <= 0
  }

  lemma NotAfterTransitive(v: View, a: NodeId, b: NodeId, c: NodeId)
    requires {a, b, c} <= v.known.Keys && Clocks(v) && Microseconds(v)
    requires CmpPeer(v, a, b) <= 0 && CmpPeer(v, b, c) <= 0
    ensures CmpPeer(v, a, c) <= 0
  {
    hide CmpPeer;
    CmpIsOrder(v, a, b);
    CmpIsOrder(v, b, c);
    CmpIsOrder(v, a, c);
  }

  lemma NotAfterTotal(v: View, a: NodeId, b: NodeId)
    requires {a, b} <= v.known.Keys && Clocks(v) && Microseconds(v)
    ensures CmpPeer(v, a, b) <= 0 || CmpPeer(v, b, a) <= 0
  {
    hide CmpPeer;
    CmpIsOrder(v, a, b);
    CmpIsOrder(v, b, a);
  }

  /** Where x goes in t. */
  method Place(v: View, t: seq<NodeId>, x: NodeId) returns (k: nat)
    requires Known(v, t) && x in v.known && Sorted(v, t) && Clocks(v) && Microseconds(v)
    ensures k <= |t|
    ensures forall i :: 0 <= i < k ==> CmpPeer(v, t[i], x) <= 0
    ensures forall i :: k <= i < |t| ==> CmpPeer(v, x, t[i]) <= 0
  {
    hide CmpPeer;
    k := |t|;
    while k > 0 && CmpPeer(v, t[k - 1], x) > 0
      invariant 0 <= k <= |t|
      invariant forall i :: k <= i < |t| ==> CmpPeer(v, x, t[i]) <= 0
    {
      NotAfterTotal(v, t[k - 1], x);
      k := k - 1;
    }
    if k > 0 {
      forall i | 0 <= i < k
        ensures CmpPeer(v, t[i], x) <= 0
      {
        if i < k - 1 { NotAfterTransitive(v, t[i], t[k - 1], x); }
      }
    }
  }

  /** qsort with cmp_peer. Which of two equal nodes comes first is up to the library. */
  method Qsort(v: View, s: seq<NodeId>) returns (t: seq<NodeId>)
    requires Known(v, s) && Clocks(v) && Microseconds(v)
    ensures multiset(t) == multiset(s) && |t| == |s| && Known(v, t) && Sorted(v, t)
  {
    hide CmpPeer, Sorted;
    t := [];
    assert Sorted(v, []) by { SortedNothing(v); }
    for n := 0 to |s|
      invariant |t| == n && multiset(t) == multiset(s[..n]) && Known(v, t) && Sorted(v, t)
    {
      var k := Place(v, t, s[n]);
      InsertAt(t, k, s[n]);
      InsertSorted(v, t, k, s[n]);
      t := t[..k] + [s[n]] + t[k..];
      assert s[..n + 1] == s[..n] + [s[n]];
    }
    assert s[..|s|] == s;
  }

  lemma InsertAt(t: seq<NodeId>, k: nat, x: NodeId)
    requires k <= |t|
    ensures multiset(t[..k] + [x] + t[k..]) == multiset(t) + multiset{x}
  {
    assert t == t[..k] + t[k..];
  }

  lemma SortedNothing(v: View)
    ensures Sorted(v, [])
  {
  }

  lemma InsertSorted(v: View, t: seq<NodeId>, k: nat, x: NodeId)
    requires Known(v, t) && x in v.known && Sorted(v, t) && k <= |t|
    requires forall i :: 0 <= i < k ==> CmpPeer(v, t[i], x) <= 0
    requires forall i :: k <= i < |t| ==> CmpPeer(v, x, t[i]) <= 0
    ensures var t' := t[..k] + [x] + t[k..]; Known(v, t') && Sorted(v, t')
  {
    hide CmpPeer;
    var t' := t[..k] + [x] + t[k..];
    assert forall i :: 0 <= i < |t'| ==> t'[i] == if i < k then t[i] else if i == k then x else t[i - 1];
  }

  // ---- the numbering -------------------------------------------------------

  function NumUp(v: View, s: seq<NodeId>): (n: nat)
    requires Known(v, s)
    ensures n <= |s|
  {
    if s == [] then 0 else (if Up(v, s[0]) then 1 else 0) + NumUp(v, s[1..])
  }

  lemma {:induction false} NumUpAppend(v: View, p: seq<NodeId>, q: seq<NodeId>)
    requires Known(v, p) && Known(v, q)
    ensures Known(v, p + q) && NumUp(v, p + q) == NumUp(v, p) + NumUp(v, q)
  {
    if p == [] {
      assert p + q == q;
    } else {
      assert (p + q)[0] == p[0] && (p + q)[1..] == p[1..] + q;
      NumUpAppend(v, p[1..], q);
    }
  }

  lemma {:induction false} AllUp(v: View, s: seq<NodeId>, up: bool)
    requires Known(v, s) && forall i :: 0 <= i < |s| ==> Up(v, s[i]) == up
    ensures NumUp(v, s) == if up then |s| else 0
  {
    if s != [] { AllUp(v, s[1..], up); }
  }

  /** In a sorted group the nodes that are up come first, so they have the numbers below their count. */
  lemma UpFirst(v: View, s: seq<NodeId>)
    requires Known(v, s) && Sorted(v, s)
    ensures forall i :: 0 <= i < |s| ==> (Up(v, s[i]) <==> i < NumUp(v, s))
  {
    hide CmpPeer, NumUp, FirstDown;
    var k := FirstDown(v, s);
    assert s == s[..k] + s[k..];
    NumUpAppend(v, s[..k], s[k..]);
    AllUp(v, s[..k], true);
    forall i | k <= i < |s|
      ensures !Up(v, s[i])
    {
      if i > k { DownAfterDown(v, s[k], s[i]); }
    }
    AllUp(v, s[k..], false);
  }

  lemma DownAfterDown(v: View, a: NodeId, b: NodeId)
    requires a in v.known && b in v.known && CmpPeer(v, a, b) <= 0 && !Up(v, a)
    ensures !Up(v, b)
  {
  }

  function FirstDown(v: View, s: seq<NodeId>): (k: nat)
    requires Known(v, s)
    ensures k <= |s| && (forall i :: 0 <= i < k ==> Up(v, s[i])) && (k < |s| ==> !Up(v, s[k]))
  {
    if s == [] || !Up(v, s[0]) then 0 else 1 + FirstDown(v, s[1..])
  }

  predicate Distinct(s: seq<NodeId>) { forall i, j :: 0 <= i < j < |s| ==> s[i] != s[j] }

  lemma {:induction false} OnceEach(s: seq<NodeId>, x: NodeId)
    requires Distinct(s)
    ensures multiset(s)[x] <= 1
  {
    if s != [] {
      OnceEach(s[1..], x);
      assert s == [s[0]] + s[1..];
      if x == s[0] { assert x !in s[1..]; }
    }
  }

  lemma PermutedDistinct(s: seq<NodeId>, t: seq<NodeId>)
    requires Distinct(s) && multiset(s) == multiset(t)
    ensures Distinct(t) && forall n :: n in s <==> n in t
  {
    forall i, j | 0 <= i < j < |t|
      ensures t[i] != t[j]
    {
      OnceEach(s, t[i]);
      assert t == t[..i] + [t[i]] + t[i + 1..j] + [t[j]] + t[j + 1..];
    }
    forall n ensures n in s <==> n in t {
      assert n in s <==> n in multiset(s);
    }
  }

  ghost predicate ByStart(start: map<NodeId, Timeval>, s: seq<NodeId>) {
    && (forall i :: 0 <= i < |s| ==> s[i] in start)
    && forall i, j :: 0 <= i < j < |s| ==> Earlier(start[s[i]], start[s[j]])
  }

  /** There is one way to list a set of nodes by start time. */
  lemma {:induction false} OneOrder(start: map<NodeId, Timeval>, s: seq<NodeId>, t: seq<NodeId>)
    requires ByStart(start, s) && ByStart(start, t)
    requires forall n :: n in s <==> n in t
    ensures s == t
  {
    assert t != [] ==> t[0] in s;
    if s != [] {
      assert s[0] in t;
      var j :| 0 <= j < |t| && t[j] == s[0];
      assert t[0] in s;
      var i :| 0 <= i < |s| && s[i] == t[0];
      assert j == 0;
      forall n
        ensures n in s[1..] <==> n in t[1..]
      {
        assert n in s[1..] ==> n in s && n != s[0];
        assert n in t[1..] ==> n in t && n != t[0];
      }
      OneOrder(start, s[1..], t[1..]);
    }
  }

  /** v knows the members of a group right: who is up, and when those started. */
  ghost predicate Consistent(v: View, members: set<NodeId>, up: set<NodeId>, start: map<NodeId, Timeval>) {
    && members <= v.known.Keys && up <= members && up <= start.Keys
    && (forall n :: n in members ==> (Up(v, n) <==> n in up))
    && (forall n :: n in up ==> v.known[n].start == start[n] && start[n].sec != 0)
    && (forall a, b :: a in up && b in up && a != b ==> Earlier(start[a], start[b]) || Earlier(start[b], start[a]))
    && Clocks(v) && Microseconds(v)
  }

  /** The first k of s are the ones that are up. */
  ghost predicate Fronts(v: View, s: seq<NodeId>, k: nat) {
    k <= |s| && Known(v, s) && forall i :: 0 <= i < |s| ==> (Up(v, s[i]) <==> i < k)
  }

  /** And they are in order. */
  ghost predicate Leads(v: View, s: seq<NodeId>, k: nat) {
    && Fronts(v, s, k)
    && (forall i, j :: 0 <= i < j < k ==> CmpPeer(v, s[i], s[j]) <= 0)
  }

  predicate NotAfter(v: View, a: NodeId, b: NodeId) { a in v.known && b in v.known && CmpPeer(v, a, b) <= 0 }

  /** Whoever is at place p of s, the first k of which are active, is in order with those next to it. */
  predicate Between(v: View, s: seq<NodeId>, k: nat, p: nat) {
    && (0 < p < |s| ==> NotAfter(v, s[p - 1], s[p]))
    && (p + 1 < k && p + 1 < |s| ==> NotAfter(v, s[p], s[p + 1]))
  }

  /** When one active node has a new start time, the order is kept if and only if it is kept next to that node. */
  lemma BetweenLeads(v: View, w: View, s: seq<NodeId>, k: nat, p: nat)
    requires Leads(v, s, k) && p < k && Distinct(s) && w.self == v.self && w.known.Keys == v.known.Keys
    requires forall m :: m in v.known && m != s[p] ==> w.known[m] == v.known[m]
    requires Up(w, s[p]) && Clocks(w) && Microseconds(w)
    ensures Leads(w, s, k) <==> Between(w, s, k, p)
  {
    hide CmpPeer, Clocks, Microseconds;
    if Between(w, s, k, p) {
      forall i, j | 0 <= i < j < k ensures CmpPeer(w, s[i], s[j]) <= 0 {
        assert CmpPeer(v, s[i], s[j]) <= 0;
        if j == p {
          if i < p - 1 {
            CmpSame(v, w, s[i], s[p - 1]);
            NotAfterTransitive(w, s[i], s[p - 1], s[p]);
          }
        } else if i == p {
          if p + 1 < j {
            CmpSame(v, w, s[p + 1], s[j]);
            NotAfterTransitive(w, s[p], s[p + 1], s[j]);
          }
        } else {
          CmpSame(v, w, s[i], s[j]);
        }
      }
    }
  }

  lemma CmpSame(v: View, w: View, a: NodeId, b: NodeId)
    requires v.self == w.self && {a, b} <= v.known.Keys && {a, b} <= w.known.Keys
    requires w.known[a] == v.known[a] && w.known[b] == v.known[b]
    ensures CmpPeer(w, a, b) == CmpPeer(v, a, b)
  {
  }

  /** s lists the members, those that are up first and in order. */
  ghost predicate Arranged(v: View, members: set<NodeId>, s: seq<NodeId>) {
    Known(v, s) && Leads(v, s, NumUp(v, s)) && Distinct(s) && forall n :: n in s <==> n in members
  }

  /** That is how the sort leaves it. */
  lemma SortedLeads(v: View, s: seq<NodeId>)
    requires Known(v, s) && Sorted(v, s)
    ensures Leads(v, s, NumUp(v, s))
  {
    hide CmpPeer, NumUp;
    UpFirst(v, s);
  }

  lemma ActivesByStart(v: View, members: set<NodeId>, up: set<NodeId>, start: map<NodeId, Timeval>, s: seq<NodeId>)
    requires Consistent(v, members, up, start) && Arranged(v, members, s)
    ensures ByStart(start, s[..NumUp(v, s)]) && forall n :: n in s[..NumUp(v, s)] <==> n in up
  {
    hide CmpPeer, NumUp;
    var k := NumUp(v, s);
    forall i | 0 <= i < k ensures s[i] in up {
      assert s[i] in s;
    }
    forall i, j | 0 <= i < j < k
      ensures Earlier(start[s[i]], start[s[j]])
    {
      CmpIsOrder(v, s[i], s[j]);
    }
    forall n | n in up ensures n in s[..k] {
      assert n in s;
      var i :| 0 <= i < |s| && s[i] == n;
    }
  }

  /**
   Any two nodes that agree on who is up, and on their start times, number the
   active members alike, whatever order their tables were in before.
   */
  lemma SameNumbers(v: View, w: View, members: set<NodeId>, up: set<NodeId>, start: map<NodeId, Timeval>,
                    s: seq<NodeId>, t: seq<NodeId>)
    requires Consistent(v, members, up, start) && Consistent(w, members, up, start)
    requires Arranged(v, members, s) && Arranged(w, members, t)
    ensures NumUp(v, s) == NumUp(w, t) == |up| && s[..NumUp(v, s)] == t[..NumUp(w, t)]
  {
    hide CmpPeer, NumUp, Leads, Consistent;
    ActivesByStart(v, members, up, start, s);
    ActivesByStart(w, members, up, start, t);
    OneOrder(start, s[..NumUp(v, s)], t[..NumUp(w, t)]);
    SizeOf(s[..NumUp(v, s)], up);
  }

  lemma {:induction false} SizeOf(s: seq<NodeId>, set_: set<NodeId>)
    requires Distinct(s) && forall n :: n in s <==> n in set_
    ensures |s| == |set_|
  {
    if s == [] {
      assert set_ == {};
    } else {
      assert s[0] in set_;
      assert forall n :: n in s[1..] ==> n in s && n != s[0];
      assert forall n :: n in s && n != s[0] ==> n in s[1..];
      SizeOf(s[1..], set_ - {s[0]});
    }
  }
}
