/** A file as lines: the naive reading that the block-wise scanners are measured against. */
module Lines {
  import opened SeqFacts
  import opened Words

  const NL: byte := 10

  /** The index of the first newline, or |s|. */
  function FirstNewline(s: seq<byte>): (k: nat)
    ensures k <= |s| && (k < |s| ==> s[k] == NL)
    ensures forall j :: 0 <= j < k ==> s[j] != NL
  {
    if s == [] || s[0] == NL then 0 else 1 + FirstNewline(s[1..])
  }

  /** The lines of s. A final newline ends the last line, it does not start another. */
  function Split(s: seq<byte>): seq<seq<byte>> {
    if s == [] then []
    else
      var k := FirstNewline(s);
      if k == |s| then [s] else [s[..k]] + Split(s[k + 1..])
  }

  function NonEmpty(lines: seq<seq<byte>>): seq<seq<byte>> {
    if lines == [] then []
    else (if lines[0] == [] then [] else [lines[0]]) + NonEmpty(lines[1..])
  }

  function Reverse(lines: seq<seq<byte>>): seq<seq<byte>> {
    if lines == [] then [] else Reverse(lines[1..]) + [lines[0]]
  }

  /** s is empty or ends with a newline, so that a line can start after it. */
  predicate Closed(s: seq<byte>) { s == [] || s[|s| - 1] == NL }

  lemma FirstNewlineIs(s: seq<byte>, k: nat)
    requires k < |s| && s[k] == NL && forall j :: 0 <= j < k ==> s[j] != NL
    ensures FirstNewline(s) == k
  {
    assert forall j :: 0 <= j < k ==> s[j] == s[..k][j];
  }

  lemma NoNewline(s: seq<byte>)
    requires NL !in s
    ensures FirstNewline(s) == |s|
  {
  }

  lemma SplitStep(s: seq<byte>, k: nat)
    requires k < |s| && s[k] == NL && forall j :: 0 <= j < k ==> s[j] != NL
    ensures Split(s) == [s[..k]] + Split(s[k + 1..])
  {
    FirstNewlineIs(s, k);
  }

  lemma SplitNothing()
    ensures Split([]) == []
  {
  }

  lemma SplitStepAppend(a: seq<byte>, b: seq<byte>, k: nat)
    requires k < |a| && a[k] == NL && forall j :: 0 <= j < k ==> a[j] != NL
    ensures Split(a + b) == [a[..k]] + Split(a[k + 1..] + b)
  {
    hide Split;
    SplitStep(a + b, k);
    assert (a + b)[..k] == a[..k] && (a + b)[k + 1..] == a[k + 1..] + b;
  }

  lemma {:induction false} SplitClosed(a: seq<byte>, b: seq<byte>)
    requires Closed(a)
    ensures Split(a + b) == Split(a) + Split(b)
    decreases |a|
  {
    hide Split, FirstNewline;
    if a == [] {
      assert a + b == b;
      SplitNothing();
    } else {
      var k := FirstNewline(a);
      SplitStep(a, k);
      SplitStepAppend(a, b, k);
      SplitClosed(a[k + 1..], b);
      Regroup(a[..k], Split(a[k + 1..]), Split(b), Split(a), Split(a + b));
    }
  }

  lemma {:induction false} NonEmptyAppend(p: seq<seq<byte>>, q: seq<seq<byte>>)
    ensures NonEmpty(p + q) == NonEmpty(p) + NonEmpty(q)
  {
    if p == [] {
      assert p + q == q;
    } else {
      assert (p + q)[0] == p[0] && (p + q)[1..] == p[1..] + q;
      NonEmptyAppend(p[1..], q);
    }
  }

  lemma {:induction false} ReverseAppend(p: seq<seq<byte>>, q: seq<seq<byte>>)
    ensures Reverse(p + q) == Reverse(q) + Reverse(p)
  {
    if p == [] {
      assert p + q == q && Reverse(q) + [] == Reverse(q);
    } else {
      assert (p + q)[0] == p[0] && (p + q)[1..] == p[1..] + q;
      ReverseAppend(p[1..], q);
    }
  }

  /** The lines of s that have characters in them, last first. */
  function Backwards(s: seq<byte>): seq<seq<byte>> { Reverse(NonEmpty(Split(s))) }

  lemma BackwardsClosed(a: seq<byte>, b: seq<byte>)
    requires Closed(a)
    ensures Backwards(a + b) == Backwards(b) + Backwards(a)
  {
    SplitClosed(a, b);
    NonEmptyAppend(Split(a), Split(b));
    ReverseAppend(NonEmpty(Split(a)), NonEmpty(Split(b)));
  }

  lemma BackwardsLine(s: seq<byte>)
    requires NL !in s
    ensures Backwards(s) == NonEmpty([s])
  {
    NoNewline(s);
    if s != [] {
      assert Split(s) == [s];
      assert NonEmpty([s]) == [s];
      assert Reverse([s]) == [s];
    }
  }

  /** A newline at the very end adds no line with characters in it. */
  lemma BackwardsNewline(s: seq<byte>)
    ensures Backwards(s + [NL]) == Backwards(s)
  {
    var k := LastStart(s);
    var a, b := s[..k], s[k..];
    assert s == a + b && s + [NL] == a + (b + [NL]);
    BackwardsClosed(a, b);
    BackwardsClosed(a, b + [NL]);
    BackwardsLine(b);
    FirstNewlineIs(b + [NL], |b|);
    assert (b + [NL])[..|b|] == b && (b + [NL])[|b| + 1..] == [];
    assert Split(b + [NL]) == [b];
    assert NonEmpty([b]) == if b == [] then [] else [b];
  }

  /** Where the last, unfinished line of s starts. */
  function LastStart(s: seq<byte>): (k: nat)
    ensures k <= |s| && Closed(s[..k]) && NL !in s[k..]
  {
    if s == [] then 0
    else if s[|s| - 1] == NL then |s|
    else
      var k := LastStart(s[..|s| - 1]);
      assert s[..k] == s[..|s| - 1][..k];
      assert s[k..] == s[..|s| - 1][k..] + [s[|s| - 1]];
      k
  }
}
