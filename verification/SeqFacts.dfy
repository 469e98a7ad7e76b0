/** Facts about sequences that proofs name instead of leaving them to be found. */
module SeqFacts {

  lemma Associate<T>(p: seq<T>, q: seq<T>, r: seq<T>)
    ensures p + q + r == p + (q + r)
  {
  }

  lemma Regroup<T>(x: T, p: seq<T>, q: seq<T>, xp: seq<T>, xpq: seq<T>)
    requires xp == [x] + p && xpq == [x] + (p + q)
    ensures xpq == xp + q
  {
  }

  lemma Slices<T>(s: seq<T>, i: nat, j: nat, k: nat)
    requires i <= j <= k <= |s|
    ensures s[i..j] + s[j..k] == s[i..k]
  {
  }
}
