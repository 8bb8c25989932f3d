/** Order-preserving relations between sequences. */
module Seqs {

  /** `s` is obtained from `t` by deleting elements, keeping the order of the rest. */
  predicate IsSubseq<T(==)>(s: seq<T>, t: seq<T>)
    decreases |t|
  {
    if t == [] then s == []
    else (s != [] && s[0] == t[0] && IsSubseq(s[1..], t[1..])) || IsSubseq(s, t[1..])
  }

  /** A subsequence uses each element of the longer sequence at most once. */
  lemma {:induction false} SubseqMultiset<T>(s: seq<T>, t: seq<T>)
    requires IsSubseq(s, t)
    ensures multiset(s) <= multiset(t)
    decreases |t|
  {
    if t != [] {
      assert t == [t[0]] + t[1..];
      if s != [] && s[0] == t[0] && IsSubseq(s[1..], t[1..]) {
        SubseqMultiset(s[1..], t[1..]);
        assert s == [s[0]] + s[1..];
      } else {
        SubseqMultiset(s, t[1..]);
      }
    }
  }

  /** Dropping the element at `k` takes exactly one copy of it out of the multiset. */
  lemma MultisetWithout<T>(s: seq<T>, k: nat)
    requires k < |s|
    ensures multiset(s[..k] + s[k + 1..]) == multiset(s) - multiset{s[k]}
  {
    assert s == s[..k] + [s[k]] + s[k + 1..];
    assert multiset(s) == multiset(s[..k]) + multiset{s[k]} + multiset(s[k + 1..]);
  }

  /** A position of `b` holding `a`'s first element, such that the rest of `a` is a rearrangement of the rest of `b`. */
  lemma MatchingIndex<T>(a: seq<T>, b: seq<T>) returns (k: nat)
    requires a != [] && multiset(a) == multiset(b)
    ensures k < |b| && b[k] == a[0]
    ensures multiset(a[1..]) == multiset(b[..k] + b[k + 1..])
  {
    assert a[0] in multiset(b);
    k :| 0 <= k < |b| && b[k] == a[0];
    assert a == [a[0]] + a[1..];
    MultisetWithout(b, k);
  }

}
