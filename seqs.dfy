/** Generic facts about sequences that the other modules use to keep their proofs small. */
module Seqs {

  /** Growing a prefix by one element; the prefix of full length is the whole sequence. */
  lemma Snoc<T>(s: seq<T>, i: nat)
    requires i <= |s|
    ensures i < |s| ==> s[..i + 1] == s[..i] + [s[i]]
    ensures s[..|s|] == s
  {
  }

  /** The prefix of length `n + 1` ends with `s[n]` after the prefix of length `n`. */
  lemma PrefixGrow<T>(s: seq<T>, n: nat)
    requires n < |s|
    ensures var q := s[..n + 1]; |q| == n + 1 && q[..|q| - 1] == s[..n] && q[|q| - 1] == s[n]
  {
  }

  /** Dropping the last element of `a + b` drops the last element of `b`. */
  lemma InitAppend<T>(a: seq<T>, b: seq<T>)
    requires b != []
    ensures var c := a + b; c[..|c| - 1] == a + b[..|b| - 1] && c[|c| - 1] == b[|b| - 1]
  {
    var c := a + b;
    assert c[..|c| - 1] == a + b[..|b| - 1];
  }

  /** Splitting a sequence around position `i`. */
  lemma SplitAt<T>(b: seq<T>, i: nat)
    requires i < |b|
    ensures b == b[..i] + [b[i]] + b[i + 1..]
    ensures multiset(b) == multiset(b[..i] + b[i + 1..]) + multiset{b[i]}
  {
    assert b == b[..i] + [b[i]] + b[i + 1..];
    assert b[..i] + [b[i]] + b[i + 1..] == b[..i] + ([b[i]] + b[i + 1..]);
  }

  /** Removing the first element of `a` and its copy at `i` in `b` keeps them permutations. */
  lemma PermTail<T>(a: seq<T>, b: seq<T>, i: nat)
    requires multiset(a) == multiset(b) && a != [] && i < |b| && b[i] == a[0]
    ensures multiset(a[1..]) == multiset(b[..i] + b[i + 1..])
  {
    assert a == [a[0]] + a[1..];
    assert multiset(a) == multiset(a[1..]) + multiset{a[0]};
    SplitAt(b, i);
    assert multiset(a[1..]) == multiset(a) - multiset{a[0]};
    assert multiset(b[..i] + b[i + 1..]) == multiset(b) - multiset{b[i]};
  }

  /** `a` is `b` with some elements left out, the rest in their order. */
  predicate IsSubseq<T(==)>(a: seq<T>, b: seq<T>)
    decreases |b|
  {
    if b == [] then a == []
    else
      || (a != [] && a[|a| - 1] == b[|b| - 1] && IsSubseq(a[..|a| - 1], b[..|b| - 1]))
      || IsSubseq(a, b[..|b| - 1])
  }

  /** Keeping the next element of `b`. */
  lemma SubseqKeep<T>(a: seq<T>, b: seq<T>, x: T)
    requires IsSubseq(a, b)
    ensures IsSubseq(a + [x], b + [x])
  {
    assert (a + [x])[..|a|] == a && (b + [x])[..|b|] == b;
  }

  /** Leaving out the next element of `b`. */
  lemma SubseqSkip<T>(a: seq<T>, b: seq<T>, x: T)
    requires IsSubseq(a, b)
    ensures IsSubseq(a, b + [x])
  {
    assert (b + [x])[..|b|] == b;
  }

  /** Every element of a subsequence is an element of the whole. */
  lemma {:induction false} SubseqMembers<T>(a: seq<T>, b: seq<T>)
    requires IsSubseq(a, b)
    ensures forall x :: x in a ==> x in b
    decreases |b|
  {
    if b != [] {
      var b' := b[..|b| - 1];
      assert forall x :: x in b' ==> x in b;
      if a != [] && a[|a| - 1] == b[|b| - 1] && IsSubseq(a[..|a| - 1], b') {
        SubseqMembers(a[..|a| - 1], b');
        assert a == a[..|a| - 1] + [a[|a| - 1]];
      } else {
        SubseqMembers(a, b');
      }
    }
  }
}
