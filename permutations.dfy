/**
 * The reordering step of the exercise selector. The source shuffles a catalog
 * entry by sorting it with a random comparator; the model takes the outcome of
 * that sort as a supplied index permutation `p`: position `k` of the reordered
 * entry holds what was at position `p[k]` before.
 */
module Permutations {

  /** `p` lists every position of a sequence of length `n` exactly once. */
  ghost predicate IsPermutation(p: seq<nat>, n: nat)
  {
    && |p| == n
    && (forall k :: 0 <= k < |p| ==> p[k] < n)
    && (forall i, j :: 0 <= i < j < |p| ==> p[i] != p[j])
  }

  /** The elements of `s` in the order that `p` gives. */
  function Permute<T>(s: seq<T>, p: seq<nat>): seq<T>
    requires forall k :: 0 <= k < |p| ==> p[k] < |s|
  {
    seq(|p|, k requires 0 <= k < |p| => s[p[k]])
  }

  /** No value occurs twice in `s`. */
  predicate Distinct<T(==)>(s: seq<T>)
  {
    forall i, j :: 0 <= i < j < |s| ==> s[i] != s[j]
  }

  /**
   * Renumbers positions after position `i` has been deleted from a sequence:
   * every position above `i` moves down by one.
   */
  function CloseGap(q: seq<nat>, i: nat): seq<nat>
    requires forall k :: 0 <= k < |q| ==> q[k] != i
  {
    seq(|q|, k requires 0 <= k < |q| => if q[k] <= i then q[k] else q[k] - 1)
  }

  /** Reordering by a permutation keeps exactly the same elements, with the same multiplicities. */
  lemma {:induction false} PermutePreservesMultiset<T>(s: seq<T>, p: seq<nat>)
    requires IsPermutation(p, |s|)
    ensures multiset(Permute(s, p)) == multiset(s)
    decreases |s|
  {
    if |s| == 0 {
      assert Permute(s, p) == [];
    } else {
      var i := p[0];
      var rest := p[1..];
      var s' := s[..i] + s[i + 1..];
      var p' := CloseGap(rest, i);
      assert IsPermutation(p', |s'|) by {
        forall a, b | 0 <= a < b < |p'| ensures p'[a] != p'[b] {
          assert rest[a] == p[a + 1] && rest[b] == p[b + 1];
        }
      }
      assert Permute(s, rest) == Permute(s', p');
      PermutePreservesMultiset(s', p');
      assert Permute(s, p) == [s[i]] + Permute(s, rest);
      assert s == s[..i] + [s[i]] + s[i + 1..];
    }
  }

  /** Reordering a duplicate-free sequence by a permutation leaves it duplicate-free. */
  lemma PermutePreservesDistinct<T>(s: seq<T>, p: seq<nat>)
    requires IsPermutation(p, |s|) && Distinct(s)
    ensures Distinct(Permute(s, p))
  {
  }

  /**
   * Applies `p` to `a` in place: `Array.prototype.sort` reorders the array it
   * is called on and returns that same array.
   */
  method Shuffle<T>(a: array<T>, p: seq<nat>)
    requires IsPermutation(p, a.Length)
    modifies a
    ensures a[..] == Permute(old(a[..]), p)
    ensures multiset(a[..]) == multiset(old(a[..]))
  {
    var original := a[..];
    for k := 0 to a.Length
      invariant forall j :: 0 <= j < k ==> a[j] == original[p[j]]
    {
      a[k] := original[p[k]];
    }
    assert a[..] == Permute(original, p);
    PermutePreservesMultiset(original, p);
  }
}
