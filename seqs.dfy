/**
 * Sequence operations shared by the store and the client pages: `Array.prototype.filter`,
 * reversal (a store kept in creation order read "newest first"), lookup by id, and the
 * facts about them that the handlers' contracts rest on.
 */
module Seqs {
  import opened Wrappers

  /** `s.filter(p)`: the elements satisfying `p`, in their original order. */
  function Filter<T>(s: seq<T>, p: T -> bool): (r: seq<T>)
    ensures |r| <= |s|
    decreases |s|
  {
    if s == [] then [] else (if p(s[0]) then [s[0]] else []) + Filter(s[1..], p)
  }

  /** An element is kept exactly when it was there and satisfies the predicate. */
  lemma {:induction false} FilterMembers<T>(s: seq<T>, p: T -> bool)
    ensures forall x :: x in Filter(s, p) ==> x in s && p(x)
    ensures forall x :: x in s && p(x) ==> x in Filter(s, p)
    decreases |s|
  {
    if s != [] {
      FilterMembers(s[1..], p);
      assert s == [s[0]] + s[1..];
    }
  }

  /** Every kept element satisfies the predicate (index form). */
  lemma FilterAllSatisfy<T>(s: seq<T>, p: T -> bool)
    ensures forall i :: 0 <= i < |Filter(s, p)| ==> p(Filter(s, p)[i])
  {
    FilterMembers(s, p);
    forall i | 0 <= i < |Filter(s, p)| ensures p(Filter(s, p)[i]) {
      assert Filter(s, p)[i] in Filter(s, p);
    }
  }

  /** A filter that every element passes changes nothing. */
  lemma {:induction false} FilterKeepsAll<T>(s: seq<T>, p: T -> bool)
    requires forall i :: 0 <= i < |s| ==> p(s[i])
    ensures Filter(s, p) == s
    decreases |s|
  {
    if s != [] {
      FilterKeepsAll(s[1..], p);
      assert s == [s[0]] + s[1..];
    }
  }

  /** A filter that no element passes leaves nothing. */
  lemma {:induction false} FilterDropsAll<T>(s: seq<T>, p: T -> bool)
    requires forall i :: 0 <= i < |s| ==> !p(s[i])
    ensures Filter(s, p) == []
    decreases |s|
  {
    if s != [] {
      FilterDropsAll(s[1..], p);
    }
  }

  /** Filtering distributes over concatenation. */
  lemma {:induction false} FilterAppend<T>(a: seq<T>, b: seq<T>, p: T -> bool)
    ensures Filter(a + b, p) == Filter(a, p) + Filter(b, p)
    decreases |a|
  {
    if a != [] {
      assert (a + b)[0] == a[0] && (a + b)[1..] == a[1..] + b;
      FilterAppend(a[1..], b, p);
    } else {
      assert a + b == b;
    }
  }

  /** Filters by predicates that agree on every element give the same result. */
  lemma {:induction false} FilterExt<T>(s: seq<T>, p: T -> bool, q: T -> bool)
    requires forall x :: p(x) == q(x)
    ensures Filter(s, p) == Filter(s, q)
    decreases |s|
  {
    if s != [] {
      FilterExt(s[1..], p, q);
    }
  }

  /** Two filters in a row are one filter by the conjunction. */
  lemma {:induction false} FilterTwice<T>(s: seq<T>, p: T -> bool, q: T -> bool, pq: T -> bool)
    requires forall x :: pq(x) == (p(x) && q(x))
    ensures Filter(Filter(s, p), q) == Filter(s, pq)
    decreases |s|
  {
    if s != [] {
      FilterTwice(s[1..], p, q, pq);
      var head := if p(s[0]) then [s[0]] else [];
      FilterAppend(head, Filter(s[1..], p), q);
      if p(s[0]) {
        assert Filter(head, q) == (if q(s[0]) then [s[0]] else []) by {
          assert head[1..] == [];
        }
      }
    }
  }

  /** The number of elements satisfying `p`. */
  function Count<T>(s: seq<T>, p: T -> bool): nat {
    |Filter(s, p)|
  }

  /** The elements satisfying `p` and those that do not together account for the whole sequence. */
  lemma {:induction false} CountSplit<T>(s: seq<T>, p: T -> bool, notP: T -> bool)
    requires forall x :: notP(x) == !p(x)
    ensures Count(s, p) + Count(s, notP) == |s|
    decreases |s|
  {
    if s != [] {
      CountSplit(s[1..], p, notP);
    }
  }

  /** Some element satisfies `p` exactly when the count is positive. */
  lemma CountPositive<T>(s: seq<T>, p: T -> bool)
    ensures Count(s, p) > 0 <==> exists x :: x in s && p(x)
  {
    FilterMembers(s, p);
    if Count(s, p) > 0 {
      assert Filter(s, p)[0] in Filter(s, p);
    }
  }

  /** Deleting some elements of `s`, as told by a mask of the same length. */
  function Pick<T>(s: seq<T>, keep: seq<bool>): seq<T>
    requires |keep| == |s|
    decreases |s|
  {
    if s == [] then [] else (if keep[0] then [s[0]] else []) + Pick(s[1..], keep[1..])
  }

  /** `a` is what remains of `b` after deleting some elements, the rest keeping their order. */
  ghost predicate IsSubsequence<T>(a: seq<T>, b: seq<T>) {
    exists keep: seq<bool> :: |keep| == |b| && Pick(b, keep) == a
  }

  lemma {:induction false} FilterIsPick<T>(s: seq<T>, p: T -> bool, keep: seq<bool>)
    requires |keep| == |s| && forall i :: 0 <= i < |s| ==> keep[i] == p(s[i])
    ensures Pick(s, keep) == Filter(s, p)
    decreases |s|
  {
    if s != [] {
      FilterIsPick(s[1..], p, keep[1..]);
    }
  }

  /** A filtered sequence is a subsequence of the original. */
  lemma FilterIsSubsequence<T>(s: seq<T>, p: T -> bool)
    ensures IsSubsequence(Filter(s, p), s)
  {
    var keep := seq(|s|, i requires 0 <= i < |s| => p(s[i]));
    FilterIsPick(s, p, keep);
  }

  /** The sequence read from its end: a store kept oldest first, listed newest first. */
  function Reverse<T>(s: seq<T>): (r: seq<T>)
    ensures |r| == |s|
    ensures forall i :: 0 <= i < |s| ==> r[i] == s[|s| - 1 - i]
  {
    seq(|s|, i requires 0 <= i < |s| => s[|s| - 1 - i])
  }

  /** Reading a sequence from its end twice gives it back. */
  lemma ReverseTwice<T>(s: seq<T>)
    ensures Reverse(Reverse(s)) == s
  {
  }

  /** Reversal keeps the elements. */
  lemma ReverseMembers<T>(s: seq<T>)
    ensures forall x :: x in Reverse(s) <==> x in s
  {
    forall x | x in s ensures x in Reverse(s) {
      var i :| 0 <= i < |s| && s[i] == x;
      assert Reverse(s)[|s| - 1 - i] == x;
    }
  }

  /** The position of the first element whose key is `id`, if any. */
  function IndexOf<T>(s: seq<T>, key: T -> string, id: string): (r: Option<nat>)
    ensures r.Some? ==> r.value < |s| && key(s[r.value]) == id
    ensures r.None? ==> forall i :: 0 <= i < |s| ==> key(s[i]) != id
    decreases |s|
  {
    if s == [] then None
    else if key(s[0]) == id then Some(0)
    else match IndexOf(s[1..], key, id)
      case None => None
      case Some(j) => Some(j + 1)
  }

  /** A key is found exactly when some element carries it. */
  lemma IndexOfFound<T>(s: seq<T>, key: T -> string, id: string)
    ensures IndexOf(s, key, id).Some? <==> exists x :: x in s && key(x) == id
  {
    if IndexOf(s, key, id).Some? {
      assert s[IndexOf(s, key, id).value] in s;
    }
  }

  /** No two elements share a key (the database's primary-key constraint). */
  ghost predicate DistinctKeys<T>(s: seq<T>, key: T -> string) {
    forall i, j :: 0 <= i < j < |s| ==> key(s[i]) != key(s[j])
  }

  /** With distinct keys the element found is the only one with that key. */
  lemma IndexOfUnique<T>(s: seq<T>, key: T -> string, id: string, i: nat)
    requires DistinctKeys(s, key) && i < |s| && key(s[i]) == id
    ensures IndexOf(s, key, id) == Some(i)
  {
  }

  /** Filtering keeps keys distinct. */
  lemma {:induction false} FilterKeepsDistinct<T>(s: seq<T>, p: T -> bool, key: T -> string)
    requires DistinctKeys(s, key)
    ensures DistinctKeys(Filter(s, p), key)
    decreases |s|
  {
    if s != [] {
      FilterKeepsDistinct(s[1..], p, key);
      FilterMembers(s[1..], p);
      var f := Filter(s[1..], p);
      if p(s[0]) {
        forall j | 0 < j < |[s[0]] + f| ensures key(s[0]) != key(([s[0]] + f)[j]) {
          assert ([s[0]] + f)[j] == f[j - 1];
          var x := f[j - 1];
          assert x in s[1..];
          var k :| 0 <= k < |s[1..]| && s[1..][k] == x;
          assert s[k + 1] == x;
        }
      }
    }
  }

  /** Appending an element with a new key keeps keys distinct. */
  lemma AppendKeepsDistinct<T>(s: seq<T>, x: T, key: T -> string)
    requires DistinctKeys(s, key)
    requires forall i :: 0 <= i < |s| ==> key(s[i]) != key(x)
    ensures DistinctKeys(s + [x], key)
  {
  }

  /** Replacing an element by one with the same key keeps keys distinct. */
  lemma UpdateKeepsDistinct<T>(s: seq<T>, i: nat, x: T, key: T -> string)
    requires DistinctKeys(s, key) && i < |s| && key(x) == key(s[i])
    ensures DistinctKeys(s[i := x], key)
  {
  }

  /** Every kept element inherits any property all the elements had. */
  lemma FilterInherits<T>(s: seq<T>, p: T -> bool, q: T -> bool)
    requires forall i :: 0 <= i < |s| ==> q(s[i])
    ensures forall i :: 0 <= i < |Filter(s, p)| ==> q(Filter(s, p)[i])
  {
    FilterMembers(s, p);
    forall i | 0 <= i < |Filter(s, p)| ensures q(Filter(s, p)[i]) {
      var x := Filter(s, p)[i];
      assert x in s;
    }
  }

  /** The filter that drops the elements equal to `v`. */
  function NotEqual<T(==)>(v: T): T -> bool {
    x => x != v
  }

  /** The filter that drops the elements whose key is `id`. */
  function KeyIsNot<T>(key: T -> string, id: string): T -> bool {
    x => key(x) != id
  }

  /** With distinct keys, dropping a key removes exactly the one element carrying it; the rest keep their order. */
  lemma {:induction false} FilterRemovesKey<T>(s: seq<T>, key: T -> string, id: string, k: nat)
    requires DistinctKeys(s, key) && k < |s| && key(s[k]) == id
    ensures Filter(s, KeyIsNot(key, id)) == s[..k] + s[k + 1..]
    decreases |s|
  {
    if k == 0 {
      FilterKeepsAll(s[1..], KeyIsNot(key, id));
    } else {
      FilterRemovesKey(s[1..], key, id, k - 1);
      assert s[..k] == [s[0]] + s[1..][..k - 1];
      assert s[k + 1..] == s[1..][k..];
    }
  }
}
