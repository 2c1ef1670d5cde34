/**
 * Sequence operations that stand for the pandas idioms the dashboard uses:
 * boolean-mask selection `df[mask]` (Where), `len(df[mask])` (|Where(..)|)
 * and `Series.unique()` (Distinct, first-appearance order).
 */
module Seqs {

  /** The elements of `s` that satisfy `p`, in their original order. */
  function Where<T>(s: seq<T>, p: T -> bool): seq<T>
  {
    if s == [] then [] else (if p(s[0]) then [s[0]] else []) + Where(s[1..], p)
  }

  /** Selection keeps exactly the satisfying elements, each with its multiplicity. */
  lemma {:induction false} WhereSpec<T>(s: seq<T>, p: T -> bool)
    ensures |Where(s, p)| <= |s|
    ensures forall x :: x in Where(s, p) <==> x in s && p(x)
    ensures forall x :: multiset(Where(s, p))[x] == if p(x) then multiset(s)[x] else 0
  {
    if s != [] {
      WhereSpec(s[1..], p);
      assert s == [s[0]] + s[1..];
      assert multiset(s) == multiset([s[0]]) + multiset(s[1..]);
    }
  }

  /** Selection never lengthens a sequence. */
  lemma {:induction false} WhereLength<T>(s: seq<T>, p: T -> bool)
    ensures |Where(s, p)| <= |s|
  {
    if s != [] {
      WhereLength(s[1..], p);
    }
  }

  /** Selection with a mask that holds everywhere is the identity. */
  lemma {:induction false} WhereAll<T>(s: seq<T>, p: T -> bool)
    requires forall x :: x in s ==> p(x)
    ensures Where(s, p) == s
  {
    if s != [] {
      WhereAll(s[1..], p);
    }
  }

  /** Selection distributes over concatenation, so it preserves order. */
  lemma {:induction false} WhereAppend<T>(s: seq<T>, t: seq<T>, p: T -> bool)
    ensures Where(s + t, p) == Where(s, p) + Where(t, p)
  {
    if s == [] {
      assert s + t == t;
    } else {
      var head := if p(s[0]) then [s[0]] else [];
      assert (s + t)[0] == s[0] && (s + t)[1..] == s[1..] + t;
      assert Where(s + t, p) == head + Where(s[1..] + t, p);
      WhereAppend(s[1..], t, p);
      assert head + (Where(s[1..], p) + Where(t, p)) == (head + Where(s[1..], p)) + Where(t, p);
    }
  }

  /** Two masks that agree on the elements of `s` select the same elements. */
  lemma {:induction false} WhereExt<T>(s: seq<T>, p: T -> bool, q: T -> bool)
    requires forall x :: x in s ==> p(x) == q(x)
    ensures Where(s, p) == Where(s, q)
  {
    if s != [] {
      WhereExt(s[1..], p, q);
    }
  }

  /** Selecting by `p` and then by `q` is selecting once by their conjunction `r`. */
  lemma {:induction false} WhereWhere<T>(s: seq<T>, p: T -> bool, q: T -> bool, r: T -> bool)
    requires forall x :: x in s ==> (r(x) <==> p(x) && q(x))
    ensures Where(Where(s, p), q) == Where(s, r)
  {
    if s != [] {
      WhereWhere(s[1..], p, q, r);
      var head := if p(s[0]) then [s[0]] else [];
      WhereAppend(head, Where(s[1..], p), q);
    }
  }

  /** A weaker mask selects at least as many elements. */
  lemma {:induction false} CountMono<T>(s: seq<T>, p: T -> bool, q: T -> bool)
    requires forall x :: x in s && p(x) ==> q(x)
    ensures |Where(s, p)| <= |Where(s, q)|
  {
    if s != [] {
      CountMono(s[1..], p, q);
    }
  }

  /** Counting by a disjoint union of two masks adds the two counts. */
  lemma {:induction false} CountUnion<T>(s: seq<T>, p: T -> bool, q: T -> bool, u: T -> bool)
    requires forall x :: x in s ==> !(p(x) && q(x))
    requires forall x :: x in s ==> (u(x) <==> p(x) || q(x))
    ensures |Where(s, u)| == |Where(s, p)| + |Where(s, q)|
  {
    if s != [] {
      CountUnion(s[1..], p, q, u);
    }
  }

  predicate NoDuplicates<T(==)>(s: seq<T>)
  {
    forall i, j :: 0 <= i < j < |s| ==> s[i] != s[j]
  }

  /** `Series.unique()`: every value of `s` once, in order of first appearance. */
  function Distinct<T(==, !new)>(s: seq<T>): (r: seq<T>)
    ensures NoDuplicates(r)
    ensures forall x :: x in r <==> x in s
    ensures |r| <= |s|
  {
    if s == [] then []
    else
      var d := Distinct(s[..|s| - 1]);
      var last := s[|s| - 1];
      assert forall x :: x in s <==> x in s[..|s| - 1] || x == last by {
        assert s == s[..|s| - 1] + [last];
      }
      if last in d then d else d + [last]
  }

  /** The position of the first occurrence of `x` in `s`. */
  function FirstIndex<T(==)>(s: seq<T>, x: T): (i: nat)
    requires x in s
    ensures i < |s| && s[i] == x && x !in s[..i]
  {
    if s[0] == x then 0
    else
      var i := 1 + FirstIndex(s[1..], x);
      assert s[..i] == [s[0]] + s[1..][..i - 1];
      i
  }

  lemma {:induction false} FirstIndexOfPrefix<T>(a: seq<T>, b: seq<T>, x: T)
    requires x in a
    ensures FirstIndex(a + b, x) == FirstIndex(a, x)
  {
    if a[0] != x {
      assert (a + b)[1..] == a[1..] + b;
      FirstIndexOfPrefix(a[1..], b, x);
    }
  }

  /** `Distinct` lists the values in the order in which they first appear in `s`. */
  lemma {:induction false} DistinctFirstAppearance<T(!new)>(s: seq<T>)
    ensures forall i, j :: 0 <= i < j < |Distinct(s)| ==>
      FirstIndex(s, Distinct(s)[i]) < FirstIndex(s, Distinct(s)[j])
  {
    if s != [] {
      var init, last := s[..|s| - 1], s[|s| - 1];
      assert s == init + [last];
      DistinctFirstAppearance(init);
      var d := Distinct(init);
      forall k | 0 <= k < |d|
        ensures FirstIndex(s, d[k]) == FirstIndex(init, d[k]) < |init|
      {
        FirstIndexOfPrefix(init, [last], d[k]);
      }
      if last !in d {
        var f := FirstIndex(s, last);
        assert last !in init;
        assert f == |init|;
      }
    }
  }

  /** The multiplicities in `m` of the keys listed in `keys`, added up. */
  function SumOfMultiplicities<T>(m: multiset<T>, keys: seq<T>): nat
  {
    if keys == [] then 0 else SumOfMultiplicities(m, keys[..|keys| - 1]) + m[keys[|keys| - 1]]
  }

  /** Extending the key prefix by one key adds that key's multiplicity. */
  lemma SumOfMultiplicitiesSnoc<T>(m: multiset<T>, keys: seq<T>, i: nat)
    requires i < |keys|
    ensures SumOfMultiplicities(m, keys[..i + 1]) == SumOfMultiplicities(m, keys[..i]) + m[keys[i]]
  {
    assert keys[..i + 1][..i] == keys[..i];
  }

  /** Adding one element `x` adds one to the sum exactly when `x` is one of the (distinct) keys. */
  lemma {:induction false} SumOfMultiplicitiesAdd<T>(m: multiset<T>, x: T, keys: seq<T>)
    requires NoDuplicates(keys)
    ensures SumOfMultiplicities(m + multiset{x}, keys) ==
      SumOfMultiplicities(m, keys) + (if x in keys then 1 else 0)
  {
    if keys != [] {
      var init := keys[..|keys| - 1];
      SumOfMultiplicitiesAdd(m, x, init);
      assert keys == init + [keys[|keys| - 1]];
      assert x in keys <==> x in init || x == keys[|keys| - 1];
      assert x == keys[|keys| - 1] ==> x !in init;
    }
  }

  /**
   * Counting per key partitions a sequence: when the keys are distinct and
   * every element is one of them, the per-key counts add up to the length.
   */
  lemma {:induction false} SumOfMultiplicitiesCovers<T>(s: seq<T>, keys: seq<T>)
    requires NoDuplicates(keys)
    requires forall x :: x in s ==> x in keys
    ensures SumOfMultiplicities(multiset(s), keys) == |s|
  {
    if s == [] {
      SumOfMultiplicitiesEmpty(keys);
    } else {
      var init, last := s[..|s| - 1], s[|s| - 1];
      assert s == init + [last];
      SumOfMultiplicitiesCovers(init, keys);
      SumOfMultiplicitiesAdd(multiset(init), last, keys);
    }
  }

  lemma {:induction false} SumOfMultiplicitiesEmpty<T>(keys: seq<T>)
    ensures SumOfMultiplicities(multiset{}, keys) == 0
  {
    if keys != [] {
      SumOfMultiplicitiesEmpty(keys[..|keys| - 1]);
    }
  }
}
