/**
 * Counting the elements of a sequence that have a given key, the common
 * shape of `xs.filter(x => key(x) === k).length` in the games and of the
 * mood tally of a tarot reading.
 */
module Counting {

  /** Number of elements of `s` whose key is `k`. */
  function CountBy<T, K(==)>(s: seq<T>, key: T -> K, k: K): (n: nat)
    ensures n <= |s|
    ensures n == 0 <==> forall i :: 0 <= i < |s| ==> key(s[i]) != k
  {
    if s == [] then 0
    else (if key(s[0]) == k then 1 else 0) + CountBy(s[1..], key, k)
  }

  /** 1 when `x` has key `k`, else 0. */
  function Indicator<T, K(==)>(x: T, key: T -> K, k: K): nat {
    if key(x) == k then 1 else 0
  }

  lemma {:induction false} CountByAppend<T, K>(a: seq<T>, b: seq<T>, key: T -> K, k: K)
    ensures CountBy(a + b, key, k) == CountBy(a, key, k) + CountBy(b, key, k)
  {
    if a == [] {
      assert a + b == b;
    } else {
      assert (a + b)[1..] == a[1..] + b;
      CountByAppend(a[1..], b, key, k);
    }
  }

  /** Counting a one-element extension at the end, the shape of a left fold. */
  lemma CountBySnoc<T, K>(a: seq<T>, x: T, key: T -> K, k: K)
    ensures CountBy(a + [x], key, k) == CountBy(a, key, k) + Indicator(x, key, k)
  {
    CountByAppend(a, [x], key, k);
  }

  /** Taking out the element at `j` lowers the count by that element's contribution. */
  lemma {:induction false} CountByRemoveAt<T, K>(b: seq<T>, j: nat, key: T -> K, k: K)
    requires j < |b|
    ensures CountBy(b, key, k) == CountBy(b[..j] + b[j + 1..], key, k) + Indicator(b[j], key, k)
  {
    var l, x, r := b[..j], b[j], b[j + 1..];
    assert CountBy(b, key, k) == CountBy((l + [x]) + r, key, k) by {
      assert b == (l + [x]) + r;
    }
    CountByAppend(l + [x], r, key, k);
    CountBySnoc(l, x, key, k);
    CountByAppend(l, r, key, k);
  }

  /** Matching the head of `a` with an equal element of `b` leaves two permutations of each other. */
  lemma {:induction false} RemoveMatched<T>(a: seq<T>, b: seq<T>, j: nat)
    requires multiset(a) == multiset(b)
    requires a != [] && j < |b| && b[j] == a[0]
    ensures multiset(a[1..]) == multiset(b[..j] + b[j + 1..])
  {
    var x, rest := a[0], b[..j] + b[j + 1..];
    assert a == [x] + a[1..];
    assert b == b[..j] + [x] + b[j + 1..];
    calc {
      multiset(a[1..]);
      multiset(a) - multiset{x};
      multiset(b) - multiset{x};
      multiset(b[..j]) + multiset{x} + multiset(b[j + 1..]) - multiset{x};
      multiset(rest);
    }
  }

  /** Reordering a sequence does not change any count. */
  lemma {:induction false} CountByPermutation<T, K>(a: seq<T>, b: seq<T>, key: T -> K, k: K)
    requires multiset(a) == multiset(b)
    ensures CountBy(a, key, k) == CountBy(b, key, k)
    decreases |a|
  {
    if a == [] {
      assert |b| == |multiset(b)| == 0;
    } else {
      assert a[0] in multiset(b);
      var j :| 0 <= j < |b| && b[j] == a[0];
      RemoveMatched(a, b, j);
      CountByPermutation(a[1..], b[..j] + b[j + 1..], key, k);
      CountByRemoveAt(b, j, key, k);
    }
  }

  /** Replacing one element changes the count only by that element's contribution. */
  lemma {:induction false} CountByUpdate<T, K>(s: seq<T>, i: nat, v: T, key: T -> K, k: K)
    requires i < |s|
    ensures CountBy(s[i := v], key, k) + Indicator(s[i], key, k) == CountBy(s, key, k) + Indicator(v, key, k)
  {
    if i == 0 {
      assert s[i := v][1..] == s[1..];
    } else {
      assert s[i := v][1..] == s[1..][i - 1 := v];
      CountByUpdate(s[1..], i - 1, v, key, k);
    }
  }

  /** When every element with key `k1` has key `k2` under `key2`, the first count is at most the second. */
  lemma {:induction false} CountBySubsumed<T, K1, K2>(s: seq<T>, key1: T -> K1, k1: K1, key2: T -> K2, k2: K2)
    requires forall i :: 0 <= i < |s| && key1(s[i]) == k1 ==> key2(s[i]) == k2
    ensures CountBy(s, key1, k1) <= CountBy(s, key2, k2)
  {
    if s != [] {
      CountBySubsumed(s[1..], key1, k1, key2, k2);
    }
  }

  /** The count over a six-element sequence, written out element by element. */
  lemma CountBySix<T, K>(s: seq<T>, key: T -> K, k: K)
    requires |s| == 6
    ensures CountBy(s, key, k) ==
      Indicator(s[0], key, k) + Indicator(s[1], key, k) + Indicator(s[2], key, k) +
      Indicator(s[3], key, k) + Indicator(s[4], key, k) + Indicator(s[5], key, k)
  {
    forall i | 0 <= i < 6
      ensures CountBy(s[i..], key, k) == Indicator(s[i], key, k) + CountBy(s[i + 1..], key, k)
    {
      assert s[i..][1..] == s[i + 1..];
    }
    assert s[0..] == s;
    assert s[6..] == [];
  }
}
