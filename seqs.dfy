/**
 * Generic sequence operations behind the store's query primitives: selecting
 * the documents a query matches, collecting distinct values, and ordering
 * documents by an integer key.
 */
module Seqs {

  /** No value occurs twice in `s`. */
  predicate NoDup<T(==)>(s: seq<T>) {
    forall i, j :: 0 <= i < j < |s| ==> s[i] != s[j]
  }

  /** `key` does not decrease along `s`. */
  predicate SortedBy<T>(s: seq<T>, key: T -> int) {
    forall i, j :: 0 <= i < j < |s| ==> key(s[i]) <= key(s[j])
  }

  /**
   * The elements of `s` that satisfy `p`, in the order of `s`: every
   * matching element is kept as many times as it occurs, and nothing else.
   */
  function Filter<T(!new)>(s: seq<T>, p: T -> bool): (r: seq<T>)
    ensures forall x :: multiset(r)[x] == if p(x) then multiset(s)[x] else 0
    ensures forall x :: x in r <==> x in s && p(x)
    ensures |r| <= |s|
  {
    if s == [] then []
    else
      assert s == [s[0]] + s[1..];
      var rest := Filter(s[1..], p);
      if p(s[0]) then [s[0]] + rest else rest
  }

  /** A sequence whose tail agrees with `rest` index by index is its head followed by `rest`. */
  lemma ConsByIndex<T>(r: seq<T>, rest: seq<T>)
    requires |r| == |rest| + 1
    requires forall k :: 0 <= k < |rest| ==> r[k + 1] == rest[k]
    ensures r == [r[0]] + rest
  {
  }

  /** `Filter` takes a matching head. */
  lemma FilterKeeps<T(!new)>(s: seq<T>, p: T -> bool)
    requires s != [] && p(s[0])
    ensures Filter(s, p) == [s[0]] + Filter(s[1..], p)
  {
  }

  /** `Filter` skips a head that does not match. */
  lemma FilterSkips<T(!new)>(s: seq<T>, p: T -> bool)
    requires s != [] && !p(s[0])
    ensures Filter(s, p) == Filter(s[1..], p)
  {
  }

  /** The distinct values of `s`: each value of `s` exactly once. */
  function Dedup<T(==,!new)>(s: seq<T>): (r: seq<T>)
    ensures NoDup(r)
    ensures forall x :: x in r <==> x in s
    ensures |r| <= |s|
  {
    if s == [] then []
    else
      var rest := Dedup(s[1..]);
      if s[0] in s[1..] then rest
      else
        assert forall k :: 0 <= k < |rest| ==> rest[k] in s[1..];
        [s[0]] + rest
  }

  /** A sequence without repetitions has as many elements as its set of values. */
  lemma {:induction false} NoDupCardinality<T>(s: seq<T>)
    requires NoDup(s)
    ensures |set x | x in s| == |s|
  {
    if s != [] {
      assert NoDup(s[1..]) by {
        forall i, j | 0 <= i < j < |s| - 1 ensures s[1..][i] != s[1..][j] {
          assert s[1..][i] == s[i + 1] && s[1..][j] == s[j + 1];
        }
      }
      NoDupCardinality(s[1..]);
      assert (set x | x in s) == {s[0]} + (set x | x in s[1..]);
    }
  }

  /** `x` placed before the first element of `s` whose key is not below its own. */
  function InsertBy<T>(x: T, s: seq<T>, key: T -> int): (r: seq<T>)
    ensures multiset(r) == multiset(s) + multiset{x}
    ensures |r| == |s| + 1
  {
    if s == [] then [x]
    else if key(x) <= key(s[0]) then [x] + s
    else
      assert s == [s[0]] + s[1..];
      [s[0]] + InsertBy(x, s[1..], key)
  }

  /** Inserting into a sorted sequence keeps it sorted. */
  lemma {:induction false} InsertBySorted<T>(x: T, s: seq<T>, key: T -> int)
    requires SortedBy(s, key)
    ensures SortedBy(InsertBy(x, s, key), key)
  {
    if s != [] && key(s[0]) < key(x) {
      var rest := InsertBy(x, s[1..], key);
      InsertBySorted(x, s[1..], key);
      assert s == [s[0]] + s[1..];
      forall k | 0 <= k < |rest| ensures key(s[0]) <= key(rest[k]) {
        assert rest[k] in multiset(rest);
        if rest[k] != x {
          assert rest[k] in multiset(s[1..]);
        }
      }
      SortedCons(s[0], rest, key);
    }
  }

  /** A head whose key is not above any key of a sorted tail keeps it sorted. */
  lemma SortedCons<T>(h: T, t: seq<T>, key: T -> int)
    requires SortedBy(t, key)
    requires forall k :: 0 <= k < |t| ==> key(h) <= key(t[k])
    ensures SortedBy([h] + t, key)
  {
  }

  /** A reordering of `s` along which `key` does not decrease (insertion sort, stable). */
  function SortBy<T>(s: seq<T>, key: T -> int): (r: seq<T>)
    ensures multiset(r) == multiset(s)
    ensures |r| == |s|
    ensures SortedBy(r, key)
  {
    if s == [] then []
    else
      assert s == [s[0]] + s[1..];
      var sortedRest := SortBy(s[1..], key);
      InsertBySorted(s[0], sortedRest, key);
      InsertBy(s[0], sortedRest, key)
  }

  /** How many elements of `xs` are among `keys`, counting each key separately. */
  function SumCounts<T(==)>(keys: seq<T>, xs: seq<T>): nat {
    if keys == [] then 0 else multiset(xs)[keys[0]] + SumCounts(keys[1..], xs)
  }

  /** Adding `x` in front of `xs` adds one for each occurrence of `x` among `keys`. */
  lemma {:induction false} SumCountsCons<T>(keys: seq<T>, x: T, xs: seq<T>)
    requires NoDup(keys)
    ensures SumCounts(keys, [x] + xs) == SumCounts(keys, xs) + if x in keys then 1 else 0
  {
    if keys != [] {
      assert NoDup(keys[1..]) by {
        forall i, j | 0 <= i < j < |keys| - 1 ensures keys[1..][i] != keys[1..][j] {
          assert keys[1..][i] == keys[i + 1] && keys[1..][j] == keys[j + 1];
        }
      }
      SumCountsCons(keys[1..], x, xs);
      assert multiset([x] + xs) == multiset{x} + multiset(xs);
      assert x in keys <==> x == keys[0] || x in keys[1..];
    }
  }

  /**
   * Distinct keys that cover every element of `xs` partition it: the
   * numbers of occurrences of the keys add up to the length of `xs`.
   */
  lemma {:induction false} CountsPartition<T>(keys: seq<T>, xs: seq<T>)
    requires NoDup(keys)
    requires forall x :: x in xs ==> x in keys
    ensures SumCounts(keys, xs) == |xs|
  {
    if xs == [] {
      EmptyCounts(keys, xs);
    } else {
      assert xs == [xs[0]] + xs[1..];
      CountsPartition(keys, xs[1..]);
      SumCountsCons(keys, xs[0], xs[1..]);
    }
  }

  /** No key occurs in an empty sequence. */
  lemma {:induction false} EmptyCounts<T>(keys: seq<T>, xs: seq<T>)
    requires xs == []
    ensures SumCounts(keys, xs) == 0
  {
    if keys != [] {
      EmptyCounts(keys[1..], xs);
    }
  }

  /** Without repetitions, every value occurs at most once, and conversely. */
  lemma {:induction false} NoDupMultiplicity<T>(s: seq<T>)
    ensures NoDup(s) <==> forall x :: multiset(s)[x] <= 1
  {
    if s != [] {
      var t := s[1..];
      assert s == [s[0]] + t;
      NoDupMultiplicity(t);
      assert NoDup(s) <==> s[0] !in t && NoDup(t) by {
        if NoDup(s) {
          forall i, j | 0 <= i < j < |t| ensures t[i] != t[j] {
            assert t[i] == s[i + 1] && t[j] == s[j + 1];
          }
        }
        if s[0] !in t && NoDup(t) {
          forall i, j | 0 <= i < j < |s| ensures s[i] != s[j] {
            if i == 0 {
              assert s[j] == t[j - 1];
            } else {
              assert s[i] == t[i - 1] && s[j] == t[j - 1];
            }
          }
        }
      }
      assert multiset(s)[s[0]] == multiset(t)[s[0]] + 1;
      assert forall x :: x != s[0] ==> multiset(s)[x] == multiset(t)[x];
    }
  }

  /** A reordering of a sequence without repetitions has none either. */
  lemma NoDupPermutation<T>(a: seq<T>, b: seq<T>)
    requires NoDup(a) && multiset(a) == multiset(b)
    ensures NoDup(b)
  {
    NoDupMultiplicity(a);
    NoDupMultiplicity(b);
  }
}
