/** List comprehensions, `sum(...)` and `list(dict.fromkeys(...))` as the
    scripts use them, each defined over the last element so that the loops
    that build them left to right can be checked against them. */
module Sequences {

  /** `[x for x in s if keep(x)]` */
  function Filter<T>(s: seq<T>, keep: T -> bool): seq<T>
    decreases |s|
  {
    if s == [] then [] else Filter(s[..|s| - 1], keep) + (if keep(s[|s| - 1]) then [s[|s| - 1]] else [])
  }

  /** `[f(x) for x in s if keep(x)]` */
  function FilterMap<T, U>(s: seq<T>, keep: T -> bool, f: T -> U): seq<U>
    decreases |s|
  {
    if s == [] then [] else FilterMap(s[..|s| - 1], keep, f) + (if keep(s[|s| - 1]) then [f(s[|s| - 1])] else [])
  }

  /** `sum(f(x) for x in s)` */
  function Sum<T>(s: seq<T>, f: T -> int): int
    decreases |s|
  {
    if s == [] then 0 else Sum(s[..|s| - 1], f) + f(s[|s| - 1])
  }

  lemma {:induction false} FilterMember<T>(s: seq<T>, keep: T -> bool)
    ensures forall x :: x in Filter(s, keep) <==> x in s && keep(x)
    ensures |Filter(s, keep)| <= |s|
    decreases |s|
  {
    if s != [] {
      FilterMember(s[..|s| - 1], keep);
      assert s == s[..|s| - 1] + [s[|s| - 1]];
    }
  }

  lemma {:induction false} FilterNone<T>(s: seq<T>, keep: T -> bool)
    requires forall i :: 0 <= i < |s| ==> !keep(s[i])
    ensures Filter(s, keep) == []
    decreases |s|
  {
    if s != [] {
      FilterNone(s[..|s| - 1], keep);
    }
  }

  /** Some element of `s` that passes `keep` is mapped to `y`. */
  ghost predicate MapsTo<T, U>(s: seq<T>, keep: T -> bool, f: T -> U, y: U) {
    exists i :: 0 <= i < |s| && keep(s[i]) && f(s[i]) == y
  }

  lemma {:induction false} FilterMapMember<T, U>(s: seq<T>, keep: T -> bool, f: T -> U)
    ensures forall y :: y in FilterMap(s, keep, f) <==> MapsTo(s, keep, f, y)
    ensures |FilterMap(s, keep, f)| <= |s|
    decreases |s|
  {
    if s != [] {
      var init := s[..|s| - 1];
      FilterMapMember(init, keep, f);
      var tail := if keep(s[|s| - 1]) then [f(s[|s| - 1])] else [];
      assert FilterMap(s, keep, f) == FilterMap(init, keep, f) + tail;
      forall y | y in FilterMap(s, keep, f) ensures MapsTo(s, keep, f, y) {
        if y in FilterMap(init, keep, f) {
          assert MapsTo(init, keep, f, y);
          var i :| 0 <= i < |init| && keep(init[i]) && f(init[i]) == y;
          assert s[i] == init[i];
        } else {
          assert keep(s[|s| - 1]) && f(s[|s| - 1]) == y;
        }
      }
      forall y | MapsTo(s, keep, f, y) ensures y in FilterMap(s, keep, f) {
        var i :| 0 <= i < |s| && keep(s[i]) && f(s[i]) == y;
        if i < |init| {
          assert init[i] == s[i];
          assert MapsTo(init, keep, f, y);
        }
      }
    }
  }

  lemma {:induction false} FilterConcat<T>(a: seq<T>, b: seq<T>, keep: T -> bool)
    ensures Filter(a + b, keep) == Filter(a, keep) + Filter(b, keep)
    decreases |b|
  {
    if b == [] {
      assert a + b == a;
    } else {
      var init := b[..|b| - 1];
      FilterConcat(a, init, keep);
      assert (a + b)[..|a + b| - 1] == a + init;
    }
  }

  lemma {:induction false} FilterMapConcat<T, U>(a: seq<T>, b: seq<T>, keep: T -> bool, f: T -> U)
    ensures FilterMap(a + b, keep, f) == FilterMap(a, keep, f) + FilterMap(b, keep, f)
    decreases |b|
  {
    if b == [] {
      assert a + b == a;
    } else {
      var init := b[..|b| - 1];
      FilterMapConcat(a, init, keep, f);
      assert (a + b)[..|a + b| - 1] == a + init;
    }
  }

  /** Filtering one list by two predicates that never hold together and
      together always hold splits its mapped elements between the two results. */
  lemma {:induction false} FilterMapSplits<T, U>(s: seq<T>, p: T -> bool, q: T -> bool, f: T -> U)
    requires forall x :: p(x) ==> !q(x)
    ensures multiset(FilterMap(s, p, f)) + multiset(FilterMap(s, q, f))
            == multiset(FilterMap(s, x => p(x) || q(x), f))
    decreases |s|
  {
    if s != [] {
      FilterMapSplits(s[..|s| - 1], p, q, f);
    }
  }

  /** A filter keeps every occurrence of a passing element and none of a failing one. */
  lemma {:induction false} FilterCount<T>(s: seq<T>, keep: T -> bool, y: T)
    ensures multiset(Filter(s, keep))[y] == if keep(y) then multiset(s)[y] else 0
    decreases |s|
  {
    if s != [] {
      var init := s[..|s| - 1];
      FilterCount(init, keep, y);
      assert s == init + [s[|s| - 1]];
    }
  }

  /** Every element passes exactly one of the four tests. */
  ghost predicate OnlyOne<T(!new)>(a: T -> bool, b: T -> bool, c: T -> bool, d: T -> bool) {
    && (forall x :: a(x) || b(x) || c(x) || d(x))
    && (forall x :: !(a(x) && b(x)) && !(a(x) && c(x)) && !(a(x) && d(x)))
    && (forall x :: !(b(x) && c(x)) && !(b(x) && d(x)) && !(c(x) && d(x)))
  }

  /** Four tests of which each element passes exactly one split a list:
      the four filtered lists together hold each element as often as it
      occurs, so their lengths add up to its length. */
  lemma FilterPartition4<T(!new)>(s: seq<T>, a: T -> bool, b: T -> bool, c: T -> bool, d: T -> bool)
    requires OnlyOne(a, b, c, d)
    ensures multiset(Filter(s, a)) + multiset(Filter(s, b)) + multiset(Filter(s, c)) + multiset(Filter(s, d))
            == multiset(s)
    ensures |Filter(s, a)| + |Filter(s, b)| + |Filter(s, c)| + |Filter(s, d)| == |s|
  {
    var m := multiset(Filter(s, a)) + multiset(Filter(s, b)) + multiset(Filter(s, c)) + multiset(Filter(s, d));
    forall y ensures m[y] == multiset(s)[y] {
      FilterCount(s, a, y);
      FilterCount(s, b, y);
      FilterCount(s, c, y);
      FilterCount(s, d, y);
    }
    assert m == multiset(s);
    assert |m| == |multiset(s)|;
  }

  lemma Reassociate<T>(a: seq<T>, b: seq<T>, c: seq<T>)
    ensures a + b + c == a + (b + c)
  {
  }

  /** `[y for x in s for y in f(x)]`, the lines a loop appends per element. */
  function Flatten<T, U>(s: seq<T>, f: T -> seq<U>): seq<U>
    decreases |s|
  {
    if s == [] then [] else Flatten(s[..|s| - 1], f) + f(s[|s| - 1])
  }

  lemma {:induction false} FlattenMember<T, U>(s: seq<T>, f: T -> seq<U>)
    ensures forall y :: y in Flatten(s, f) <==> exists i :: 0 <= i < |s| && y in f(s[i])
    decreases |s|
  {
    if s != [] {
      var init := s[..|s| - 1];
      FlattenMember(init, f);
      forall y ensures y in Flatten(s, f) <==> exists i :: 0 <= i < |s| && y in f(s[i]) {
        if y in Flatten(init, f) {
          var i :| 0 <= i < |init| && y in f(init[i]);
          assert s[i] == init[i];
        }
        if i :| 0 <= i < |s| && y in f(s[i]) {
          if i < |init| {
            assert init[i] == s[i];
          }
        }
      }
    }
  }

  predicate Distinct<T(==)>(s: seq<T>) {
    forall i, j :: 0 <= i < j < |s| ==> s[i] != s[j]
  }

  /** `list(dict.fromkeys(s))`: each element at its first occurrence, once. */
  function Dedup<T(==)>(s: seq<T>): seq<T>
    decreases |s|
  {
    if s == [] then []
    else if s[|s| - 1] in s[..|s| - 1] then Dedup(s[..|s| - 1])
    else Dedup(s[..|s| - 1]) + [s[|s| - 1]]
  }

  lemma {:induction false} DedupCorrect<T>(s: seq<T>)
    ensures Distinct(Dedup(s))
    ensures forall x :: x in Dedup(s) <==> x in s
    ensures |Dedup(s)| <= |s|
    decreases |s|
  {
    if s != [] {
      var init := s[..|s| - 1];
      DedupCorrect(init);
      assert s == init + [s[|s| - 1]];
    }
  }

  /** The order `dict.fromkeys` keeps: the m-th element of the result is
      the element at position `idx[m]` of the input, that position is the
      element's first occurrence, and the positions increase. */
  lemma {:induction false} DedupFirstOccurrences<T>(s: seq<T>) returns (idx: seq<nat>)
    ensures |idx| == |Dedup(s)|
    ensures forall m :: 0 <= m < |idx| ==> idx[m] < |s| && Dedup(s)[m] == s[idx[m]]
    ensures forall m :: 0 <= m < |idx| ==> s[idx[m]] !in s[..idx[m]]
    ensures forall m, n :: 0 <= m < n < |idx| ==> idx[m] < idx[n]
    decreases |s|
  {
    if s == [] {
      idx := [];
    } else {
      var last := |s| - 1;
      var init := s[..last];
      var sub := DedupFirstOccurrences(init);
      forall m | 0 <= m < |sub|
        ensures s[sub[m]] == init[sub[m]] && s[..sub[m]] == init[..sub[m]]
      {
      }
      if s[last] in init {
        idx := sub;
      } else {
        idx := sub + [last];
        assert s[..last] == init;
      }
    }
  }

  /** A list that already has no repeats is left as it is. */
  lemma {:induction false} DedupOfDistinct<T>(s: seq<T>)
    requires Distinct(s)
    ensures Dedup(s) == s
    decreases |s|
  {
    if s != [] {
      var init := s[..|s| - 1];
      assert Distinct(init);
      DedupOfDistinct(init);
      assert s[|s| - 1] !in init;
      assert init + [s[|s| - 1]] == s;
    }
  }

  lemma DedupIdempotent<T>(s: seq<T>)
    ensures Dedup(Dedup(s)) == Dedup(s)
  {
    DedupCorrect(s);
    DedupOfDistinct(Dedup(s));
  }

  /** An element occurs in a distinct list at most once. */
  lemma DistinctOccursOnce<T>(s: seq<T>, x: T)
    requires Distinct(s)
    ensures multiset(s)[x] <= 1
    decreases |s|
  {
    if s != [] {
      var init := s[..|s| - 1];
      assert Distinct(init);
      DistinctOccursOnce(init, x);
      assert s == init + [s[|s| - 1]];
      if x == s[|s| - 1] {
        assert x !in init;
      }
    }
  }

  /** The keys that occur in `s`. */
  ghost function KeysOf<T, K>(s: seq<T>, key: T -> K): set<K> {
    set x | x in s :: key(x)
  }

  /** A dict of lists built by appending each element to the list of its
      key: every key that occurs, with its elements in input order. */
  ghost function GroupBy<T, K>(s: seq<T>, key: T -> K): map<K, seq<T>> {
    map k | k in KeysOf(s, key) :: Group(s, key, k)
  }

  /** The elements of `s` whose key is `k`, in order. */
  ghost function Group<T, K>(s: seq<T>, key: T -> K, k: K): seq<T> {
    Filter(s, x => key(x) == k)
  }

  /** Appending one element appends it to its key's list, creating the list
      when the key is new. */
  lemma GroupByStep<T, K>(s: seq<T>, key: T -> K)
    requires s != []
    ensures var g, x := GroupBy(s[..|s| - 1], key), s[|s| - 1];
            GroupBy(s, key) == g[key(x) := (if key(x) in g then g[key(x)] else []) + [x]]
  {
    var init, x := s[..|s| - 1], s[|s| - 1];
    var g := GroupBy(init, key);
    var g' := g[key(x) := (if key(x) in g then g[key(x)] else []) + [x]];
    assert KeysOf(s, key) == KeysOf(init, key) + {key(x)} by {
      assert s == init + [x];
      assert forall y :: y in s <==> y in init || y == x;
    }
    forall k | k in KeysOf(s, key) ensures Group(s, key, k) == g'[k] {
      if k == key(x) && k !in g {
        FilterNone(init, y => key(y) == k);
      }
    }
    assert GroupBy(s, key) == g';
  }

  /** Each element is in the list of its own key and in no other. */
  lemma GroupByMember<T, K>(s: seq<T>, key: T -> K, x: T, k: K)
    requires x in s
    ensures var g := GroupBy(s, key);
            && key(x) in g && x in g[key(x)]
            && (k in g && k != key(x) ==> x !in g[k])
            && (k in g <==> exists y :: y in s && key(y) == k)
            && (k in g ==> g[k] == Group(s, key, k))
            && forall y :: y in Group(s, key, k) <==> y in s && key(y) == k
  {
    FilterMember(s, y => key(y) == key(x));
    FilterMember(s, y => key(y) == k);
  }
}
