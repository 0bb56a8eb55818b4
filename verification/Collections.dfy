/** Sums over maps, mapping over sequences, and sorting by a total order. */
module Collections {
  import opened Prelude

  // ---------------------------------------------------------------- sums

  ghost function Sum<K>(m: map<K, nat>): nat
    decreases m.Keys
  {
    if m == map[] then 0
    else
      var k :| k in m;
      m[k] + Sum(m - {k})
  }

  /** The sum does not depend on the order in which keys are taken. */
  lemma {:induction false} SumTake<K>(m: map<K, nat>, k: K)
    requires k in m
    ensures Sum(m) == m[k] + Sum(m - {k})
    decreases m.Keys
  {
    var first :| first in m && Sum(m) == m[first] + Sum(m - {first});
    if first != k {
      SumTake(m - {first}, k);
      SumTake(m - {k}, first);
      assert m - {first} - {k} == m - {k} - {first};
    }
  }

  lemma SumUpdate<K>(m: map<K, nat>, k: K, v: nat)
    ensures Sum(m[k := v]) == Sum(m) + v - (if k in m then m[k] else 0)
  {
    SumTake(m[k := v], k);
    if k in m {
      SumTake(m, k);
      assert m[k := v] - {k} == m - {k};
    } else {
      assert m[k := v] - {k} == m;
    }
  }

  lemma SumRemove<K>(m: map<K, nat>, k: K)
    ensures Sum(m - {k}) == Sum(m) - (if k in m then m[k] else 0)
  {
    if k in m {
      SumTake(m, k);
    } else {
      assert m - {k} == m;
    }
  }

  // ---------------------------------------------------------------- sequences

  function Map<A, B>(f: A -> B, xs: seq<A>): seq<B> {
    seq(|xs|, i requires 0 <= i < |xs| => f(xs[i]))
  }

  lemma MapConcat<A, B>(f: A -> B, xs: seq<A>, ys: seq<A>)
    ensures Map(f, xs + ys) == Map(f, xs) + Map(f, ys)
  {
  }

  lemma MapSnoc<A, B>(f: A -> B, xs: seq<A>, x: A)
    ensures Map(f, xs + [x]) == Map(f, xs) + [f(x)]
  {
  }

  function Without<T>(xs: seq<T>, j: nat): seq<T>
    requires j < |xs|
  {
    xs[..j] + xs[j + 1..]
  }

  lemma MultisetWithout<T>(xs: seq<T>, j: nat)
    requires j < |xs|
    ensures multiset(xs) == multiset{xs[j]} + multiset(Without(xs, j))
    ensures multiset(Without(xs, j)) == multiset(xs) - multiset{xs[j]}
  {
    assert xs == xs[..j] + [xs[j]] + xs[j + 1..];
  }

  lemma MultisetTail<T>(xs: seq<T>)
    requires |xs| > 0
    ensures multiset(xs) == multiset{xs[0]} + multiset(xs[1..])
    ensures multiset(xs[1..]) == multiset(xs) - multiset{xs[0]}
  {
    assert xs == [xs[0]] + xs[1..];
  }

  /** The first element of a sequence has a place in every permutation of it. */
  lemma MatchFirst<T>(xs: seq<T>, ys: seq<T>) returns (j: nat)
    requires |xs| > 0 && multiset(xs) == multiset(ys)
    ensures j < |ys| && ys[j] == xs[0]
    ensures multiset(xs[1..]) == multiset(Without(ys, j))
  {
    assert xs[0] in multiset(ys);
    j :| 0 <= j < |ys| && ys[j] == xs[0];
    MultisetTail(xs);
    MultisetWithout(ys, j);
  }

  /** Mapping preserves being a permutation. */
  lemma {:induction false} MapPermutes<A, B>(f: A -> B, xs: seq<A>, ys: seq<A>)
    requires multiset(xs) == multiset(ys)
    ensures multiset(Map(f, xs)) == multiset(Map(f, ys))
    decreases |xs|
  {
    if |xs| == 0 {
      assert |multiset(ys)| == 0;
    } else {
      var j := MatchFirst(xs, ys);
      MapPermutes(f, xs[1..], Without(ys, j));
      assert Map(f, xs)[1..] == Map(f, xs[1..]);
      assert Without(Map(f, ys), j) == Map(f, Without(ys, j));
      MultisetTail(Map(f, xs));
      MultisetWithout(Map(f, ys), j);
    }
  }

  /** A permutation of mapped elements is the mapping of a permutation. */
  lemma {:induction false} UnmapPermutation<A, B>(f: A -> B, xs: seq<A>, ys: seq<B>) returns (zs: seq<A>)
    requires multiset(Map(f, xs)) == multiset(ys)
    ensures multiset(zs) == multiset(xs) && Map(f, zs) == ys
    decreases |ys|
  {
    if |ys| == 0 {
      assert |multiset(Map(f, xs))| == 0;
      zs := [];
    } else {
      var j := MatchFirst(ys, Map(f, xs));
      assert Without(Map(f, xs), j) == Map(f, Without(xs, j));
      var rest := UnmapPermutation(f, Without(xs, j), ys[1..]);
      MultisetWithout(xs, j);
      zs := [xs[j]] + rest;
      assert Map(f, zs) == [f(xs[j])] + Map(f, rest);
    }
  }

  /** A listing of a set without its first element lists the set without that element. */
  lemma ListingTail<A>(order: seq<A>, keys: set<A>)
    requires |order| > 0 && multiset(order) == multiset(keys)
    ensures order[0] in keys && multiset(order[1..]) == multiset(keys - {order[0]})
  {
    MultisetTail(order);
    assert order[0] in multiset(order);
    assert multiset(keys - {order[0]}) == multiset(keys) - multiset{order[0]};
  }

  lemma EmptyListing<A>(order: seq<A>, keys: set<A>)
    requires |order| == 0 && multiset(order) == multiset(keys)
    ensures keys == {}
  {
    forall k ensures k !in keys {
      assert multiset(order)[k] == 0;
    }
  }

  ghost function Preimage<A, B>(f: A -> B, keys: set<A>, x: B): set<A> {
    set k | k in keys && f(k) == x
  }

  /** Mapping over a listing of a set yields each value as often as elements of the set map to it. */
  lemma {:induction false} MapCount<A, B>(f: A -> B, order: seq<A>, keys: set<A>, x: B)
    requires multiset(order) == multiset(keys)
    ensures multiset(Map(f, order))[x] == |Preimage(f, keys, x)|
  {
    var all := Preimage(f, keys, x);
    if |order| == 0 {
      EmptyListing(order, keys);
      assert all == {};
    } else {
      var first := order[0];
      ListingTail(order, keys);
      MapCount(f, order[1..], keys - {first}, x);
      var rest := Preimage(f, keys - {first}, x);
      assert all == if f(first) == x then rest + {first} else rest;
      assert Map(f, order)[1..] == Map(f, order[1..]);
      MultisetTail(Map(f, order));
    }
  }

  function TotalOf(xs: seq<nat>): nat {
    if |xs| == 0 then 0 else xs[0] + TotalOf(xs[1..])
  }

  lemma {:induction false} TotalOfWithout(xs: seq<nat>, j: nat)
    requires j < |xs|
    ensures TotalOf(xs) == xs[j] + TotalOf(Without(xs, j))
  {
    if j == 0 {
      assert Without(xs, 0) == xs[1..];
    } else {
      TotalOfWithout(xs[1..], j - 1);
      assert Without(xs, j)[1..] == Without(xs[1..], j - 1);
    }
  }

  lemma {:induction false} TotalOfPermutes(xs: seq<nat>, ys: seq<nat>)
    requires multiset(xs) == multiset(ys)
    ensures TotalOf(xs) == TotalOf(ys)
    decreases |xs|
  {
    if |xs| == 0 {
      assert |multiset(ys)| == 0;
    } else {
      var j := MatchFirst(xs, ys);
      TotalOfPermutes(xs[1..], Without(ys, j));
      TotalOfWithout(ys, j);
    }
  }

  /** The elements that `f` keeps, in order. */
  function Pick<A, B>(f: A -> Option<B>, xs: seq<A>): seq<B> {
    if |xs| == 0 then []
    else (if f(xs[0]).Some? then [f(xs[0]).value] else []) + Pick(f, xs[1..])
  }

  lemma ConcatAssociates<T>(a: seq<T>, b: seq<T>, c: seq<T>)
    ensures a + b + c == a + (b + c)
  {
  }

  lemma {:induction false} PickConcat<A, B>(f: A -> Option<B>, xs: seq<A>, ys: seq<A>)
    ensures Pick(f, xs + ys) == Pick(f, xs) + Pick(f, ys)
  {
    if |xs| == 0 {
      assert xs + ys == ys;
      assert [] + Pick(f, ys) == Pick(f, ys);
    } else {
      assert (xs + ys)[1..] == xs[1..] + ys && (xs + ys)[0] == xs[0];
      PickConcat(f, xs[1..], ys);
      var first := if f(xs[0]).Some? then [f(xs[0]).value] else [];
      ConcatAssociates(first, Pick(f, xs[1..]), Pick(f, ys));
    }
  }

  // ---------------------------------------------------------------- sorting

  ghost predicate TotalOrder<T(!new)>(leq: (T, T) -> bool) {
    && (forall a, b :: leq(a, b) || leq(b, a))
    && (forall a, b :: leq(a, b) && leq(b, a) ==> a == b)
    && (forall a, b, c :: leq(a, b) && leq(b, c) ==> leq(a, c))
  }

  ghost predicate SortedBy<T(!new)>(leq: (T, T) -> bool, xs: seq<T>) {
    forall i, j :: 0 <= i < j < |xs| ==> leq(xs[i], xs[j])
  }

  function Insert<T>(leq: (T, T) -> bool, x: T, xs: seq<T>): (ys: seq<T>)
    ensures multiset(ys) == multiset(xs) + multiset{x}
  {
    if |xs| == 0 then [x]
    else if leq(x, xs[0]) then [x] + xs
    else
      assert xs == [xs[0]] + xs[1..];
      [xs[0]] + Insert(leq, x, xs[1..])
  }

  function Sort<T>(leq: (T, T) -> bool, xs: seq<T>): (ys: seq<T>)
    ensures multiset(ys) == multiset(xs)
  {
    if |xs| == 0 then []
    else
      assert xs == [xs[0]] + xs[1..];
      Insert(leq, xs[0], Sort(leq, xs[1..]))
  }

  lemma {:induction false} InsertSorted<T(!new)>(leq: (T, T) -> bool, x: T, xs: seq<T>)
    requires TotalOrder(leq) && SortedBy(leq, xs)
    ensures SortedBy(leq, Insert(leq, x, xs))
  {
    if |xs| > 0 && !leq(x, xs[0]) {
      InsertSorted(leq, x, xs[1..]);
      var rest := Insert(leq, x, xs[1..]);
      forall i | 0 <= i < |rest| ensures leq(xs[0], rest[i]) {
        assert rest[i] in multiset(rest);
        if rest[i] != x {
          assert rest[i] in multiset(xs[1..]);
          var j :| 0 <= j < |xs[1..]| && xs[1..][j] == rest[i];
          assert xs[1 + j] == rest[i];
        }
      }
    }
  }

  lemma {:induction false} SortSorted<T(!new)>(leq: (T, T) -> bool, xs: seq<T>)
    requires TotalOrder(leq)
    ensures SortedBy(leq, Sort(leq, xs))
  {
    if |xs| > 0 {
      SortSorted(leq, xs[1..]);
      InsertSorted(leq, xs[0], Sort(leq, xs[1..]));
    }
  }

  lemma FirstIsLeast<T(!new)>(leq: (T, T) -> bool, xs: seq<T>, x: T)
    requires TotalOrder(leq) && SortedBy(leq, xs) && |xs| > 0 && x in multiset(xs)
    ensures leq(xs[0], x)
  {
    var j :| 0 <= j < |xs| && xs[j] == x;
  }

  lemma SameFirst<T(!new)>(leq: (T, T) -> bool, xs: seq<T>, ys: seq<T>)
    requires TotalOrder(leq) && SortedBy(leq, xs) && SortedBy(leq, ys)
    requires |xs| > 0 && |ys| > 0 && multiset(xs) == multiset(ys)
    ensures xs[0] == ys[0] && multiset(xs[1..]) == multiset(ys[1..])
  {
    FirstIsLeast(leq, xs, ys[0]);
    FirstIsLeast(leq, ys, xs[0]);
    MultisetTail(xs);
    MultisetTail(ys);
  }

  /** Sorted permutations of each other are equal. */
  lemma {:induction false} SortedUnique<T(!new)>(leq: (T, T) -> bool, xs: seq<T>, ys: seq<T>)
    requires TotalOrder(leq) && SortedBy(leq, xs) && SortedBy(leq, ys) && multiset(xs) == multiset(ys)
    ensures xs == ys
  {
    assert |xs| == |multiset(xs)| == |multiset(ys)| == |ys|;
    if |xs| > 0 {
      SameFirst(leq, xs, ys);
      SortedUnique(leq, xs[1..], ys[1..]);
      assert xs == [xs[0]] + xs[1..] && ys == [ys[0]] + ys[1..];
    }
  }

  /** Sorting forgets the order of its input. */
  lemma SortCanonical<T(!new)>(leq: (T, T) -> bool, xs: seq<T>, ys: seq<T>)
    requires TotalOrder(leq) && multiset(xs) == multiset(ys)
    ensures Sort(leq, xs) == Sort(leq, ys)
  {
    SortSorted(leq, xs);
    SortSorted(leq, ys);
    SortedUnique(leq, Sort(leq, xs), Sort(leq, ys));
  }
}
