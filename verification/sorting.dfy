/** Sorting by an order that is given as a predicate, as several parts of the source do it. */
module Sorting {
  ghost predicate IsOrder<T(!new)>(le: (T, T) -> bool) {
    && (forall a, b :: le(a, b) || le(b, a))
    && (forall a, b, c :: le(a, b) && le(b, c) ==> le(a, c))
  }

  predicate IsSorted<T>(xs: seq<T>, le: (T, T) -> bool) {
    forall i, j | 0 <= i < j < |xs| :: le(xs[i], xs[j])
  }

  method SortBy<T(!new)>(xs: seq<T>, le: (T, T) -> bool) returns (r: seq<T>)
    requires IsOrder(le)
    ensures IsSorted(r, le) && multiset(r) == multiset(xs)
    ensures forall x :: x in r <==> x in xs
  {
    r := [];
    for i := 0 to |xs|
      invariant IsSorted(r, le) && multiset(r) == multiset(xs[..i])
    {
      var k := |r|;
      while k > 0 && !le(r[k - 1], xs[i])
        invariant 0 <= k <= |r|
        invariant forall j | k <= j < |r| :: le(xs[i], r[j])
      {
        k := k - 1;
      }
      Placed(r, k, xs[i], le);
      assert xs[..i + 1] == xs[..i] + [xs[i]];
      r := r[..k] + [xs[i]] + r[k..];
    }
    assert xs[..|xs|] == xs;
    SameMembers(r, xs);
  }

  lemma Placed<T(!new)>(r: seq<T>, k: nat, x: T, le: (T, T) -> bool)
    requires IsOrder(le) && IsSorted(r, le) && k <= |r| && (k > 0 ==> le(r[k - 1], x))
    requires forall j | k <= j < |r| :: le(x, r[j])
    ensures IsSorted(r[..k] + [x] + r[k..], le)
    ensures multiset(r[..k] + [x] + r[k..]) == multiset(r) + multiset{x}
  {
    assert r == r[..k] + r[k..];
    forall j | 0 <= j < k ensures le(r[j], x) {
      BelowPlaced(r, k, x, le, j);
    }
    PlacedIsSorted(r, k, x, le);
  }

  lemma BelowPlaced<T(!new)>(r: seq<T>, k: nat, x: T, le: (T, T) -> bool, j: nat)
    requires IsOrder(le) && IsSorted(r, le) && j < k <= |r| && le(r[k - 1], x)
    ensures le(r[j], x)
  {
    assert j < k - 1 ==> le(r[j], r[k - 1]);
  }

  lemma PlacedIsSorted<T>(r: seq<T>, k: nat, x: T, le: (T, T) -> bool)
    requires IsSorted(r, le) && k <= |r|
    requires (forall j | 0 <= j < k :: le(r[j], x)) && forall j | k <= j < |r| :: le(x, r[j])
    ensures IsSorted(r[..k] + [x] + r[k..], le)
  {
    var s := r[..k] + [x] + r[k..];
    assert forall i | 0 <= i < |s| :: s[i] == if i < k then r[i] else if i == k then x else r[i - 1];
  }

  lemma SameMembers<T>(a: seq<T>, b: seq<T>)
    requires multiset(a) == multiset(b)
    ensures forall x :: x in a <==> x in b
  {
    forall x ensures x in a <==> x in b {
      assert x in a <==> x in multiset(a);
      assert x in b <==> x in multiset(b);
    }
  }

  // ----- bounded tables -----

  /** A name in a table and what it is ranked by. */
  datatype Bucket = Bucket(name: string, rank: nat)

  predicate NotAbove(a: Bucket, b: Bucket) {
    a.rank <= b.rank
  }

  lemma NotAboveIsOrder()
    ensures IsOrder(NotAbove)
  {
  }

  method CollectBuckets(ranks: map<string, nat>) returns (bs: seq<Bucket>)
    ensures forall b :: b in bs <==> b.name in ranks && b.rank == ranks[b.name]
  {
    var todo := ranks.Keys;
    bs := [];
    while todo != {}
      invariant todo <= ranks.Keys
      invariant forall b :: b in bs <==> b.name in ranks && b.name !in todo && b.rank == ranks[b.name]
      decreases |todo|
    {
      var name :| name in todo;
      bs := bs + [Bucket(name, ranks[name])];
      todo := todo - {name};
    }
  }

  /** The names of the first i buckets, and no others, are gone. */
  predicate IsGone(ranks: map<string, nat>, kept: set<string>, order: seq<Bucket>, i: nat)
    requires i <= |order|
  {
    forall n | n in ranks :: n !in kept <==> Bucket(n, ranks[n]) in order[..i]
  }

  lemma OneMoreGone(ranks: map<string, nat>, kept: set<string>, order: seq<Bucket>, i: nat)
    requires i < |order| && IsGone(ranks, kept, order, i)
    requires order[i].name in ranks && order[i].rank == ranks[order[i].name]
    ensures IsGone(ranks, kept - {order[i].name}, order, i + 1)
  {
    assert order[..i + 1] == order[..i] + [order[i]];
    assert order[i] == Bucket(order[i].name, ranks[order[i].name]);
  }

  lemma AllGone(ranks: map<string, nat>, kept: set<string>, order: seq<Bucket>, i: nat)
    requires i <= |order| && IsGone(ranks, kept, order, i) && kept <= ranks.Keys
    requires forall n | n in ranks :: Bucket(n, ranks[n]) in order
    ensures i == |order| ==> kept == {}
  {
    if i == |order| {
      assert order[..i] == order;
    }
  }

  lemma GoneAreLowest(ranks: map<string, nat>, kept: set<string>, order: seq<Bucket>, i: nat)
    requires i <= |order| && IsSorted(order, NotAbove) && kept <= ranks.Keys
    requires forall n | n in ranks :: Bucket(n, ranks[n]) in order
    requires IsGone(ranks, kept, order, i)
    ensures forall a, b | a in ranks && a !in kept && b in kept :: ranks[a] <= ranks[b]
  {
    forall a, b | a in ranks && a !in kept && b in kept ensures ranks[a] <= ranks[b] {
      var j :| 0 <= j < i && order[..i][j] == Bucket(a, ranks[a]);
      forall k | 0 <= k < i ensures order[k] != Bucket(b, ranks[b]) {
        assert order[..i][k] == order[k];
      }
      var k :| 0 <= k < |order| && order[k] == Bucket(b, ranks[b]);
      assert NotAbove(order[j], order[k]);
    }
  }

  /** Removes the lowest ranks, one name after the other, until the table fits. */
  method DropLowest(ranks: map<string, nat>, limit: nat) returns (kept: set<string>)
    requires |ranks| >= limit
    ensures |kept| == limit && kept <= ranks.Keys
    ensures forall a, b | a in ranks && a !in kept && b in kept :: ranks[a] <= ranks[b]
  {
    hide IsSorted, IsGone, IsOrder, NotAbove;
    NotAboveIsOrder();
    var bs := CollectBuckets(ranks);
    var order := SortBy(bs, NotAbove);
    kept := ranks.Keys;
    var i := 0;
    NoneGone(ranks, order);
    while i < |order| && |kept| > limit
      invariant i <= |order| && |kept| >= limit && kept <= ranks.Keys
      invariant IsGone(ranks, kept, order, i)
    {
      assert order[i] in order;
      OneMoreGone(ranks, kept, order, i);
      kept := kept - {order[i].name};
      i := i + 1;
    }
    AllGone(ranks, kept, order, i);
    GoneAreLowest(ranks, kept, order, i);
  }

  lemma NoneGone(ranks: map<string, nat>, order: seq<Bucket>)
    ensures IsGone(ranks, ranks.Keys, order, 0)
  {
  }
}
