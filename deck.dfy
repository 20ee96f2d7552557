/**
 * Deck generation shared by both variants: the base list that holds every
 * card face twice, and the shuffle that permutes it.
 *
 * `Collections.shuffle` on an `ArrayList` of 16 elements runs the swap loop
 * `for i := size down to 2: swap(list, i - 1, rnd.nextInt(i))`. The random
 * numbers are not modelled as randomness: they are the `draws` parameter,
 * where `draws[i - 1]` is the number drawn from `[0, i)`.
 */
module Deck {

  /** The base list `[x0, x0, x1, x1, ...]`: every item twice, in order. */
  function Doubled<T>(items: seq<T>): (r: seq<T>)
    ensures |r| == 2 * |items|
  {
    if items == [] then []
    else Doubled(items[..|items| - 1]) + [items[|items| - 1], items[|items| - 1]]
  }

  /** No item occurs twice. */
  predicate Distinct<T(==)>(s: seq<T>)
  {
    forall a, b :: 0 <= a < b < |s| ==> s[a] != s[b]
  }

  /** `draws` holds a legal outcome of the random source for shuffling `n` elements. */
  predicate ValidDraws(draws: seq<int>, n: nat)
  {
    |draws| >= n && forall k :: 0 <= k < n ==> 0 <= draws[k] <= k
  }

  /** The loop that adds each item twice to a fresh list. */
  method MakePairs<T>(items: seq<T>) returns (list: seq<T>)
    ensures list == Doubled(items)
  {
    list := [];
    for i := 0 to |items|
      invariant list == Doubled(items[..i])
    {
      assert items[..i + 1][..i] == items[..i];
      list := list + [items[i], items[i]];
    }
    assert items[..|items|] == items;
  }

  /** The JDK's in-place shuffle, run on the list's contents; the result is a permutation. */
  method Shuffle<T>(list: seq<T>, draws: seq<int>) returns (shuffled: seq<T>)
    requires ValidDraws(draws, |list|)
    ensures |shuffled| == |list|
    ensures multiset(shuffled) == multiset(list)
  {
    shuffled := list;
    var i := |list|;
    while i > 1
      invariant 0 <= i <= |list|
      invariant |shuffled| == |list|
      invariant multiset(shuffled) == multiset(list)
    {
      var j := draws[i - 1];
      shuffled := shuffled[i - 1 := shuffled[j]][j := shuffled[i - 1]];
      i := i - 1;
    }
  }

  /** The base list holds each item exactly as often as the items twice over. */
  lemma {:induction false} DoubledMultiset<T>(items: seq<T>)
    ensures multiset(Doubled(items)) == multiset(items) + multiset(items)
  {
    if items != [] {
      var n := |items| - 1;
      DoubledMultiset(items[..n]);
      assert items == items[..n] + [items[n]];
    }
  }

  /** In a list without duplicates every element occurs once and nothing else occurs. */
  lemma {:induction false} DistinctMultiplicity<T>(s: seq<T>, x: T)
    requires Distinct(s)
    ensures multiset(s)[x] == if x in s then 1 else 0
  {
    if s != [] {
      var n := |s| - 1;
      assert s == s[..n] + [s[n]];
      assert Distinct(s[..n]);
      DistinctMultiplicity(s[..n], x);
      assert x in s <==> x in s[..n] || x == s[n];
    }
  }

  /**
   * Any permutation of the base list of distinct items is a deck in which
   * every item occurs exactly twice and nothing else occurs.
   */
  lemma PairDeck<T>(deck: seq<T>, items: seq<T>)
    requires Distinct(items)
    requires multiset(deck) == multiset(Doubled(items))
    ensures |deck| == 2 * |items|
    ensures forall x :: multiset(deck)[x] == if x in items then 2 else 0
  {
    assert |deck| == |multiset(deck)| == |Doubled(items)|;
    DoubledMultiset(items);
    forall x
      ensures multiset(deck)[x] == if x in items then 2 else 0
    {
      DistinctMultiplicity(items, x);
    }
  }
}
