/**
 * One side of the book: the aggregate resting size at each distinct price.
 * The bid side is read highest price first, the ask side lowest price first.
 */
module PriceLevels {

  /** Price (in ticks) to aggregate size. */
  type Levels = map<int, int>

  /** Aggregate at `price`, with an absent level reading as 0. */
  function SizeAt(levels: Levels, price: int): int {
    if price in levels then levels[price] else 0
  }

  /** The book's standing invariant: no level is zero or negative. */
  predicate AllPositive(levels: Levels) {
    forall p :: p in levels ==> levels[p] > 0
  }

  /**
   * `after` is `before` with `delta` added at `price`: the level is present
   * exactly when the new aggregate is positive, holds that aggregate, and
   * every other level is as it was.
   */
  predicate AdjustedAt(before: Levels, after: Levels, price: int, delta: int) {
    var total := SizeAt(before, price) + delta;
    && (price in after <==> total > 0)
    && (price in after ==> after[price] == total)
    && after - {price} == before - {price}
  }

  /**
   * Adding a signed change to one level, dropping the level when its
   * aggregate is no longer positive (absent levels start from 0).
   */
  function Adjust(levels: Levels, price: int, delta: int): (r: Levels)
    ensures AdjustedAt(levels, r, price, delta)
    ensures price in r ==> r[price] > 0
    ensures AllPositive(levels) ==> AllPositive(r)
  {
    var total := SizeAt(levels, price) + delta;
    if total > 0 then levels[price := total] else levels - {price}
  }

  /** `AdjustedAt` pins the result down completely. */
  lemma AdjustedAtUnique(before: Levels, a: Levels, b: Levels, price: int, delta: int)
    requires AdjustedAt(before, a, price, delta) && AdjustedAt(before, b, price, delta)
    ensures a == b
  {
    assert a.Keys == b.Keys by {
      forall p | p != price
        ensures p in a <==> p in b
      {
        assert p in a <==> p in a - {price};
        assert p in b <==> p in b - {price};
      }
    }
    forall p | p in a
      ensures a[p] == b[p]
    {
      if p != price {
        assert a[p] == (a - {price})[p];
        assert b[p] == (b - {price})[p];
      }
    }
  }

  /** `a` comes before `b` on a side read in the given direction. */
  predicate Better(descending: bool, a: int, b: int) {
    if descending then a > b else a < b
  }

  /** `b` is the best price of the non-empty set `keys`. */
  predicate IsBest(b: int, keys: set<int>, descending: bool) {
    b in keys && forall q :: q in keys && q != b ==> Better(descending, b, q)
  }

  lemma {:induction false} BestExists(keys: set<int>, descending: bool)
    requires keys != {}
    ensures exists b :: IsBest(b, keys, descending)
    decreases keys
  {
    var x := PickOne(keys);
    if keys == {x} {
      assert IsBest(x, keys, descending);
    } else {
      var others := keys - {x};
      BestExists(others, descending);
      var b :| IsBest(b, others, descending);
      assert forall q :: q in keys && q != x ==> q in others;
      if Better(descending, x, b) {
        assert IsBest(x, keys, descending);
      } else {
        assert IsBest(b, keys, descending);
      }
    }
  }

  /** Some element of a non-empty set. */
  lemma PickOne(keys: set<int>) returns (x: int)
    requires keys != {}
    ensures x in keys
  {
    if forall y :: y !in keys {
      assert false;
    }
    x :| x in keys;
  }

  /** The best price of a non-empty set of prices. */
  function Best(keys: set<int>, descending: bool): (b: int)
    requires keys != {}
    ensures IsBest(b, keys, descending)
  {
    BestExists(keys, descending);
    var b :| IsBest(b, keys, descending);
    b
  }

  /** Each price strictly better than every later one. */
  predicate StrictlyRanked(s: seq<int>, descending: bool) {
    forall i, j :: 0 <= i < j < |s| ==> Better(descending, s[i], s[j])
  }

  /** The listing of a set exactly, in strict side order. */
  predicate Lists(s: seq<int>, keys: set<int>, descending: bool) {
    && StrictlyRanked(s, descending)
    && (forall i :: 0 <= i < |s| ==> s[i] in keys)
    && (forall k :: k in keys ==> k in s)
  }

  /** The best price followed by a listing of the others lists them all. */
  lemma ListsCons(b: int, rest: seq<int>, keys: set<int>, descending: bool)
    requires IsBest(b, keys, descending) && Lists(rest, keys - {b}, descending)
    ensures Lists([b] + rest, keys, descending)
  {
    var s := [b] + rest;
    forall i, j | 0 <= i < j < |s|
      ensures Better(descending, s[i], s[j])
    {
      assert s[j] == rest[j - 1];
      if i > 0 {
        assert s[i] == rest[i - 1];
      }
    }
    forall k | k in keys
      ensures k in s
    {
      if k != b {
        assert k in rest;
      }
    }
  }

  /**
   * The prices of `keys` in the side's iteration order, best first: what
   * walking the sorted map from `begin()` visits.
   */
  function Ranked(keys: set<int>, descending: bool): (s: seq<int>)
    ensures |s| == |keys|
    ensures Lists(s, keys, descending)
    decreases keys
  {
    if keys == {} then []
    else
      var b := Best(keys, descending);
      var rest := Ranked(keys - {b}, descending);
      ListsCons(b, rest, keys, descending);
      [b] + rest
  }

  /** A set has at most one best price. */
  lemma BestIsUnique(a: int, b: int, keys: set<int>, descending: bool)
    requires IsBest(a, keys, descending) && IsBest(b, keys, descending)
    ensures a == b
  {
  }

  /** Such a listing starts with the best price, and its tail lists the rest. */
  lemma ListsHeadTail(s: seq<int>, keys: set<int>, descending: bool)
    requires Lists(s, keys, descending) && s != []
    ensures IsBest(s[0], keys, descending)
    ensures Lists(s[1..], keys - {s[0]}, descending)
  {
    forall q | q in keys && q != s[0]
      ensures Better(descending, s[0], q)
    {
      var j :| 0 <= j < |s| && s[j] == q;
    }
    var tail := s[1..];
    forall i | 0 <= i < |tail|
      ensures tail[i] in keys - {s[0]}
    {
      assert tail[i] == s[i + 1];
    }
    forall k | k in keys - {s[0]}
      ensures k in tail
    {
      var j :| 0 <= j < |s| && s[j] == k;
      assert tail[j - 1] == k;
    }
  }

  /**
   * There is exactly one strictly ranked listing of a set of prices, so any
   * listing of the keys in strict side order is `Ranked`.
   */
  lemma {:induction false} RankedUnique(s: seq<int>, keys: set<int>, descending: bool)
    requires Lists(s, keys, descending)
    ensures s == Ranked(keys, descending)
    decreases |s|
  {
    if s == [] {
      ListsEmpty(keys, descending);
    } else {
      var rest := s[1..];
      ListsHeadTail(s, keys, descending);
      var b := Best(keys, descending);
      BestIsUnique(b, s[0], keys, descending);
      RankedUnique(rest, keys - {b}, descending);
      assert s == [b] + rest;
    }
  }

  /** Only the empty set has the empty listing. */
  lemma ListsEmpty(keys: set<int>, descending: bool)
    requires Lists([], keys, descending)
    ensures keys == {}
  {
    assert forall k :: k !in keys;
  }
}
