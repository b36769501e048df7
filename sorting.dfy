/**
 * The six orderings of the product list (hooks/useFilters.ts, the `switch (sortBy)`) and the
 * stable sort that `Array.prototype.sort` is required to be since ES2019.
 *
 * Every comparator in the source is, exactly, `Rank(k, a) - Rank(k, b)` for a real-valued rank,
 * so the sort theory is stated once over any element type and rank function. Stability is
 * stated as: for every rank value `r`, the elements of rank `r` appear in the output in the same
 * order as in the input (`Tier(rank, r, out) == Tier(rank, r, in)`).
 */
module Sorting {
  import opened Wrappers
  import opened Types
  import opened Seqs

  // ---------------------------------------------------------------------------------------
  // Stable insertion sort over a rank function

  predicate SortedBy<T>(rank: T -> real, s: seq<T>)
  {
    forall i, j :: 0 <= i < j < |s| ==> rank(s[i]) <= rank(s[j])
  }

  /** The elements of `s` whose rank is `r`, in their order in `s`. */
  function Tier<T>(rank: T -> real, r: real, s: seq<T>): seq<T>
  {
    if s == [] then []
    else Tier(rank, r, s[..|s| - 1]) + (if rank(s[|s| - 1]) == r then [s[|s| - 1]] else [])
  }

  /** `output` is ordered by rank, and elements of equal rank keep their order from `input`. */
  ghost predicate StablySorted<T>(rank: T -> real, input: seq<T>, output: seq<T>)
  {
    SortedBy(rank, output) && forall r :: Tier(rank, r, output) == Tier(rank, r, input)
  }

  /** Inserting `x` at the back of a sorted list: it moves left past strictly larger elements only. */
  function Insert<T>(rank: T -> real, t: seq<T>, x: T): seq<T>
  {
    if t == [] then [x]
    else if rank(t[|t| - 1]) > rank(x) then Insert(rank, t[..|t| - 1], x) + [t[|t| - 1]]
    else t + [x]
  }

  /** Insertion sort, one element at a time from the front of `s`. */
  function InsertionSort<T>(rank: T -> real, s: seq<T>): seq<T>
  {
    if s == [] then [] else Insert(rank, InsertionSort(rank, s[..|s| - 1]), s[|s| - 1])
  }

  lemma InsertionSortSnoc<T>(rank: T -> real, s: seq<T>, x: T)
    ensures InsertionSort(rank, s + [x]) == Insert(rank, InsertionSort(rank, s), x)
  {
    assert (s + [x])[..|s|] == s;
  }

  lemma TierSnoc<T>(rank: T -> real, r: real, s: seq<T>, w: T)
    ensures Tier(rank, r, s + [w]) == Tier(rank, r, s) + (if rank(w) == r then [w] else [])
  {
    assert (s + [w])[..|s|] == s;
  }

  /** A non-empty tier has a witness in `s`. */
  lemma {:induction false} TierWitness<T>(rank: T -> real, r: real, s: seq<T>)
    requires Tier(rank, r, s) != []
    ensures exists i :: 0 <= i < |s| && rank(s[i]) == r
  {
    if rank(s[|s| - 1]) != r {
      TierWitness(rank, r, s[..|s| - 1]);
      var i :| 0 <= i < |s| - 1 && rank(s[..|s| - 1][i]) == r;
      assert rank(s[i]) == r;
    }
  }

  lemma {:induction false} InsertPermutes<T>(rank: T -> real, t: seq<T>, x: T)
    ensures multiset(Insert(rank, t, x)) == multiset(t) + multiset{x}
  {
    if t != [] && rank(t[|t| - 1]) > rank(x) {
      InsertPermutes(rank, t[..|t| - 1], x);
      assert t == t[..|t| - 1] + [t[|t| - 1]];
    }
  }

  lemma {:induction false} InsertSorted<T>(rank: T -> real, t: seq<T>, x: T)
    requires SortedBy(rank, t)
    ensures SortedBy(rank, Insert(rank, t, x))
  {
    if t != [] {
      var init, last := t[..|t| - 1], t[|t| - 1];
      if rank(last) > rank(x) {
        InsertSorted(rank, init, x);
        InsertPermutes(rank, init, x);
        var u := Insert(rank, init, x);
        forall i | 0 <= i < |u|
          ensures rank(u[i]) <= rank(last)
        {
          assert u[i] in multiset(u);
          if u[i] != x {
            assert u[i] in multiset(init);
          }
        }
      }
    }
  }

  /** Inserting `x` appends it to its own tier and leaves every other tier alone. */
  lemma {:induction false} InsertTier<T>(rank: T -> real, r: real, t: seq<T>, x: T)
    ensures Tier(rank, r, Insert(rank, t, x)) == Tier(rank, r, t) + (if rank(x) == r then [x] else [])
  {
    if t == [] {
      TierSnoc(rank, r, [], x);
    } else {
      var init, last := t[..|t| - 1], t[|t| - 1];
      assert t == init + [last];
      if rank(last) > rank(x) {
        InsertTier(rank, r, init, x);
        TierSnoc(rank, r, Insert(rank, init, x), last);
        TierSnoc(rank, r, init, last);
      } else {
        TierSnoc(rank, r, t, x);
      }
    }
  }

  lemma {:induction false} InsertionSortPermutes<T>(rank: T -> real, s: seq<T>)
    ensures multiset(InsertionSort(rank, s)) == multiset(s)
    ensures |InsertionSort(rank, s)| == |s|
  {
    if s != [] {
      InsertionSortPermutes(rank, s[..|s| - 1]);
      InsertPermutes(rank, InsertionSort(rank, s[..|s| - 1]), s[|s| - 1]);
      assert s == s[..|s| - 1] + [s[|s| - 1]];
    }
  }

  lemma {:induction false} InsertionSortSorted<T>(rank: T -> real, s: seq<T>)
    ensures SortedBy(rank, InsertionSort(rank, s))
  {
    if s != [] {
      InsertionSortSorted(rank, s[..|s| - 1]);
      InsertSorted(rank, InsertionSort(rank, s[..|s| - 1]), s[|s| - 1]);
    }
  }

  lemma {:induction false} InsertionSortKeepsTiers<T>(rank: T -> real, r: real, s: seq<T>)
    ensures Tier(rank, r, InsertionSort(rank, s)) == Tier(rank, r, s)
  {
    if s != [] {
      var init, last := s[..|s| - 1], s[|s| - 1];
      InsertionSortKeepsTiers(rank, r, init);
      InsertTier(rank, r, InsertionSort(rank, init), last);
      assert s == init + [last];
      TierSnoc(rank, r, init, last);
    }
  }

  /** Insertion sort is sorted, a permutation of its input, and stable. */
  lemma InsertionSortCorrect<T>(rank: T -> real, s: seq<T>)
    ensures SortedBy(rank, InsertionSort(rank, s))
    ensures multiset(InsertionSort(rank, s)) == multiset(s)
    ensures StablySorted(rank, s, InsertionSort(rank, s))
  {
    InsertionSortSorted(rank, s);
    InsertionSortPermutes(rank, s);
    forall r ensures Tier(rank, r, InsertionSort(rank, s)) == Tier(rank, r, s) {
      InsertionSortKeepsTiers(rank, r, s);
    }
  }

  lemma SortedLastIsGreatest<T>(rank: T -> real, s: seq<T>, x: T)
    requires SortedBy(rank, s) && x in multiset(s)
    ensures rank(x) <= rank(s[|s| - 1])
  {
    var i :| 0 <= i < |s| && s[i] == x;
  }

  /** Cancelling the same last element on both sides of an equation. */
  lemma SnocCancel<T>(u: seq<T>, v: seq<T>, x: T, y: T)
    requires u + [x] == v + [y]
    ensures u == v && x == y
  {
    assert u == (u + [x])[..|u|];
    assert v == (v + [y])[..|v|];
  }

  /** In a sorted list, every rank that has a tier is at most the last element's rank. */
  lemma TierBound<T>(rank: T -> real, r: real, b: seq<T>)
    requires SortedBy(rank, b) && Tier(rank, r, b) != []
    ensures r <= rank(b[|b| - 1])
  {
    TierWitness(rank, r, b);
    var i :| 0 <= i < |b| && rank(b[i]) == r;
    if i < |b| - 1 {
      assert rank(b[i]) <= rank(b[|b| - 1]);
    }
  }

  lemma LastTierNonEmpty<T>(rank: T -> real, s: seq<T>)
    requires s != []
    ensures Tier(rank, rank(s[|s| - 1]), s) != []
  {
  }

  /** The last elements of two sorted lists with the same tiers are equal. */
  lemma SameLast<T>(rank: T -> real, a: seq<T>, b: seq<T>)
    requires SortedBy(rank, a) && SortedBy(rank, b) && a != [] && b != []
    requires forall r :: Tier(rank, r, a) == Tier(rank, r, b)
    ensures a[|a| - 1] == b[|b| - 1]
  {
    var x, y := a[|a| - 1], b[|b| - 1];
    assert Tier(rank, rank(x), a) != [];
    TierBound(rank, rank(x), b);
    assert Tier(rank, rank(y), b) != [];
    TierBound(rank, rank(y), a);
    SnocCancel(Tier(rank, rank(x), a[..|a| - 1]), Tier(rank, rank(x), b[..|b| - 1]), x, y);
  }

  /** Two sorted lists with the same tiers are equal: the output of a stable sort is unique. */
  lemma {:induction false} SortedUnique<T>(rank: T -> real, a: seq<T>, b: seq<T>)
    requires SortedBy(rank, a) && SortedBy(rank, b)
    requires forall r :: Tier(rank, r, a) == Tier(rank, r, b)
    ensures a == b
    decreases |a|
  {
    if a != [] && b != [] {
      var a', x := a[..|a| - 1], a[|a| - 1];
      var b', y := b[..|b| - 1], b[|b| - 1];
      SameLast(rank, a, b);
      forall r ensures Tier(rank, r, a') == Tier(rank, r, b') {
        assert Tier(rank, r, a) == Tier(rank, r, b);
        if rank(x) == r {
          SnocCancel(Tier(rank, r, a'), Tier(rank, r, b'), x, y);
        } else {
          assert Tier(rank, r, a') + [] == Tier(rank, r, a');
          assert Tier(rank, r, b') + [] == Tier(rank, r, b');
        }
      }
      SortedUnique(rank, a', b');
      assert a == a' + [x];
    } else {
      if a != [] {
        LastTierNonEmpty(rank, a);
      }
      if b != [] {
        LastTierNonEmpty(rank, b);
      }
    }
  }

  /** A list is the insertion sort of `s` exactly when it is sorted and keeps every tier of `s`. */
  lemma InsertionSortCharacterization<T>(rank: T -> real, s: seq<T>, t: seq<T>)
    ensures t == InsertionSort(rank, s) <==> StablySorted(rank, s, t)
  {
    InsertionSortCorrect(rank, s);
    if StablySorted(rank, s, t) {
      SortedUnique(rank, t, InsertionSort(rank, s));
    }
  }

  /** The predicate "has rank `r`". */
  function HasRank<T>(rank: T -> real, r: real): T -> bool
  {
    x => rank(x) == r
  }

  /** A tier is `s` filtered by rank. */
  lemma {:induction false} TierIsFilter<T>(rank: T -> real, r: real, s: seq<T>)
    ensures Tier(rank, r, s) == Filter(HasRank(rank, r), s)
  {
    if s != [] {
      var init, last := s[..|s| - 1], s[|s| - 1];
      TierIsFilter(rank, r, init);
      assert s == init + [last];
      FilterConcat(HasRank(rank, r), init, [last]);
    }
  }

  predicate DistinctRanks<T>(rank: T -> real, s: seq<T>)
  {
    forall i, j :: 0 <= i < j < |s| ==> rank(s[i]) != rank(s[j])
  }

  lemma {:induction false} DistinctRanksSmallTiers<T>(rank: T -> real, r: real, s: seq<T>)
    requires DistinctRanks(rank, s)
    ensures |Tier(rank, r, s)| <= 1
  {
    if s != [] {
      var init, last := s[..|s| - 1], s[|s| - 1];
      DistinctRanksSmallTiers(rank, r, init);
      if rank(last) == r && Tier(rank, r, init) != [] {
        TierWitness(rank, r, init);
      }
    }
  }

  predicate StrictlySortedBy<T>(rank: T -> real, s: seq<T>)
  {
    forall i, j :: 0 <= i < j < |s| ==> rank(s[i]) < rank(s[j])
  }

  lemma TierMembers<T(!new)>(rank: T -> real, r: real, s: seq<T>)
    ensures forall x :: x in Tier(rank, r, s) <==> x in s && rank(x) == r
  {
    TierIsFilter(rank, r, s);
    FilterMembers(HasRank(rank, r), s);
  }

  /** Two lists without ties and with the same elements have the same tiers. */
  lemma SameTiers<T(!new)>(rank: T -> real, r: real, s: seq<T>, t: seq<T>)
    requires DistinctRanks(rank, s) && DistinctRanks(rank, t)
    requires forall x :: x in t <==> x in s
    ensures Tier(rank, r, t) == Tier(rank, r, s)
  {
    TierMembers(rank, r, s);
    TierMembers(rank, r, t);
    DistinctRanksSmallTiers(rank, r, s);
    DistinctRanksSmallTiers(rank, r, t);
    var a, b := Tier(rank, r, s), Tier(rank, r, t);
    if a != [] {
      assert a[0] in b;
    }
    if b != [] {
      assert b[0] in a;
    }
  }

  /**
   * When no two elements of `s` tie, the sort is the strictly increasing list of the same
   * elements: nothing else needs checking.
   */
  lemma StrictOrderIsSort<T(!new)>(rank: T -> real, s: seq<T>, t: seq<T>)
    requires DistinctRanks(rank, s) && StrictlySortedBy(rank, t)
    requires forall x :: x in t <==> x in s
    ensures t == InsertionSort(rank, s)
  {
    assert DistinctRanks(rank, t);
    forall r ensures Tier(rank, r, t) == Tier(rank, r, s) {
      SameTiers(rank, r, s, t);
    }
    InsertionSortCharacterization(rank, s, t);
  }

  lemma {:induction false} TierCons<T>(rank: T -> real, r: real, w: T, s: seq<T>)
    ensures Tier(rank, r, [w] + s) == (if rank(w) == r then [w] else []) + Tier(rank, r, s)
    decreases |s|
  {
    if s == [] {
      assert [w] + s == [] + [w];
      TierSnoc(rank, r, [], w);
    } else {
      var init, last := s[..|s| - 1], s[|s| - 1];
      assert [w] + s == ([w] + init) + [last];
      TierSnoc(rank, r, [w] + init, last);
      TierCons(rank, r, w, init);
      TierSnoc(rank, r, init, last);
      assert s == init + [last];
    }
  }

  lemma {:induction false} TierReverse<T>(rank: T -> real, r: real, s: seq<T>)
    ensures Tier(rank, r, Reverse(s)) == Reverse(Tier(rank, r, s))
  {
    if s != [] {
      TierReverse(rank, r, s[1..]);
      TierSnoc(rank, r, Reverse(s[1..]), s[0]);
      assert s == [s[0]] + s[1..];
      TierCons(rank, r, s[0], s[1..]);
      ReverseConcat(if rank(s[0]) == r then [s[0]] else [], Tier(rank, r, s[1..]));
    }
  }

  /** Where `Insert` puts `x`: after position `j - 1`, when every element from `j` on is strictly larger. */
  lemma {:induction false} InsertAt<T>(rank: T -> real, t: seq<T>, x: T, j: int)
    requires 0 <= j <= |t|
    requires j == 0 || rank(t[j - 1]) <= rank(x)
    requires forall m :: j <= m < |t| ==> rank(t[m]) > rank(x)
    ensures Insert(rank, t, x) == t[..j] + [x] + t[j..]
    decreases |t|
  {
    if j < |t| {
      var init := t[..|t| - 1];
      InsertAt(rank, init, x, j);
      assert init[..j] == t[..j];
      assert t[j..] == init[j..] + [t[|t| - 1]];
    } else {
      assert t[..j] == t;
    }
  }

  // ---------------------------------------------------------------------------------------
  // The storefront's sort keys and comparators

  datatype SortKey = PriceLow | PriceHigh | Rating | Newest | Discount | Popularity

  /** The `sortBy` string: every unrecognised value falls through to popularity. */
  function SortKeyOf(sortBy: string): (k: SortKey)
    ensures sortBy == "price-low" <==> k == PriceLow
    ensures sortBy == "price-high" <==> k == PriceHigh
    ensures sortBy == "rating" <==> k == Rating
    ensures sortBy == "newest" <==> k == Newest
    ensures sortBy == "discount" <==> k == Discount
  {
    match sortBy
    case "price-low" => PriceLow
    case "price-high" => PriceHigh
    case "rating" => Rating
    case "newest" => Newest
    case "discount" => Discount
    case _ => Popularity
  }

  /** `p.discount || 0`. */
  function DiscountOrZero(p: Product): int
  {
    p.discount.GetOr(0)
  }

  /** `p.isNew` is truthy. */
  predicate IsNew(p: Product)
  {
    p.isNew == Some(true)
  }

  /** The comparator handed to `sort` for each key: negative puts `a` first, positive puts `b` first. */
  function Compare(k: SortKey, a: Product, b: Product): (r: real)
    ensures r == Rank(k, a) - Rank(k, b)
    ensures r == -(Rank(k, b) - Rank(k, a))
  {
    match k
    case PriceLow => (a.price - b.price) as real
    case PriceHigh => (b.price - a.price) as real
    case Rating => b.rating - a.rating
    case Newest =>
      if IsNew(a) && !IsNew(b) then -1.0
      else if !IsNew(a) && IsNew(b) then 1.0
      else 0.0
    case Discount => (DiscountOrZero(b) - DiscountOrZero(a)) as real
    case Popularity => (b.reviewCount - a.reviewCount) as real
  }

  /** The position a product sorts to under `k`: smaller goes first. */
  function Rank(k: SortKey, p: Product): real
  {
    match k
    case PriceLow => p.price as real
    case PriceHigh => -(p.price as real)
    case Rating => -p.rating
    case Newest => if IsNew(p) then 0.0 else 1.0
    case Discount => -(DiscountOrZero(p) as real)
    case Popularity => -(p.reviewCount as real)
  }

  function RankOf(k: SortKey): Product -> real
  {
    p => Rank(k, p)
  }

  /** Every comparator of the source is the difference of two ranks, so it is a total preorder. */
  lemma CompareIsRankDifference(k: SortKey, a: Product, b: Product)
    ensures Compare(k, a, b) == RankOf(k)(a) - RankOf(k)(b)
  {
  }

  /** `filtered.sort(comparator)` under a stable `Array.prototype.sort`. */
  function StableSort(k: SortKey, s: seq<Product>): seq<Product>
  {
    InsertionSort(RankOf(k), s)
  }

  /** What each ordering promises, in terms of the product fields. */
  predicate OrderedBy(k: SortKey, s: seq<Product>)
  {
    match k
    case PriceLow => forall i, j :: 0 <= i < j < |s| ==> s[i].price <= s[j].price
    case PriceHigh => forall i, j :: 0 <= i < j < |s| ==> s[i].price >= s[j].price
    case Rating => forall i, j :: 0 <= i < j < |s| ==> s[i].rating >= s[j].rating
    case Newest => forall i, j :: 0 <= i < j < |s| ==> IsNew(s[j]) ==> IsNew(s[i])
    case Discount => forall i, j :: 0 <= i < j < |s| ==> DiscountOrZero(s[i]) >= DiscountOrZero(s[j])
    case Popularity => forall i, j :: 0 <= i < j < |s| ==> s[i].reviewCount >= s[j].reviewCount
  }

  lemma SortedByRankIsOrderedBy(k: SortKey, s: seq<Product>)
    ensures SortedBy(RankOf(k), s) <==> OrderedBy(k, s)
  {
  }

  /**
   * The sort, for every key: ordered as the key promises, a permutation of its input, and
   * stable (products that tie keep their input order).
   */
  lemma StableSortCorrect(k: SortKey, s: seq<Product>)
    ensures OrderedBy(k, StableSort(k, s))
    ensures multiset(StableSort(k, s)) == multiset(s)
    ensures StablySorted(RankOf(k), s, StableSort(k, s))
  {
    InsertionSortCorrect(RankOf(k), s);
    SortedByRankIsOrderedBy(k, StableSort(k, s));
  }

  /** The stable sort is the only ordering that is sorted and keeps ties in input order. */
  lemma StableSortCharacterization(k: SortKey, s: seq<Product>, t: seq<Product>)
    ensures t == StableSort(k, s) ==> OrderedBy(k, t)
    ensures t == StableSort(k, s) ==> forall r :: Tier(RankOf(k), r, t) == Tier(RankOf(k), r, s)
    ensures OrderedBy(k, t) && (forall r :: Tier(RankOf(k), r, t) == Tier(RankOf(k), r, s)) ==> t == StableSort(k, s)
  {
    InsertionSortCharacterization(RankOf(k), s, t);
    SortedByRankIsOrderedBy(k, t);
    if OrderedBy(k, t) && forall r :: Tier(RankOf(k), r, t) == Tier(RankOf(k), r, s) {
      assert StablySorted(RankOf(k), s, t);
    }
  }

  /** Sorting again by the same key changes nothing. */
  lemma StableSortIdempotent(k: SortKey, s: seq<Product>)
    ensures StableSort(k, StableSort(k, s)) == StableSort(k, s)
  {
    var t := StableSort(k, s);
    InsertionSortCorrect(RankOf(k), s);
    InsertionSortCorrect(RankOf(k), t);
    SortedUnique(RankOf(k), StableSort(k, t), t);
  }

  /** A list already in order is returned unchanged. */
  lemma OrderedIsFixpoint(k: SortKey, s: seq<Product>)
    requires OrderedBy(k, s)
    ensures StableSort(k, s) == s
  {
    SortedByRankIsOrderedBy(k, s);
    InsertionSortCorrect(RankOf(k), s);
    SortedUnique(RankOf(k), StableSort(k, s), s);
  }

  /** Price-high ties exactly where price-low ties. */
  lemma {:induction false} PriceTiersAgree(r: real, s: seq<Product>)
    ensures Tier(RankOf(PriceHigh), r, s) == Tier(RankOf(PriceLow), -r, s)
  {
    if s != [] {
      PriceTiersAgree(r, s[..|s| - 1]);
    }
  }

  /** Sorting by price-high forgets any earlier sort by price-low. */
  lemma ResortPriceHighAfterPriceLow(s: seq<Product>)
    ensures StableSort(PriceHigh, StableSort(PriceLow, s)) == StableSort(PriceHigh, s)
  {
    var low := StableSort(PriceLow, s);
    var high, high' := StableSort(PriceHigh, low), StableSort(PriceHigh, s);
    InsertionSortCorrect(RankOf(PriceLow), s);
    InsertionSortCorrect(RankOf(PriceHigh), low);
    InsertionSortCorrect(RankOf(PriceHigh), s);
    forall r ensures Tier(RankOf(PriceHigh), r, high) == Tier(RankOf(PriceHigh), r, high') {
      PriceTiersAgree(r, low);
      PriceTiersAgree(r, s);
    }
    SortedUnique(RankOf(PriceHigh), high, high');
  }

  predicate DistinctPrices(s: seq<Product>)
  {
    forall i, j :: 0 <= i < j < |s| ==> s[i].price != s[j].price
  }

  lemma DistinctPricesDistinctRanks(s: seq<Product>)
    requires DistinctPrices(s)
    ensures DistinctRanks(RankOf(PriceLow), s)
  {
    forall i, j | 0 <= i < j < |s| ensures RankOf(PriceLow)(s[i]) != RankOf(PriceLow)(s[j]) {
      assert s[i].price != s[j].price;
    }
  }

  /** With pairwise distinct prices, price-high is exactly the reverse of price-low. */
  lemma PriceHighIsReversedPriceLow(s: seq<Product>)
    requires DistinctPrices(s)
    ensures StableSort(PriceHigh, s) == Reverse(StableSort(PriceLow, s))
  {
    var low := StableSort(PriceLow, s);
    InsertionSortCorrect(RankOf(PriceLow), s);
    ReversedPriceLowStablySorted(s, low);
    InsertionSortCharacterization(RankOf(PriceHigh), s, Reverse(low));
  }

  /** Without price ties, a stable price-low sort of `s`, read backwards, is a stable price-high sort of `s`. */
  lemma ReversedPriceLowStablySorted(s: seq<Product>, low: seq<Product>)
    requires DistinctPrices(s)
    requires StablySorted(RankOf(PriceLow), s, low)
    ensures StablySorted(RankOf(PriceHigh), s, Reverse(low))
  {
    ReversedPriceLowSorted(low);
    forall r ensures Tier(RankOf(PriceHigh), r, Reverse(low)) == Tier(RankOf(PriceHigh), r, s) {
      DistinctPricesSmallTier(s, -r);
      ReversedPriceTier(s, low, r);
    }
  }

  /** A list in price-low order, read backwards, is in price-high order. */
  lemma ReversedPriceLowSorted(low: seq<Product>)
    requires SortedBy(RankOf(PriceLow), low)
    ensures SortedBy(RankOf(PriceHigh), Reverse(low))
  {
    var rev := Reverse(low);
    forall i, j | 0 <= i < j < |rev| ensures rev[i].price >= rev[j].price {
      assert RankOf(PriceLow)(low[|low| - 1 - j]) <= RankOf(PriceLow)(low[|low| - 1 - i]);
    }
  }

  /** Without price ties, every price tier holds at most one product. */
  lemma DistinctPricesSmallTier(s: seq<Product>, r: real)
    requires DistinctPrices(s)
    ensures |Tier(RankOf(PriceLow), r, s)| <= 1
  {
    DistinctPricesDistinctRanks(s);
    DistinctRanksSmallTiers(RankOf(PriceLow), r, s);
  }

  /** Reversing a list that keeps a price tier of `s` keeps it too, when that tier is a single product. */
  lemma ReversedPriceTier(s: seq<Product>, low: seq<Product>, r: real)
    requires |Tier(RankOf(PriceLow), -r, s)| <= 1
    requires Tier(RankOf(PriceLow), -r, low) == Tier(RankOf(PriceLow), -r, s)
    ensures Tier(RankOf(PriceHigh), r, Reverse(low)) == Tier(RankOf(PriceHigh), r, s)
  {
    var t := Tier(RankOf(PriceLow), -r, s);
    assert Reverse(t) == t;
    calc {
      Tier(RankOf(PriceHigh), r, Reverse(low));
    == { PriceTiersAgree(r, Reverse(low)); }
      Tier(RankOf(PriceLow), -r, Reverse(low));
    == { TierReverse(RankOf(PriceLow), -r, low); }
      Reverse(t);
    == { PriceTiersAgree(r, s); }
      Tier(RankOf(PriceHigh), r, s);
    }
  }

  /** Products with `isNew` equal to `want`. */
  function IsNewIs(want: bool): Product -> bool
  {
    p => IsNew(p) == want
  }

  /** Sorting by newest is a stable partition: the new products in input order, then the others in input order. */
  lemma NewestIsStablePartition(s: seq<Product>)
    ensures StableSort(Newest, s) == Filter(IsNewIs(true), s) + Filter(IsNewIs(false), s)
  {
    var R := RankOf(Newest);
    var newer, rest := Filter(IsNewIs(true), s), Filter(IsNewIs(false), s);
    var t := newer + rest;
    FilterMembers(IsNewIs(true), s);
    FilterMembers(IsNewIs(false), s);
    assert SortedBy(R, t) by {
      forall i, j | 0 <= i < j < |t| ensures R(t[i]) <= R(t[j]) {
        if j < |newer| {
          assert t[i] in newer && t[j] in newer;
        } else if i >= |newer| {
          assert t[i] == rest[i - |newer|] && t[j] == rest[j - |newer|];
          assert t[i] in rest && t[j] in rest;
        } else {
          assert t[i] in newer;
        }
      }
    }
    forall r ensures Tier(R, r, t) == Tier(R, r, s) {
      var h := HasRank(R, r);
      TierIsFilter(R, r, t);
      TierIsFilter(R, r, s);
      FilterConcat(h, newer, rest);
      if r == 0.0 {
        FilterKeepsAll(h, newer);
        FilterKeepsNone(h, rest);
        FilterExtensional(IsNewIs(true), h, s);
        assert newer + [] == newer;
      } else if r == 1.0 {
        FilterKeepsNone(h, newer);
        FilterKeepsAll(h, rest);
        FilterExtensional(IsNewIs(false), h, s);
      } else {
        FilterKeepsNone(h, newer);
        FilterKeepsNone(h, rest);
        FilterKeepsNone(h, s);
      }
    }
    InsertionSortCharacterization(R, s, t);
  }

  // ---------------------------------------------------------------------------------------
  // `filtered.sort(...)`, in place

  /** The array after one pass: the prefix up to `j`, then `x`, then the shifted rest. */
  lemma ShiftedIsInsert(u: seq<Product>, t: seq<Product>, x: Product, j: int)
    requires |u| == |t| + 1 && 0 <= j <= |t|
    requires forall m :: 0 <= m < j ==> u[m] == t[m]
    requires u[j] == x
    requires forall m :: j < m < |u| ==> u[m] == t[m - 1]
    ensures u == t[..j] + [x] + t[j..]
  {
  }

  lemma InsertionSortStep(k: SortKey, s: seq<Product>, i: int)
    requires 0 <= i < |s|
    ensures StableSort(k, s[..i + 1]) == Insert(RankOf(k), StableSort(k, s[..i]), s[i])
  {
    assert s[..i + 1][..i] == s[..i];
  }

  lemma ComparedAfter(k: SortKey, t: seq<Product>, x: Product, j: int)
    requires 0 <= j <= |t|
    requires forall m :: j <= m < |t| ==> Compare(k, t[m], x) > 0.0
    ensures forall m :: j <= m < |t| ==> RankOf(k)(t[m]) > RankOf(k)(x)
  {
    forall m | j <= m < |t| ensures RankOf(k)(t[m]) > RankOf(k)(x) {
      CompareIsRankDifference(k, t[m], x);
    }
  }

  /**
   * The inner loop of one insertion pass: from `i - 1` down, every product the comparator puts
   * after `x` moves one slot right, stopping at the first that does not; `j` is the gap left.
   */
  method ShiftAfter(k: SortKey, a: array<Product>, i: int, x: Product) returns (j: int)
    requires 0 <= i < a.Length
    modifies a
    ensures 0 <= j <= i
    ensures forall m :: 0 <= m < j ==> a[m] == old(a[m])
    ensures forall m :: j < m <= i ==> a[m] == old(a[m - 1])
    ensures forall m :: i < m < a.Length ==> a[m] == old(a[m])
    ensures j == 0 || Compare(k, a[j - 1], x) <= 0.0
    ensures forall m :: j <= m < i ==> Compare(k, old(a[m]), x) > 0.0
  {
    j := i;
    while j > 0 && Compare(k, a[j - 1], x) > 0.0
      invariant 0 <= j <= i
      invariant forall m :: 0 <= m < j ==> a[m] == old(a[m])
      invariant forall m :: j < m <= i ==> a[m] == old(a[m - 1])
      invariant forall m :: i < m < a.Length ==> a[m] == old(a[m])
      invariant forall m :: j <= m < i ==> Compare(k, old(a[m]), x) > 0.0
    {
      a[j] := a[j - 1];
      j := j - 1;
    }
  }

  /**
   * One pass of the in-place insertion sort: `a[..i]` is sorted; the products the comparator
   * puts after `a[i]` shift one slot right and `a[i]` drops into the gap.
   */
  method InsertInPlace(k: SortKey, a: array<Product>, i: int)
    requires 0 <= i < a.Length
    modifies a
    ensures a[..i + 1] == Insert(RankOf(k), old(a[..i]), old(a[i]))
    ensures forall m :: i < m < a.Length ==> a[m] == old(a[m])
  {
    var x := a[i];
    ghost var t := a[..i];
    var j := ShiftAfter(k, a, i, x);
    if j > 0 {
      CompareIsRankDifference(k, t[j - 1], x);
    }
    ComparedAfter(k, t, x, j);
    InsertAt(RankOf(k), t, x, j);
    a[j] := x;
    ShiftedIsInsert(a[..i + 1], t, x, j);
  }

  /** The sort of the filtered array, in place, with the source's comparator for `k`. */
  method SortInPlace(k: SortKey, a: array<Product>)
    modifies a
    ensures a[..] == StableSort(k, old(a[..]))
  {
    ghost var orig := a[..];
    var i := 0;
    while i < a.Length
      invariant 0 <= i <= a.Length
      invariant a[..i] == StableSort(k, orig[..i])
      invariant forall m :: i <= m < a.Length ==> a[m] == orig[m]
    {
      InsertInPlace(k, a, i);
      InsertionSortStep(k, orig, i);
      i := i + 1;
    }
    assert orig[..a.Length] == orig;
  }

  /** `filtered.sort(comparator)` on the array the filter stages produced. */
  method SortFiltered(k: SortKey, filtered: seq<Product>) returns (sorted: seq<Product>)
    ensures sorted == StableSort(k, filtered)
  {
    var a := new Product[|filtered|](i requires 0 <= i < |filtered| => filtered[i]);
    assert a[..] == filtered;
    SortInPlace(k, a);
    sorted := a[..];
  }
}
