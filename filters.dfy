/**
 * The product list filter of hooks/useFilters.ts: five AND-composed criteria (search text,
 * category list, brand list, price range, minimum rating), each with an "inactive" sentinel,
 * followed by a stable sort on one of six keys.
 */
module Filters {
  import opened Types
  import opened Seqs
  import opened Text
  import opened Sorting

  /** The upper end of the default price range; a range is inactive unless it is narrower than [0, PriceCeiling]. */
  const PriceCeiling: int := 50000

  /** The criteria the hook starts with, and the ones `clearFilters` restores. */
  function DefaultFilters(): FilterOptions
  {
    FilterOptions([], PriceRange(0, PriceCeiling), 0.0, [])
  }

  /** The four criteria groups `getActiveFiltersCount` counts, in the order the filter applies them. */
  datatype FilterGroup = Categories | Brands | Price | MinRating

  const AllGroups: seq<FilterGroup> := [Categories, Brands, Price, MinRating]

  /** The sentinel test that switches a group on. */
  predicate GroupActive(f: FilterOptions, g: FilterGroup)
  {
    match g
    case Categories => |f.categories| > 0
    case Brands => |f.brands| > 0
    case Price => f.priceRange.min > 0 || f.priceRange.max < PriceCeiling
    case MinRating => f.rating > 0.0
  }

  /** What an active group demands of a product. */
  predicate Satisfies(f: FilterOptions, g: FilterGroup, p: Product)
  {
    match g
    case Categories => p.category in f.categories
    case Brands => p.brand in f.brands
    case Price => f.priceRange.min <= p.price <= f.priceRange.max
    case MinRating => p.rating >= f.rating
  }

  /** `searchQuery.trim()` is truthy. */
  predicate SearchActive(q: string)
  {
    Trim(q) != ""
  }

  /** The search hit test for an already lowercased query: a substring of one of five lowercased fields. */
  predicate SearchHit(query: string, p: Product)
  {
    || Contains(Lower(p.name), query)
    || Contains(Lower(p.brand), query)
    || Contains(Lower(p.category), query)
    || (p.subcategory.Some? && Contains(Lower(p.subcategory.value), query))
    || Contains(Lower(p.description), query)
  }

  /** The search criterion: the lowercased, untrimmed query occurs in some searchable field. */
  predicate MatchesSearch(q: string, p: Product)
  {
    SearchHit(Lower(q), p)
  }

  /** A product passes every active criterion. */
  predicate Matches(f: FilterOptions, q: string, p: Product)
  {
    && (SearchActive(q) ==> MatchesSearch(q, p))
    && (GroupActive(f, Categories) ==> Satisfies(f, Categories, p))
    && (GroupActive(f, Brands) ==> Satisfies(f, Brands, p))
    && (GroupActive(f, Price) ==> Satisfies(f, Price, p))
    && (GroupActive(f, MinRating) ==> Satisfies(f, MinRating, p))
  }

  /** The criteria as a predicate value, for `filter`. */
  function Criteria(f: FilterOptions, q: string): Product -> bool
  {
    p => Matches(f, q, p)
  }

  /** The catalog products that pass every active criterion, in catalog order. */
  function Selected(catalog: seq<Product>, f: FilterOptions, q: string): seq<Product>
  {
    Filter(Criteria(f, q), catalog)
  }

  /** The search callback handed to `filter`, for an already lowercased query. */
  function SearchHitFn(query: string): Product -> bool
  {
    p => SearchHit(query, p)
  }

  /** The search criterion as a predicate value. */
  function SearchFn(q: string): Product -> bool
  {
    SearchHitFn(Lower(q))
  }

  /** What `applyFiltersAndSort` computes: the selection, stably sorted by the chosen key. */
  function FilteredAndSorted(catalog: seq<Product>, f: FilterOptions, sortBy: string, q: string): seq<Product>
  {
    StableSort(SortKeyOf(sortBy), Selected(catalog, f, q))
  }

  // The five stages of the pipeline, numbered 0 (search) to 4 (minimum rating). They are stated
  // over the search stage's activity `search` and predicate `hit`, so that reasoning about the
  // later stages never has to look inside the text search.

  function StageGroup(n: nat): FilterGroup
    requires 1 <= n < 5
  {
    if n == 1 then Categories else if n == 2 then Brands else if n == 3 then Price else MinRating
  }

  predicate StageActive(f: FilterOptions, search: bool, n: nat)
    requires n < 5
  {
    if n == 0 then search else GroupActive(f, StageGroup(n))
  }

  predicate StageHolds(f: FilterOptions, hit: Product -> bool, n: nat, p: Product)
    requires n < 5
  {
    if n == 0 then hit(p) else Satisfies(f, StageGroup(n), p)
  }

  /** `p` survives the first `n` stages. */
  predicate PassesFirst(f: FilterOptions, search: bool, hit: Product -> bool, n: nat, p: Product)
    requires n <= 5
  {
    n == 0 || (PassesFirst(f, search, hit, n - 1, p) && (StageActive(f, search, n - 1) ==> StageHolds(f, hit, n - 1, p)))
  }

  function FirstStages(f: FilterOptions, search: bool, hit: Product -> bool, n: nat): Product -> bool
    requires n <= 5
  {
    p => PassesFirst(f, search, hit, n, p)
  }

  /**
   * One stage: when the stage is active, filtering by its predicate `crit` turns the products
   * that survived `n` stages into those that survive `n + 1`; when it is not, nothing changes.
   */
  lemma Stage(catalog: seq<Product>, f: FilterOptions, search: bool, hit: Product -> bool, n: nat,
              active: bool, crit: Product -> bool, before: seq<Product>, after: seq<Product>)
    requires n < 5 && active == StageActive(f, search, n)
    requires active ==> forall p :: crit(p) == StageHolds(f, hit, n, p)
    requires before == Filter(FirstStages(f, search, hit, n), catalog)
    requires after == if active then Filter(crit, before) else before
    ensures after == Filter(FirstStages(f, search, hit, n + 1), catalog)
  {
    if active {
      FilterCompose(FirstStages(f, search, hit, n), crit, FirstStages(f, search, hit, n + 1), catalog);
    } else {
      FilterExtensional(FirstStages(f, search, hit, n), FirstStages(f, search, hit, n + 1), catalog);
    }
  }

  /** Surviving all five stages is passing every active criterion. */
  lemma PassesAllStages(f: FilterOptions, q: string, p: Product)
    ensures PassesFirst(f, SearchActive(q), SearchFn(q), 5, p) == Matches(f, q, p)
  {
    var search, hit := SearchActive(q), SearchFn(q);
    assert PassesFirst(f, search, hit, 1, p) == (search ==> hit(p));
    assert PassesFirst(f, search, hit, 2, p) == (PassesFirst(f, search, hit, 1, p) && (GroupActive(f, Categories) ==> Satisfies(f, Categories, p)));
    assert PassesFirst(f, search, hit, 3, p) == (PassesFirst(f, search, hit, 2, p) && (GroupActive(f, Brands) ==> Satisfies(f, Brands, p)));
    assert PassesFirst(f, search, hit, 4, p) == (PassesFirst(f, search, hit, 3, p) && (GroupActive(f, Price) ==> Satisfies(f, Price, p)));
  }

  lemma AllStages(catalog: seq<Product>, f: FilterOptions, q: string)
    ensures Filter(FirstStages(f, SearchActive(q), SearchFn(q), 0), catalog) == catalog
    ensures Filter(FirstStages(f, SearchActive(q), SearchFn(q), 5), catalog) == Selected(catalog, f, q)
  {
    var search, hit := SearchActive(q), SearchFn(q);
    FilterMembers(FirstStages(f, search, hit, 0), catalog);
    FilterKeepsAll(FirstStages(f, search, hit, 0), catalog);
    forall p ensures FirstStages(f, search, hit, 5)(p) == Criteria(f, q)(p) {
      PassesAllStages(f, q, p);
    }
    FilterExtensional(FirstStages(f, search, hit, 5), Criteria(f, q), catalog);
  }

  /**
   * One stage of `applyFiltersAndSort`: `if (active) filtered = filtered.filter(crit)`.
   * The ghost parameters say which stage this is, so that the result can be stated as the
   * products that survive one more stage.
   */
  method Narrow(ghost catalog: seq<Product>, ghost f: FilterOptions, ghost search: bool, ghost hit: Product -> bool,
                ghost n: nat, filtered: seq<Product>, active: bool, crit: Product -> bool)
    returns (narrowed: seq<Product>)
    requires n < 5 && active == StageActive(f, search, n)
    requires active ==> forall p :: crit(p) == StageHolds(f, hit, n, p)
    requires filtered == Filter(FirstStages(f, search, hit, n), catalog)
    ensures narrowed == Filter(FirstStages(f, search, hit, n + 1), catalog)
  {
    narrowed := filtered;
    if active {
      narrowed := Filter(crit, filtered);
    }
    Stage(catalog, f, search, hit, n, active, crit, filtered, narrowed);
  }

  /**
   * `applyFiltersAndSort`: narrow a copy of the catalog stage by stage, then sort it in place.
   * The result is the stable sort of the products that pass every active criterion.
   */
  method ApplyFiltersAndSort(catalog: seq<Product>, filters: FilterOptions, sortBy: string, searchQuery: string)
    returns (result: seq<Product>)
    ensures result == FilteredAndSorted(catalog, filters, sortBy, searchQuery)
  {
    ghost var search, hit := SearchActive(searchQuery), SearchFn(searchQuery);
    AllStages(catalog, filters, searchQuery);
    var filtered := catalog;
    var query := Lower(searchQuery);
    filtered := Narrow(catalog, filters, search, hit, 0, filtered, SearchActive(searchQuery), SearchHitFn(query));
    filtered := Narrow(catalog, filters, search, hit, 1, filtered, |filters.categories| > 0,
                       (p: Product) => p.category in filters.categories);
    filtered := Narrow(catalog, filters, search, hit, 2, filtered, |filters.brands| > 0,
                       (p: Product) => p.brand in filters.brands);
    filtered := Narrow(catalog, filters, search, hit, 3, filtered,
                       filters.priceRange.min > 0 || filters.priceRange.max < PriceCeiling,
                       (p: Product) => p.price >= filters.priceRange.min && p.price <= filters.priceRange.max);
    filtered := Narrow(catalog, filters, search, hit, 4, filtered, filters.rating > 0.0,
                       (p: Product) => p.rating >= filters.rating);
    result := SortFiltered(SortKeyOf(sortBy), filtered);
  }

  // ---------------------------------------------------------------------------------------
  // What the result is

  /** The selection keeps, in catalog order, exactly the catalog products that pass every active criterion. */
  lemma SelectedSpec(catalog: seq<Product>, f: FilterOptions, q: string)
    ensures forall p :: p in Selected(catalog, f, q) <==> p in catalog && Matches(f, q, p)
    ensures IsSubsequence(Selected(catalog, f, q), catalog)
    ensures multiset(Selected(catalog, f, q)) <= multiset(catalog)
  {
    FilterMembers(Criteria(f, q), catalog);
    FilterIsSubsequence(Criteria(f, q), catalog);
  }

  /**
   * The result is a permutation of a subsequence of the catalog, no longer than the catalog,
   * ordered as the sort key promises, with ties in catalog order.
   */
  lemma ResultIsSortedSelection(catalog: seq<Product>, f: FilterOptions, sortBy: string, q: string)
    ensures multiset(FilteredAndSorted(catalog, f, sortBy, q)) == multiset(Selected(catalog, f, q))
    ensures IsSubsequence(Selected(catalog, f, q), catalog)
    ensures |FilteredAndSorted(catalog, f, sortBy, q)| <= |catalog|
    ensures OrderedBy(SortKeyOf(sortBy), FilteredAndSorted(catalog, f, sortBy, q))
    ensures StablySorted(RankOf(SortKeyOf(sortBy)), Selected(catalog, f, q), FilteredAndSorted(catalog, f, sortBy, q))
  {
    var k := SortKeyOf(sortBy);
    StableSortCorrect(k, Selected(catalog, f, q));
    SelectedSpec(catalog, f, q);
    InsertionSortPermutes(RankOf(k), Selected(catalog, f, q));
  }

  /** Every product in the result passes the search and every active group; every catalog product that does is in it. */
  lemma ResultMembers(catalog: seq<Product>, f: FilterOptions, sortBy: string, q: string, p: Product)
    ensures p in FilteredAndSorted(catalog, f, sortBy, q) <==> p in catalog && Matches(f, q, p)
    ensures p in FilteredAndSorted(catalog, f, sortBy, q) ==>
      && (SearchActive(q) ==> MatchesSearch(q, p))
      && (forall g :: GroupActive(f, g) ==> Satisfies(f, g, p))
  {
    var k := SortKeyOf(sortBy);
    StableSortCorrect(k, Selected(catalog, f, q));
    SelectedSpec(catalog, f, q);
    assert p in FilteredAndSorted(catalog, f, sortBy, q) <==> p in multiset(Selected(catalog, f, q));
  }

  /** With no active criterion, nothing is dropped. */
  lemma NothingActiveKeepsAll(catalog: seq<Product>, f: FilterOptions, q: string)
    requires !SearchActive(q) && forall g :: !GroupActive(f, g)
    ensures Selected(catalog, f, q) == catalog
  {
    FilterMembers(Criteria(f, q), catalog);
    assert !GroupActive(f, Categories) && !GroupActive(f, Brands) && !GroupActive(f, Price) && !GroupActive(f, MinRating);
    FilterKeepsAll(Criteria(f, q), catalog);
  }

  /** The default criteria and an empty query show the whole catalog, sorted by the chosen key. */
  lemma DefaultsShowCatalog(catalog: seq<Product>, sortBy: string)
    ensures FilteredAndSorted(catalog, DefaultFilters(), sortBy, "") == StableSort(SortKeyOf(sortBy), catalog)
  {
    TrimEmptyIff("");
    NothingActiveKeepsAll(catalog, DefaultFilters(), "");
  }

  /**
   * The default price range [0, 50000] is not a filter: a product that passes the other criteria
   * is kept whatever its price, even above 50000.
   */
  lemma DefaultRangeKeepsAnyPrice(catalog: seq<Product>, f: FilterOptions, q: string, p: Product)
    requires f.priceRange == PriceRange(0, PriceCeiling)
    requires p in catalog && (SearchActive(q) ==> MatchesSearch(q, p))
    requires forall g :: g != Price && GroupActive(f, g) ==> Satisfies(f, g, p)
    ensures p in Selected(catalog, f, q)
  {
    SelectedSpec(catalog, f, q);
    assert GroupActive(f, Categories) ==> Satisfies(f, Categories, p);
    assert GroupActive(f, Brands) ==> Satisfies(f, Brands, p);
    assert GroupActive(f, MinRating) ==> Satisfies(f, MinRating, p);
  }

  /** The price stage is skipped exactly when the range is at least as wide as [0, 50000]. */
  lemma PriceStageSkipped(f: FilterOptions)
    ensures !GroupActive(f, Price) <==> f.priceRange.min <= 0 && f.priceRange.max >= PriceCeiling
  {
  }

  /** A query of whitespace only does not filter at all. */
  lemma BlankQueryIgnored(catalog: seq<Product>, f: FilterOptions, q: string)
    requires forall i :: 0 <= i < |q| ==> IsWhitespace(q[i])
    ensures Selected(catalog, f, q) == Selected(catalog, f, "")
  {
    TrimEmptyIff(q);
    TrimEmptyIff("");
    FilterExtensional(Criteria(f, q), Criteria(f, ""), catalog);
  }

  /** The query is lowercased but not trimmed: surrounding blanks must occur in the field too. */
  lemma UntrimmedQuery(q: string, p: Product)
    requires SearchActive(q)
    ensures Matches(DefaultFilters(), q, p) <==> SearchHit(Lower(q), p)
  {
  }

  /** Every searchable field of `p` is shorter than `n` characters. */
  predicate FieldsShorterThan(p: Product, n: nat)
  {
    && |p.name| < n && |p.brand| < n && |p.category| < n && |p.description| < n
    && (p.subcategory.Some? ==> |p.subcategory.value| < n)
  }

  /** A query at least as long as `n` can match no product whose searchable fields are shorter. */
  lemma LongQueryMatchesNothing(q: string, p: Product, n: nat)
    requires FieldsShorterThan(p, n) && |q| >= n
    ensures !MatchesSearch(q, p)
  {
    var lq := Lower(q);
    if Contains(Lower(p.name), lq) { ContainsFits(Lower(p.name), lq); }
    if Contains(Lower(p.brand), lq) { ContainsFits(Lower(p.brand), lq); }
    if Contains(Lower(p.category), lq) { ContainsFits(Lower(p.category), lq); }
    if p.subcategory.Some? && Contains(Lower(p.subcategory.value), lq) {
      ContainsFits(Lower(p.subcategory.value), lq);
    }
    if Contains(Lower(p.description), lq) { ContainsFits(Lower(p.description), lq); }
  }

  /** An active query longer than every searchable field of the catalog empties the result. */
  lemma LongQuerySelectsNothing(catalog: seq<Product>, f: FilterOptions, sortBy: string, q: string, n: nat)
    requires forall p :: p in catalog ==> FieldsShorterThan(p, n)
    requires SearchActive(q) && |q| >= n
    ensures FilteredAndSorted(catalog, f, sortBy, q) == []
  {
    var sel := Selected(catalog, f, q);
    SelectedSpec(catalog, f, q);
    if sel != [] {
      LongQueryMatchesNothing(q, sel[0], n);
    }
    StableSortCorrect(SortKeyOf(sortBy), sel);
  }

  // ---------------------------------------------------------------------------------------
  // getActiveFiltersCount

  /** The groups whose sentinel test says active, in the order they are counted. */
  function ActiveGroups(f: FilterOptions): seq<FilterGroup>
  {
    Filter((g: FilterGroup) => GroupActive(f, g), AllGroups)
  }

  lemma ActiveGroupsUnfold(f: FilterOptions)
    ensures ActiveGroups(f) ==
      (if GroupActive(f, Categories) then [Categories] else []) + (if GroupActive(f, Brands) then [Brands] else [])
      + (if GroupActive(f, Price) then [Price] else []) + (if GroupActive(f, MinRating) then [MinRating] else [])
  {
    var active := (g: FilterGroup) => GroupActive(f, g);
    assert AllGroups == [Categories, Brands] + [Price, MinRating];
    FilterConcat(active, [Categories, Brands], [Price, MinRating]);
    FilterTwo(active, Categories, Brands);
    FilterTwo(active, Price, MinRating);
  }

  /** The count lists each group once, exactly when it is active, so it is between 0 and 4. */
  lemma ActiveGroupsSpec(f: FilterOptions)
    ensures forall g :: g in ActiveGroups(f) <==> GroupActive(f, g)
    ensures |ActiveGroups(f)| <= 4
    ensures |ActiveGroups(f)| == 0 <==> forall g :: !GroupActive(f, g)
  {
    ActiveGroupsUnfold(f);
  }

  /** `getActiveFiltersCount`: one increment per active group, with the filter's own sentinel tests. */
  method GetActiveFiltersCount(filters: FilterOptions) returns (count: int)
    ensures count == |ActiveGroups(filters)|
  {
    ActiveGroupsUnfold(filters);
    count := 0;
    if |filters.categories| > 0 {
      count := count + 1;
    }
    if |filters.brands| > 0 {
      count := count + 1;
    }
    if filters.priceRange.min > 0 || filters.priceRange.max < PriceCeiling {
      count := count + 1;
    }
    if filters.rating > 0.0 {
      count := count + 1;
    }
  }

  /** With no active group and no search, the count is 0 and the catalog is shown whole. */
  lemma ZeroCountKeepsAll(catalog: seq<Product>, f: FilterOptions, q: string)
    requires |ActiveGroups(f)| == 0 && !SearchActive(q)
    ensures Selected(catalog, f, q) == catalog
  {
    ActiveGroupsSpec(f);
    NothingActiveKeepsAll(catalog, f, q);
  }

  // ---------------------------------------------------------------------------------------
  // The hook's state

  /** The three pieces of state `applyFiltersAndSort` depends on. */
  datatype FilterState = FilterState(filters: FilterOptions, sortBy: string, searchQuery: string)

  /** The state `useFilters` starts with. */
  function InitialState(): FilterState
  {
    FilterState(DefaultFilters(), "popularity", "")
  }

  /** `updateFilters`: the criteria are replaced whole; the query and sort key stay. */
  function UpdateFilters(s: FilterState, newFilters: FilterOptions): (r: FilterState)
    ensures r.filters == newFilters && r.sortBy == s.sortBy && r.searchQuery == s.searchQuery
  {
    s.(filters := newFilters)
  }

  /** `clearFilters`: default criteria, empty query, popularity sort, whatever the state was. */
  function ClearFilters(s: FilterState): (r: FilterState)
    ensures r == InitialState()
    ensures forall g :: !GroupActive(r.filters, g)
    ensures !SearchActive(r.searchQuery)
  {
    FilterState(FilterOptions([], PriceRange(0, 50000), 0.0, []), "popularity", "")
  }

  /** What the hook displays for a state once its effect has run. */
  function Displayed(catalog: seq<Product>, s: FilterState): seq<Product>
  {
    FilteredAndSorted(catalog, s.filters, s.sortBy, s.searchQuery)
  }

  /**
   * After `clearFilters` the hook is back in its initial state: no active group, an empty query,
   * and the whole catalog in popularity order on display.
   */
  lemma ClearFiltersResets(catalog: seq<Product>, s: FilterState)
    ensures ClearFilters(s) == InitialState()
    ensures |ActiveGroups(ClearFilters(s).filters)| == 0
    ensures Displayed(catalog, ClearFilters(s)) == StableSort(Popularity, catalog)
  {
    ActiveGroupsUnfold(DefaultFilters());
    DefaultsShowCatalog(catalog, "popularity");
  }
}
