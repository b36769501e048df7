/**
 * Editing the filter criteria in components/FilterModal.tsx: membership toggles on the category
 * and brand lists, the preset price ranges and rating thresholds, and "Clear All".
 * Every setter replaces the modal's local criteria with a copy that differs in one field.
 */
module FilterModal {
  import opened Types
  import opened Seqs
  import opened Filters

  predicate NoDuplicates(s: seq<string>)
  {
    forall i, j :: 0 <= i < j < |s| ==> s[i] != s[j]
  }

  /** Remove every occurrence of `v` when it is present, append it when it is not. */
  function Toggle(list: seq<string>, v: string): (r: seq<string>)
    ensures v in r <==> v !in list
  {
    if v in list then
      FilterMembers(c => c != v, list);
      Filter(c => c != v, list)
    else list + [v]
  }

  /** Toggling an absent value appends it and leaves the other entries and their order alone. */
  lemma ToggleAbsent(list: seq<string>, v: string)
    requires v !in list
    ensures Toggle(list, v) == list + [v]
    ensures Toggle(list, v)[..|list|] == list
  {
  }

  /** Toggling a present value removes every occurrence of it and keeps the rest, in order. */
  lemma TogglePresent(list: seq<string>, v: string)
    requires v in list
    ensures IsSubsequence(Toggle(list, v), list)
    ensures multiset(Toggle(list, v)) == multiset(list)[v := 0]
    ensures forall x :: x != v ==> (x in Toggle(list, v) <==> x in list)
  {
    FilterMembers(c => c != v, list);
    FilterIsSubsequence(c => c != v, list);
    FilterDropsAll(list, v);
  }

  lemma {:induction false} FilterDropsAll(list: seq<string>, v: string)
    ensures multiset(Filter(c => c != v, list)) == multiset(list)[v := 0]
  {
    if list != [] {
      FilterDropsAll(list[1..], v);
      assert list == [list[0]] + list[1..];
    }
  }

  /** Toggling the same value twice restores its membership; from a list without it, the list itself. */
  lemma ToggleTwice(list: seq<string>, v: string)
    ensures v in Toggle(Toggle(list, v), v) <==> v in list
    ensures v !in list ==> Toggle(Toggle(list, v), v) == list
  {
    if v !in list {
      var keep := (c: string) => c != v;
      FilterConcat(keep, list, [v]);
      FilterKeepsAll(keep, list);
      assert Filter(keep, [v]) == [];
    }
  }

  lemma {:induction false} FilterKeepsNoDuplicates(f: string -> bool, s: seq<string>)
    requires NoDuplicates(s)
    ensures NoDuplicates(Filter(f, s))
  {
    if s != [] {
      FilterKeepsNoDuplicates(f, s[1..]);
      FilterMembers(f, s[1..]);
      if f(s[0]) {
        var t := Filter(f, s[1..]);
        assert s[0] !in s[1..];
        forall i, j | 0 <= i < j < |[s[0]] + t| ensures ([s[0]] + t)[i] != ([s[0]] + t)[j] {
          if i == 0 {
            assert ([s[0]] + t)[j] == t[j - 1];
          }
        }
      }
    }
  }

  /** A list without duplicates has none after a toggle either. */
  lemma ToggleKeepsNoDuplicates(list: seq<string>, v: string)
    requires NoDuplicates(list)
    ensures NoDuplicates(Toggle(list, v))
  {
    if v in list {
      FilterKeepsNoDuplicates(c => c != v, list);
    }
  }

  /** `toggleCategory`: only `categories` changes. */
  function ToggleCategory(local: FilterOptions, category: string): (r: FilterOptions)
    ensures r.categories == Toggle(local.categories, category)
    ensures r.brands == local.brands && r.priceRange == local.priceRange && r.rating == local.rating
  {
    local.(categories := Toggle(local.categories, category))
  }

  /** `toggleBrand`: only `brands` changes. */
  function ToggleBrand(local: FilterOptions, brand: string): (r: FilterOptions)
    ensures r.brands == Toggle(local.brands, brand)
    ensures r.categories == local.categories && r.priceRange == local.priceRange && r.rating == local.rating
  {
    local.(brands := Toggle(local.brands, brand))
  }

  /** `setPriceRange`: only `priceRange` changes. */
  function SetPriceRange(local: FilterOptions, min: int, max: int): (r: FilterOptions)
    ensures r.priceRange.min == min && r.priceRange.max == max
    ensures r.categories == local.categories && r.brands == local.brands && r.rating == local.rating
  {
    local.(priceRange := PriceRange(min, max))
  }

  /** `setRating`: only `rating` changes. */
  function SetRating(local: FilterOptions, rating: real): (r: FilterOptions)
    ensures r.rating == rating
    ensures r.categories == local.categories && r.brands == local.brands && r.priceRange == local.priceRange
  {
    local.(rating := rating)
  }

  /**
   * `handleApply`: the modal hands its local criteria to the `onApplyFilters` callback, which
   * replaces whatever criteria state it is given (here, the filter state of `useFilters`).
   */
  function HandleApply(s: FilterState, local: FilterOptions): (r: FilterState)
    ensures r.filters == local && r.searchQuery == s.searchQuery && r.sortBy == s.sortBy
  {
    UpdateFilters(s, local)
  }

  /** The criteria "Clear All" both keeps locally and hands to `onApplyFilters`. */
  function HandleClear(): (r: FilterOptions)
    ensures r.categories == [] && r.brands == []
    ensures forall g :: !GroupActive(r, g)
  {
    FilterOptions([], PriceRange(0, 50000), 0.0, [])
  }

  /** "Clear All" yields exactly the criteria `useFilters` starts with, none of them active. */
  lemma HandleClearIsDefault()
    ensures HandleClear() == DefaultFilters()
    ensures |ActiveGroups(HandleClear())| == 0
  {
    ActiveGroupsSpec(HandleClear());
  }

  /**
   * Handing the "Clear All" criteria to a callback that replaces the criteria of a filter state
   * resets them exactly as `clearFilters` of `useFilters` does, but keeps the search query and the
   * sort key, which `clearFilters` also resets.
   */
  lemma ModalClearVersusHookClear(s: FilterState)
    ensures HandleApply(s, HandleClear()).filters == ClearFilters(s).filters
    ensures HandleApply(s, HandleClear()).searchQuery == s.searchQuery
    ensures HandleApply(s, HandleClear()).sortBy == s.sortBy
    ensures HandleApply(s, HandleClear()) == ClearFilters(s) <==> s.searchQuery == "" && s.sortBy == "popularity"
  {
  }

  /** The categories the modal offers, by the name it toggles. */
  const StaticCategoryNames: seq<string> := ["Men", "Women", "Kids", "Sports", "Accessories"]

  /** A preset price range of the modal, with its label text. */
  datatype PricePreset = PricePreset(labelText: string, min: int, max: int)

  const PriceRanges: seq<PricePreset> := [
    PricePreset("Under \U{20B9}500", 0, 500),
    PricePreset("\U{20B9}500 - \U{20B9}1000", 500, 1000),
    PricePreset("\U{20B9}1000 - \U{20B9}2000", 1000, 2000),
    PricePreset("\U{20B9}2000 - \U{20B9}5000", 2000, 5000),
    PricePreset("Above \U{20B9}5000", 5000, 50000)
  ]

  const RatingPresets: seq<real> := [4.0, 3.0, 2.0, 1.0]

  /** Every price preset is a proper range inside [0, 50000], and choosing it switches the price stage on. */
  lemma PricePresetsActivate(local: FilterOptions)
    ensures forall i :: 0 <= i < |PriceRanges| ==>
      && 0 <= PriceRanges[i].min < PriceRanges[i].max <= PriceCeiling
      && GroupActive(SetPriceRange(local, PriceRanges[i].min, PriceRanges[i].max), Price)
  {
  }

  /** Every rating preset is positive, so choosing it switches the rating stage on. */
  lemma RatingPresetsActivate(local: FilterOptions)
    ensures forall i :: 0 <= i < |RatingPresets| ==>
      RatingPresets[i] > 0.0 && GroupActive(SetRating(local, RatingPresets[i]), MinRating)
  {
  }
}
