/**
 * The fixed catalog of data/products.ts that `useFilters` filters and sorts, its category and
 * brand constants, and what the pipeline does with it.
 */
module Catalog {
  import opened Wrappers
  import opened Types
  import opened Seqs
  import opened Sorting
  import opened Filters
  import opened Text
  import FilterModal
  import Cart

  const Product1: Product := Product(
    "1", "Cotton Casual Shirt", "ZARA", 1299, Some(1899), Some(32), 4.2, 1204,
    "https://images.pexels.com/photos/996329/pexels-photo-996329.jpeg",
    ["https://images.pexels.com/photos/996329/pexels-photo-996329.jpeg", "https://images.pexels.com/photos/1040945/pexels-photo-1040945.jpeg"],
    "Men", None,
    "A comfortable cotton casual shirt perfect for everyday wear.",
    ["S", "M", "L", "XL"], ["White", "Blue", "Black"], true, Some(true), None)

  const Product2: Product := Product(
    "2", "Floral Summer Dress", "H&M", 2199, Some(2999), Some(27), 4.5, 856,
    "https://images.pexels.com/photos/1381556/pexels-photo-1381556.jpeg",
    ["https://images.pexels.com/photos/1381556/pexels-photo-1381556.jpeg", "https://images.pexels.com/photos/1379636/pexels-photo-1379636.jpeg"],
    "Women", None,
    "Beautiful floral print summer dress with flowing silhouette.",
    ["XS", "S", "M", "L"], ["Floral Print", "Solid Blue"], true, None, Some(true))

  const Product3: Product := Product(
    "3", "Kids Rainbow T-Shirt", "GAP Kids", 899, Some(1299), Some(31), 4.7, 432,
    "https://images.pexels.com/photos/1620760/pexels-photo-1620760.jpeg",
    ["https://images.pexels.com/photos/1620760/pexels-photo-1620760.jpeg"],
    "Kids", None,
    "Colorful rainbow t-shirt for kids with soft cotton fabric.",
    ["2-3Y", "4-5Y", "6-7Y", "8-9Y"], ["Rainbow", "Pink", "Blue"], true, Some(true), None)

  const Product4: Product := Product(
    "4", "Leather Formal Shoes", "Clarks", 4999, Some(6999), Some(29), 4.3, 298,
    "https://images.pexels.com/photos/1280064/pexels-photo-1280064.jpeg",
    ["https://images.pexels.com/photos/1280064/pexels-photo-1280064.jpeg"],
    "Men", None,
    "Premium leather formal shoes for professional occasions.",
    ["7", "8", "9", "10", "11"], ["Black", "Brown"], true, None, None)

  const Product5: Product := Product(
    "5", "Designer Handbag", "Michael Kors", 8999, Some(12999), Some(31), 4.6, 672,
    "https://images.pexels.com/photos/1152077/pexels-photo-1152077.jpeg",
    ["https://images.pexels.com/photos/1152077/pexels-photo-1152077.jpeg"],
    "Women", None,
    "Elegant designer handbag with premium leather finish.",
    ["One Size"], ["Black", "Brown", "Beige"], true, None, Some(true))

  const Product6: Product := Product(
    "6", "Sports Sneakers", "Nike", 3499, Some(4999), Some(30), 4.4, 1890,
    "https://images.pexels.com/photos/2529148/pexels-photo-2529148.jpeg",
    ["https://images.pexels.com/photos/2529148/pexels-photo-2529148.jpeg"],
    "Sports", None,
    "High-performance sports sneakers for running and training.",
    ["7", "8", "9", "10", "11"], ["White", "Black", "Red"], true, Some(true), None)

  const Product7: Product := Product(
    "7", "Denim Jacket", "Levis", 2899, Some(3999), Some(28), 4.1, 543,
    "https://images.pexels.com/photos/1183266/pexels-photo-1183266.jpeg",
    ["https://images.pexels.com/photos/1183266/pexels-photo-1183266.jpeg"],
    "Men", None,
    "Classic denim jacket with vintage wash and comfortable fit.",
    ["S", "M", "L", "XL"], ["Blue", "Black", "Light Blue"], true, None, None)

  const Product8: Product := Product(
    "8", "Silk Scarf", "Herm\U{00E8}s", 15999, Some(19999), Some(20), 4.8, 234,
    "https://images.pexels.com/photos/1488463/pexels-photo-1488463.jpeg",
    ["https://images.pexels.com/photos/1488463/pexels-photo-1488463.jpeg"],
    "Women", None,
    "Luxurious silk scarf with elegant pattern and premium quality.",
    ["One Size"], ["Pink", "Blue", "Gold"], true, None, Some(true))

  /** `products` */
  const Products: seq<Product> := [Product1, Product2, Product3, Product4, Product5, Product6, Product7, Product8]

  /** An entry of `categories`. */
  datatype Category = Category(id: string, name: string, icon: string)

  /** `categories` */
  const Categories: seq<Category> := [
    Category("men", "Men", "\U{1F454}"),
    Category("women", "Women", "\U{1F457}"),
    Category("kids", "Kids", "\U{1F9F8}"),
    Category("sports", "Sports", "\U{26BD}"),
    Category("accessories", "Accessories", "\U{1F45C}")
  ]

  /** `brands` */
  const Brands: seq<string> := ["ZARA", "H&M", "GAP Kids", "Clarks", "Michael Kors", "Nike", "Levis", "Herm\U{00E8}s"]

  /** The ids '1'..'8' are pairwise distinct. */
  lemma IdsDistinct()
    ensures forall i, j :: 0 <= i < j < |Products| ==> Products[i].id != Products[j].id
  {
  }

  /** Every product is on sale: it has an original price, above its price. */
  lemma PricesBelowOriginal()
    ensures forall p :: p in Products ==> p.originalPrice.Some? && p.price < p.originalPrice.value
  {
  }

  function CategoryName(c: Category): string
  {
    c.name
  }

  /** Every product's category is the name of one of `categories`. */
  lemma CategoriesListed()
    ensures forall p :: p in Products ==> p.category in Map(CategoryName, Categories)
  {
    assert Map(CategoryName, Categories) == ["Men", "Women", "Kids", "Sports", "Accessories"];
  }

  /** The modal offers exactly the catalog's categories, in the same order. */
  lemma ModalOffersCatalogCategories()
    ensures FilterModal.StaticCategoryNames == Map(CategoryName, Categories)
  {
  }

  /** Every product's brand is in `brands`. */
  lemma BrandsListed()
    ensures forall p :: p in Products ==> p.brand in Brands
  {
  }

  /** No price exceeds 15999, below the 50000 ceiling. */
  lemma PricesWithinCeiling()
    ensures forall p :: p in Products ==> 0 < p.price <= 15999 < PriceCeiling
  {
  }

  /** The default criteria with an empty query show all eight products, only reordered. */
  lemma DefaultsShowAllProducts(sortBy: string)
    ensures FilteredAndSorted(Products, DefaultFilters(), sortBy, "") == StableSort(SortKeyOf(sortBy), Products)
    ensures multiset(FilteredAndSorted(Products, DefaultFilters(), sortBy, "")) == multiset(Products)
    ensures |FilteredAndSorted(Products, DefaultFilters(), sortBy, "")| == 8
  {
    DefaultsShowCatalog(Products, sortBy);
    InsertionSortPermutes(RankOf(SortKeyOf(sortBy)), Products);
  }

  /** The cheapest price preset, under 500, finds nothing: the cheapest product costs 899. */
  lemma UnderFiveHundredIsEmpty(sortBy: string)
    ensures FilterModal.PriceRanges[0].min == 0 && FilterModal.PriceRanges[0].max == 500
    ensures FilteredAndSorted(Products, FilterModal.SetPriceRange(DefaultFilters(), 0, 500), sortBy, "") == []
  {
    var f := FilterModal.SetPriceRange(DefaultFilters(), 0, 500);
    assert forall p :: p in Products ==> !Criteria(f, "")(p);
    FilterKeepsNone(Criteria(f, ""), Products);
  }

  lemma ReviewCountsDistinct()
    ensures forall i, j :: 0 <= i < j < |Products| ==> Products[i].reviewCount != Products[j].reviewCount
  {
  }

  /** Sorted by popularity, the catalog reads 6, 1, 2, 5, 7, 3, 4, 8: no two review counts tie. */
  lemma PopularityOrder()
    ensures StableSort(Popularity, Products) == [Product6, Product1, Product2, Product5, Product7, Product3, Product4, Product8]
  {
    var R := RankOf(Popularity);
    var t := [Product6, Product1, Product2, Product5, Product7, Product3, Product4, Product8];
    ReviewCountsDistinct();
    assert DistinctRanks(R, Products);
    assert StrictlySortedBy(R, t);
    StrictOrderIsSort(R, Products, t);
  }

  lemma PricesDistinct()
    ensures DistinctPrices(Products)
  {
  }

  /** Sorted by price, low to high: 3, 1, 2, 7, 6, 4, 5, 8 (no two prices tie). */
  lemma PriceLowOrder()
    ensures StableSort(PriceLow, Products) == [Product3, Product1, Product2, Product7, Product6, Product4, Product5, Product8]
  {
    var R := RankOf(PriceLow);
    var t := [Product3, Product1, Product2, Product7, Product6, Product4, Product5, Product8];
    PricesDistinct();
    DistinctPricesDistinctRanks(Products);
    assert StrictlySortedBy(R, t);
    StrictOrderIsSort(R, Products, t);
  }

  /** Sorted by price from high to low, the same order reversed: 8, 5, 4, 6, 7, 2, 1, 3. */
  lemma PriceHighOrder()
    ensures StableSort(PriceHigh, Products) == [Product8, Product5, Product4, Product6, Product7, Product2, Product1, Product3]
  {
    PricesDistinct();
    PriceHighIsReversedPriceLow(Products);
    PriceLowOrder();
    assert Reverse([Product3, Product1, Product2, Product7, Product6, Product4, Product5, Product8])
      == [Product8, Product5, Product4, Product6, Product7, Product2, Product1, Product3];
  }

  /** Sorted by newest: the new products 1, 3, 6 in catalog order, then 2, 4, 5, 7, 8. */
  lemma NewestOrder()
    ensures StableSort(Newest, Products) == [Product1, Product3, Product6, Product2, Product4, Product5, Product7, Product8]
  {
    NewestIsStablePartition(Products);
    NewProducts();
    OtherProducts();
  }

  lemma NewProducts()
    ensures Filter(IsNewIs(true), Products) == [Product1, Product3, Product6]
  {
    assert Products == [Product1, Product2, Product3, Product4] + [Product5, Product6, Product7, Product8];
    FilterConcat(IsNewIs(true), [Product1, Product2, Product3, Product4], [Product5, Product6, Product7, Product8]);
    NewProductsLow();
    NewProductsHigh();
  }

  lemma NewProductsLow()
    ensures Filter(IsNewIs(true), [Product1, Product2, Product3, Product4]) == [Product1, Product3]
  {
    var f := IsNewIs(true);
    FilterCons(f, Product4, []);
    FilterCons(f, Product3, [Product4]);
    FilterCons(f, Product2, [Product3, Product4]);
    FilterCons(f, Product1, [Product2, Product3, Product4]);
  }

  lemma NewProductsHigh()
    ensures Filter(IsNewIs(true), [Product5, Product6, Product7, Product8]) == [Product6]
  {
    var f := IsNewIs(true);
    FilterCons(f, Product8, []);
    FilterCons(f, Product7, [Product8]);
    FilterCons(f, Product6, [Product7, Product8]);
    FilterCons(f, Product5, [Product6, Product7, Product8]);
  }

  lemma OtherProducts()
    ensures Filter(IsNewIs(false), Products) == [Product2, Product4, Product5, Product7, Product8]
  {
    assert Products == [Product1, Product2, Product3, Product4] + [Product5, Product6, Product7, Product8];
    FilterConcat(IsNewIs(false), [Product1, Product2, Product3, Product4], [Product5, Product6, Product7, Product8]);
    OtherProductsLow();
    OtherProductsHigh();
  }

  lemma OtherProductsLow()
    ensures Filter(IsNewIs(false), [Product1, Product2, Product3, Product4]) == [Product2, Product4]
  {
    var f := IsNewIs(false);
    FilterCons(f, Product4, []);
    FilterCons(f, Product3, [Product4]);
    FilterCons(f, Product2, [Product3, Product4]);
    FilterCons(f, Product1, [Product2, Product3, Product4]);
  }

  lemma OtherProductsHigh()
    ensures Filter(IsNewIs(false), [Product5, Product6, Product7, Product8]) == [Product5, Product7, Product8]
  {
    var f := IsNewIs(false);
    FilterCons(f, Product8, []);
    FilterCons(f, Product7, [Product8]);
    FilterCons(f, Product6, [Product7, Product8]);
    FilterCons(f, Product5, [Product6, Product7, Product8]);
  }

  /** Two of the shirt and one dress: 1299 * 2 + 2199 = 4797 rupees for three items. */
  lemma CartTotalsExample(saved: seq<CartItem>)
    ensures var state := Cart.CartState([CartItem(Product1, 2, "M", "White"), CartItem(Product2, 1, "S", "Floral Print")], saved);
      Cart.GetTotalPrice(state) == 4797 && Cart.GetTotalItems(state) == 3
  {
    var shirts, dress := CartItem(Product1, 2, "M", "White"), CartItem(Product2, 1, "S", "Floral Print");
    var state := Cart.CartState([shirts, dress], saved);
    Cart.TotalsAreSums(state);
    assert [shirts, dress][1..] == [dress] && [dress][1..] == [];
    assert Cart.Sum(Cart.LineTotal, [dress]) == 2199;
    assert Cart.Sum(Cart.Quantity, [dress]) == 1;
  }

  /** "Nike" typed after seventy spaces. */
  const PaddedNike: string := seq(70, _ => ' ') + "Nike"

  /** No searchable field of the catalog is longer than seventy characters. */
  lemma FieldsWithinSeventy()
    ensures forall p :: p in Products ==> FieldsShorterThan(p, 71)
  {
  }

  /** Blanks before "Nike" are trimmed away when deciding whether the search is active. */
  lemma PaddedNikeTrims()
    ensures Trim(PaddedNike) == "Nike" && SearchActive(PaddedNike)
  {
    TrimStartAfterBlanks(seq(70, _ => ' '), "Nike");
  }

  /** Searching "Nike" keeps the Nike sneakers. */
  lemma NikeFindsSneakers(sortBy: string)
    ensures Product6 in FilteredAndSorted(Products, DefaultFilters(), sortBy, "Nike")
  {
    assert Contains(Lower(Product6.brand), Lower("Nike"));
    ResultMembers(Products, DefaultFilters(), sortBy, "Nike", Product6);
  }

  /**
   * The search tests the lowercased query without trimming it: a padded query is active
   * because its trimmed form is "Nike", which selects the Nike sneakers, yet it selects nothing.
   */
  lemma PaddedQuerySelectsNothing(sortBy: string)
    ensures Trim(PaddedNike) == "Nike" && SearchActive(PaddedNike)
    ensures Product6 in FilteredAndSorted(Products, DefaultFilters(), sortBy, Trim(PaddedNike))
    ensures FilteredAndSorted(Products, DefaultFilters(), sortBy, PaddedNike) == []
  {
    PaddedNikeTrims();
    NikeFindsSneakers(sortBy);
    FieldsWithinSeventy();
    LongQuerySelectsNothing(Products, DefaultFilters(), sortBy, PaddedNike, 71);
  }
}
