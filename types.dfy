/** The records the storefront passes around (types/index.ts), plus the optional `subcategory` the search reads. */
module Types {
  import opened Wrappers

  /**
   * A catalog entry. Prices and discounts are whole rupees and percentages; ratings are
   * decimals such as 4.2 and are only ever compared. Optional TypeScript fields are `Option`s.
   */
  datatype Product = Product(
    id: string,
    name: string,
    brand: string,
    price: int,
    originalPrice: Option<int>,
    discount: Option<int>,
    rating: real,
    reviewCount: int,
    image: string,
    images: seq<string>,
    category: string,
    subcategory: Option<string>,
    description: string,
    sizes: seq<string>,
    colors: seq<string>,
    inStock: bool,
    isNew: Option<bool>,
    isBestseller: Option<bool>)

  /** One line of the cart or of the saved-for-later list. */
  datatype CartItem = CartItem(product: Product, quantity: int, size: string, color: string)

  datatype PriceRange = PriceRange(min: int, max: int)

  /** The structured filter criteria; always replaced whole, never patched. */
  datatype FilterOptions = FilterOptions(
    categories: seq<string>,
    priceRange: PriceRange,
    rating: real,
    brands: seq<string>)
}
