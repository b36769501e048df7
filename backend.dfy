/**
 * The product records the backend sends, and the two client-side normalisations of them:
 * `transformProduct` in hooks/useRecentlyViewed.ts and the inline product literal of
 * `loadCartData` in hooks/useCart.ts. Absent JSON fields are `None`.
 */
module Backend {
  import opened Wrappers
  import opened Types
  import opened Seqs

  /** An entry of `images`: either a bare URL or an object carrying one. */
  datatype BackendImage = ImageText(text: string) | ImageObject(url: string)

  /** An entry of `colors`: either a bare name or an object carrying one. */
  datatype BackendColor = ColorText(text: string) | ColorObject(name: string)

  datatype BackendRating = BackendRating(average: Option<real>, count: Option<int>)

  /** A product document as the API returns it; `objectId` is its `_id`. */
  datatype BackendProduct = BackendProduct(
    objectId: string,
    name: string,
    brand: string,
    price: int,
    originalPrice: Option<int>,
    discount: Option<int>,
    rating: Option<BackendRating>,
    images: Option<seq<BackendImage>>,
    category: string,
    description: Option<string>,
    sizes: Option<seq<string>>,
    colors: Option<seq<BackendColor>>,
    inStock: Option<bool>,
    isNew: Option<bool>,
    isBestseller: Option<bool>)

  /** `rating?.average || 0` */
  function AverageRating(b: BackendProduct): real
  {
    match b.rating
    case None => 0.0
    case Some(r) => r.average.GetOr(0.0)
  }

  /** `rating?.count || 0` */
  function ReviewCount(b: BackendProduct): int
  {
    match b.rating
    case None => 0
    case Some(r) => r.count.GetOr(0)
  }

  /** `typeof img === 'string' ? img : img.url` */
  function ImageUrl(img: BackendImage): string
  {
    match img
    case ImageText(t) => t
    case ImageObject(u) => u
  }

  /** `images?.map(...) || []` */
  function ImageUrls(b: BackendProduct): seq<string>
  {
    match b.images
    case None => []
    case Some(l) => Map(ImageUrl, l)
  }

  /** `images?.[0]?.url || images?.[0] || ''` */
  function FirstImage(b: BackendProduct): string
  {
    match b.images
    case None => ""
    case Some(l) =>
      if l == [] then ""
      else match l[0]
        case ImageObject(u) => u
        case ImageText(t) => t
  }

  /** `typeof color === 'string' ? color : color.name` */
  function ColorName(c: BackendColor): string
  {
    match c
    case ColorText(t) => t
    case ColorObject(n) => n
  }

  /** `colors?.map(...) || []` */
  function ColorNames(b: BackendProduct): seq<string>
  {
    match b.colors
    case None => []
    case Some(l) => Map(ColorName, l)
  }

  /** `transformProduct` (hooks/useRecentlyViewed.ts). */
  function TransformProduct(b: BackendProduct): (r: Product)
    ensures r.id == b.objectId
    ensures r.image == if r.images == [] then "" else r.images[0]
    ensures |r.images| == if b.images.Some? then |b.images.value| else 0
    ensures r.inStock <==> b.inStock != Some(false)
  {
    Product(
      b.objectId, b.name, b.brand, b.price, b.originalPrice, b.discount,
      AverageRating(b), ReviewCount(b), FirstImage(b), ImageUrls(b), b.category, None,
      b.description.GetOr(""), b.sizes.GetOr([]), ColorNames(b),
      b.inStock != Some(false), b.isNew, b.isBestseller)
  }

  /** The product literal of `loadCartData` (hooks/useCart.ts), used for both lists. */
  function CartProduct(b: BackendProduct): (r: Product)
    ensures r.(inStock := true) == TransformProduct(b).(inStock := true)
    ensures r.inStock <==> b.inStock == Some(true)
  {
    Product(
      b.objectId, b.name, b.brand, b.price, b.originalPrice, b.discount,
      AverageRating(b), ReviewCount(b), FirstImage(b), ImageUrls(b), b.category, None,
      b.description.GetOr(""), b.sizes.GetOr([]), ColorNames(b),
      b.inStock.GetOr(false), b.isNew, b.isBestseller)
  }

  /** The main image is the first of the normalised image list, or "" when there is none. */
  lemma FirstImageOfImages(b: BackendProduct)
    ensures FirstImage(b) == if ImageUrls(b) == [] then "" else ImageUrls(b)[0]
    ensures b.images.None? ==> ImageUrls(b) == [] && FirstImage(b) == ""
    ensures b.images.Some? ==> |ImageUrls(b)| == |b.images.value|
  {
  }

  /**
   * The defaults `transformProduct` fills in: zero rating and review count without a backend
   * rating, an empty description and size list, and in stock unless explicitly `false`.
   */
  lemma TransformProductDefaults(b: BackendProduct)
    ensures TransformProduct(b).id == b.objectId && TransformProduct(b).price == b.price
    ensures b.rating.None? ==> TransformProduct(b).rating == 0.0 && TransformProduct(b).reviewCount == 0
    ensures b.description.None? ==> TransformProduct(b).description == ""
    ensures b.sizes.None? ==> TransformProduct(b).sizes == []
    ensures b.colors.None? ==> TransformProduct(b).colors == []
    ensures TransformProduct(b).inStock <==> b.inStock != Some(false)
    ensures b.inStock.None? ==> TransformProduct(b).inStock
  {
  }

  /** Each colour entry becomes its name, in order. */
  lemma ColorNamesSpec(b: BackendProduct)
    requires b.colors.Some?
    ensures |ColorNames(b)| == |b.colors.value|
    ensures forall i :: 0 <= i < |b.colors.value| ==>
      (b.colors.value[i].ColorObject? ==> ColorNames(b)[i] == b.colors.value[i].name) &&
      (b.colors.value[i].ColorText? ==> ColorNames(b)[i] == b.colors.value[i].text)
  {
  }

  /**
   * The cart's product literal agrees with `transformProduct` field for field, except that a
   * missing `inStock` stays falsy in the cart where `transformProduct` reads it as in stock.
   */
  lemma CartProductVersusTransform(b: BackendProduct)
    ensures b.inStock.Some? ==> CartProduct(b) == TransformProduct(b)
    ensures b.inStock.None? ==> !CartProduct(b).inStock && TransformProduct(b).inStock
    ensures CartProduct(b).(inStock := true) == TransformProduct(b).(inStock := true)
  {
  }
}
