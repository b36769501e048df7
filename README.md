# Storefront catalog logic, in Dafny

A model of the client-side business rules of a mobile clothing storefront:

- the product list filter and sort of the `useFilters` hook;
- the criteria editing of the filter modal;
- the recently-viewed list;
- the read side of the cart;
- the email and login rules of the authentication routes;
- the fixed eight-product catalog the filter reads.

Each source file is one module:

| module | file | models |
|---|---|---|
| `Types` | types.dfy | `Product`, `CartItem`, `FilterOptions` (types/index.ts), plus the optional `subcategory` that the search reads |
| `Filters` | filters.dfy | `applyFiltersAndSort`, `getActiveFiltersCount`, `clearFilters` and the hook's state (hooks/useFilters.ts) |
| `Sorting` | sorting.dfy | the six comparators and the stable `Array.prototype.sort`, as a functional and an in-place insertion sort |
| `FilterModal` | filtermodal.dfy | `toggleCategory`, `toggleBrand`, `setPriceRange`, `setRating`, `handleApply`, `handleClear`, the presets |
| `RecentlyViewed` | recentlyviewed.dfy | `loadRecentlyViewed` with its filter/map, and `addToRecentlyViewed` with its updater |
| `Backend` | backend.dfy | the backend product record, `transformProduct`, and the product literal built by the cart loader |
| `Cart` | cart.dfy | `loadCartData`'s transforms, `getTotalPrice`, `getTotalItems`, the local effect of `clearCart` |
| `Auth` | auth.dfy | email normalisation, the registration email pattern, the `/register` and `/login` outcomes |
| `Catalog` | catalog.dfy | `products`, `categories`, `brands` (data/products.ts) and concrete facts about them |
| `Wrappers`, `Seqs`, `Text` | wrappers.dfy, seqs.dfy, text.dfy | `Option`, `filter`/`map`/`slice`/`reverse`, and `trim`/`toLowerCase`/`includes` |

The filter runs in stages. `Filters.ApplyFiltersAndSort` copies the catalog, narrows it with one filter per active criterion, and then sorts it. The sort is an in-place insertion sort over an array (`Sorting.SortInPlace`). The method is proved equal to the specification `FilteredAndSorted`, which is a stable sort of the products that pass every active criterion. The properties of that specification are then proved as lemmas:

- the result is a permutation of a subsequence of the catalog;
- it holds exactly the products that pass every active criterion;
- it is ordered by the chosen key;
- it is stable.

Every comparator in the source is the difference of two ranks. So stability is stated once, for any rank function: for every rank value, the elements of that rank appear in the output in the same order as in the input. A stable sort's output is unique (`Sorting.SortedUnique`), so idempotence and "price-high is price-low reversed when prices are distinct" follow from it.

Modelling choices:

- Ratings are `real`. They are only compared.
- Prices, discounts, review counts and quantities are unbounded `int`s.
- `toLowerCase` maps only 'A'..'Z'.
- `trim` and the regular expression's `\s` use the ECMAScript white-space and line-terminator code points.
- Network results become parameters. `clearCart` takes whether the server reported success. `loadCartData` and `loadRecentlyViewed` take the parsed response, or `None` when the request failed or did not report success. `addToRecentlyViewed` takes whether its view request completed.
- The user collection becomes a parameter: a set of emails for `/register` and a map from email to account for `/login`.
- `bcrypt.compare` becomes a function parameter.

## Model

| member | source | states |
|---|---|---|
| `Filters.ApplyFiltersAndSort` | hooks/useFilters.ts:20-89 | the staged filter followed by the in-place sort returns exactly the stable sort, by the chosen key, of the catalog products that pass every active criterion |
| `Filters.Narrow` | hooks/useFilters.ts:24-59 | one guarded `filtered = filtered.filter(...)` stage turns the products that passed n stages into those that pass n + 1; an inactive stage changes nothing |
| `Filters.AllStages` | hooks/useFilters.ts:21-59 | before any stage the list is the whole catalog; after the five stages it is the AND of all active criteria over the catalog, in catalog order |
| `Filters.SelectedSpec` | hooks/useFilters.ts:21-59 | the filtered list holds exactly the catalog products that pass every active criterion, is a subsequence of the catalog, and repeats nothing more often than the catalog does |
| `Filters.ResultIsSortedSelection` | hooks/useFilters.ts:21-86 | the result is a permutation of a subsequence of the catalog, no longer than the catalog, ordered as the key promises, with ties in catalog order |
| `Filters.ResultMembers` | hooks/useFilters.ts:24-59 | a product is in the result iff it is in the catalog and passes the search and every active group (category in list, brand in list, min <= price <= max, rating >= threshold) |
| `Filters.NothingActiveKeepsAll` | hooks/useFilters.ts:24-59 | with no active criterion the filter drops nothing |
| `Filters.DefaultsShowCatalog` | hooks/useFilters.ts:7-14 | the default criteria with an empty query show the whole catalog, only sorted by the chosen key |
| `Filters.DefaultRangeKeepsAnyPrice` | hooks/useFilters.ts:50-54 | with the range [0, 50000], a product that passes the other criteria is kept whatever its price, even above 50000 |
| `Filters.PriceStageSkipped` | hooks/useFilters.ts:50 | the price stage is skipped iff min <= 0 and max >= 50000 |
| `Filters.BlankQueryIgnored` | hooks/useFilters.ts:24 | a query made only of whitespace selects the same products as the empty query |
| `Filters.UntrimmedQuery` | hooks/useFilters.ts:25-32 | once the search is active, the lowercased but untrimmed query must occur in one of the lowercased name, brand, category, subcategory (when present) or description |
| `Filters.LongQueryMatchesNothing` | hooks/useFilters.ts:25-32 | because the query is not trimmed, a query at least as long as every searchable field of a product cannot match it |
| `Filters.LongQuerySelectsNothing` | hooks/useFilters.ts:24-32 | an active query longer than every searchable field of the catalog empties the result, whatever its trimmed form |
| `Filters.ActiveGroupsSpec` | hooks/useFilters.ts:114-121 | each group is counted iff its sentinel test (the filter's own) says active; the count is at most 4, and it is 0 iff no group is active |
| `Filters.GetActiveFiltersCount` | hooks/useFilters.ts:114-121 | the counter ends at the number of active groups |
| `Filters.ZeroCountKeepsAll` | hooks/useFilters.ts:114-121 | a count of 0 with no search means the whole catalog is shown |
| `Filters.UpdateFilters` | hooks/useFilters.ts:91-93 | the criteria become the given ones; the query and the sort key are kept |
| `Filters.ClearFilters` | hooks/useFilters.ts:103-112 | the state becomes the initial one whatever it was: no group active and no search (the count and display are in `Filters.ClearFiltersResets`) |
| `Filters.ClearFiltersResets` | hooks/useFilters.ts:103-112 | `clearFilters` restores the initial criteria, the empty query and the popularity sort; the count is then 0 and the whole catalog shows in popularity order |
| `Sorting.SortKeyOf` | hooks/useFilters.ts:62-86 | each of the five named keys selects its own comparator; every other string, "popularity" included, selects popularity |
| `Sorting.Compare` | hooks/useFilters.ts:64-84 | each comparator is antisymmetric: it is the difference of the two ranks, so swapping the products negates it (`Sorting.CompareIsRankDifference` relates it to the sort) |
| `Sorting.CompareIsRankDifference` | hooks/useFilters.ts:64-84 | every comparator is the difference of the two products' ranks (price, -price, -rating, new-first, -discount with absent as 0, -reviewCount) |
| `Sorting.StableSortCorrect` | hooks/useFilters.ts:62-86 | the sort by any key is ordered as that key promises (price up, price down, rating down, new first, discount down, review count down), is a permutation of its input, and keeps ties in input order |
| `Sorting.InsertionSortCorrect` | hooks/useFilters.ts:62-86 | the insertion sort is sorted by rank, a permutation, and stable for any rank function |
| `Sorting.SortedUnique` | hooks/useFilters.ts:62-86 | two rank-sorted lists with the same ties in the same order are equal, so any stable sort gives this result |
| `Sorting.InsertionSortCharacterization` | hooks/useFilters.ts:62-86 | a list is the sort of `s` iff it is rank-sorted and keeps every tie group of `s` in order |
| `Sorting.StableSortCharacterization` | hooks/useFilters.ts:62-86 | for the storefront's keys: a list is the sort iff it is ordered by the key and keeps every tie group in input order |
| `Sorting.StableSortIdempotent` | hooks/useFilters.ts:62-86 | sorting a sorted list again by the same key changes nothing |
| `Sorting.OrderedIsFixpoint` | hooks/useFilters.ts:62-86 | a list already ordered by the key is returned unchanged |
| `Sorting.ResortPriceHighAfterPriceLow` | hooks/useFilters.ts:63-68 | sorting by price-high after price-low gives the same list as sorting by price-high directly |
| `Sorting.PriceHighIsReversedPriceLow` | hooks/useFilters.ts:63-68 | with pairwise distinct prices, price-high is exactly price-low reversed |
| `Sorting.NewestIsStablePartition` | hooks/useFilters.ts:72-77 | newest is the products with `isNew` true in input order, then all the others in input order |
| `Sorting.StrictOrderIsSort` | hooks/useFilters.ts:62-86 | without ties, the strictly ordered arrangement of the same elements is the sort |
| `Sorting.ShiftAfter` | hooks/useFilters.ts:62-86 | the inner loop moves every element the comparator puts after `x` one slot right, stopping at the first that does not |
| `Sorting.InsertInPlace` | hooks/useFilters.ts:62-86 | one pass leaves the array prefix equal to the functional insertion of `a[i]` into the sorted prefix |
| `Sorting.SortInPlace` | hooks/useFilters.ts:62-86 | the in-place sort leaves the array equal to the stable sort of its old contents |
| `Sorting.SortFiltered` | hooks/useFilters.ts:62-88 | `filtered.sort(comparator)` yields the stable sort of the filtered list |
| `FilterModal.Toggle` | components/FilterModal.tsx:37-39 | after a toggle the value is present iff it was absent |
| `FilterModal.ToggleAbsent` | components/FilterModal.tsx:39 | toggling an absent value appends it and leaves the other entries and their order alone |
| `FilterModal.TogglePresent` | components/FilterModal.tsx:37-38 | toggling a present value removes every occurrence of it and keeps the rest in order with the same multiplicities |
| `FilterModal.ToggleTwice` | components/FilterModal.tsx:36-56 | toggling twice restores membership; from a list without the value, it restores the list itself |
| `FilterModal.ToggleKeepsNoDuplicates` | components/FilterModal.tsx:37-39 | a list without duplicates has none after a toggle |
| `FilterModal.ToggleCategory` | components/FilterModal.tsx:36-45 | only `categories` changes, by a toggle |
| `FilterModal.ToggleBrand` | components/FilterModal.tsx:47-56 | only `brands` changes, by a toggle |
| `FilterModal.SetPriceRange` | components/FilterModal.tsx:58-63 | only `priceRange` changes, to the chosen bounds |
| `FilterModal.SetRating` | components/FilterModal.tsx:65-70 | only `rating` changes, to the chosen threshold |
| `FilterModal.HandleApply` | components/FilterModal.tsx:72-75 | the callback replaces the criteria of the state it is handed with the modal's local criteria; the query and sort key are kept |
| `FilterModal.HandleClear` | components/FilterModal.tsx:77-87 | "Clear All" has no category or brand selected and leaves every group inactive (`FilterModal.HandleClearIsDefault` gives its exact value) |
| `FilterModal.HandleClearIsDefault` | components/FilterModal.tsx:77-87 | "Clear All" yields exactly the criteria `useFilters` starts with, none of them active |
| `FilterModal.ModalClearVersusHookClear` | components/FilterModal.tsx:72-87 | applying "Clear All" resets the criteria as `clearFilters` does but keeps the query and sort key |
| `FilterModal.PricePresetsActivate` | components/FilterModal.tsx:89-95 | every price preset has 0 <= min < max <= 50000 and switches the price stage on |
| `FilterModal.RatingPresetsActivate` | components/FilterModal.tsx:97 | every rating preset is positive and switches the rating stage on |
| `RecentlyViewed.LoadedProducts` | hooks/useRecentlyViewed.ts:59-61 | the filter/map never yields more products than entries (`RecentlyViewed.LoadLength`, `LoadConcat` and `LoadEntry` give its exact behaviour) |
| `RecentlyViewed.LoadRecentlyViewed` | hooks/useRecentlyViewed.ts:47-70 | a failed request, a non-ok response or a status other than "success" leaves the list as it was; otherwise the list is replaced by the loaded products, never more than the entries |
| `RecentlyViewed.LoadLength` | hooks/useRecentlyViewed.ts:59-61 | loading never adds entries, and keeps every one exactly when none lacks its product |
| `RecentlyViewed.LoadConcat` | hooks/useRecentlyViewed.ts:59-61 | loading goes entry by entry, so the order of the kept entries is preserved |
| `RecentlyViewed.LoadEntry` | hooks/useRecentlyViewed.ts:60-61 | an entry without a product contributes nothing; one with a product contributes its transform |
| `RecentlyViewed.MoveToFront` | hooks/useRecentlyViewed.ts:82-85 | the updater puts the product first and keeps at most 20 (`RecentlyViewed.AddSpec` states the rest) |
| `RecentlyViewed.AddToRecentlyViewed` | hooks/useRecentlyViewed.ts:72-89 | when the view request completes, the product comes first; when it throws, the list is unchanged |
| `RecentlyViewed.AddSpec` | hooks/useRecentlyViewed.ts:82-85 | after an add the product is first and its id occurs nowhere else; the tail is the old list without that id, in order, cut to 19; the length is at most 20 and at most the old length + 1 |
| `RecentlyViewed.AddTwice` | hooks/useRecentlyViewed.ts:82-85 | adding the same product twice in a row gives the list that adding it once gives |
| `RecentlyViewed.AddKeepsDistinctIds` | hooks/useRecentlyViewed.ts:83-84 | a list with pairwise distinct ids keeps them distinct after an add |
| `Backend.TransformProduct` | hooks/useRecentlyViewed.ts:27-45 | the id is the backend `_id`, the main image is the first image or "" when there is none, one image per backend image, and in stock unless `inStock` is exactly false |
| `Backend.CartProduct` | hooks/useCart.ts:42-60 | the cart's product literal agrees with `transformProduct` on every field but `inStock`, which holds only when `inStock` is exactly true |
| `Backend.TransformProductDefaults` | hooks/useRecentlyViewed.ts:27-45 | without a backend rating, rating and review count are 0; missing description, sizes and colours become "" and []; in stock unless explicitly false |
| `Backend.FirstImageOfImages` | hooks/useCart.ts:51-52 | the main image is the first entry's URL (or the entry itself when it is a string), "" when there are no images; `images` maps every entry |
| `Backend.ColorNamesSpec` | hooks/useCart.ts:56 | each colour entry becomes its name, or itself when it is a string, in order |
| `Backend.CartProductVersusTransform` | hooks/useCart.ts:42-60 | the cart's product literal equals `transformProduct` except that a missing `inStock` stays false in the cart |
| `Cart.LoadCartData` | hooks/useCart.ts:28-100 | without an ok response whose status is "success" both lists stay as they were; with one, each list has one line per backend line (`Cart.LoadCartDataSpec` gives the lines) |
| `Cart.LoadCartDataSpec` | hooks/useCart.ts:41-92 | both loaded lists are the backend arrays mapped line by line: same length and order, quantity, size and colour copied |
| `Cart.LoadCartDataFailure` | hooks/useCart.ts:37-39 | a failed or unsuccessful response leaves both lists as they were |
| `Cart.CartAndSavedAgree` | hooks/useCart.ts:41-89 | the same backend line becomes the same `CartItem` in the cart and in the saved list |
| `Cart.GetTotalPrice` | hooks/useCart.ts:269-271 | the `reduce` from 0 equals the sum of price * quantity over the cart |
| `Cart.GetTotalItems` | hooks/useCart.ts:273-275 | the `reduce` from 0 equals the sum of the quantities over the cart |
| `Cart.ReduceIsSum` | hooks/useCart.ts:269-275 | the left fold with an accumulator equals the accumulator plus the plain sum |
| `Cart.TotalsAreSums` | hooks/useCart.ts:269-275 | the totals are the sums of price * quantity and of quantity over the cart, 0 for an empty cart, and do not depend on the saved list |
| `Cart.TotalsAdditive` | hooks/useCart.ts:270-274 | both totals add up over a cart split in two |
| `Cart.SumPermutation` | hooks/useCart.ts:270-274 | a sum over the cart does not depend on the order of its items |
| `Cart.TotalsIgnoreOrder` | hooks/useCart.ts:269-275 | reordering the cart changes neither total |
| `Cart.ClearCart` | hooks/useCart.ts:277-297 | the saved list is never touched; the cart is emptied when the server reports success and kept otherwise |
| `Cart.ClearCartSpec` | hooks/useCart.ts:288-289 | a successful clear empties the cart, zeroes both totals and keeps the saved list; a failed one changes nothing |
| `Auth.NormalizeEmail` | server/routes/auth.js:38 | the normalised email is no longer than the input and has no upper-case ASCII letter |
| `Auth.MatchesEmailPattern` | server/routes/auth.js:39 | an accepted email has at least five characters and starts and ends with a character other than whitespace and '@' (`Auth.EmailPatternIff` gives the exact language) |
| `Auth.NormalizeEmailIdempotent` | server/routes/auth.js:38 | normalising a normalised email changes nothing |
| `Auth.NormalizedHasNoOuterBlanks` | server/routes/auth.js:38 | a normalised email neither starts nor ends with whitespace |
| `Auth.EmailPatternIff` | server/routes/auth.js:39 | the pattern accepts exactly the emails without whitespace that have one '@' after a non-empty local part and a '.' in the domain that is neither its first nor its last character |
| `Auth.Register` | server/routes/auth.js:33-65 | a rejection is 400 or 409; a created user has an email that is not yet registered and that the pattern accepts |
| `Auth.RegisterDecision` | server/routes/auth.js:38-65 | an invalid email gets 400, a registered one 409, otherwise the user is created with the normalised email, a trimmed name and a phone trimmed only when given |
| `Auth.InvalidEmailIgnoresUsers` | server/routes/auth.js:39-53 | an invalid email is rejected before, and whatever, the user lookup |
| `Auth.Login` | server/routes/auth.js:102-131 | a rejection is 401 or 403; a success is for a known email whose account is not deactivated |
| `Auth.LoginDecision` | server/routes/auth.js:105-131 | unknown email 401; `isActive` exactly false 403 whatever the password; wrong password 401; success iff known, not deactivated and the password matches |
| `Auth.UnknownEmailLooksLikeWrongPassword` | server/routes/auth.js:109-131 | an unknown email and a wrong password give the same status 401 and message |
| `Catalog.IdsDistinct` | data/products.ts:4-165 | the product ids are pairwise distinct |
| `Catalog.PricesBelowOriginal` | data/products.ts:4-165 | every product has an original price above its price |
| `Catalog.PricesWithinCeiling` | data/products.ts:4-165 | every price is positive and at most 15999, below 50000 |
| `Catalog.CategoriesListed` | data/products.ts:167-173 | every product's category is a name in `categories` |
| `Catalog.BrandsListed` | data/products.ts:175 | every product's brand is in `brands` |
| `Catalog.ModalOffersCatalogCategories` | components/FilterModal.tsx:25-31 | the modal offers exactly the catalog's category names, in order |
| `Catalog.DefaultsShowAllProducts` | hooks/useFilters.ts:3-21 | the default criteria with an empty query show all eight products, only reordered |
| `Catalog.UnderFiveHundredIsEmpty` | components/FilterModal.tsx:90 | the "Under 500" preset finds nothing in the catalog |
| `Catalog.PaddedQuerySelectsNothing` | hooks/useFilters.ts:24-32 | "Nike" after seventy spaces trims to "Nike", which finds the Nike sneakers, yet as a query it selects no product at all |
| `Catalog.PopularityOrder` | data/products.ts:13-153 | by popularity the catalog reads 6, 1, 2, 5, 7, 3, 4, 8 |
| `Catalog.PriceLowOrder` | data/products.ts:9-149 | by price low to high the catalog reads 3, 1, 2, 7, 6, 4, 5, 8 |
| `Catalog.PriceHighOrder` | data/products.ts:9-149 | by price high to low the catalog reads 8, 5, 4, 6, 7, 2, 1, 3 |
| `Catalog.NewestOrder` | data/products.ts:24-124 | by newest the catalog reads 1, 3, 6, 2, 4, 5, 7, 8 |
| `Catalog.CartTotalsExample` | hooks/useCart.ts:269-275 | two shirts at 1299 and one dress at 2199 total 4797 for three items |
| `Text.TrimEmptyIff` | server/routes/auth.js:38 | a string trims to "" iff it is all whitespace |
| `Text.TrimIdempotent` | server/routes/auth.js:38 | trimming twice is trimming once |
| `Text.TrimLowerCommute` | server/routes/auth.js:38 | trimming and lowercasing commute |
| `Text.ContainsIff` | hooks/useFilters.ts:27-31 | `includes` holds iff the substring occurs at some offset |
| `Text.ContainsFits` | hooks/useFilters.ts:27-31 | `includes` never finds a string longer than the one searched |
| `Text.TrimStartAfterBlanks` | hooks/useFilters.ts:24 | leading blanks do not change what `trim` returns |

## Left out

- All HTTP requests and JSON handling in the hooks. Their outcomes are parameters of the model: `loadCartData` and `loadRecentlyViewed` take the parsed response, or `None` when the request failed, was not ok or did not report success; `clearCart` takes whether the server reported success; `addToRecentlyViewed` takes whether its view request completed.
- Token storage, alerts, React state updates, effect re-runs and async ordering. The hook's effect is modelled as running synchronously after each state change (`Filters.Displayed`).
- `addToCart`, `removeFromCart`, `updateQuantity`, `saveForLater`, `moveToCart` and `removeSavedItem`: the client only posts to the server and reloads. Their merge and move rules live in a server route file that is not part of this model.
- `clearRecentlyViewed`, `updateSort` and `updateSearch`: each only replaces one piece of state whole.
- bcrypt hashing, JWT signing, rate limiting, the request validators of the auth routes, MongoDB queries and saves, and the `lastLogin` update.
- hooks/userAuth.tsx and hooks/useAuth.ts: an auth flow made of network and storage calls.
- components/ProductCard.tsx, components/SortModal.tsx and all styling: rendering only.
- Text.Lower: maps only ASCII 'A'..'Z'. Upper-case letters outside ASCII are not lowered as JavaScript's `toLowerCase` would lower them.
- Backend.FirstImageOfImages: when the first image is an object whose `url` is empty, the source falls back to the object itself; the model gives "".
- Floating point: ratings are exact reals, and prices and quantities are unbounded integers, so rounding and overflow of the totals are not modelled.
- The search hit test reads a field that may be absent only for `subcategory`. Every other field is a string, as in types/index.ts.
