# Storefront cart and catalogue logic in Dafny

This project models the logic of a small client-side storefront. The model has three parts:

- **The cart store** (`src/hooks/useCart.ts`). It holds an ordered list of cart items `{ id, title, price, image, quantity }`. Four mutators replace that list: `addItem`, `removeItem`, `updateQuantity` and `clearCart`. Two queries sum over it: `getTotalPrice` and `getTotalItems`.
- **The catalogue page's pipeline** (`src/pages/Products.tsx`). `filterProducts` first applies a case-insensitive search over title and description. It then applies a category filter, where `"all"` switches the filter off. Last, it sorts a fresh copy in place. The page also builds a category drop-down list: `"all"` followed by the distinct categories.
- **The product page** (`src/pages/ProductDetail.tsx`). It has a quantity selector that never goes below 1. Its "Add to Cart" handler calls `addItem` once per selected unit in a counted loop. It shows a SKU label, which is the id zero-padded to six characters.

Files and modules:

| file | module | what |
|---|---|---|
| `wrappers.dfy` | `Wrappers` | `Option`, for `null` products and `Array.find` misses |
| `sequences.dfy` | `Sequences` | `map`, `filter` and `Array.from(new Set(..))` as functions, with subsequence and first-occurrence lemmas |
| `cart.dfy` | `CartStore` | the item datatypes, one pure function per mutator, the totals, the class `Cart` whose methods replace `items`, and lemmas about all of them |
| `products.dfy` | `ProductList` | `Product`, the search and category steps, an in-place insertion sort on an array, `FilterProducts`, `Categories` |
| `product_detail.dfy` | `ProductDetailPage` | the class `QuantitySelector`, `HandleAddToCart` with its loop, repeated-add lemmas, and the SKU string with its round trip |

How the model represents the source:

- **Money and ratings.** Prices are whole cents (`int`) and ratings are whole tenths of a star (`int`). The page's comparators (`a.price - b.price`, `b.rating.rate - a.rating.rate`) use only the sign of a difference. That sign is exact in floating point, so integer keys give the same order. Cart totals are exact integer sums.
- **Cart mutators.** Each mutator of `Cart` has no precondition. It states its new `items` as a pure function of the old list, such as `AddItemTo(old(items), n)`. It also keeps the store invariant `Valid()`: one row per id, and every quantity at least 1. The lemmas beside the functions state what each operation does to the list and to the totals.
- **Rows with the same id.** `items` is an array. A repeated `addItem` maps over it and bumps every row with that id (src/hooks/useCart.ts:32-36). `AddItemTo` does the same, and `Valid()` keeps that to one row.
- **Unchecked prices.** The code never checks prices (src/hooks/useCart.ts:68-70). So `TotalPrice` and `GetTotalPrice` promise a non-negative total only when every price and quantity is non-negative.
- **Stored unit price.** A repeated add does not change the stored unit price. The total therefore rises by the price stored at the first add, not by the price passed now (`TotalsAfterAddExisting`).
- **Name sort.** The default branch of the comparator calls `a.title.localeCompare(b.title)`, whose result depends on the locale. This is code the model cannot see, so `FilterProducts` takes a parameter `collation: string -> int`. It stands for the rank the locale's collation gives each title. `Compare` is the comparator with `localeCompare` read as the difference of two ranks.

## Model

| member | source | states |
|---|---|---|
| `Sequences.Map` | src/hooks/useCart.ts:32-36 | `map` keeps the length; element i of the result is `f` applied to element i of the input |
| `Sequences.Filter` | src/pages/Products.tsx:56-64 | `filter` never lengthens its input |
| `Sequences.FilterSpec` | src/pages/Products.tsx:56-64 | `filter` keeps exactly the elements that satisfy the predicate, every copy of each. The result is an order-preserving subsequence and a sub-multiset of the input |
| `Sequences.FilterKeepsAll` | src/hooks/useCart.ts:47 | a filter that rejects no element returns its input unchanged |
| `Sequences.FilterIdempotent` | src/hooks/useCart.ts:47 | filtering twice by the same predicate gives the same result as filtering once |
| `Sequences.SubsequenceTransitive` | src/pages/Products.tsx:52-65 | a subsequence of a subsequence is a subsequence, so two filter steps in a row keep the input's order |
| `Sequences.DistinctInOrder` | src/pages/Products.tsx:97 | `Array.from(new Set(xs))` has no duplicates and holds exactly the values of `xs` |
| `Sequences.DistinctInOrderFirstOccurrence` | src/pages/Products.tsx:97 | the distinct values come in the order in which they first occur in `xs` |
| `CartStore.Find` | src/hooks/useCart.ts:28 | `find` returns `None` exactly when no row has the id. Otherwise it returns a row with that id, and no earlier row has that id |
| `CartStore.AddItemTo` | src/hooks/useCart.ts:27-43 | after `addItem` the id is in the cart |
| `CartStore.AddItemToLength` | src/hooks/useCart.ts:27-43 | `addItem` adds a row exactly when the id was absent, and otherwise keeps the length |
| `CartStore.RemoveItemFrom` | src/hooks/useCart.ts:45-49 | after `removeItem` no row with the id is left, and the cart never grows |
| `CartStore.UpdateQuantityIn` | src/hooks/useCart.ts:51-62 | a count of 0 or less leaves no row with the id. A positive count keeps the length and whether the id is present. Either way, every row with the id has exactly the new count |
| `CartStore.AddExisting` | src/hooks/useCart.ts:28-37 | adding a present id raises that row's quantity by exactly 1. Every other row, and the order, stays the same |
| `CartStore.AddAbsent` | src/hooks/useCart.ts:38-41 | adding an absent id appends exactly one row with quantity 1, after the existing rows |
| `CartStore.AddAfterAppended` | src/hooks/useCart.ts:28-37 | adding an id right after it was appended raises the appended row's quantity by 1 and changes nothing else |
| `CartStore.AddKeepsWellFormed` | src/hooks/useCart.ts:27-43 | if ids are distinct and quantities are at least 1 before `addItem`, the same holds after it |
| `CartStore.RemoveKeepsOthers` | src/hooks/useCart.ts:45-49 | `removeItem` keeps exactly the rows whose id differs, as an order-preserving subsequence. No row with the id is left |
| `CartStore.RemoveAbsent` | src/hooks/useCart.ts:45-49 | removing an id that is absent leaves the list unchanged |
| `CartStore.RemoveIdempotent` | src/hooks/useCart.ts:45-49 | removing the same id twice gives the same list as removing it once |
| `CartStore.RemovePresent` | src/hooks/useCart.ts:45-49 | when the id is on exactly one row k, removing it gives `items[..k] + items[k+1..]` |
| `CartStore.RemoveKeepsWellFormed` | src/hooks/useCart.ts:45-49 | `removeItem` keeps the store invariant |
| `CartStore.UpdateNonPositiveRemoves` | src/hooks/useCart.ts:51-55 | a count of zero or less acts as `removeItem`, and no row with that id remains |
| `CartStore.UpdatePositive` | src/hooks/useCart.ts:57-61 | a positive count sets that row's quantity to exactly the count (an absolute set, not a delta). All other rows and the order are unchanged |
| `CartStore.UpdateAbsent` | src/hooks/useCart.ts:51-61 | updating an id that is absent leaves the list unchanged, whatever the count |
| `CartStore.UpdateKeepsWellFormed` | src/hooks/useCart.ts:51-62 | `updateQuantity` keeps the store invariant, so no row is ever left at zero or below |
| `CartStore.SumOfNonNegative` | src/hooks/useCart.ts:68-74 | a `reduce` sum of non-negative terms is non-negative |
| `CartStore.SumOfAtLeastCount` | src/hooks/useCart.ts:72-74 | a `reduce` sum of terms that are each at least 1 is at least the number of terms |
| `CartStore.SumOfAppend` | src/hooks/useCart.ts:68-74 | the `reduce` sum over a concatenation is the sum of the two parts' sums |
| `CartStore.SumOfUpdate` | src/hooks/useCart.ts:68-74 | replacing one row changes the `reduce` sum by the new row's term minus the old row's term |
| `CartStore.TotalPrice` | src/hooks/useCart.ts:68-70 | with non-negative prices and quantities, the total price is non-negative |
| `CartStore.TotalItems` | src/hooks/useCart.ts:72-74 | when every quantity is at least 1, the unit count is at least the number of rows |
| `CartStore.TotalsAfterReplace` | src/hooks/useCart.ts:68-74 | replacing row k changes the total price by the difference of the two line prices, and the unit count by the difference of the two quantities |
| `CartStore.TotalsAfterAddExisting` | src/hooks/useCart.ts:68-74 | a repeated add raises the unit count by 1, and the total price by the unit price stored on the row |
| `CartStore.TotalsAfterAddAbsent` | src/hooks/useCart.ts:68-74 | a first add raises the unit count by 1, and the total price by the price passed in |
| `CartStore.TotalItemsAfterAdd` | src/hooks/useCart.ts:72-74 | with distinct ids, every `addItem` adds exactly one unit |
| `CartStore.TotalsAfterRemove` | src/hooks/useCart.ts:68-74 | removing a present row takes its `price * quantity` off the total price, and its quantity off the unit count |
| `CartStore.TotalsAfterUpdate` | src/hooks/useCart.ts:68-74 | a positive update changes the total price by `price * (new - old)`, and the unit count by `new - old` |
| `CartStore.Cart.constructor` | src/hooks/useCart.ts:25 | the store starts with no items, and the invariant holds |
| `CartStore.Cart.AddItem` | src/hooks/useCart.ts:27-43 | the new list is `AddItemTo(old list, item)`, and the invariant is kept |
| `CartStore.Cart.RemoveItem` | src/hooks/useCart.ts:45-49 | the new list is `RemoveItemFrom(old list, id)`, and the invariant is kept |
| `CartStore.Cart.UpdateQuantity` | src/hooks/useCart.ts:51-62 | the new list is `UpdateQuantityIn(old list, id, quantity)`, and the invariant is kept |
| `CartStore.Cart.ClearCart` | src/hooks/useCart.ts:64-66 | the list is empty afterwards |
| `CartStore.Cart.GetTotalPrice` | src/hooks/useCart.ts:68-70 | the total is 0 for an empty cart, and non-negative when every price and quantity is non-negative |
| `CartStore.Cart.GetTotalItems` | src/hooks/useCart.ts:72-74 | the count is 0 for an empty cart; under the invariant it is at least the number of rows |
| `ProductList.ToLower` | src/pages/Products.tsx:57-58 | `toLowerCase` keeps the length. Each letter A to Z becomes the matching letter a to z, and every other character stays as it is, so no letter A to Z is left |
| `ProductList.Includes` | src/pages/Products.tsx:57-58 | the empty term occurs in every text, and no term occurs in a shorter text |
| `ProductList.ToLowerIdempotent` | src/pages/Products.tsx:57-58 | lower-casing twice is lower-casing once |
| `ProductList.IncludesIff` | src/pages/Products.tsx:57-58 | `includes` holds exactly when the needle occurs at some position of the text |
| `ProductList.SearchStep` | src/pages/Products.tsx:55-60 | an empty term keeps every product. Otherwise a product is kept exactly when the lower-cased term occurs in its lower-cased title or description. Every copy of a matching product survives. The result is a subsequence of the input |
| `ProductList.CategoryStep` | src/pages/Products.tsx:63-65 | `"all"` keeps every product. Any other value keeps exactly the products of that category, every copy of each. The result is a subsequence |
| `ProductList.Selected` | src/pages/Products.tsx:52-65 | before sorting, the list is an order-preserving subsequence of `products`. It holds exactly the products that pass both filters, each as often as in `products` |
| `ProductList.SortKey` | src/pages/Products.tsx:68-79 | one product's key is at most another's exactly when the comparator for `sortBy` does not put the second first |
| `ProductList.SortInPlace` | src/pages/Products.tsx:68-79 | afterwards the array is ordered by the key and is a permutation of its old contents |
| `ProductList.FilterProducts` | src/pages/Products.tsx:51-82 | the result is a permutation of the filtered list. It holds exactly the products passing both filters, each as often as in `products`. For i < j the comparator never puts element j before element i. Its order depends on `sortBy`: non-decreasing price for `"price-low"`, non-increasing price for `"price-high"`, non-increasing rating for `"rating"`, and non-decreasing collation rank of the title otherwise |
| `ProductList.Categories` | src/pages/Products.tsx:97 | the list starts with `"all"`. Each category of a product follows exactly once, with no others, in first-occurrence order |
| `ProductDetailPage.Decremented` | src/pages/ProductDetail.tsx:204 | the minus button gives `max(1, quantity - 1)`: at least both bounds, and equal to one of them |
| `ProductDetailPage.Step` | src/pages/ProductDetail.tsx:204-213 | one click keeps a quantity of at least 1 at least 1, and raises a non-negative quantity by at most 1 |
| `ProductDetailPage.QuantityAfter` | src/pages/ProductDetail.tsx:204-213 | starting from 1, any sequence of minus and plus clicks leaves the quantity between 1 and the number of clicks plus 1 |
| `ProductDetailPage.QuantitySelector.constructor` | src/pages/ProductDetail.tsx:25 | the selector starts at 1 |
| `ProductDetailPage.QuantitySelector.Decrement` | src/pages/ProductDetail.tsx:204 | the new quantity is `Decremented(old)`, which is at least 1 |
| `ProductDetailPage.QuantitySelector.Increment` | src/pages/ProductDetail.tsx:213 | the quantity rises by exactly 1 |
| `ProductDetailPage.AddTimesExisting` | src/pages/ProductDetail.tsx:49-56 | `count` adds of a present id raise that row's quantity by `count`. Every other row and the order stay the same |
| `ProductDetailPage.AddTimesAbsent` | src/pages/ProductDetail.tsx:49-56 | `count` >= 1 adds of an absent id append one row with quantity `count` |
| `ProductDetailPage.AddTimesKeepsWellFormed` | src/pages/ProductDetail.tsx:49-56 | the repeated adds keep the store invariant |
| `ProductDetailPage.TotalItemsAfterAddTimes` | src/pages/ProductDetail.tsx:49-56 | the cart gains exactly `quantity` units, or none when `quantity` <= 0 |
| `ProductDetailPage.HandleAddToCart` | src/pages/ProductDetail.tsx:47-62 | with a product, the cart becomes the old cart with `addItem` applied exactly `quantity` times. With `null`, the cart is unchanged. The invariant is kept |
| `ProductDetailPage.DecimalDigits` | src/pages/ProductDetail.tsx:245 | the decimal text of a number is at least one digit, all digits, with no leading zero unless the number is 0 |
| `ProductDetailPage.NumberToString` | src/pages/ProductDetail.tsx:245 | `toString` of an integer is non-empty. A non-negative id gives only digits; a negative one gives a minus sign followed by digits |
| `ProductDetailPage.Sku` | src/pages/ProductDetail.tsx:245 | the SKU is at least 6 characters. It ends with the id's text and is zeros before it |
| `ProductDetailPage.PadStart` | src/pages/ProductDetail.tsx:245 | the result has length `max(target, |s|)`, ends with `s`, and is `fill` before that |
| `ProductDetailPage.DecimalDigitsValue` | src/pages/ProductDetail.tsx:245 | the decimal text of `n` is all digits and reads back as `n` |
| `ProductDetailPage.SkuOfNonNegative` | src/pages/ProductDetail.tsx:245 | the SKU of an id >= 0 is all digits and reads back as the id. It has length 6 below one million, and is the unpadded decimal text from one million up |
| `ProductDetailPage.SkuReadsBack` | src/pages/ProductDetail.tsx:245 | the SKU of an id >= 0 is all digits and reads back as the id |
| `ProductDetailPage.SkuLength` | src/pages/ProductDetail.tsx:245 | the SKU is exactly 6 characters when the id's text is shorter, and exactly the text's length otherwise, for negative ids too |
| `ProductDetailPage.NumberToStringValue` | src/pages/ProductDetail.tsx:245 | the text of an id >= 0 reads back as the id. For a negative id, the digits after the minus sign read back as `-id` |
| `ProductDetailPage.SkuOfNegative` | src/pages/ProductDetail.tsx:245 | for a negative id, the zeros go in front of the minus sign |

## Left out

- Persistence: the `persist` middleware and its `cart-storage` key in `localStorage` (src/hooks/useCart.ts:22-23, 76-78) are library code that is not shown. The model keeps only the in-memory list.
- Network fetches and loading flags (src/pages/Products.tsx:39-49, src/pages/ProductDetail.tsx:29-45) are asynchronous I/O. The product list and the loaded product are parameters.
- Toasts, routing, animation and all rendering are outside the model, and so are the page state `viewMode` and `selectedImage`.
- The catalogue page's own `handleAddToCart` (src/pages/Products.tsx:84-95) is one `addItem` call plus a toast. `Cart.AddItem` covers it.
- The two pages declare the same `Product` interface. The model has one `Product` datatype.
- Floating point: prices and ratings are integers in fixed units. Rounding in float sums of `price * quantity` is not modelled, nor are non-integer quantities passed to `updateQuantity`.
- `ProductList.ToLower`: only the letters A to Z are lower-cased. Unicode case mapping, which can change a string's length, is not modelled.
- `ProductList.FilterProducts`: the name order uses a caller-supplied collation rank in place of `localeCompare`. The model does not capture how a locale collates.
- `ProductList.SortInPlace`: the model proves that the result is sorted and is a permutation. It does not prove stability, although the engine's `Array.prototype.sort` is stable.
- `ProductDetailPage.NumberToString`: only integers are modelled. The exponent form that `toString` uses from 10^21 up is not.
