# Storefront cart and catalogue, modelled in Dafny

This project models two pieces of a small storefront's browser scripts:

- **The cart line-item store** (`Cart` in `assets/js/cart.js`). The cart keeps an ordered list of line items `{id, name, price, image, quantity}`.
  - It adds a product by finding its line and adding one to its quantity, or by appending a new line of one.
  - It removes every line with an id, and sets or removes a quantity.
  - It derives the subtotal, the shipping fee (free from 50, otherwise 5.99), the total and the header badge count.
  - After every saving change it mirrors the list into the browser's key-value store under the key `cart`.
  - The global `addToCart` hands a product to the cart, or repeats the add on the stored list itself when no cart has been constructed yet.
  - The decrease and increase buttons and the quantity input (`parseInt(value) || 1`) are modelled as methods.
- **The product catalogue** (`ProductRenderer` in `assets/js/products.js`).
  - The price and brand filter.
  - The case-insensitive name and brand search, where a blank query shows everything.
  - The like toggle, which reads the product id back from the button's `data-product-id` text with `parseInt`.

Modules:

- `Optional`: the Option type.
- `Seqs` (`seqs.dfy`): `Array.prototype.find` as `First`/`FindFirst`, and `Array.prototype.filter` as `Keep`. It also defines the positions a filter keeps (`KeptIndices`) and reading a sequence at positions (`Select`).
- `Text` (`text.dfy`): the string built-ins the scripts call.
  - `trim`, with the ECMAScript whitespace set.
  - `toLowerCase`, on ASCII letters.
  - `includes`.
  - `parseInt` with no radix: leading whitespace, one sign, a `0x` prefix, a digit run, and NaN as `None`.
- `CartStore` (`cart.dfy`): the cart.
  - The meaning of each operation is a function on the item list: `AddTo`, `RemoveFrom`, `SetQuantity`, `Subtotal`, `Shipping`, `Total`, `Count`.
  - The class `Cart` changes its `items` field in place, with the store as a separate `Store` object. Its methods are proved against those functions.
  - The ghost predicate `Saved()` says that the store holds the items and the badge shows their count.
- `Catalogue` (`products.dfy`): the renderer.
  - `filteredProducts` is a shallow copy or a filter of `products`, so it shares the product objects. It is therefore kept as positions into `products` (`shown`), and `FilteredProducts()` reads them back. A like click changes `products` and is seen through the shown list as it is in the browser.

Points where the behaviour is easy to misread; the model follows the code:

- Shipping is free from a subtotal of exactly 50 on (`>= 50`), although the comment at assets/js/cart.js:95 says "over $50".
- Loading the cart does not recover from a malformed stored value. `JSON.parse` throws; only an absent (or empty) value becomes the empty cart. The model's store holds lists, so it has no malformed values.
- The brand value `'all'` is compared case-sensitively before any lower-casing. So `'ALL'` is a real brand constraint, while `'all'` is none.
- The search query is trimmed only for the blank test. A non-blank query is matched with its surrounding spaces.
- When a product is already in the cart, adding it again keeps the price stored in its line. The subtotal grows by that price, not by the product's current one (`AddRaisesSubtotal`).

## Model

| member | source | states |
|---|---|---|
| Seqs.First | assets/js/cart.js:48 | `find` as a position: the result is the first index whose element passes, every earlier element fails, and None means no element passes |
| Seqs.FindFirst | assets/js/cart.js:48 | the linear scan returns exactly the first passing position (`First`) |
| Seqs.Keep | assets/js/cart.js:69 | `filter` keeps only passing elements, drawn from the input, and keeps every passing element; never longer than the input |
| Seqs.KeepIsSelection | assets/js/products.js:162-171 | a filter's result is the input read at strictly increasing positions, and a position is kept if and only if its element passes |
| Seqs.KeepAll | assets/js/products.js:161-171 | a filter that every element passes returns its input unchanged |
| Seqs.KeepIdempotent | assets/js/cart.js:69 | filtering twice with the same test equals filtering once |
| Seqs.KeptFromCongruent | assets/js/products.js:162-171 | two tests that agree position by position keep the same positions |
| Text.TrimStart | assets/js/products.js:186 | the result is a suffix of the input, everything dropped is whitespace, and it does not start with whitespace |
| Text.TrimEnd | assets/js/products.js:186 | the result is a prefix of the input, everything dropped is whitespace, and it does not end with whitespace |
| Text.BlankIffAllWhitespace | assets/js/products.js:186 | `!query.trim()` holds exactly when every character of the query is whitespace |
| Text.Lower | assets/js/products.js:168 | `toLowerCase` keeps the length and lower-cases each character |
| Text.LowerIdempotent | assets/js/products.js:190-191 | lower-casing twice equals lower-casing once, and leaves no upper-case ASCII letter |
| Text.LowerKeepsBlank | assets/js/products.js:186-190 | a query is blank exactly when its lower-cased form is |
| Text.IncludesIffOccurs | assets/js/products.js:190-191 | `s.includes(q)` holds exactly when `q` occurs in `s` at some position |
| Text.DigitRun | assets/js/cart.js:316 | the digit run parseInt reads is all digits and is followed by a non-digit or the end |
| Text.ParseIntDecimal | assets/js/cart.js:316 | parseInt reads back any integer written in decimal, followed by nothing or by text that does not start with a digit, except that a lone 0 must not be followed by x or X ("0x1F" reads as hex 31) |
| Text.ParseIntWithoutDigits | assets/js/cart.js:316 | text with no decimal digit parses to NaN |
| CartStore.Subtotal | assets/js/cart.js:91-93 | the subtotal is not negative when no price or quantity is negative |
| CartStore.Shipping | assets/js/cart.js:96-99 | shipping is 0 if and only if the subtotal reaches 50, and 5.99 otherwise |
| CartStore.Total | assets/js/cart.js:102-104 | the total is the subtotal from 50 on, and the subtotal plus 5.99 below 50 |
| CartStore.Count | assets/js/cart.js:108 | with every quantity at least 1, the badge count is at least the number of lines |
| CartStore.TypedQuantity | assets/js/cart.js:316 | the typed quantity (parseInt of the text, or 1 when that is NaN or 0) is never 0 |
| CartStore.TypedQuantityRule | assets/js/cart.js:316 | a typed integer reads as itself when followed by nothing or by text that does not start with a digit (but not x or X after a lone 0, which starts a hex number); a typed 0 becomes 1 |
| CartStore.TypedWithoutDigits | assets/js/cart.js:316 | typed text without any digit becomes quantity 1 |
| CartStore.Cart.constructor | assets/js/cart.js:3-6 | a new cart holds the stored list, or the empty list when nothing is stored; the badge shows its count; nothing is written |
| CartStore.Cart.LoadFromStorage | assets/js/cart.js:35-38 | an absent stored value loads as the empty cart, a present one as itself |
| CartStore.Cart.SaveToStorage | assets/js/cart.js:41-44 | after saving, the store holds the items, loading gives them back, and the badge shows their count |
| CartStore.Cart.UpdateCartCount | assets/js/cart.js:107-108 | the badge shows the sum of the quantities |
| CartStore.Cart.AddItem | assets/js/cart.js:47-65 | the items become `AddTo` of the old items and are saved; unique ids and positive quantities are preserved |
| CartStore.Cart.RemoveItem | assets/js/cart.js:68-73 | the items become `RemoveFrom` of the old items and are saved; no line keeps the id; well-formedness is preserved |
| CartStore.Cart.UpdateQuantity | assets/js/cart.js:76-88 | n <= 0 is removeItem; a positive n sets the line with the id and saves; an unknown id changes neither items, store nor badge |
| CartStore.Cart.DecreaseClicked | assets/js/cart.js:286-293 | the quantity goes down by one through updateQuantity, so a line at 1 is removed; an unknown id changes nothing |
| CartStore.Cart.IncreaseClicked | assets/js/cart.js:295-302 | the quantity goes up by one through updateQuantity; an unknown id changes nothing |
| CartStore.Cart.QuantityTyped | assets/js/cart.js:312-323 | a typed value is read as parseInt of the text, or 1 when that is NaN or 0, and then goes through updateQuantity |
| CartStore.AddToCart | assets/js/cart.js:362-387 | with a cart, it is addItem; without one, the store receives `AddTo` of the loaded list |
| CartStore.FallbackAgreesWithAddItem | assets/js/cart.js:367-382 | the fallback stores exactly the list a cart loaded from the same store stores after addItem |
| CartStore.CheckoutScenario | assets/js/cart.js:91-104 | one product at 47: 47 / 5.99 / 52.99; added again: 94 / 0 / 94; a reloaded cart sees one line of quantity 2 |
| CartStore.UniqueIndexOf | assets/js/cart.js:48 | with unique ids, the search for a line's id finds that line |
| CartStore.AddExistingIncrements | assets/js/cart.js:48-51 | adding a product already present adds exactly 1 to its line; the length and every other line are unchanged |
| CartStore.AddNewAppends | assets/js/cart.js:52-60 | adding a new product appends `{id,name,price,image,quantity:1}` after the unchanged earlier lines |
| CartStore.AddKeepsWellFormed | assets/js/cart.js:47-60 | adding keeps ids unique and quantities at least 1 |
| CartStore.AddRaisesCount | assets/js/cart.js:47-60 | adding raises the badge count by exactly 1 |
| CartStore.AddRaisesSubtotal | assets/js/cart.js:48-59 | adding raises the subtotal by the new product's price, or by the price stored in its existing line |
| CartStore.RemoveKeepsOthersInOrder | assets/js/cart.js:69 | no line with the id remains; the rest are the original lines at increasing positions, exactly those with another id |
| CartStore.RemoveIdempotent | assets/js/cart.js:69 | removing twice equals removing once, and removing an absent id changes nothing |
| CartStore.RemoveKeepsWellFormed | assets/js/cart.js:69 | removing keeps ids unique and quantities at least 1 |
| CartStore.SetQuantityChangesOnlyThatLine | assets/js/cart.js:82-84 | a positive quantity is written into the line with the id; the length and every other line are unchanged |
| CartStore.SetQuantityUnknownId | assets/js/cart.js:82-83 | an unknown id leaves the items as they are |
| CartStore.SetQuantityKeepsWellFormed | assets/js/cart.js:77-84 | setting a quantity of at least 1 keeps ids unique and quantities at least 1 |
| CartStore.SetQuantityMovesCount | assets/js/cart.js:84 | the badge count moves by the new quantity minus the old one |
| CartStore.SubtotalUpdate | assets/js/cart.js:92 | replacing one line changes the subtotal by the difference of the two line totals |
| CartStore.CountUpdate | assets/js/cart.js:108 | replacing one line changes the count by the difference of the two quantities |
| CartStore.SubtotalOfOne | assets/js/cart.js:92 | the subtotal of one line is its price times its quantity |
| Catalogue.ProductRenderer.constructor | assets/js/products.js:78-84 | the renderer starts with the catalogue, and the shown list is a full copy: every position, in order, so it shares every product |
| Catalogue.ProductRenderer.FilterProducts | assets/js/products.js:161-175 | the shown positions become exactly those a filter keeps, so the shown list is the filter's result; the products are not modified |
| Catalogue.ProductRenderer.SearchProducts | assets/js/products.js:185-197 | the shown positions become all positions for a blank query, and exactly the matching ones otherwise, so the shown list is the search result; the products are not modified |
| Catalogue.ProductRenderer.HandleLikeClick | assets/js/products.js:145-159 | the attribute is read with parseInt, and the product with that id has its like flipped; NaN changes nothing; the shown positions stay, so a shown list that was a filter's or a search's result still is one, now with the flipped like |
| Catalogue.FilterSelectsExactly | assets/js/products.js:162-171 | the filter result is the products at increasing positions, exactly those that pass; kept ones are within every given bound; dropped ones cross a bound or fail a constraining brand |
| Catalogue.NoFiltersKeepsAll | assets/js/products.js:161 | the default `{}` keeps every product |
| Catalogue.BrandAllIsNoConstraint | assets/js/products.js:168 | a brand of `'all'` or `''` filters exactly like no brand |
| Catalogue.BrandIgnoresCase | assets/js/products.js:168 | a brand and its lower-cased form filter alike, unless that form is `'all'` |
| Catalogue.SearchSelectsExactly | assets/js/products.js:189-192 | a non-blank query keeps, in order, exactly the products whose lower-cased name or brand contains the lower-cased query |
| Catalogue.SearchIgnoresCase | assets/js/products.js:189-192 | searching for the lower-cased query gives the same result as the query itself |
| Catalogue.LikeFlipsOnlyThatProduct | assets/js/products.js:150-153 | a click on an existing id flips only that product's like |
| Catalogue.LikeUnknownIdIsNoOp | assets/js/products.js:150-152 | an unknown id changes nothing |
| Catalogue.RenderedButtonNamesItsProduct | assets/js/products.js:149 | the id written into a rendered button is read back by parseInt as that same id |
| Catalogue.LikeTwiceRestores | assets/js/products.js:150-153 | two clicks on the same id restore every product |
| Catalogue.LikeKeepsSelections | assets/js/products.js:150-153 | a like click does not change which positions a filter or a search keeps |
| Catalogue.LikeSeenThroughFilter | assets/js/products.js:150-153 | the positions a filter kept before a like click, read from the clicked list, are what the filter selects from it |
| Catalogue.LikeSeenThroughSearch | assets/js/products.js:150-153 | a search shows the same positions after a like click, and they read back as the search result on the clicked list |
| Catalogue.FilterShowsItsPositions | assets/js/products.js:162-171 | the positions a filter keeps, read back, are the filter's result |
| Catalogue.SearchShowsItsPositions | assets/js/products.js:186-192 | the positions a search shows, read back, are the search's result |
| Catalogue.FilterThenLike | assets/js/products.js:145-175 | after a filter and then a like click on a rendered button, the shown list is still the filter's result and that product is flipped |
| Catalogue.Filtered | assets/js/products.js:162-171 | every kept product passes the price bounds and brand test, and every passing product is kept |
| Catalogue.Searched | assets/js/products.js:185-192 | a blank query keeps every product; otherwise every kept product's lower-cased name or brand contains the lower-cased query |
| Catalogue.ToggledLike | assets/js/products.js:150-153 | the length is kept, products differ at most in their like, and products with another id are untouched |
| Seqs.AllIndices | assets/js/products.js:81 | the positions of `[...this.products]`: 0 to n-1 in order |
| Text.ParseInt | assets/js/cart.js:316 | empty or whitespace-only text is NaN, and a negative result needs a leading minus after the whitespace |
| Text.Trim | assets/js/products.js:186 | `trim()` returns a piece of the text that neither starts nor ends with whitespace |
| Text.Includes | assets/js/products.js:190-191 | the empty query is included in every string, and an included query is no longer than the string |
| CartStore.AddTo | assets/js/cart.js:47-60 | one more line exactly when the id was absent, a line with the product's id afterwards, and the ids of the earlier lines unchanged |
| CartStore.RemoveFrom | assets/js/cart.js:69 | no line with the id remains, every remaining line was in the cart, and every line with another id remains |
| CartStore.SetQuantity | assets/js/cart.js:82-84 | the length is kept, lines differ at most in their quantity, and lines with another id are untouched |
| CartStore.Load | assets/js/cart.js:35-38 | an absent stored value loads as the empty list, a present one as the stored list |
| CartStore.Store.constructor | assets/js/cart.js:36 | the store holds the given value under the key `cart` (None when the key is absent) |

## Left out

- DOM and browser glue is not modelled:
  - `renderCart`, `updateSummary`, `showToast`, `createTemporaryToast` and `showToastNotification`;
  - `createProductHTML`, `renderProducts`, `initLikeButtons`, the `classList` toggle and `updateProductCount`;
  - the badge is the count itself, not its DOM elements.
- The `waitForHeader` polling, the event wiring in `bindEvents` and the 500 ms input debounce are not modelled. The handlers' arithmetic is modelled as methods. A typed quantity is applied when the delay has passed.
- The cart singleton's construction races between `DOMContentLoaded`, `template-loaded` and the fallback timer (assets/js/cart.js:338-359) are left out. `AddToCart` takes the cart or its absence as a parameter.
- The checkout button's navigation (assets/js/cart.js:327-333) is left out: it changes the page, not the cart.
- The remove button (assets/js/cart.js:304-308) calls `removeItem` directly. It is `CartStore.Cart.RemoveItem`.
- JSON is not modelled. The store holds the item list itself. The empty string as a stored value, which both loaders treat as the empty cart, cannot occur in the model.
- The model assumes each cart line is its own record. Line records are mutated in place in the source, but nothing else refers to them.
- Prices are exact reals, not IEEE doubles. Rounding of sums such as 47 + 5.99 is not modelled.
- `toLowerCase` is modelled for ASCII letters only. Other letters are kept as they are.
- `parseInt` results are exact integers. Precision loss above 2^53 is not modelled.
- Filter bounds are numbers or absent. A `null` bound, which JavaScript compares as 0, is not modelled.
- The catalogue literal `productsData` is the constructor's argument.
  - Its eight products are not restated.
  - The sharing of that one global array between several renderers is not modelled.
- The `applyFilters` and `searchProducts` globals in products.js are not modelled. They read DOM inputs.
