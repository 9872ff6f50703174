# Storefront cart, catalog and contact logic in Dafny

This project models the client-side logic of a small storefront web application
(a Next.js shop selling jerseys and other apparel) and proves properties of it:

- **Cart counter** (`CartContext`): the cart provider keeps an in-memory record
  of item id to count. `addItem` raises a count by one; `removeItem` lowers it
  and deletes the key at one; the page badge shows the sum of all counts. The
  cookie helper that removes a guest item keeps the lines whose `String(ID)`
  differs from the given id.
- **Guest cart page** (`CartPage`): for a visitor who is not signed in, the cart
  page rebuilds its list of lines on each change (quantity, size, removal,
  adding a catalog product), stores it and derives the item count and the
  grand total from it.
- **Contact endpoint** (`SendContact`): the `POST` handler checks the four form
  fields, then the mail credentials, and escapes the visitor's text for HTML with
  five replacements, `&` first.
- **Shop page** (`Catalog`, `Shop`): the category and search filter, the price
  sort and the list of categories offered.
- **Home page** (`Home`): the search over the catalog and the grouping of the
  results into one carousel per category.

Helper modules: `Options` (an optional value, JavaScript truthiness of a string),
`Seqs` (`filter`, deduplication in first-occurrence order), `MapSums` (the sum of
the values of a map, independent of key order).

Modelling choices:

- An item ID is `number | string` (`ItemId`). The cart code compares IDs through
  `String(...)`, modelled by `IdKey`, which writes a numeric ID, taken to be an
  integer of magnitude below 2^53, in plain decimal with a leading `-` when
  negative.
- The cart page picks the line to change by object identity (`it === item`). The
  model names that line by its index in the list.
- An absent `Quantity` reads as 0, matching the source's `Number(Quantity || 0)`
  and `Quantity > 0`. Prices and custom prices are optional integers.
- `toLowerCase` is modelled for the ASCII letters only.
- `totalItems` is the ghost `MapSums.Sum` of the counter's map.
- The grouping `reduce` on the home page becomes a loop (`Home.Group`) over a
  map of sequences. It also returns the order in which keys are first set.

Two behaviours of the guest cart that the model keeps as the code has them:

- A guest line whose product is missing from the catalog has base price 0, but
  it still adds its customization surcharge times its quantity to the grand
  total (`src/app/cart/page.tsx` lines 146-151).
- Guest `addToCart` merges by ID only. It bumps every line with that ID,
  whatever its size, and when no line has the ID it appends a new line of size
  `"S"` (`src/app/cart/page.tsx` lines 225-242).

## Model

| member | source | states |
|---|---|---|
| CartContext.NatDigits | src/context/CartContext.tsx:121 | `String(n)` of a safe natural number (below 2^53) is a non-empty run of decimal digits |
| CartContext.NatDigitsInjective | src/context/CartContext.tsx:121 | different natural numbers have different decimal forms |
| CartContext.IdKey | src/context/CartContext.tsx:121 | `String(id)`: a text ID as it is, a numeric ID in decimal; its meaning is stated by `NumKeyMatches` and `LeadingZeroNeverMatches` |
| CartContext.NatDigitsNoLeadingZero | src/context/CartContext.tsx:121 | only zero is written with a leading `0`, and then as the single digit `"0"` |
| CartContext.NumKeyMatches | src/context/CartContext.tsx:121 | two numeric IDs match under `String(...)` exactly when they are equal |
| CartContext.LeadingZeroNeverMatches | src/context/CartContext.tsx:121 | a text ID with a leading zero and more than one character, such as `"01"`, matches no numeric ID |
| CartContext.CountOf | src/context/CartContext.tsx:26 | `prev[id] \|\| 0`: the stored count, or 0 for an absent id; used by `AfterAdd`, whose contract states the new count |
| CartContext.AfterAdd | src/context/CartContext.tsx:23-27 | the id's count becomes its old count (0 when absent) plus one; every other id keeps its count; all-positive counts stay positive |
| CartContext.AfterRemove | src/context/CartContext.tsx:31-45 | a zero or absent count leaves the cart unchanged; a count of one removes the key; any other count drops by one; no other id changes; no new zero appears; all-positive counts stay positive |
| MapSums.Sum | src/context/CartContext.tsx:47 | `Object.values(cart).reduce(+, 0)` as a sum independent of key order; stated by `SumUpdate`, `SumRemove` and `SumAtLeastSize` |
| MapSums.SumUpdate | src/context/CartContext.tsx:47 | setting one key changes the sum by the new value minus the old one (0 when absent) |
| MapSums.SumRemove | src/context/CartContext.tsx:47 | deleting a present key lowers the sum by its value |
| MapSums.SumAtLeastSize | src/context/CartContext.tsx:47 | with every value at least 1 the sum is at least the number of keys |
| CartContext.TotalAfterAdd | src/context/CartContext.tsx:23-47 | `addItem` raises `totalItems` by exactly one |
| CartContext.TotalAfterRemove | src/context/CartContext.tsx:31-47 | `removeItem` lowers `totalItems` by one when the id had a non-zero count, and leaves it unchanged otherwise |
| CartContext.AddThenRemove | src/context/CartContext.tsx:23-45 | on positive counts, adding and then removing an id restores the cart |
| CartContext.RemoveThenAdd | src/context/CartContext.tsx:23-45 | on positive counts, removing a present id and adding it back restores the cart |
| CartContext.TotalBound | src/context/CartContext.tsx:47 | with positive counts, `totalItems` is at least the number of distinct ids |
| CartContext.CartCounter.constructor | src/context/CartContext.tsx:19 | the provider starts with an empty cart, which satisfies the invariant |
| CartContext.CartCounter.TotalItems | src/context/CartContext.tsx:47 | under the invariant, the total is at least the number of keys |
| CartContext.CartCounter.AddItem | src/context/CartContext.tsx:23-29 | the new cart is `AfterAdd` of the old one; the total rises by one; the invariant is kept |
| CartContext.CartCounter.RemoveItem | src/context/CartContext.tsx:31-45 | the copy-then-delete-or-decrement update yields `AfterRemove` of the old cart; the total falls by one exactly when the id had a non-zero count; the invariant is kept |
| CartContext.WithoutGuestItem | src/context/CartContext.tsx:120-121 | the result holds only lines whose `String(ID)` differs from `String(id)`, and every such line of the input |
| CartContext.WithoutGuestItemExact | src/context/CartContext.tsx:120-121 | the kept lines are in their original order, each with its original multiplicity, and matching lines have multiplicity 0 |
| CartPage.ItemCount | src/app/cart/page.tsx:139-142 | the item count is non-negative when quantities are, and at least the number of lines when all are positive |
| CartPage.ItemCountConcat | src/app/cart/page.tsx:140 | the item count of two lists together is the sum of their counts |
| CartPage.GrandTotal | src/app/cart/page.tsx:144-153 | the grand total is non-negative when every price, surcharge and quantity is |
| CartPage.GrandTotalConcat | src/app/cart/page.tsx:145-152 | the grand total of two lists together is the sum of their totals |
| CartPage.BasePrice | src/app/cart/page.tsx:146-147 | `prod?.Price != null ? Number(prod.Price) : 0`: the catalog price, or 0 when the product or its price is missing; used by `LineTotal` |
| CartPage.Surcharge | src/app/cart/page.tsx:148 | `it.isCustomized && it.customPrice ? ... : 0`: the custom price only when customized and non-zero; stated by `MissingProductLine` |
| CartPage.LineTotal | src/app/cart/page.tsx:146-151 | one line's term `(base + custom) * qty` of the grand total; stated by `MissingProductLine`, `GrandTotalConcat` and `TotalsAfterReplace` |
| CartPage.MissingProductLine | src/app/cart/page.tsx:146-151 | a line whose product is not in the catalog adds only its surcharge times its quantity, and nothing when it is not customized |
| CartPage.TotalsAfterReplace | src/app/cart/page.tsx:139-153 | replacing one line changes the item count and the grand total by that line's difference |
| CartPage.NewQuantity | src/app/cart/page.tsx:161 | the new quantity is the old one plus `delta`, clamped below at 0 |
| CartPage.ChangedQuantity | src/app/cart/page.tsx:176-178 | after a quantity change every remaining line has a positive quantity, and the list does not grow |
| CartPage.ChangedQuantityShape | src/app/cart/page.tsx:176-178 | the result is the positive lines before the target, then the target with its new quantity when that is positive, then the positive lines after it |
| CartPage.ChangedQuantityOnPositiveCart | src/app/cart/page.tsx:160-181 | on a cart of positive quantities only the target changes (or goes, at 0), and the item count moves by exactly the change of its quantity |
| CartPage.ChangedSize | src/app/cart/page.tsx:193 | the list keeps its length and the target line gets the new size |
| CartPage.ChangedSizeTouchesOnlySize | src/app/cart/page.tsx:193 | a size change leaves every other line, and every other field of the target, unchanged |
| CartPage.ChangedSizeKeepsTotals | src/app/cart/page.tsx:183-196 | neither the item count nor the grand total moves when a size changes |
| CartPage.Removed | src/app/cart/page.tsx:206 | removing a line shortens the list by one |
| CartPage.RemovedLine | src/app/cart/page.tsx:206 | removal deletes exactly that one line and keeps the others in order |
| CartPage.RemovedLineTotals | src/app/cart/page.tsx:198-209 | the item count and the grand total fall by exactly the removed line's share |
| CartPage.FindById | src/app/cart/page.tsx:225 | `find` returns nothing exactly when no line has the ID, and otherwise the first line that has it |
| CartPage.MatchCount | src/app/cart/page.tsx:228-232 | the number of matching lines is 0 exactly when no line has the ID |
| CartPage.Bumped | src/app/cart/page.tsx:228-232 | every line with the ID gets `qty` more, and every other line is unchanged |
| CartPage.NewLine | src/app/cart/page.tsx:236-240 | the appended line `{ID, Quantity: qty, Size: "S"}`, not customized; stated by `AddedToCartEffect` |
| CartPage.AddedToCart | src/app/cart/page.tsx:225-242 | with a match the list keeps its length; without one a size-"S" line is appended after the old lines |
| CartPage.AddedToCartEffect | src/app/cart/page.tsx:224-243 | with a match every matching line rises by `qty` and the others stay unchanged; otherwise the new line is appended |
| CartPage.ItemCountBumpedBy | src/app/cart/page.tsx:228-232 | the bump raises the item count by `qty` once for every matching line |
| CartPage.BumpTotalIsProduct | src/app/cart/page.tsx:228-232 | adding `qty` once per matching line adds `qty` times the number of matching lines |
| CartPage.ItemCountBumped | src/app/cart/page.tsx:228-232 | the bump raises the item count by `qty` times the number of matching lines |
| CartPage.ItemCountAfterAdd | src/app/cart/page.tsx:225-242 | adding raises the item count by `qty` per matching line, or by `qty` once when it appends |
| CartPage.AddedToCartKeepsIdsDistinct | src/app/cart/page.tsx:225-242 | if no two lines share an ID, that stays true after adding: re-adding merges instead of duplicating |
| CartPage.GuestCart.constructor | src/app/cart/page.tsx:98-99 | the page's guest state starts as the lines read from the cookie |
| CartPage.GuestCart.PersistGuest | src/app/cart/page.tsx:155-158 | the state becomes the persisted list |
| CartPage.GuestCart.ChangeQuantity | src/app/cart/page.tsx:160-181 | the state becomes `ChangedQuantity` of the old one, and every line has a positive quantity |
| CartPage.GuestCart.ChangeSize | src/app/cart/page.tsx:183-196 | the state becomes `ChangedSize` of the old one, and the item count is unchanged |
| CartPage.GuestCart.RemoveItem | src/app/cart/page.tsx:198-209 | the state becomes `Removed` of the old one, and the item count falls by the removed quantity |
| CartPage.GuestCart.AddToCart | src/app/cart/page.tsx:211-250 | the state becomes `AddedToCart` of the old one, and distinct IDs stay distinct |
| SendContact.ReplaceAll | src/app/api/send-contact/route.ts:64 | a replacement of at least one character never shortens the text; a character the replacement lacks is gone afterwards |
| SendContact.ReplaceAllAbsent | src/app/api/send-contact/route.ts:64 | a text without the character is unchanged |
| SendContact.ReplaceAllKeepsAbsent | src/app/api/send-contact/route.ts:64-68 | a character absent from the text and from the replacement stays absent |
| SendContact.ReplaceAllConcat | src/app/api/send-contact/route.ts:64 | replacement works piecewise on concatenated texts |
| SendContact.EscapeHtml | src/app/api/send-contact/route.ts:62-69 | the five chained `replace(/.../g, ...)` calls, `&` first; its meaning is stated by `EscapeHtmlIsSinglePass`, `EscapeHtmlIsSafe` and `EscapeHtmlRoundTrip` |
| SendContact.EscapeHtmlConcat | src/app/api/send-contact/route.ts:62-69 | the five-step chain works piecewise on concatenated texts |
| SendContact.EscapeHtmlChar | src/app/api/send-contact/route.ts:62-69 | the chain writes each single character as its own entity, or leaves it as it is |
| SendContact.EscapeHtmlIsSinglePass | src/app/api/send-contact/route.ts:62-69 | because `&` goes first, the chain equals escaping each input character once, left to right: no entity is escaped twice |
| SendContact.EscapeHtmlIsSafe | src/app/api/send-contact/route.ts:62-69 | the escaped text holds no raw `<`, `>`, `"` or `'` |
| SendContact.EscapeHtmlLength | src/app/api/send-contact/route.ts:62-69 | escaping never shortens the text |
| SendContact.EscapeHtmlPlainText | src/app/api/send-contact/route.ts:62-69 | text without the five special characters passes through unchanged |
| SendContact.EscapeHtmlLessThan | src/app/api/send-contact/route.ts:65 | `<` becomes `&lt;`, not `&amp;lt;` |
| SendContact.EscapeHtmlRoundTrip | src/app/api/send-contact/route.ts:62-69 | decoding the five entities recovers the input, so escaping loses nothing |
| SendContact.Decide | src/app/api/send-contact/route.ts:4-19 | mail goes ahead exactly when the body parsed, all four fields are truthy and user and password are set; a missing field gives 400 "Missing fields"; missing credentials give 500 "Email not configured"; the receiver is `CONTACT_RECEIVER` when set, else the user; a body that fails to parse gives 500 with the error message, or "Failed" when it is empty |
| SendContact.MissingFieldsBeforeCredentials | src/app/api/send-contact/route.ts:9-19 | the field check comes first: with a field missing the reply is 400 whatever the configuration |
| Catalog.Lower | src/app/shop/page.tsx:43 | lower-casing keeps the length and maps every character by itself |
| Catalog.LowerIdempotent | src/app/shop/page.tsx:23 | lower-casing an already lower-cased text changes nothing |
| Catalog.Includes | src/app/shop/page.tsx:43 | `String.prototype.includes`; stated by `IncludesIffOccurs` |
| Catalog.IncludesIffOccurs | src/app/shop/page.tsx:43 | `includes` holds exactly when the needle occurs at some position |
| Catalog.CategoryNames | src/app/shop/page.tsx:55 | the category of each product, in catalog order |
| Shop.SearchTerm | src/app/shop/page.tsx:23 | the search term is already lower case, so lower-casing it again changes nothing, and a present parameter keeps its length; its use in the filter is stated by `Home.HomeAgreesWithShop` |
| Shop.Filtered | src/app/shop/page.tsx:41-45 | the shop `filtered` list; stated by `FilteredOnlyMatching`, `FilteredKeepsMatching` and `FilteredOrderAndCount` |
| Shop.FilteredOnlyMatching | src/app/shop/page.tsx:41-45 | every product shown is of the selected category, when one is set, and mentions the search text, when one is given |
| Shop.FilteredKeepsMatching | src/app/shop/page.tsx:41-45 | every product of the selected category that mentions the search text is shown |
| Shop.FilteredOrderAndCount | src/app/shop/page.tsx:41-45 | the filter keeps catalog order and each kept product's multiplicity; with neither a category nor a search it keeps everything |
| Shop.FilterFromParam | src/app/shop/page.tsx:58-65 | `if (cat) setFilter(cat)`; its effect on the page is stated by `Shop.FilterFromParamSelects` |
| Shop.FilterFromParamSelects | src/app/shop/page.tsx:58-65 | after a non-empty `category` parameter, every product shown is of that category, and every product of that category that matches the search is shown |
| Shop.Insert | src/app/shop/page.tsx:49-50 | one insertion step adds exactly the new element |
| Shop.SortBy | src/app/shop/page.tsx:49-50 | the sort keeps every element with its multiplicity |
| Shop.InsertSorted | src/app/shop/page.tsx:49-50 | inserting into a sorted list keeps it sorted |
| Shop.SortBySorted | src/app/shop/page.tsx:49-50 | the sort orders its result by the key |
| Shop.InsertStable | src/app/shop/page.tsx:49-50 | among equal keys an inserted element goes after those already placed |
| Shop.SortByStable | src/app/shop/page.tsx:49-50 | the sort is stable: elements with equal keys keep their relative order |
| Shop.SameKeyClass | src/app/shop/page.tsx:50 | the products with negated price `-k` are the ones priced `k` |
| Shop.Sorted | src/app/shop/page.tsx:47-52 | the `sorted` list; stated by `SortedIsPermutation`, `SortedAscending`, `SortedDescending` and `SortedKeepsTies` |
| Shop.SortedIsPermutation | src/app/shop/page.tsx:47-52 | `sorted` is a permutation of `filtered`; a sort value other than the two price orders leaves the list unchanged |
| Shop.SortedAscending | src/app/shop/page.tsx:49 | "price-asc" orders by rising `Price ?? 0` |
| Shop.SortedDescending | src/app/shop/page.tsx:50 | "price-desc" orders by falling `Price ?? 0` |
| Shop.SortedKeepsTies | src/app/shop/page.tsx:47-52 | whatever the sort value, products with equal prices keep their filtered order |
| Shop.DescendingKeepsTies | src/app/shop/page.tsx:50 | the descending sort keeps equally priced products in their filtered order |
| Shop.Categories | src/app/shop/page.tsx:54-55 | the category list has no duplicates and holds the four defaults and every product's category, and nothing else |
| Shop.CategoriesStartWithDefaults | src/app/shop/page.tsx:54-55 | the list starts with Football, Basketball, Anime, Korean, in that order, whatever the catalog holds |
| Seqs.Filter | src/app/shop/page.tsx:41 | `Array.prototype.filter`: the result is no longer than the input, holds only elements of the input that pass, and holds every passing element |
| Seqs.FilterConcat | src/app/shop/page.tsx:41 | filtering distributes over concatenation, so it never reorders |
| Seqs.FilterMultiplicity | src/app/shop/page.tsx:41 | a passing element keeps its multiplicity, and a failing one has none |
| Seqs.FilterIsSubsequence | src/app/shop/page.tsx:41 | the result is a subsequence of the input |
| Seqs.Dedup | src/app/shop/page.tsx:55 | `Array.from(new Set(...))` has no duplicates and the same elements as its input; its order is the first-occurrence order stated by `Seqs.DedupSnoc` |
| Seqs.DedupSnoc | src/app/shop/page.tsx:55 | appending an element to the input appends it to the deduplicated list exactly when it is new, so elements keep their first-occurrence order |
| Seqs.DedupKeepsDistinctPrefix | src/app/shop/page.tsx:55 | a duplicate-free prefix survives deduplication in place |
| Home.HomeFiltered | src/app/page.tsx:37-41 | the home `filtered` list; stated by `HomeFilteredMeaning` and `HomeAgreesWithShop` |
| Home.HomeFilteredMeaning | src/app/page.tsx:37-41 | with no search every product is shown; otherwise exactly the products whose lower-cased description includes the lower-cased search text, in catalog order |
| Home.HomeAgreesWithShop | src/app/page.tsx:37-41 | the home search shows what the shop page shows for the same text with no category selected |
| Home.Group | src/app/page.tsx:44-48 | the loop builds the record of the `reduce` and its key order; each key holds, in order, exactly the filtered products of its category and is non-empty; every category present is a key; keys appear in first-seen order; the groups together hold every filtered product |
| Home.Grouped | src/app/page.tsx:44-48 | the record the `reduce` builds, as a fold over the filtered list; stated by `GroupedMeaning` |
| Home.KeyOrder | src/app/page.tsx:44-48 | the order in which the `reduce` first sets each key; stated by `GroupedMeaning` |
| Home.GroupedMeaning | src/app/page.tsx:44-48 | the record the `reduce` builds holds, under each category, exactly that category's products in order, has no empty group, sets its keys in first-seen order and holds every product once |
| Home.GroupStart | src/app/page.tsx:48 | the empty initial record satisfies the grouping invariant |
| Home.GroupAdvance | src/app/page.tsx:45-47 | one step of the reduction (create the category's group when absent, then push the product) keeps the grouping invariant |
| Home.EveryCategoryGrouped | src/app/page.tsx:44-48 | every product's category is a key of the grouping |
| Home.SizesAdvance | src/app/page.tsx:46 | pushing onto one group raises the total group size by one |

## Left out

- Signed-in users: every Firestore branch of the cart page handlers, the
  inventory load that builds `inventoryMap`, and the shop and home catalog
  fetches. These are network calls.
- Cookie I/O and the JSON encoding of the guest cart (`readGuestCartFromCookie`,
  `writeGuestCartToCookie`, `clearGuestCartCookie`). The model works on the
  decoded list of lines.
- `triggerPulse` and its timer, and the `addingMap` busy flag of `addToCart`.
  These are UI timing only.
- The mail transport, the composition of the mail (`route.ts` lines 21-53) and
  the `{ ok: true }` reply after sending. `Decide` stops where the transport is
  built. A failure while sending also reaches the catch path; of that path, the
  model covers only a body that fails to parse.
- `formatCurrency`, `isFinite`, `NaN`, and prices or quantities stored as
  strings. Numbers are integers, so the `isFinite` guard of `grandTotal` always
  passes.
- Fields of the JSON body that are present but not strings. A field is either an
  absent value or a string.
- CartContext.AfterAdd and CartContext.AfterRemove: the provider's cart is a
  plain `{}`. An id that names an `Object.prototype` member (`toString`,
  `constructor`, `__proto__`) reads an inherited value: `addItem` would store a
  string and `removeItem` would store `NaN`. The model treats every id as an
  ordinary key, so it assumes such ids do not occur. The only caller visible
  passes `String(product.ID)`.
- CartContext.NatDigits: a numeric item ID is modelled as a safe integer
  (magnitude below 2^53), written in plain decimal. `String(n)` of a larger
  number rounds its digits or uses exponent form (`1e+21`), and fractional IDs
  (`1.5`) are not captured.
- Catalog.Lower: lower-cases ASCII letters only, not the full Unicode mapping of
  `toLowerCase`.
- Home.Group: the key order it returns is insertion order. `Object.entries`
  lists keys that look like array indices first, in numeric order; the model
  does not capture that. The record of the `reduce` is a plain `{}`, so a
  category named after an `Object.prototype` member (`constructor`,
  `toString`, `__proto__`) reads an inherited value and the `push` throws; the
  model assumes no category has such a name and groups every category alike.
- CartContext.CartCounter.TotalItems: a ghost sum over the map. It does not
  model the order in which `Object.values` adds the counts, and integer addition
  makes that order irrelevant.
- JavaScript object identity (`it === item`) is modelled by the line's index, so
  two equal lines are still told apart.
- The React rendering, routing and the remaining pages of the repository.
