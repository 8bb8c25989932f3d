# Shop Code storefront: cart and catalog state, in Dafny

This project models the state layer of the Shop Code storefront component
(`src/Storefront.tsx`): the cart helpers `addCart`, `incCart`, `decCart`,
`removeCart`, the aggregates `cartTotal` and `itemsInCart`, the catalog view
`filtered` (category filter, case-insensitive search on the trimmed query,
stable sort on one of four keys), the inventory updaters passed to
`setProducts` (create, delete, edit, bulk import, start-up load) and the brand
settings record (save with the "Shop Code" fallback, load with defaults).

Layout, one module per concern:

- `wrappers.dfy` (`Wrappers`): `Option`, for `undefined` fields.
- `seqs.dfy` (`Seqs`): `IsSubseq`, "obtained by deleting elements".
- `text.dfy` (`Text`): `trim` (ECMAScript white space and line terminators), `toLowerCase` (ASCII letters) and `includes`.
- `products.dfy` (`Products`): `Category`, `SortKey`, `Product`, `find` by id, the seed list.
- `cart.dfy` (`Cart`): the four cart helpers, the item count and the total, and the cart invariant (positive quantities, unique ids) with its preservation.
- `catalog.dfy` (`Catalog`): the filter, the source's three comparators, a stable insertion sort and the view.
- `inventory.dfy` (`Inventory`): create, delete, edit, import and load of the product list.
- `branding.dfy` (`Branding`): the brand record, its save and its load.
- `storefront.dfy` (`Shop`): class `Storefront`, holding the state cells `cart`, `products`, `brand`, `query`, `category` and `sort`, with one method per handler that overwrites them.

Modelling choices:

- Prices are `nat` (whole dong). Ratings are integers in tenths (4.8 is 48).
- A cart quantity is an `int`, because the source's `qty` is an unconstrained number. Positivity is the separate invariant `Cart.WellFormed`, which every helper is proved to keep.
- `Array.prototype.sort` is stable since ECMAScript 2019. The view therefore sorts with a stable insertion sort that uses the source's own comparators: price difference for ascending price, its negation for descending price, and rating difference for descending rating.
- Local storage and `JSON.parse` become snapshot datatypes: nothing stored, unreadable, or the decoded value. An import file becomes a payload datatype: malformed JSON, not an array, or an array.
- Behaviour worth knowing:
  - Bulk import checks only `Array.isArray`. It does not check that the elements are product-shaped. A JSON value that parses but is not an array leaves the list unchanged without any alert; only a parse failure alerts.
  - The stored inventory is used exactly as parsed, with no validation.
  - Brand load uses `??`, so a stored empty site name stays empty. Only save replaces an empty name with "Shop Code".
  - The create and edit forms offer "All" as a category. No precondition here keeps "All" off a product.
  - Product ids are not guaranteed unique: import can bring in duplicates. Uniqueness is therefore proved preserved by create (with a fresh id), delete and edit, but it is not part of the class invariant.

## Model

| member | source | states |
|---|---|---|
| Text.Trim | src/Storefront.tsx:362 | `trim` returns the slice of the input left after white space is removed from both ends; everything removed is white space, and the result neither starts nor ends with white space |
| Text.TrimBlank | src/Storefront.tsx:362 | a query made only of white space trims to the empty string |
| Text.ToLower | src/Storefront.tsx:362 | `toLowerCase` keeps the length and lower-cases each character in place |
| Text.Contains | src/Storefront.tsx:362 | `includes` is true exactly when the searched text occurs at some index |
| Products.Find | src/Storefront.tsx:55 | `find` by id returns nothing exactly when no product has the id; otherwise it returns the product at the first position with that id |
| Products.FindFirst | src/Storefront.tsx:55 | whenever position k is the first with the id, `find` returns the product at k |
| Products.SeedUniqueIds | src/Storefront.tsx:28-37 | the eight seed products have distinct ids |
| Cart.IncCart | src/Storefront.tsx:47-48 | `incCart` keeps the length, the order and every id; each line with the id gains one unit and every other line is unchanged |
| Cart.IncCartAbsent | src/Storefront.tsx:47-48 | `incCart` with an id no line has returns the cart unchanged |
| Cart.ItemsIncCart | src/Storefront.tsx:47-48 | `incCart` raises the item count by the number of lines with the id |
| Cart.AddCart | src/Storefront.tsx:43-46 | afterwards some line has the id; with no such line before, the result is the cart with `{id, qty: 1}` appended; otherwise the length, order and ids are kept and only matching lines gain one unit |
| Cart.AddCartCount | src/Storefront.tsx:43-46 | on a cart with unique ids, `addCart` raises the item count by exactly 1 |
| Cart.DecCart | src/Storefront.tsx:49-50 | `decCart` never lengthens the cart and returns it unchanged when no line has the id |
| Cart.DecCartAt | src/Storefront.tsx:49-50 | on a cart with unique ids whose line k has the id: qty above 1 gives the same cart with that line one lower; qty 1 gives the cart without line k |
| Cart.DecCartKeepsOthers | src/Storefront.tsx:49-50 | the lines with other ids come out of `decCart` exactly as they went in, in order |
| Cart.DecCartCount | src/Storefront.tsx:49-50 | on a well-formed cart, `decCart` lowers the item count by 1 when the id is present and leaves it otherwise |
| Cart.RemoveCart | src/Storefront.tsx:51-52 | `removeCart` leaves no line with the id and is a subsequence of the cart; its length drops by the number of matching lines, and every line with another id is kept |
| Cart.RemoveCartAbsent | src/Storefront.tsx:51-52 | `removeCart` with an absent id returns the cart unchanged |
| Cart.RemoveCartIdempotent | src/Storefront.tsx:51-52 | `removeCart(removeCart(c, id), id) == removeCart(c, id)` |
| Cart.RemoveCartAt | src/Storefront.tsx:51-52 | on a cart with unique ids whose line k has the id, `removeCart` drops exactly line k |
| Cart.IncCartWellFormed | src/Storefront.tsx:47-48 | `incCart` keeps quantities positive and ids unique |
| Cart.AddCartWellFormed | src/Storefront.tsx:43-46 | `addCart` keeps quantities positive and ids unique |
| Cart.DecCartWellFormed | src/Storefront.tsx:49-50 | `decCart` keeps quantities positive (a line reaching 0 is removed) and ids unique |
| Cart.RemoveCartWellFormed | src/Storefront.tsx:51-52 | `removeCart` keeps quantities positive and ids unique |
| Cart.Apply | src/Storefront.tsx:375-378 | one call of any of the four cart handlers keeps a well-formed cart well formed |
| Cart.Run | src/Storefront.tsx:375-378 | any sequence of the four cart handlers keeps a well-formed cart well formed |
| Cart.ReachableWellFormed | src/Storefront.tsx:283 | every cart reachable from the initial empty cart has positive quantities and unique ids |
| Cart.ItemsInCart | src/Storefront.tsx:372 | `itemsInCart` sums the quantities from the left; with positive quantities it is at least the number of lines |
| Cart.ItemsConcat | src/Storefront.tsx:372 | the item count of two carts joined is the sum of their counts |
| Cart.LineValue | src/Storefront.tsx:55-56 | a line adds the price of the first product with its id times its quantity, 0 when no product has the id, and never a negative amount for a non-negative quantity |
| Cart.CartTotal | src/Storefront.tsx:53-57 | `cartTotal` sums the line values from the left; with positive quantities it is never negative |
| Cart.TotalFront | src/Storefront.tsx:53-57 | the total is the first line's value plus the total of the rest |
| Cart.TotalConcat | src/Storefront.tsx:53-57 | the `reduce` total of two carts joined is the sum of their totals |
| Cart.TotalIgnoresStale | src/Storefront.tsx:53-57 | lines whose id no product has contribute 0: removing them keeps the total |
| Cart.TotalSwap | src/Storefront.tsx:53-57 | swapping two blocks of lines keeps the total |
| Cart.TotalPermutation | src/Storefront.tsx:53-57 | the total does not depend on the order of the lines: every rearrangement of a cart (same multiset of lines) has the same total |
| Cart.RuntimeChecks | src/Storefront.tsx:66-70 | the file's own checks: add gives one line of qty 1, inc gives 2, dec gives 1, a second dec empties the cart |
| Cart.TotalExample | src/Storefront.tsx:82-84 | `cartTotal([{a, 3}], [a at 1000]) == 3000` |
| Catalog.Needle | src/Storefront.tsx:362 | the search text (trimmed, lower-cased query) is never longer than the query, has no upper-case letter, and is empty for a query of white space only |
| Catalog.Matches | src/Storefront.tsx:360-362 | a product matches only if its name is at least as long as the search text; with an empty search text only the category test remains |
| Catalog.FilterProducts | src/Storefront.tsx:360-363 | the filtered list is a subsequence of the inventory; every product in it matches (category "All" or equal, lower-cased name includes the search text); each matching product appears exactly as many times as in the inventory, and no other product appears |
| Catalog.FilterMembers | src/Storefront.tsx:360-363 | a product is in the filtered list exactly when it is in the inventory and matches |
| Catalog.BlankQueryKeepsAll | src/Storefront.tsx:360-363 | with category "All" and a query of white space only (so the trimmed, lower-cased search text is empty) the filter keeps the whole inventory |
| Catalog.Compare | src/Storefront.tsx:365-367 | each comparator is the difference of the two products' positions under the key, so a positive result puts the second first |
| Catalog.Insert | src/Storefront.tsx:365-367 | one insertion step adds exactly the inserted product to the multiset of elements |
| Catalog.InsertSorted | src/Storefront.tsx:365-367 | inserting into a sorted list keeps it sorted |
| Catalog.InsertStable | src/Storefront.tsx:365-367 | the inserted product lands after every element with the same sort key |
| Catalog.SortBy | src/Storefront.tsx:365-367 | the sort returns a permutation of its input, sorted under the comparator |
| Catalog.SortByStable | src/Storefront.tsx:365-367 | the sort is stable: elements with equal keys keep their input order |
| Catalog.SortedMeaning | src/Storefront.tsx:365-367 | sorted means ascending price for `priceAsc`, descending price for `priceDesc` and descending rating for `rating` |
| Catalog.View | src/Storefront.tsx:359-370 | for the trimmed, lower-cased query as search text, the view permutes the filtered list and holds exactly the matching inventory products; `relevance` gives a subsequence of the inventory; `priceAsc` is ascending by price, `priceDesc` descending by price, `rating` descending by rating |
| Catalog.ViewStable | src/Storefront.tsx:359-370 | for every key, products with equal sort keys appear in the view in their inventory order |
| Catalog.ViewExample | src/Storefront.tsx:359-370 | [Alpha at 200, Beta at 100] with query "a", category "All", `priceAsc` gives [Beta, Alpha] |
| Inventory.NewProduct | src/Storefront.tsx:103-104 | the create form's record has the given fields, and a badge only when the badge text is non-empty |
| Inventory.CreateProduct | src/Storefront.tsx:691 | create prepends: the new product is first and the old list follows unchanged |
| Inventory.CreateFresh | src/Storefront.tsx:691 | creating with a fresh id keeps ids unique, and `find` then returns the new product for its id |
| Inventory.CreateKeepsOthers | src/Storefront.tsx:691 | creating does not change what `find` returns for any other id |
| Inventory.DeleteProduct | src/Storefront.tsx:706 | delete leaves no product with the id and is a subsequence of the old list; every product with another id keeps exactly its number of copies |
| Inventory.FindAfterDelete | src/Storefront.tsx:706 | after a delete, `find` misses the deleted id and returns the same as before for every other id |
| Inventory.SubseqUniqueIds | src/Storefront.tsx:706 | a subsequence of a list with unique ids has unique ids |
| Inventory.DeleteUniqueIds | src/Storefront.tsx:706 | delete keeps ids unique |
| Inventory.EditedProduct | src/Storefront.tsx:740-748 | the edited record keeps the id; name and image are the trimmed inputs, or the old values when those trim to empty; the badge is the trimmed input, or none |
| Inventory.ReplaceById | src/Storefront.tsx:749 | the update keeps the length and replaces exactly the positions whose id matches |
| Inventory.UpdateProduct | src/Storefront.tsx:740-749 | an edit keeps the length and every position's id; products with other ids are untouched and the matching ones become the edited record |
| Inventory.UpdateUniqueIds | src/Storefront.tsx:740-749 | an edit keeps ids unique, and `find` on the edited id then returns the edited record |
| Inventory.ImportProducts | src/Storefront.tsx:720 | the list is replaced exactly when the payload is an array; otherwise it is unchanged, and the alert appears exactly when the file did not parse |
| Inventory.LoadInventory | src/Storefront.tsx:287-291 | start-up takes the stored list when one parses, and the seed list otherwise |
| Inventory.LoadFallbackUnique | src/Storefront.tsx:287-291 | the fallback inventory has unique ids |
| Branding.FormOf | src/Storefront.tsx:137-139 | the settings form opens with the brand's three fields |
| Branding.ResetForm | src/Storefront.tsx:155-160 | "restore defaults" puts the default brand's fields in the form |
| Branding.SaveBrand | src/Storefront.tsx:144-149 | the saved site name is never empty: the typed name when non-empty, "Shop Code" otherwise; the URLs are kept |
| Branding.LoadBrand | src/Storefront.tsx:296-305 | each stored field is used when present and defaults otherwise; the default brand is used when nothing usable is stored |
| Branding.SaveLoadRoundTrip | src/Storefront.tsx:144-151 | a saved brand is what the next start-up loads |
| Branding.SaveIdempotent | src/Storefront.tsx:137-149 | saving again, without edits, after a save changes nothing |
| Branding.ResetThenSave | src/Storefront.tsx:155-160 | saving after "restore defaults" stores the default brand |
| Branding.LoadKeepsEmptyName | src/Storefront.tsx:301 | a stored empty site name loads as empty (`??`), and saving the form then gives "Shop Code" |
| Shop.Storefront.constructor | src/Storefront.tsx:283-305 | mounting gives an empty cart, with the inventory and the brand from their snapshots, and no filter |
| Shop.Storefront.Filtered | src/Storefront.tsx:359-370 | `filtered` is the catalog view of the current cells and holds exactly the matching products |
| Shop.Storefront.ItemsInCart | src/Storefront.tsx:372 | `itemsInCart` is the item count of the cart and is at least its number of lines |
| Shop.Storefront.Total | src/Storefront.tsx:373 | `total` is the cart total against the current inventory and is never negative |
| Shop.Storefront.AddToCart | src/Storefront.tsx:375 | the cart becomes `addCart(cart, id)`, with one more item and still well formed; the other cells are unchanged |
| Shop.Storefront.DecItem | src/Storefront.tsx:376 | the cart becomes `decCart(cart, id)`, with one item fewer when the line exists; the other cells are unchanged |
| Shop.Storefront.IncItem | src/Storefront.tsx:377 | the cart becomes `incCart(cart, id)`; the other cells are unchanged |
| Shop.Storefront.RemoveItem | src/Storefront.tsx:378 | the cart becomes `removeCart(cart, id)`; the other cells are unchanged |
| Shop.Storefront.SetFilter | src/Storefront.tsx:269-271 | the query, category and sort cells take the new values and nothing else changes |
| Shop.Storefront.AddProduct | src/Storefront.tsx:101-105 | the form's product is prepended to the inventory; unique ids stay unique |
| Shop.Storefront.DeleteProduct | src/Storefront.tsx:706 | the product is filtered out; unique ids stay unique; cart lines for it stay but count 0 toward the total |
| Shop.Storefront.SubmitEdit | src/Storefront.tsx:738-750 | the inventory becomes the edited list; unique ids stay unique |
| Shop.Storefront.ImportFile | src/Storefront.tsx:720 | an array payload replaces the inventory; any other payload leaves it unchanged |
| Shop.Storefront.SaveBrandSettings | src/Storefront.tsx:144-151 | the brand becomes the saved record, whose site name is never empty |
| Shop.LineAfterDelete | src/Storefront.tsx:55-56 | after a delete, a line of the deleted id is worth 0 and every other line keeps its value |
| Shop.TotalAfterDelete | src/Storefront.tsx:53-57 | after a product is deleted, the total equals the old total over the cart without that product's lines |
| Shop.ScenarioTotals | src/Storefront.tsx:43-57 | with inventory [a at 1000]: add gives [{a,1}] and 1000; inc gives [{a,2}] and 2000; two decs give [] and 0 |

## Left out

- Rendering: all JSX, modals, the drawer, the header and footer, and the event wiring. This is presentation. The cart drawer's `find(...)!` is part of it.
- `setCartOpen(true)` in `addToCart` and the alerts, except the import alert, which `ImportOutcome.InvalidFile` stands for. These are UI effects.
- Local storage reads and writes, and the `useEffect` that re-persists the inventory. These are host I/O. `JSON.parse` and `JSON.stringify` are a foreign parser: stored and imported data enter as already-decoded snapshots.
- An imported or stored value that parses but is not a list of products, such as an object used as the inventory or array elements of the wrong shape. The model's payloads hold `Product` values only.
- `formatVND` (`Intl.NumberFormat`). This is a foreign currency formatter.
- `Math.random` id generation. The id is a parameter of `Shop.Storefront.AddProduct`, which assumes no product already has it.
- `URL.createObjectURL`, `Blob` export and asynchronous file reading. These are browser APIs.
- The demo user and admin login. These are authentication UI with hard-coded credentials and no state logic.
- Floating-point ratings and the `isFinite` guards of the edit form. Ratings are integers in tenths, and prices and ratings from the forms are already numbers.
- Unicode case mapping. `Text.ToLower` lower-cases ASCII letters only.
- The `window`-guarded runtime test harness. Its checks are restated as the lemmas `Cart.RuntimeChecks` and `Cart.TotalExample`.
- The sort works on a fresh copy in the source. Here it is a function on sequences. Nothing is shared, so no aliasing is lost.
- `src/main.tsx`. It only mounts the React root.
- Cart.AddCartCount: assumes unique ids. `addCart` bumps every line with the id, so on a cart with duplicate ids the count rises by the number of duplicates (`Cart.ItemsIncCart`). Carts the handlers reach always have unique ids (`Cart.ReachableWellFormed`).
- Cart.DecCartCount: assumes a well-formed cart. A line with quantity 0 or less would be removed outright.
