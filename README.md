# Stone-panel shop: cart engine and catalog selection

This project models the browser-side logic of a small shop for acoustic stone
panels, with the DOM, timers and storage taken out:

- **The cart** (`js/cart-manager.js`). The cart is an ordered sequence of lines
  keyed by (productId, variantId) and kept in a persistent store. The manager
  looks entries up in the catalog, adds, merges, removes and updates lines, and
  reports the item count and the total. It also dispatches the decrease,
  increase and delete controls and the quantity input. A new line takes a
  snapshot of catalog fields, including a shortened dimensions text.
- **Catalog selection** (`js/populate-cms.js`). This part decides which entry
  a product page shows: query, then path, then `brush`; products before
  samples; a sample laid over its parent. It also decides which entries each
  page slot lists and in what order: the `sorting || 999` stable sort, the
  category and `-sample` filters, the home-slider top four, the accessory
  allow-list and the accessories page. Finally it covers the image gallery,
  the choice among duplicate wrappers, the price, description and name texts,
  the marketing texts, and the checks on an add-to-cart submission.

Layout:

| file | module | contents |
|---|---|---|
| `catalog.dfy` | `Catalog` | JSON values, records as maps, JavaScript truthiness, `\|\|`, `===` |
| `sequences.dfy` | `Sequences` | `find`/`findIndex`, `filter`, `slice`, stable sort by an integer key |
| `text.dfy` | `Text` | `trim`, `includes`, decimal text of an integer |
| `dimensions.dfy` | `Dimensions` | the two regular-expression replacements of the dimensions snapshot |
| `cart_lines.dfy` | `CartLines` | cart lines, their edits and aggregates as values |
| `cart.dfy` | `Cart` | catalog lookup, new-line snapshot, `addToCart` outcome, the `CartManager` class over its store |
| `resolver.dfy` | `ProductResolver` | the lookup token and `getCurrentProduct` |
| `collections.dfy` | `Collections` | selectors, home slider, accessories, gallery, wrapper choice |
| `page_text.dfy` | `PageText` | price line, accessory description and name, marketing texts |
| `integration.dfy` | `Integration` | add-to-cart form submission |

Catalog records are `map<string, Json>`, so the spread `{...parent, ...sample}`
is exactly `parent + sample`. A property that is absent (`undefined`) is
`None`. Where the source would raise a TypeError, the model returns
`Throws(reason)`. This happens when a selector panel's `id` has no `includes`,
when the price snapshot calls `replace` on a price that is not text, when the
chosen dimensions value is not text, and when the price line calls `includes`
on a price that is not text. The cart manager's store is the field
`CartManager.stored`: `Missing`, `Unreadable` (`getCart` then returns the
empty cart) or `Saved(items)`.

## Model

| member | source | states |
|---|---|---|
| Sequences.FindFirst | js/cart-manager.js:79-81 | `findIndex`: the index found satisfies the test and no earlier index does; no index exactly when no element satisfies it |
| Sequences.Find | js/populate-cms.js:41 | `find` yields an element of the sequence that passes the test, and `undefined` exactly when none passes |
| Sequences.FindIsFirst | js/populate-cms.js:41 | `find` yields the element at the first position that passes the test |
| Sequences.Filter | js/cart-manager.js:115-117 | `filter` never yields more elements than it is given |
| Sequences.FilterMembers | js/cart-manager.js:115-117 | an element is in the filtered sequence exactly when it is in the input and passes the test |
| Sequences.FilterAppend | js/cart-manager.js:115-117 | filtering a concatenation filters each part |
| Sequences.FilterDropsOne | js/cart-manager.js:115-117 | when only position k fails the test, filtering removes exactly that position and keeps the order |
| Sequences.Take | js/populate-cms.js:505 | `slice(0, n)` is the prefix of length min(n, length) |
| Sequences.SortBy | js/populate-cms.js:267 | `[...s].sort(by key)` has the same length and exactly the same elements, with multiplicity |
| Sequences.SortByCorrect | js/populate-cms.js:267 | the sort is sorted by the key, keeps the relative order of entries with equal keys, and is a permutation |
| Sequences.SortByUnique | js/populate-cms.js:267 | any stable sort of the same entries gives the same sequence, so the order shown is determined |
| Text.TrimSlice | js/cart-manager.js:89 | `trim` returns the slice between the leading and trailing whitespace runs, with no whitespace at either end |
| Text.Trim | js/cart-manager.js:89 | `trim` never lengthens the text and leaves no whitespace at either end |
| Text.TemplateText | js/cart-manager.js:98 | a template literal inserts a text as it is, a number as its decimal digits and an object as `[object Object]`; an array of one text gives that text, and an empty array or `[null]` the empty text |
| Dimensions.StripParensLeavesNoGroup | js/cart-manager.js:89 | after removing `/\(.*?\)/g` no parenthesised group is left in the text |
| Dimensions.StripParens | js/cart-manager.js:89 | removing the parenthesised groups never lengthens the text |
| Dimensions.StripParensKeepsPlainText | js/cart-manager.js:89 | text in which no group starts is kept as it is |
| Dimensions.StripParensCutsGroup | js/cart-manager.js:89 | the first group, from its `(` to the first `)` after it, is cut out; the text before it is kept and the text after it is stripped in turn |
| Dimensions.DisplayDimensions | js/cart-manager.js:89 | the display text never grows, has no whitespace at either end, and is the trimmed text itself when there is no group |
| Dimensions.RemoveMatches | js/cart-manager.js:90 | a global replacement by the empty string never lengthens the text |
| Dimensions.ShortDimensions | js/cart-manager.js:90 | the short text is empty exactly when the display text is (the `\|\| dimensionsDisplay` fallback) |
| Dimensions.NoMatchKeepsText | js/cart-manager.js:90 | a measurement pattern that matches nowhere leaves the text unchanged |
| Dimensions.MatchCut | js/cart-manager.js:90 | the first match is cut out with the text before it kept and the replacement going on after it; with no later match the text after it is kept as well |
| Dimensions.WholeSuffixDropped | js/cart-manager.js:90 | a trailing ` x N x N cm` is cut off and the rest trimmed, or the display text kept when nothing remains |
| Dimensions.DecimalSuffixDropped | js/cart-manager.js:90 | a trailing ` x N.N x N.N cm` is cut off and the rest trimmed, or the display text kept when nothing remains |
| CartLines.FindLine | js/cart-manager.js:126-128 | finds the first line with both ids; none exactly when no line has them |
| CartLines.AddToLine | js/cart-manager.js:85 | `quantity +=` changes only that line, and only its quantity, by the amount added; the length is unchanged |
| CartLines.AddToLineTotals | js/cart-manager.js:85 | adding to one line's quantity moves the cart count by the amount and the cart total by that line's price × the amount |
| CartLines.SetLineQuantity | js/cart-manager.js:135 | `item.quantity = …` changes only that line, and only its quantity; the length is unchanged |
| CartLines.RemoveLines | js/cart-manager.js:115-117 | the lines left are exactly the lines without the identity; the cart never grows |
| CartLines.UpdatedLines | js/cart-manager.js:124-141 | nothing is saved exactly when the identity has no line; below 1 the saved lines are exactly what `removeFromCart` saves; otherwise only that line's quantity is set |
| CartLines.ClickedLines | js/cart-manager.js:275-307 | nothing is saved exactly for an unrecognised action, or for decrease or increase on an absent line; delete always saves |
| CartLines.ReduceIsSum | js/cart-manager.js:146 | the left fold with an accumulator equals the accumulator plus the sum |
| CartLines.CartCount | js/cart-manager.js:144-147 | `getCartCount` is the sum of the line quantities, 0 for the empty cart |
| CartLines.CartTotal | js/cart-manager.js:150-156 | `getCartTotal` is the sum of price × quantity, 0 for the empty cart |
| CartLines.SumReplace | js/cart-manager.js:135 | replacing one line changes a sum only by that line's difference |
| CartLines.RemoveAbsent | js/cart-manager.js:113-121 | removing an identity without a line leaves the lines unchanged |
| CartLines.RemoveSingleLine | js/cart-manager.js:113-121 | with one line per identity, removal drops exactly that line and keeps the others in order |
| CartLines.RemoveEffect | js/cart-manager.js:113-121 | removal keeps the cart invariant and lowers count and total by the removed line's share |
| CartLines.UpdateEffect | js/cart-manager.js:124-141 | on a present line, `updateQuantity` keeps the invariant for any quantity; count and total move by that line's change only (removal below 1) |
| CartLines.ClickOutcome | js/cart-manager.js:283-306 | decrease above 1 sets quantity − 1; decrease at or below 1 removes the line; increase sets quantity + 1, and on a negative quantity removes the line (`updateQuantity` below 1); delete removes; an absent line or another action saves nothing |
| CartLines.ClickEffect | js/cart-manager.js:283-306 | on a valid cart every control keeps the invariant; decrease lowers the count by 1, increase raises it by 1, delete lowers it by the line's quantity |
| CartLines.SameIdentitiesOneLine | js/cart-manager.js:135 | a rewrite that keeps every line's identity in place keeps one line per identity |
| CartLines.AddToLineOneLine | js/cart-manager.js:85 | adding to one line's quantity keeps one line per identity, whatever the quantities |
| CartLines.SetQuantityOneLine | js/cart-manager.js:135 | setting one line's quantity keeps one line per identity, whatever the quantities |
| CartLines.RemovePositionOneLine | js/cart-manager.js:115-117 | dropping one line keeps one line per identity |
| CartLines.RemoveKeepsOneLine | js/cart-manager.js:113-121 | `removeFromCart` keeps one line per identity, whatever the quantities |
| CartLines.UpdateKeepsOneLine | js/cart-manager.js:124-141 | a saved `updateQuantity` keeps one line per identity, for any quantity and without positive quantities to start from |
| CartLines.ClickKeepsOneLine | js/cart-manager.js:275-307 | every saved cart-control click keeps one line per identity, whatever the quantities |
| CartLines.AddToFirstLine | js/cart-manager.js:79-85 | adding to the identity's first line keeps it first, raises its quantity by the amount, and leaves it the only line when it was |
| CartLines.AppendedLineFirst | js/cart-manager.js:92-104 | a line pushed for an identity without a line becomes that identity's first line, at the old length |
| CartLines.AppendKeepsOneLine | js/cart-manager.js:92-104 | pushing a line whose identity has none keeps one line per identity |
| Cart.StoredItems | js/cart-manager.js:24-32 | `getCart` yields the saved items, or the empty cart when nothing readable is stored |
| Cart.GetProductData | js/cart-manager.js:44-68 | the first product with both ids, else the first accessory with both ids (only when no product matches), else none |
| Cart.DigitsAndDots | js/cart-manager.js:97 | `replace(/[^\d.]/g, '')` keeps exactly the characters of the text that are digits or dots, and never grows |
| Cart.DigitsAndDotsAppend | js/cart-manager.js:97 | the replacement works piecewise, so the digits and dots are kept in their order |
| Cart.PlainPriceKept | js/cart-manager.js:97 | a price text made only of digits and dots is kept unchanged |
| Cart.ChosenDimensions | js/cart-manager.js:88 | `dimensions`, else `size`, else `alt_text`, the first of them that is truthy; `''` when none is |
| Cart.DimensionsSnapshot | js/cart-manager.js:88-90 | throws exactly when the chosen dimensions value is set but not text; otherwise the snapshot is the short form of the display text, which is empty exactly when the display text is |
| Cart.PriceSnapshot | js/cart-manager.js:97 | a non-zero `priceValue` is the price; otherwise the price text's digits and dots are parsed; a price that is not text throws |
| Cart.FirstElement | js/cart-manager.js:100 | `images[0]` of an array is its first element, of a text its first character, of an object its `"0"` field; none when absent and for null, booleans and numbers |
| Cart.ImageSnapshot | js/cart-manager.js:100 | the main image when set; otherwise the first image's URL when the images, the first image and its URL are all set; otherwise `''` |
| Cart.PriceValueText | js/cart-manager.js:98 | `${priceValue \|\| 0}`: `0` for a falsy value, the template text of a truthy one, the decimal digits for a number |
| Cart.LineTexts | js/cart-manager.js:95-99 | the slug is `slug` when truthy and `id` otherwise; the price display is `price` when truthy and `€${priceValue \|\| 0}.00` otherwise; the currency is `currency` when truthy and `EUR` otherwise |
| Cart.NewLine | js/cart-manager.js:86-104 | a new line carries the identity, the quantity, the name, the snapshots and the text fallbacks of Cart.LineTexts; it throws exactly when the dimensions or the price snapshot throws |
| Cart.AddResult | js/cart-manager.js:71-110 | `addToCart` returns false exactly when the catalog has no such entry; for a new identity it throws exactly when the snapshot line throws, and otherwise saves the cart with that snapshot line appended |
| Cart.AddMergesExisting | js/cart-manager.js:79-85 | adding an identity that has a line adds the quantity to that line only; length, order and other lines are unchanged; the count grows by the quantity and the total by price × quantity |
| Cart.AddAppendsNew | js/cart-manager.js:86-107 | adding a new identity throws exactly when its snapshot does; otherwise it succeeds and appends exactly the snapshot line, with that identity and quantity, at the end; the count grows by the quantity and the total by the new line's price × quantity |
| Cart.AddPreservesValid | js/cart-manager.js:83-104 | with a quantity of at least 1, a successful add keeps one line per identity and all quantities positive |
| Cart.AddTwiceMerges | js/cart-manager.js:79-104 | two successful adds of one identity leave its first line where the first add put it, with quantity (earlier quantity) + q1 + q2; the second add does not lengthen the cart, the count grows by both quantities, and with one line per identity beforehand that line is the identity's only one |
| Cart.FirstAddLine | js/cart-manager.js:71-110 | after a successful add the identity's first line is the merged one or the pushed one, with quantity raised by the amount, and the count grows by it |
| Cart.AddKeepsOneLine | js/cart-manager.js:71-110 | a successful `addToCart` keeps one line per identity, for any quantity |
| Cart.CartManager.constructor | js/cart-manager.js:16-21 | the manager starts with the given catalog and store |
| Cart.CartManager.GetCart | js/cart-manager.js:24-32 | `getCart` returns the saved lines, or the empty cart when nothing readable is stored |
| Cart.CartManager.SaveCart | js/cart-manager.js:35-41 | `saveCart` overwrites the store with the given items |
| Cart.CartManager.AddToCart | js/cart-manager.js:71-110 | the outcome is `AddResult` of the stored cart; the store changes only on success, to the new lines |
| Cart.CartManager.RemoveFromCart | js/cart-manager.js:113-121 | always saves the stored lines without the identity |
| Cart.CartManager.UpdateQuantity | js/cart-manager.js:124-141 | saves nothing for an absent identity; otherwise saves the updated lines (removal below 1) |
| Cart.CartManager.HandleClick | js/cart-manager.js:275-307 | the click handler saves exactly what `ClickedLines` prescribes and nothing otherwise |
| Cart.CartManager.HandleChange | js/cart-manager.js:310-317 | a quantity input change behaves as `updateQuantity` with the parsed value |
| ProductResolver.PathToken | js/populate-cms.js:35 | the token is the maximal non-empty run without '/' after the leftmost `/product/` followed by one; none when there is no such place |
| ProductResolver.LookupToken | js/populate-cms.js:33-36 | a non-empty query value wins, then the path token, then `brush`; never empty |
| ProductResolver.CurrentProduct | js/populate-cms.js:26-63 | null exactly when the catalog or its product list is missing or empty |
| ProductResolver.ProductWins | js/populate-cms.js:41 | the first product matching slug, handle or id is shown; samples are not consulted |
| ProductResolver.SampleOverParent | js/populate-cms.js:44-54 | with no product match, a sample whose parent exists is shown as parent fields overridden by sample fields |
| ProductResolver.SampleAsIs | js/populate-cms.js:44-54 | a sample without a parent id, or whose parent is missing, is shown as it is |
| ProductResolver.FallsBackToFirst | js/populate-cms.js:62 | with products but no match anywhere, the first product is shown |
| ProductResolver.ResultComesFromCatalog | js/populate-cms.js:41-62 | the entry shown is a product, a sample, or a sample laid over a product |
| Collections.IdMentionsSample | js/populate-cms.js:265 | `id.includes('-sample')` throws exactly when the id is neither text nor an array |
| Collections.FilterOrThrow | js/populate-cms.js:263-266 | the filter throws exactly when the test throws for some entry; otherwise it keeps only passing entries |
| Collections.SelectorProducts | js/populate-cms.js:263-267 | the selector list throws exactly when some panel's id has no `includes` |
| Collections.SelectorProductsSpec | js/populate-cms.js:315-319 | the selectors list exactly the panels without `-sample`, with multiplicity, stably sorted by `sorting \|\| 999` |
| Collections.SortedSelection | js/populate-cms.js:383-387 | a filtered and sorted list is a stable sort of the filtered entries and holds exactly the entries that pass |
| Collections.SortBySorting | js/populate-cms.js:267 | sorting by `sorting \|\| 999` gives a permutation that is sorted by that key |
| Collections.HomeSlider | js/populate-cms.js:502-505 | at most four entries, each a panel of the catalog |
| Collections.MainAccessories | js/populate-cms.js:383-387 | a sorted permutation of the allow-listed accessories |
| Collections.AccessoriesPage | js/populate-cms.js:585-587 | a sorted permutation of the accessory-category entries |
| Collections.HomeSliderTopFour | js/populate-cms.js:502-505 | the slider shows the first min(4, #panels) entries of the stable sort of the panels; none left out sorts before one shown; all panels when there are at most four |
| Collections.MainAccessoriesSpec | js/populate-cms.js:383-387 | the product page lists exactly the accessories with an allow-listed id, stably sorted |
| Collections.AccessoriesPageSpec | js/populate-cms.js:585-587 | the accessories page lists exactly the accessory-category entries, stably sorted |
| Collections.SelectorSlot | js/populate-cms.js:255 | the selectors are filled only when there are products |
| Collections.HomeSliderSlot | js/populate-cms.js:486-505 | the slider is filled when the product list exists, with at most four entries |
| Collections.ProductAccessoriesSlot | js/populate-cms.js:378 | the product page's accessories are filled only when there are accessories |
| Collections.AccessoriesPageSlot | js/populate-cms.js:563 | the accessories page is filled only when there are accessories |
| Collections.Urls | js/populate-cms.js:222-230 | one slide for an image exactly when it has a URL; every URL kept is set |
| Collections.Gallery | js/populate-cms.js:199-230 | the gallery is filled only for a non-empty image array; every slide source is set; at most one slide more than there are images |
| Collections.UrlsAppend | js/populate-cms.js:222-230 | `forEach` keeps the order: the slides of consecutive runs of images follow one another |
| Collections.GalleryOrder | js/populate-cms.js:207-230 | the slides are the main image, first and exactly when it is set and no image has its URL, then the URL of every image that has one, in the stable `sort_order \|\| 0` order |
| Collections.GalleryShowsMainImage | js/populate-cms.js:210-217 | a main image that is set is always shown, and first when no image has its URL |
| Collections.GallerySlidesFromImages | js/populate-cms.js:221-230 | every other slide is the URL of one of the product's images |
| Collections.PopulatedWrapper | js/populate-cms.js:202 | the last wrapper is filled (the only one when there is one); none without wrappers |
| Collections.HiddenWrapper | js/populate-cms.js:234 | the first wrapper is hidden exactly when there are several |
| Collections.SliderWrapper | js/populate-cms.js:490 | the home slider fills the second wrapper when there are several, the only one when there is one, and none without wrappers |
| Collections.FilledWrapperVisible | js/populate-cms.js:368-376 | the filled wrapper is never the hidden one; a single wrapper is filled and not hidden |
| PageText.CurrencyText | js/populate-cms.js:163 | a non-empty currency text is shown as it is, `EUR` otherwise |
| PageText.PriceText | js/populate-cms.js:163 | the price line always shows '€', adds '€' only when missing, appends the currency; `€220.00 EUR` without a price; throws for a price that is not text |
| PageText.EuroPriceKept | js/populate-cms.js:163 | a price text already holding '€' starts the line unchanged |
| PageText.AccessoryDescription | js/populate-cms.js:602-616 | an accessory's own description wins; the map gives the text only for an empty description |
| PageText.MappedIdsDescribed | js/populate-cms.js:604-616 | every id known to the description map gets a non-empty description |
| PageText.DisplayName | js/populate-cms.js:619-629 | a name known to the name map is translated; any other name is shown as it is |
| PageText.HeroText | js/populate-cms.js:681-694 | with a product list, the heading is the first `brush` entry's `special_field_text` when that is set, and the default slogan otherwise (also without a `brush` entry); untouched without a product list |
| PageText.YamiSlogan | js/populate-cms.js:697-721 | the slogans become the first `yami` entry's `special_field_slogan` exactly when that is set; untouched otherwise |
| Integration.ValidateSubmission | js/populate-cms.js:763-773 | rejected exactly when an id is missing or empty; the quantity is the parsed value, 1 when absent, NaN or 0 |
| Integration.NegativeQuantityPassed | js/populate-cms.js:773 | a negative parsed quantity reaches the cart unchanged |
| Integration.Submit | js/populate-cms.js:760-784 | a valid submission adds through the cart manager; the cart opens exactly when the add succeeds |

## Left out

- The DOM: templates, `appendChild`, styles and display toggles, hover listeners, colour schemes, walking up parent containers, and the thumbnail map and active flags of the selector slides. Only which entries are shown, in what order, and which wrapper index is used are modelled.
- `fetch` of the catalog, the `setTimeout` delays, the Swiper widget, event-listener registration and form cloning, and page detection from the path name. The parsed catalog, the decoded query value and the path are inputs.
- localStorage and JSON: the store is the abstract `Store` field. A failing `setItem` is not modelled; `saveCart` always succeeds.
- `formatPrice` and all floating point: prices and quantities are integers. Parsing the price text is the parameter `parsePrice` of the manager. A NaN from that parse counts as 0 through its `|| 0`.
- `CartManager.HandleChange`: the `parseInt` of the input is done by the caller. The NaN quantity that `updateQuantity` would store is not modelled.
- `Cart.PriceSnapshot`: a truthy `priceValue` that is not a number counts as absent. The source would store it as the price.
- `Collections.SortingKey`, `Collections.SortOrder`: a `sorting` or `sort_order` that is not a number counts as absent, because JavaScript's coercion of strings in the comparator is not modelled.
- `PageText.CurrencyText`, `PageText.AccessoryDescription`: a currency or description that is set but not text counts as absent. The page would print its text form.
- `PageText.PriceText`: an array price (arrays have `includes`) is treated as throwing. The page would print its text form.
- A `null` entry in the catalog's products, samples or accessories cannot be represented. The lists hold records only. In the source, the `find` and `filter` callbacks would throw a TypeError when they read a property of such an entry.
- `Collections.Gallery`: an `images` value that is not an array counts as having no images. A `null` entry in the array, which would throw, is treated as an image without a URL.
- Lookups by prototype property names (an id such as `toString` in the description map, or in the `||` fallbacks) are not modelled; the maps are plain dictionaries.
- Case-insensitive product-link rewriting in `populateMarketingContent` is not modelled. It is link wiring with `toLowerCase`, which this model has no notion of.
