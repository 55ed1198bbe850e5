# Teh Raja storefront core, modelled in Dafny

Teh Raja is a tea-shop storefront. Two small pieces of its code do all of its computation, and this project models them together with the menu data they work on:

- **Taste-based recommendation** (`lib/recommendation.ts`). `getRecommendations(preferences, currentProducts)` scores every product by the Euclidean distance between its `{sweet, creamy, fruity}` attributes and the customer's preference. It sorts the scored copies by ascending score with the stable `Array.prototype.sort` and returns the first three. Module `Recommendation` (recommendation.dfy) holds this as functions and lemmas.
- **Cart store** (`lib/store.ts`). `useCartStore` holds an ordered list `items` of cart lines. Each line is a product snapshot plus a `quantity`. The actions `addToCart`, `removeFromCart`, `updateQuantity` and `clearCart` replace the list, and `total()` sums price × quantity. Module `Store` (store.dfy) writes each action's state updater as a pure function on the line list. Class `Store.CartStore` has an `items: seq<CartItem>` field, and its methods apply those updaters. Its invariant `Valid()` says that line ids are unique and that every quantity is at least 1.
- **Menu catalog** (`data/menu.ts`). Module `Menu` (menu.dfy) holds the `Product` record, the four-way `Category` enumeration and the six-product constant catalog `Products`.

Scores are integers. The source scores each product with `Math.sqrt` of the sum of squared axis differences. The model uses that integer sum itself as the score (`SquaredDistance`). `RootOrder` proves that two non-negative exact square roots compare the same way as their integer squares. A double returned by `Math.sqrt` is a correctly rounded root, not an exact one. The result carries over because rounded square root is monotone, and the sums here are whole numbers of at most 300 (three axes in 0..10), far below 2^51, so distinct sums give distinct doubles. So the comparator `a.score - b.score` has the same sign under both scorings, and the sort yields the same order.

The sort is specified, not only implemented. `StableSort` is an insertion sort. `StableSortSorted` proves its result is in ascending order and `SortIsStable` proves that each score's entries keep their catalog order. `SortedStableUnique` proves that these two facts determine the result uniquely. So `RecommendationsFollowAnyStableSort` holds: every stable ascending sort gives the same three recommendations.

Facts about the code that shape the model:
- lib/store.ts has no stock count, availability flag, stock ceiling, per-line note, order record or activity log. `addToCart` raises a quantity with no upper bound (lib/store.ts:24-30), and so does the model.
- `getRecommendations` always returns at most 3 entries (lib/recommendation.ts:26). `TopN` is that constant.
- `components/RecommendationQuiz.tsx:20` calls `getRecommendations` with one argument. The function declared at `lib/recommendation.ts:18` takes two. The model uses the declared two-argument form.

Where each source operation lives in the model:
- `calculateDistance` is `Recommendation.SquaredDistance` (its square). The `map` to scored copies is `Recommendation.ScoreAll`, and the sorted copies are `Recommendation.Ranking`. The `sort` itself is `Recommendation.StableSort`, and `getRecommendations` is `Recommendation.GetRecommendations`.
- In the store, `find` is `Store.Find`. The updater of `addToCart` is `Store.AddedToCart`, and the `filter` of `removeFromCart` is `Store.Without`. The updater of `updateQuantity` is `Store.QuantityUpdated`. The `reduce` behind `total()` is `Store.LinesTotal`. The class methods `Store.CartStore.AddToCart`, `RemoveFromCart`, `UpdateQuantity` and `ClearCart` apply these to the `items` field. `Store.CartStore.Total` returns the reduce over `items`.
- The `Product` type is `Menu.Product`, and the `products` constant is `Menu.Products`.

## Model

| member | source | states |
|---|---|---|
| Menu.CatalogIds | data/menu.ts:15-70 | the catalog has exactly six products, whose ids are "1" to "6" in order and pairwise distinct |
| Menu.CatalogValid | data/menu.ts:8-12 | every catalog product has sweet, creamy and fruity in 0..10 and a positive price (category is one of the four by its type) |
| Menu.OnlyRoyalMatches | data/menu.ts:16-24 | the only catalog product with taste profile (8, 9, 0) is id "1" |
| Recommendation.DistanceSymmetric | lib/recommendation.ts:10-16 | the distance between two profiles does not depend on their order |
| Recommendation.DistanceZeroIff | lib/recommendation.ts:10-16 | the distance is zero if and only if all three axes are equal (and it is a nat, so never negative) |
| Recommendation.RootOrder | lib/recommendation.ts:10-23 | for non-negative square roots d1, d2 of integer sums, d1 < d2 iff the sums compare so, and d1 = d2 iff the sums are equal; sorting by the integer sum therefore gives the Math.sqrt order |
| Recommendation.InsertByScore | lib/recommendation.ts:23 | inserting one scored product yields a permutation of the list with that element added |
| Recommendation.StableSort | lib/recommendation.ts:23 | the sorted list is a permutation of its input (same multiset, same length) |
| Recommendation.InsertSorted | lib/recommendation.ts:23 | inserting into a list sorted by score keeps it sorted |
| Recommendation.StableSortSorted | lib/recommendation.ts:23 | the sort's result is in non-decreasing score order |
| Recommendation.InsertKeepsTies | lib/recommendation.ts:23 | insertion places the new element ahead of every element with the same score and disturbs no other score's order |
| Recommendation.SortIsStable | lib/recommendation.ts:23 | for every score, the entries with that score appear in the sorted result in exactly their catalog order |
| Recommendation.SortedStableUnique | lib/recommendation.ts:20-23 | two sorted lists that list each score's entries in the same order are equal, so the stable ascending sort is unique |
| Recommendation.GetRecommendations | lib/recommendation.ts:18-27 | returns min(3, catalog size) entries, sorted by non-decreasing score, each a catalog product with its own squared distance to the preference as score; an empty catalog gives an empty result |
| Recommendation.RankingEntries | lib/recommendation.ts:20-23 | every entry of the sorted list is a catalog product carrying its squared distance to the preference |
| Recommendation.RecommendationsFollowAnyStableSort | lib/recommendation.ts:18-26 | for any list that is sorted by score and keeps catalog order among equal scores, the recommendations are exactly its first min(3, n) entries |
| Recommendation.OmittedAreNoCloser | lib/recommendation.ts:20-26 | a catalog product that is not returned has a score no smaller than that of any returned product |
| Recommendation.RecommendationsKeepCatalogOrder | lib/recommendation.ts:23-26 | for every score, the returned entries with that score are a prefix of the catalog's entries with that score, in catalog order |
| Recommendation.ExactMatchRanksFirst | lib/recommendation.ts:10-23 | in the ranking, every product whose profile equals the preference precedes every product whose profile differs |
| Recommendation.BestMatchLeads | lib/recommendation.ts:18-26 | when some catalog product matches the preference exactly, the first recommendation matches it exactly, with score 0 |
| Recommendation.CatalogGivesThree | lib/recommendation.ts:26 | over the shop's six-product catalog every preference receives exactly three recommendations |
| Recommendation.RoyalProfileRanksRoyalFirst | data/menu.ts:23 | over the shop's catalog the preference (8, 9, 0) puts id "1" first with score 0 |
| Store.Find | lib/store.ts:24 | `find` returns nothing exactly when no line has the id, and otherwise the first line with that id |
| Store.WithoutMembers | lib/store.ts:36 | `filter` keeps exactly the lines whose id differs |
| Store.AddNewProduct | lib/store.ts:32 | adding a product that has no line appends `{...product, quantity: 1}` after the unchanged earlier lines |
| Store.AddExistingProduct | lib/store.ts:24-30 | adding a product that has a line raises only that line's quantity by exactly 1; the stored snapshot is kept, not refreshed from the argument, and length, order and other lines are unchanged, with no upper bound |
| Store.AddKeepsWellFormed | lib/store.ts:22-33 | addToCart keeps line ids unique and every quantity at least 1 |
| Store.WithoutConcat | lib/store.ts:36 | filtering a concatenation filters each part, so the kept lines stay in their order |
| Store.WithoutAbsent | lib/store.ts:36 | filtering by an id that no line has leaves the list unchanged |
| Store.WithoutAround | lib/store.ts:36 | filtering out the id of a line that occurs nowhere else drops just that line and keeps the lines before and after it in order |
| Store.RemoveExistingLine | lib/store.ts:35-37 | with unique ids, removing line k's id drops exactly that line and keeps the rest in order |
| Store.RemoveIdempotent | lib/store.ts:36 | after removeFromCart no line has the id, and removing it again changes nothing |
| Store.WithoutKeepsUnique | lib/store.ts:36 | filtering keeps line ids unique |
| Store.RemoveKeepsWellFormed | lib/store.ts:35-37 | removeFromCart keeps line ids unique and every quantity at least 1 |
| Store.UpdateAbsentUnchanged | lib/store.ts:38-43 | updateQuantity for an id that no line has leaves the list unchanged, whatever the quantity |
| Store.UpdatePositiveSetsLine | lib/store.ts:40-41 | updateQuantity with a quantity above 0 sets only the matching line's quantity; its snapshot and all other lines are unchanged |
| Store.UpdateNonPositiveRemovesLine | lib/store.ts:40-42 | updateQuantity with a quantity of 0 or less removes the matching line and keeps the others in order |
| Store.UpdateKeepsWellFormed | lib/store.ts:38-43 | updateQuantity keeps line ids unique and every quantity at least 1 |
| Store.TotalConcat | lib/store.ts:46 | the reduce's total of a concatenation is the sum of the parts' totals |
| Store.TotalAround | lib/store.ts:46 | the total is the total of the lines before k, plus line k's price × quantity, plus the total of the lines after it |
| Store.TotalReplaceLine | lib/store.ts:46 | the total is additive over lines: replacing one line changes it by the difference of the two lines' price × quantity |
| Store.AddRaisesTotal | lib/store.ts:24-46 | addToCart of a new product raises the total by that product's price; of a product already in the cart, by the line's stored price |
| Store.UpdateChangesTotal | lib/store.ts:38-46 | setting a line's quantity to q > 0 changes the total by the stored price × (q − old quantity) |
| Store.RemoveLowersTotal | lib/store.ts:35-46 | removing a line lowers the total by that line's price × quantity |
| Store.TotalNonNegative | lib/store.ts:46 | an empty cart totals 0, and a cart with positive quantities and non-negative prices totals at least 0 |
| Store.TotalNonNegativeWhen | lib/store.ts:46 | the total is at least 0 whenever every quantity is positive and every stored price non-negative |
| Store.CartStore.Total | lib/store.ts:46 | `total()` over the current lines is never negative while every quantity is positive and every stored price non-negative |
| Store.CartStore.constructor | lib/store.ts:21 | the store starts with no lines, satisfying its invariant |
| Store.CartStore.AddToCart | lib/store.ts:22-34 | items becomes addToCart's updater applied to the old items, and the invariant is kept |
| Store.CartStore.RemoveFromCart | lib/store.ts:35-37 | items becomes the old items without the lines of that id, and the invariant is kept |
| Store.CartStore.UpdateQuantity | lib/store.ts:38-44 | items becomes updateQuantity's updater applied to the old items, and the invariant is kept |
| Store.CartStore.ClearCart | lib/store.ts:45-46 | items becomes empty, and total() is 0 afterwards |

## Left out

- The `persist` middleware, which saves the cart in the browser's localStorage under `teh-raja-cart` (lib/store.ts:48-50). This is storage plumbing, and the model has no storage.
- Floating point. `Math.sqrt` and `Math.pow` are replaced by the integer squared distance, so a recommendation's `score` is the square of the source's score. `RootOrder` shows that the ranking is the same. JavaScript numbers are modelled as unbounded integers: taste axes, prices and quantities are whole numbers in the source's data, and the model does not represent fractional quantities or rounding of large totals.
- Recommendation.GetRecommendations: the source's generic `T extends Product` is modelled with `Product` itself. Any extra fields a caller's product type carries are not represented.
- The source copies objects with spread (`{ ...product, score }`, `{ ...i, quantity }`) and never changes its input array. Dafny values are immutable, so that guarantee holds by construction and is not stated as a separate property.
- `CartItem` is modelled as a pair of the product snapshot and the quantity, not as one flattened record. The fields are the same.
- Stock counts, availability flags, order records and their status lifecycle, the sales store and the activity log: none of these exist in lib/store.ts. `components/OrderStatusOverlay.tsx` and `components/FirebaseSync.tsx` import `useSalesStore` and `Order`, and read `activeOrderId` and `setActiveOrder` from `useCartStore()`. None of these is defined in lib/store.ts, so they are not part of this model.
- Realtime database sync, audio, PDF export, the admin panel's password check and random chart data, the checkout message sent through a messaging link, and all presentation components. These are I/O, foreign libraries or presentation.
