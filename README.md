# Modanist storefront — a verified model of the client core

Modanist is a React Native clothing storefront. This project models its
client-side logic in Dafny and proves properties of that model. The logic
covered is:

- the session state, meaning the cart lines and the favorite product ids, with
  its five transitions;
- the home screen's catalog filter and the facet lists of its filter dialog;
- the cart screen's totals, shipping rule, stock map and +/- buttons;
- the "add to cart" guard of the product detail screen;
- the add/edit product form: the validator, the create-or-update dispatch and
  the size/color tag editor;
- the device-local favorites store and the product card that mirrors it;
- the root component's choice between nothing, the sign-in stack and the main
  tabs, and the tab icons;
- the sign-in and registration checks;
- the checkout gate and its address prefill;
- the favorites screen, which resolves favorite ids into products.

Prices are integers in kuruş (hundredths of a lira). The 300 TL free-shipping
limit is therefore 30000, and the 50 TL flat fee is 5000.

Some services are not modelled as code. Each becomes either a parameter or a
logged request:

- The remote product lookup is a function `Lookup = string -> Option<Product>`.
  The ids for which it rejects instead of answering are a predicate
  `Rejects = string -> bool`.
- The answers of sign-in, account creation and product save are `succeeds`
  parameters.
- The signed-in user and the profile documents are parameters of the
  checkout screen.
- Every request reaches a `requests`/`lookups` log field. Each entry records
  the `loading` flag at the moment the request went out.

Device storage is a map from keys to stored lists. JSON encoding is taken to
round-trip, so the stored value is the list itself.

Modules:

| module | covers |
|---|---|
| `Common` | Option, subsequences, `Filter`, `Dedup` |
| `Text` | JavaScript white space, `trim`, `toLowerCase`, `includes` |
| `Models` | the two product schemas |
| `AppContext` | session state |
| `HomeScreen` | the catalog filter |
| `CartScreen` | the cart screen |
| `ProductDetail` | the product detail screen |
| `ProductForm` | the add/edit product form |
| `FavoriteService` | the device-local favorites store |
| `ProductCard` | the product card |
| `AuthGate` | the root component and the tab icons |
| `Credentials` | the check shared by sign-in and registration |
| `LoginScreen` | the sign-in screen |
| `RegisterScreen` | the registration screen |
| `Checkout` | the checkout screen |
| `FavoritesScreen` | the favorites screen |

Two points about the code:

- **Size facet order.** The size list puts the non-numeric sizes first, in
  collation order, then the numeric ones ascending
  (`src/screens/HomeScreen.tsx:71-80`).
- **Shared credential check.** Registration and sign-in run the same two
  checks, line for line. Both screens call `Credentials.CheckCredentials`, so
  they accept exactly the same inputs by construction.

## Model

| member | source | states |
|---|---|---|
| AppContext.Added | src/context/AppContext.tsx:34-53 | `addToCart`. The item's key gains a line. The line count stays the same when the key was present and grows by one otherwise. The keys present are the old ones plus the item's. Unique keys are kept. |
| AppContext.AddedNewKey | src/context/AppContext.tsx:51 | A new key is appended at the end, and the earlier lines are kept. |
| AppContext.AddedExistingKey | src/context/AppContext.tsx:42-49 | For an existing key, the matching line keeps its snapshot and gains the added quantity. No stock cap applies. The other lines are unchanged. |
| AppContext.AddedQuantity | src/context/AppContext.tsx:34-53 | With unique keys, adding acts per key like adding to a bag. The key's total quantity grows by the item's quantity, and every other key is unchanged. |
| AppContext.RepeatedAdds | src/context/AppContext.tsx:34-53 | Adding several items of one key keeps keys unique. The key's quantity grows by the sum of the added quantities. At most one line is created. |
| AppContext.RepeatedAddsFromAbsent | src/context/AppContext.tsx:34-53 | Starting from a cart without the key, the key ends with exactly one line, and that line holds the sum of the added quantities. |
| AppContext.Removed | src/context/AppContext.tsx:56-67 | `removeFromCart`. No line with the key is left. The result is an order-preserving subsequence. Unique keys are kept. |
| AppContext.RemovedMembers | src/context/AppContext.tsx:56-67 | A line survives iff it was in the cart and has another key. |
| AppContext.RemovedAbsent | src/context/AppContext.tsx:56-67 | Removing a key that is absent leaves the cart unchanged. |
| AppContext.RemovedPresent | src/context/AppContext.tsx:56-67 | With unique keys, removing the key of line `i` gives exactly the cart without line `i`. |
| AppContext.Increased | src/context/AppContext.tsx:69-84 | `increaseCartItem`. The length and keys stay the same, and other lines are unchanged. The matching line becomes `min(q+1, maxStock)`: `q+1` below the cap, and the cap otherwise. |
| AppContext.IncreasedCanLower | src/context/AppContext.tsx:80 | The cap also works downwards: a quantity of 5 with cap 3 becomes 3. |
| AppContext.Decreased | src/context/AppContext.tsx:86-96 | `decreaseCartItem`. The matching line becomes `max(q-1, 1)`, and the other lines are unchanged. |
| AppContext.PositiveQuantitiesPreserved | src/context/AppContext.tsx:34-96 | Quantities of at least 1 stay at least 1 under each transition, given a positive added quantity and a positive cap. |
| AppContext.Toggled | src/context/AppContext.tsx:98-104 | `toggleFavorite`. The id's membership flips. Every other id keeps its membership. An absent id is appended. No duplicates appear. |
| AppContext.ToggledTwiceAbsent | src/context/AppContext.tsx:98-104 | Toggling an absent id twice restores the exact list. |
| AppContext.ToggledTwicePresent | src/context/AppContext.tsx:98-104 | Toggling a present id twice restores membership, and the id moves to the end. |
| AppContext.ToggledTwiceReorders | src/context/AppContext.tsx:98-104 | Order is not restored in general: `["a","b"]` becomes `["b","a"]`. |
| AppContext.AppProvider.constructor | src/context/AppContext.tsx:31-32 | The cart and the favorites start empty. |
| AppContext.AppProvider.AddToCart | src/context/AppContext.tsx:34-53 | The cart becomes `Added` of the old cart, and the favorites are unchanged. The one-line-per-key invariant is kept. |
| AppContext.AppProvider.RemoveFromCart | src/context/AppContext.tsx:56-67 | The cart becomes `Removed` of the old cart, and the favorites are unchanged. |
| AppContext.AppProvider.IncreaseCartItem | src/context/AppContext.tsx:69-84 | The cart becomes `Increased` of the old cart, and the favorites are unchanged. |
| AppContext.AppProvider.DecreaseCartItem | src/context/AppContext.tsx:86-96 | The cart becomes `Decreased` of the old cart, and the favorites are unchanged. |
| AppContext.AppProvider.ToggleFavorite | src/context/AppContext.tsx:98-104 | The favorites become `Toggled` of the old list, and the cart is unchanged. |
| HomeScreen.FilteredProducts | src/screens/HomeScreen.tsx:101-118 | `filteredProducts` is an order-preserving subsequence of the catalog. A product is in it iff it passes all seven conjuncts. |
| HomeScreen.FilteredCount | src/screens/HomeScreen.tsx:101-118 | A passing product keeps every one of its occurrences, and a failing one has none. |
| HomeScreen.EmptySearchMatches | src/screens/HomeScreen.tsx:107-111 | An empty search box matches every product. |
| HomeScreen.SearchIgnoresQueryCase | src/screens/HomeScreen.tsx:107-111 | The search gives the same answer for the query and its lower-cased form. |
| HomeScreen.NoFiltersIsIdentity | src/screens/HomeScreen.tsx:101-118 | With nothing set, the catalog is returned unchanged. |
| HomeScreen.ConflictingCategoriesGiveNothing | src/screens/HomeScreen.tsx:106-116 | Two different non-empty category choices, the quick chip and the dialog's field, leave nothing. |
| HomeScreen.ExactPriceBounds | src/screens/HomeScreen.tsx:112-113 | Equal bounds keep exactly the products at that price, because both bounds are inclusive. |
| HomeScreen.UnparsableBoundGivesNothing | src/screens/HomeScreen.tsx:112-113 | A bound that parses to NaN rejects every product. |
| HomeScreen.AbsentSizeKeepsOnlyListless | src/screens/HomeScreen.tsx:114 | A size no product lists keeps only products with no size list. When every product has one, the result is empty. |
| HomeScreen.SizeEntriesMembers | src/screens/HomeScreen.tsx:72 | A size is in the flattened list iff some product with a size list offers it. |
| HomeScreen.ColorEntriesMembers | src/screens/HomeScreen.tsx:83 | A color is in the flattened list iff some product with a color list offers it. |
| HomeScreen.SortSorted | src/screens/HomeScreen.tsx:73-78 | The comparator sort returns a list ordered by any total preorder it is given. |
| HomeScreen.SortKeepsDistinct | src/screens/HomeScreen.tsx:73-78 | Sorting keeps the elements, and keeps a duplicate-free list duplicate-free. |
| HomeScreen.SizeRawMembers | src/screens/HomeScreen.tsx:72 | A raw size entry is listed iff it is non-empty and some product offers it. |
| HomeScreen.SizeNumbersFacts | src/screens/HomeScreen.tsx:73-75 | The numeric part is duplicate-free, holds exactly the numeric raw sizes, and is ascending by value. |
| HomeScreen.SizeLettersFacts | src/screens/HomeScreen.tsx:76-78 | The other part is duplicate-free, holds exactly the non-numeric raw sizes, and is in collation order. |
| HomeScreen.AllSizesShape | src/screens/HomeScreen.tsx:71-80 | `allSizes` is duplicate-free. It holds exactly the non-empty sizes some product offers. Every non-numeric size comes before every numeric one. Numbers ascend by value, and the rest follow the collation. |
| HomeScreen.AllColorsFacts | src/screens/HomeScreen.tsx:82-85 | `allColors` is duplicate-free and holds exactly the offered colors. It is a subsequence of the flattened colors. Any two colors appear in the order of their first occurrence there. |
| HomeScreen.CategoriesFacts | src/screens/HomeScreen.tsx:92 | The category chips are duplicate-free and hold exactly the catalog's categories, in order of first occurrence. |
| HomeScreen.TagPressed | src/screens/HomeScreen.tsx:20-56 | In a tag selector, "Tümü" clears the selection to "". Tapping the selected tag clears it to "". Tapping another tag selects that tag. |
| HomeScreen.TagPressedTwice | src/screens/HomeScreen.tsx:36-43 | Tapping one tag twice selects it iff it was selected before, and otherwise leaves "". |
| HomeScreen.CategoryChipPressed | src/screens/HomeScreen.tsx:215-227 | The all-chip sets the quick category to null, and a named chip sets it to its name. |
| HomeScreen.Cleared | src/screens/HomeScreen.tsx:304-310 | "Clear" resets the five dialog fields, and keeps the quick category and the search. |
| HomeScreen.ClearedFiltersOnlyQuickAndSearch | src/screens/HomeScreen.tsx:304-310 | After "clear", a product passes iff it passes the quick category and the search. |
| CartScreen.SubtotalAppend | src/screens/CartScreen.tsx:124 | The `reduce` total of a concatenation is the sum of the parts' totals. |
| CartScreen.SubtotalNonNegative | src/screens/CartScreen.tsx:124 | Non-negative prices and quantities give a non-negative total. |
| CartScreen.SubtotalReplaceAt | src/screens/CartScreen.tsx:124 | Changing one line changes the total by that line's difference. |
| CartScreen.AddedSubtotalNew | src/screens/CartScreen.tsx:124 | Adding an item with a new key raises the total by price × quantity. |
| CartScreen.AddedSubtotalExisting | src/screens/CartScreen.tsx:124 | Adding to an existing line raises the total by the added quantity at that line's snapshot price. |
| CartScreen.ShippingFee | src/screens/CartScreen.tsx:125-126 | The fee is 0 iff the total is at least 300 TL, and 50 TL otherwise. |
| CartScreen.GrandTotal | src/screens/CartScreen.tsx:127 | The grand total is the total plus the fee. A free shipment means at least 300 TL. |
| CartScreen.FreeShippingHint | src/screens/CartScreen.tsx:146-152 | The hint is shown iff a fee is charged. Its amount is positive and brings the total exactly to the limit. |
| CartScreen.View | src/screens/CartScreen.tsx:125-152 | The empty message appears iff the cart is empty. Otherwise the summary shows the total, the shipping fee of that total, the hint of that total, and the grand total as total plus fee. |
| CartScreen.ShippingAtTheLimit | src/screens/CartScreen.tsx:125-127 | 299.99 TL pays the fee, for 349.99 TL. 300.00 TL ships free. |
| CartScreen.StoredStock | src/screens/CartScreen.tsx:28 | `product?.stock \|\| 1`: a missing product or a zero stock counts as 1. |
| Models.FirstRejection | src/screens/FavoritesScreen.tsx:23-26 | A loop that awaits one lookup per id stops at the first rejected id. Every id before that position is answered. The position is `\|ids\|` when no id is rejected. |
| CartScreen.FetchStocks | src/screens/CartScreen.tsx:21-31 | When no lookup is rejected, the loop over the cart builds exactly `StockMapOf(cart, lookup)`. When one is rejected, `setStockMap` is never reached and the screen keeps its current map. |
| CartScreen.InitialStockMapCaps | src/screens/CartScreen.tsx:36-37 | With the initial empty map, which a rejected fetch leaves in place, every cap is the fallback of 99. |
| CartScreen.StockMapOfKeys | src/screens/CartScreen.tsx:21-31 | The fetched map has an entry for exactly the lines' stock keys, and no entry is 0. |
| CartScreen.StockMapOfLastWins | src/screens/CartScreen.tsx:23-29 | A key's entry is the stored stock of the last line carrying that key. |
| CartScreen.MaxStock | src/screens/CartScreen.tsx:36-37 | The cap is the map's entry, or 99 when the key has none. |
| CartScreen.MinusEnabledDecrements | src/screens/CartScreen.tsx:62-65 | An enabled minus button lowers the line by exactly one. |
| CartScreen.PlusButtonEffect | src/screens/CartScreen.tsx:89-97 | An enabled plus button raises the line by one and stays within the cap. A disabled plus could not raise it. |
| CartScreen.PlusEnabledSubtotal | src/screens/CartScreen.tsx:89-97 | With unique keys, an enabled plus raises the total by the line's price. |
| CartScreen.MinusEnabledSubtotal | src/screens/CartScreen.tsx:62-65 | With unique keys, an enabled minus lowers the total by the line's price. |
| CartScreen.StockKeyInjective | src/screens/CartScreen.tsx:25 | When ids and sizes contain no '_', equal stock keys mean equal cart keys. |
| CartScreen.StockKeyCollision | src/screens/CartScreen.tsx:25 | Without that condition, two different lines share a stock key: `("a_b","c","d")` and `("a","b_c","d")`. |
| CartScreen.FetchedStockPerLine | src/screens/CartScreen.tsx:21-37 | With unique keys and '_'-free ids and sizes, every line's cap is its own product's stored stock. |
| ProductDetail.DecideAdd | src/screens/ProductDetailScreen.tsx:38-54 | A missing or empty size or color gives the warning. Otherwise a missing product returns silently. Otherwise the line is built field by field from the product and the selections, with quantity 1. |
| ProductDetail.HandleAddToCart | src/screens/ProductDetailScreen.tsx:38-54 | Only a built line reaches the cart, as `Added`. The guard's other outcomes leave the session unchanged. Each outcome shows its own alert. |
| ProductDetail.HandleToggleFavorite | src/screens/ProductDetailScreen.tsx:32-36 | The heart flips. Every other id keeps its state, and the cart is unchanged. |
| ProductDetail.SumOfCopies | src/screens/ProductDetailScreen.tsx:51 | `n` lines of one item hold `n` times its quantity. |
| ProductDetail.RepeatedAddToCart | src/screens/ProductDetailScreen.tsx:38-54 | Nothing checks stock: `n` presses from a cart without the key leave one line of quantity `n`. |
| ProductForm.ValidateForm | src/screens/AddEditProductScreen.tsx:88-120 | The first failing check is reported: missing fields, then price ≤ 0, then stock < 0, then no sizes, then no colors. `None` means all checks pass. Each reason comes with its exact condition. |
| ProductForm.InitialFormRejected | src/screens/AddEditProductScreen.tsx:14-23 | The empty form is rejected for its missing fields. |
| ProductForm.SubmitRequest | src/screens/AddEditProductScreen.tsx:122-142 | An invalid form sends nothing. A valid one sends its data as an update iff a non-empty id is present, and as a creation otherwise. |
| ProductForm.AddTag | src/screens/AddEditProductScreen.tsx:144-150 | The trimmed value is appended iff it is neither blank nor already listed. Otherwise the list is unchanged. |
| ProductForm.AddTagClean | src/screens/AddEditProductScreen.tsx:144-150 | Adding keeps a list duplicate-free, with every entry trimmed and non-blank. |
| ProductForm.AddTagIdempotent | src/screens/AddEditProductScreen.tsx:146 | Submitting the same input twice adds it once. |
| ProductForm.TrimPadding | src/screens/AddEditProductScreen.tsx:145-147 | A trimmed value padded with spaces trims back to itself. |
| ProductForm.AddTagIgnoresPadding | src/screens/AddEditProductScreen.tsx:146 | A padded value is added exactly as the bare one would be, so it is not a new tag. |
| ProductForm.RemoveAt | src/screens/AddEditProductScreen.tsx:152-157 | An index in range drops exactly that entry. An index out of range leaves the list unchanged. |
| ProductForm.RemoveAtClean | src/screens/AddEditProductScreen.tsx:152-157 | Removing keeps the list's cleanliness. |
| ProductForm.FormScreen.constructor | src/screens/AddEditProductScreen.tsx:14-23 | The form starts empty, with empty inputs, not loading, and with nothing sent. |
| ProductForm.FormScreen.UpdateListField | src/screens/AddEditProductScreen.tsx:144-150 | The addressed list becomes `AddTag` of the old one. The list's input is cleared only when the value was appended. Cleanliness is kept. |
| ProductForm.FormScreen.RemoveFromList | src/screens/AddEditProductScreen.tsx:152-157 | The addressed list becomes `RemoveAt` of the old one. The inputs and the other list are unchanged. |
| ProductForm.FormScreen.HandleSubmit | src/screens/AddEditProductScreen.tsx:122-142 | An invalid form is rejected with its reason and sends nothing. A valid one sends `SubmitRequest` while loading, leaves loading false, and reports saved or failed. |
| Text.TrimStart | src/screens/AddEditProductScreen.tsx:145 | The leading part that `trim` drops is all white space, and what is left is a suffix that does not start with white space. |
| Text.TrimEnd | src/screens/AddEditProductScreen.tsx:145 | The trailing part that `trim` drops is all white space, and what is left is a prefix that does not end with white space. |
| Text.Trim | src/screens/AddEditProductScreen.tsx:145-147 | `value.trim()` starts and ends with something other than white space. It is empty iff the value is all white space, which is the `!value.trim()` test. |
| Text.TrimIdempotent | src/screens/AddEditProductScreen.tsx:146-147 | Trimming the stored, trimmed value again changes nothing. |
| Text.ToLower | src/screens/HomeScreen.tsx:108-110 | `toLowerCase` keeps the length and maps each unit by the character mapping. |
| Text.LowerChar | src/screens/HomeScreen.tsx:108-110 | No ASCII capital survives lower-casing. |
| Text.ToLowerIdempotent | src/screens/HomeScreen.tsx:108-110 | Lower-casing the already lower-cased query changes nothing. |
| Text.ContainsIffSlice | src/screens/HomeScreen.tsx:108-110 | `includes` holds iff some contiguous slice of the text equals the query. |
| Text.ContainsEmpty | src/screens/HomeScreen.tsx:108 | The empty query is included in every text. |
| FavoriteService.WithoutId | src/services/favoriteService.ts:21 | No entry has the id any more. The others stay, in order, and unique ids stay unique. |
| FavoriteService.FavoriteStore.constructor | src/services/favoriteService.ts:6-9 | Nothing is stored at first, so the list read back is [] and trivially free of duplicate ids. |
| FavoriteService.FavoriteStore.GetFavoriteProducts | src/services/favoriteService.ts:6-9 | Returns the stored list, or [] when nothing is stored. |
| FavoriteService.FavoriteStore.AddFavoriteProduct | src/services/favoriteService.ts:11-17 | Writes `old + [product]` only when no entry has the id. Otherwise nothing is written. The id is stored afterwards. |
| FavoriteService.FavoriteStore.RemoveFavoriteProduct | src/services/favoriteService.ts:19-23 | Always writes back the list without the id. |
| FavoriteService.FavoriteStore.IsProductFavorite | src/services/favoriteService.ts:25-28 | True iff some stored entry has the id. |
| FavoriteService.RemoveAbsentKeepsList | src/services/favoriteService.ts:19-23 | Removing an id that is not stored writes back the same list. |
| FavoriteService.AddThenRemove | src/services/favoriteService.ts:11-23 | Adding a product whose id was not stored and then removing that id restores the list. |
| ProductCard.DisplayImage | components/ProductCard.tsx:11-14 | Shows the first image, or the placeholder when there is none. |
| ProductCard.Card.constructor | components/ProductCard.tsx:15 | The heart starts empty. |
| ProductCard.Card.CheckFavorite | components/ProductCard.tsx:17-23 | The heart takes the store's answer, and storage is unchanged. |
| ProductCard.Card.HandleFavorite | components/ProductCard.tsx:25-33 | The heart is negated, and afterwards it agrees with the store. The storage change is spelled out for each case. |
| AuthGate.ScreenFor | App.tsx:202-209 | Nothing is shown while loading. Otherwise the main tabs show iff signed in or a guest, and the sign-in stack shows otherwise. |
| AuthGate.GuestIsSticky | App.tsx:191-200 | After any events, the guest flag is set iff it was set before or a guest choice occurred. |
| AuthGate.LoadingUntilFirstCallback | App.tsx:192-200 | Loading lasts exactly until the first auth callback. |
| AuthGate.ScreenFromStart | App.tsx:190-209 | From start-up, nothing is shown iff no callback has come. After a callback and a guest choice, the main tabs show. |
| AuthGate.GuestSignOut | App.tsx:190-209 | A guest who signs in and out stays in the main tabs. |
| AuthGate.AppGate.constructor | App.tsx:190-192 | The app starts signed out, not a guest, and loading. Nothing is shown. |
| AuthGate.AppGate.OnAuthStateChanged | App.tsx:194-200 | Signed in iff a user is reported. Loading ends, and the guest flag is kept. |
| AuthGate.AppGate.ContinueAsGuest | App.tsx:124-135 | Sets the guest flag, and the other flags are kept. |
| AuthGate.TabBarIcon | App.tsx:140-155 | The filled icon when focused and its "-outline" variant otherwise. "home" is used for an unknown route. |
| AuthGate.TabIconsWellFormed | App.tsx:140-186 | Every tab has an icon, and the five focused icons are distinct. Unfocused icons are the focused name plus "-outline". |
| AuthGate.UnknownRouteLooksLikeHome | App.tsx:152-154 | A route outside the tab bar looks like a focused home tab, whether it is focused or not. |
| Credentials.MatchesGmailIffShape | src/screens/LoginScreen.tsx:17-20 | The test accepts exactly the language of `^\S+@gmail\.com$`: a non-empty prefix without white space, then the literal suffix. |
| Credentials.CheckCredentials | src/screens/LoginScreen.tsx:13-20 | Empty fields are reported first, then an address of the wrong shape. Each case comes with its exact condition. Registration runs the same checks (src/screens/RegisterScreen.tsx:13-20). |
| Credentials.GmailExamples | src/screens/LoginScreen.tsx:17 | Accepts `user@gmail.com` and `a@b@gmail.com`. Rejects `@gmail.com`, an address with a space, another domain, and an upper-case suffix. |
| LoginScreen.Login.constructor | src/screens/LoginScreen.tsx:8-10 | The fields start empty and not loading. |
| LoginScreen.Login.HandleLogin | src/screens/LoginScreen.tsx:12-36 | Failing checks send nothing and report the reason. Otherwise one request goes out while loading, and loading ends false. Success opens "Profilim" when there is a parent navigator. |
| LoginScreen.Login.ContinueAsGuest | src/screens/LoginScreen.tsx:73 | With a setter passed in, the gate becomes a guest and leaves the sign-in stack. Without one, the action does nothing. |
| RegisterScreen.Register.constructor | src/screens/RegisterScreen.tsx:8-10 | The fields start empty and not loading. |
| RegisterScreen.Register.HandleRegister | src/screens/RegisterScreen.tsx:12-30 | Failing checks send nothing and report the reason. Otherwise one request goes out while loading, and loading ends false in either outcome. |
| Checkout.DecidePayment | src/screens/CheckoutScreen.tsx:37-46 | The alert about missing fields appears iff one of the five fields is empty. Success navigates to "Ana Sayfa". |
| Checkout.PrefilledAddress | src/screens/CheckoutScreen.tsx:23-35 | The profile's address is used, or "" when the profile has none. The value is kept when nobody is signed in or there is no profile. |
| Checkout.CheckoutForm.constructor | src/screens/CheckoutScreen.tsx:17-21 | The five fields start as "". |
| Checkout.CheckoutForm.FetchAddress | src/screens/CheckoutScreen.tsx:23-35 | The address becomes `PrefilledAddress`, and the card fields are unchanged. |
| Checkout.CheckoutForm.HandlePayment | src/screens/CheckoutScreen.tsx:37-46 | The decision follows the five fields. The cart is not touched: the method modifies nothing, and the clause says so for the reader. |
| FavoritesScreen.ResolveAppend | src/screens/FavoritesScreen.tsx:21-28 | Resolving a concatenation resolves each part in turn. |
| FavoritesScreen.ResolveLength | src/screens/FavoritesScreen.tsx:21-28 | There are no more products than ids, and exactly as many when every id is found. |
| FavoritesScreen.ResolveMembers | src/screens/FavoritesScreen.tsx:21-28 | A product is listed iff the lookup returns it for some favorite id. |
| FavoritesScreen.ResolveAllFound | src/screens/FavoritesScreen.tsx:21-28 | When every id is found, position `i` holds the product of the `i`-th id. |
| FavoritesScreen.RemoveListedProduct | src/screens/FavoritesScreen.tsx:47 | "Remove" on a listed product takes its id out of the favorites and keeps every other id. The product is no longer listed. |
| FavoritesScreen.ViewFor | src/screens/FavoritesScreen.tsx:55-69 | Shows the loading text while loading, then the empty message iff there are no products. Otherwise the list is shown. |
| FavoritesScreen.Favorites.constructor | src/screens/FavoritesScreen.tsx:16-17 | Starts loading, with no products, so the loading view shows. |
| FavoritesScreen.Favorites.FetchFavorites | src/screens/FavoritesScreen.tsx:19-31 | Lookups go out in order, one per id, all while loading, up to and including the first rejected one. With no rejection, the loop leaves exactly `Resolve(favorites, lookup)` with loading false. With a rejection, the list is not replaced and loading stays on, so the loading text stays. |

## Left out

- Asynchrony, re-rendering and effect scheduling. Each handler runs to
  completion. A remote answer is a parameter, and the screen state it leaves
  is stated for each answer.
- Floating-point prices and `toFixed(2)` display. Prices are integer kuruş,
  so a price with more than two decimals is not representable.
- Number parsing. The price filter's `parseFloat` is represented by
  `PriceInput`: blank, a parsed amount, or NaN. The form's numeric inputs
  arrive already parsed (src/screens/AddEditProductScreen.tsx:197).
- `Number(s)`, `isNaN` and the Turkish `localeCompare` of the size facet are
  parameters (`isNumeric`, `numValue`, `collate`). The collation is assumed
  to be a total preorder.
- HomeScreen.Sort: modelled as an insertion sort, so it does not state the
  stability of the engine's `sort`. A comparator that ties distinct sizes may
  order them differently there.
- Text.LowerChar: covers ASCII, Latin-1 and the Turkish Ğ and Ş. It leaves
  out the full Unicode mapping, including 'İ', which lower-cases to two code
  units.
- JSON encoding in the favorites store. It is taken to round-trip, and a
  corrupt stored value is not modelled.
- Product loading on the detail and edit screens
  (src/screens/AddEditProductScreen.tsx:78-86). The loaded product is the
  `product` parameter.
- Navigation beyond the targets the handlers name. Modelled targets: "Ana
  Sayfa" after payment, "Profilim" after sign-in, and the root's choice of
  navigator.
- Styles, masks of the card inputs, alerts' wording, and the
  server-assigned timestamps of products.
- FavoritesScreen.RemoveListedProduct: it assumes that the lookup returns the
  product with the id it was asked for (`LookupRespectsIds`). The screen
  toggles `item.id`, not the favorite entry that produced the item.
- `productService`, `authService`, `categoryService`, the profile screen, the
  product list screen and the sample-data script are outside the core. They
  appear only as the parameters above.
