# FoodDash storefront logic, modelled in Dafny

FoodDash is a client-side food-ordering storefront. Under its React markup sit a few pieces of
list, map and string logic. This project models them and proves what they do:

- **Cart ledger** (`Cart`). The cart lines, `updateQuantity` (ignored below 1), `removeItem`,
  the subtotal fold, the 10% tax, `total = subtotal + taxes − discount`, the case-insensitive
  SAVE10 promo code, and the empty-cart checkout guard with its `ORD-` order id. Money is exact
  `real`. `CartLedger` is a class, because the page replaces its state in place.
- **Order-status display** (`OrderStatus`). The four default stages, the cancelled override,
  `findIndex` of the current key with the error output, and the per-step active, current,
  connector and circle rules.
- **Order tracking** (`OrderTracking`). Loading the placeholder order, and resuming or
  initialising its stage under `orderStatus_<id>` in the session store (a `map<string, string>`).
  Each interval tick advances one stage and writes it back, and the interval stops at
  "delivered". The timers become an explicit constructor (`Load`) and an explicit `Tick` method.
- **Restaurant search and filter** (`RestaurantListing`). The two case-insensitive substring
  filters run one after the other. They are proved equal to a one-pass reference filter, and
  that reference is proved sound, complete and order-preserving.
- **Menu grouping and lookup** (`RestaurantMenu`). The table lookup, the push-into-buckets
  grouping loop (proved against a reference grouping), and the dummy cart counter.
- **Profile page** (`UserProfile`). The minimum-length form rules, and the address book's edit,
  add and delete operations with the dialog state. Also the avatar-initials fallback.

Shared pieces: `Lists` covers `filter`, `indexOf` and the order-preserving sub-list relation.
`Text` covers case mapping, `includes`, `slice(-k)` and the decimal rendering of a timestamp.
`Wrappers` holds `Option`.

Some behaviours of the code are worth knowing. The model follows the code in each of them:

- `total` is not clamped at zero. The discount is computed once, when the promo code is
  applied, and quantity changes or removals leave it stale. `StaleDiscountCanMakeTotalNegative`
  shows a cart whose total goes negative.
- An invalid quantity is ignored silently. There is no add-or-increment operation, no
  `cancel()` and no error value: the cart page has none of them.
- A stored stage resumes only when the stored string is non-empty. `getItem` returning `""` is
  falsy, so the page overwrites it with "confirmed".
- The store key is built from the raw route parameter, so a missing one gives
  `orderStatus_undefined`. The order id instead falls back to "ORD-123456" for both a missing
  and an empty parameter.
- A stage key outside the list has index −1, so the next tick moves it to "confirmed".
- The cuisine filter's "All" sentinel is compared case-sensitively. "ALL" is an ordinary filter
  term. So the filter's letter case is irrelevant only when neither, or both, filters are
  exactly "All" (`CaseInsensitive`, `AllSentinelIsCaseSensitive`).
- A restaurant lookup miss does not reset the page's restaurant. A miss after a hit keeps
  showing the earlier restaurant (`MenuPage.Load`).
- When the simulated load ends, the listing is filtered with the first render's empty term and
  "All" filter: the timer was set up once, on that render. A term typed or a filter clicked
  during the load stays in the search box and on the buttons, but the list shows every
  restaurant (`ListingPage.FinishLoading`, `CriteriaDuringLoadingDropped`).
- A new address's id is `addr` followed by the timestamp, and nothing checks it against the
  stored ids. The same timestamp twice gives two addresses with one id. Later edits and deletes
  by that id then hit both (`AddProperties`).
- Closing the address dialog without submitting keeps `editingAddress`. Only "Add New" or a
  submit clears it.

## Model

| member | source | states |
|---|---|---|
| `Lists.IndexOf` | src/pages/OrderConfirmationAndTrackingPage.tsx:75 | `indexOf`: −1 exactly when absent, otherwise the first position holding the value |
| `Lists.Filter` | src/pages/CartPage.tsx:50 | `filter`: the elements passing the test, in their original order, and no others |
| `Text.Lower` | src/pages/RestaurantListingPage.tsx:42 | `toLowerCase`, letter by letter, length unchanged |
| `Text.Upper` | src/pages/CartPage.tsx:59 | `toUpperCase`, letter by letter, length unchanged |
| `Text.Includes` | src/pages/RestaurantListingPage.tsx:42 | `includes`: the needle starts at the first character or occurs in the rest |
| `Text.Last` | src/pages/CartPage.tsx:76 | `slice(-k)`: the last k characters, or the whole string when it is shorter |
| `Text.Dec` | src/pages/CartPage.tsx:76 | `toString` of a natural number: a non-empty string of digits |
| `Text.IncludesIff` | src/pages/RestaurantListingPage.tsx:42 | `includes` holds exactly when some window of the string spells the needle |
| `Text.LastDigitsValue` | src/pages/CartPage.tsx:76 | the last k characters of the decimal rendering are digits whose value is the number modulo 10^k |
| `Text.ParseDecOfDec` | src/pages/UserProfilePage.tsx:113 | reading back a number's decimal rendering gives the number |
| `Cart.LineTotal` | src/pages/CartPage.tsx:54 | one line's price × quantity |
| `Cart.Subtotal` | src/pages/CartPage.tsx:54 | the `reduce` from 0 adding each line's total |
| `Cart.Taxes` | src/pages/CartPage.tsx:55 | 10% of the subtotal |
| `Cart.Total` | src/pages/CartPage.tsx:56 | subtotal + taxes − discount, unclamped |
| `Cart.PromoDiscount` | src/pages/CartPage.tsx:59-63 | 10% of the subtotal when the upper-cased code is SAVE10, else 0 |
| `Cart.SetQuantity` | src/pages/CartPage.tsx:46 | the `map` giving every line with the id the new quantity and keeping the others |
| `Cart.RemoveById` | src/pages/CartPage.tsx:50 | the `filter` dropping the lines with the id |
| `Cart.OrderId` | src/pages/CartPage.tsx:76 | "ORD-" and the last six characters of the timestamp's decimal string |
| `Cart.SubtotalIsLineSum` | src/pages/CartPage.tsx:54 | the reduce equals the sum of price × quantity over the lines (0 for an empty cart) |
| `Cart.SetQuantityAbsent` | src/pages/CartPage.tsx:46 | a quantity change for an id not in the cart leaves the lines unchanged |
| `Cart.SubtotalAfterSetQuantity` | src/pages/CartPage.tsx:46-54 | changing the one line with the id moves the subtotal by price × (new − old quantity) |
| `Cart.SubtotalAfterRemove` | src/pages/CartPage.tsx:50-54 | removing the one line with the id lowers the subtotal by exactly its line total |
| `Cart.RemoveByIdProperties` | src/pages/CartPage.tsx:50 | removal leaves no line with the id, keeps every other line in its original order, and is idempotent |
| `Cart.InvariantsPreserved` | src/pages/CartPage.tsx:40-50 | a quantity ≥ 1 and any removal keep every quantity ≥ 1 and the ids distinct |
| `Cart.PromoIgnoresCase` | src/pages/CartPage.tsx:59 | the promo discount of a code equals that of its lower-cased and upper-cased forms |
| `Cart.PromoCancelsTax` | src/pages/CartPage.tsx:55-63 | with SAVE10 on the current subtotal the total equals the subtotal; any other code gives subtotal + tax |
| `Cart.InitialCartTotals` | src/pages/CartPage.tsx:23-26 | the starting cart has subtotal 24.97 and tax 2.497, and "save10" brings the total back to 24.97 |
| `Cart.StaleDiscountCanMakeTotalNegative` | src/pages/CartPage.tsx:49-65 | a discount applied before a removal is not recomputed, and the unclamped total can go below zero |
| `Cart.OrderIdEncodesTimestamp` | src/pages/CartPage.tsx:76 | the order id is "ORD-" plus digits spelling the timestamp mod 10^6, ten characters once the timestamp has six digits |
| `Cart.CartLedger.constructor` | src/pages/CartPage.tsx:29-31 | the page starts with the two placeholder lines, an empty code and a zero discount |
| `Cart.CartLedger.UpdateQuantity` | src/pages/CartPage.tsx:40-47 | below 1 nothing changes; otherwise the matching lines take the quantity; the discount is untouched; the invariants hold |
| `Cart.CartLedger.RemoveItem` | src/pages/CartPage.tsx:49-52 | the lines become the filtered lines; the discount is untouched |
| `Cart.CartLedger.SetPromoCode` | src/pages/CartPage.tsx:189 | the input stores the typed code and changes nothing else |
| `Cart.CartLedger.ApplyPromoCode` | src/pages/CartPage.tsx:58-66 | SAVE10 in any case stores 10% of the current subtotal, so the total equals the subtotal; any other code stores 0 |
| `Cart.CartLedger.Checkout` | src/pages/CartPage.tsx:68-78 | an empty cart yields no order id; otherwise the id's digits spell the timestamp mod 10^6 |
| `OrderStatus.Keys` | src/pages/OrderConfirmationAndTrackingPage.tsx:57 | the key list has one entry per stage, in stage order |
| `OrderStatus.FindIndex` | src/components/OrderStatusVisualizer.tsx:36 | `findIndex`: −1 exactly when no stage has the key, otherwise the first stage that does |
| `OrderStatus.Visualize` | src/components/OrderStatusVisualizer.tsx:28-41 | cancelled gives [cancelled] at index 0 whatever the key; otherwise an unknown key gives the error output, a known one its first index |
| `OrderStatus.IsActive` | src/components/OrderStatusVisualizer.tsx:47 | a step is active when cancelled or at or before the current index |
| `OrderStatus.IsCurrent` | src/components/OrderStatusVisualizer.tsx:48 | a step is current when cancelled or at the current index |
| `OrderStatus.Connector` | src/components/OrderStatusVisualizer.tsx:53-57 | no connector before step 0; otherwise red, green or gray by the nested conditional as written |
| `OrderStatus.CircleColor` | src/components/OrderStatusVisualizer.tsx:65-66 | red when cancelled, else green when active, else gray |
| `OrderStatus.HasRing` | src/components/OrderStatusVisualizer.tsx:67 | the ring is drawn on a current step unless cancelled |
| `OrderStatus.VisualizeWellFormed` | src/components/OrderStatusVisualizer.tsx:35-36 | every rendered view has a valid current index into a non-empty step list |
| `OrderStatus.DefaultStatusesShape` | src/components/OrderStatusVisualizer.tsx:11-20 | the stages are confirmed, preparing, out_for_delivery, delivered; the keys are distinct and differ from "cancelled" |
| `OrderStatus.FindIndexOfDistinct` | src/components/OrderStatusVisualizer.tsx:36 | with distinct keys, looking up step i's key finds i |
| `OrderStatus.ActiveIsPrefixAndOneCurrent` | src/components/OrderStatusVisualizer.tsx:47-48 | step i is active iff i ≤ the current index and current iff i equals it, so exactly one step is current |
| `OrderStatus.ConnectorRule` | src/components/OrderStatusVisualizer.tsx:53-56 | a connector precedes exactly the steps with index > 0; it is green iff its step is active, and never red |
| `OrderStatus.CircleRule` | src/components/OrderStatusVisualizer.tsx:62-74 | cancelled: red, no ring; otherwise only the current step has the ring, and circles are green up to it |
| `OrderStatus.DefaultArguments` | src/components/OrderStatusVisualizer.tsx:28-32 | omitted arguments mean the default stages and not cancelled; "cancelled" as a key is then an error |
| `OrderTracking.PlaceholderTotalMatchesItems` | src/pages/OrderConfirmationAndTrackingPage.tsx:27-37 | the placeholder's 24.97 equals Σ price × quantity over its items |
| `OrderTracking.StatusKeysValue` | src/pages/OrderConfirmationAndTrackingPage.tsx:57 | the tick's key list is the four stage keys, pairwise distinct |
| `OrderTracking.StoreKey` | src/pages/OrderConfirmationAndTrackingPage.tsx:60 | "orderStatus_" and the route id as the template literal renders it ("undefined" when missing) |
| `OrderTracking.FetchedOrder` | src/pages/OrderConfirmationAndTrackingPage.tsx:53 | the placeholder with the route id, or its own id when the route id is missing or empty |
| `OrderTracking.LoadedKey` | src/pages/OrderConfirmationAndTrackingPage.tsx:60-64 | the stored stage when non-empty, else the placeholder's "confirmed" |
| `OrderTracking.LoadedStore` | src/pages/OrderConfirmationAndTrackingPage.tsx:60-64 | the store unchanged when it holds a non-empty stage, else with "confirmed" written |
| `OrderTracking.StartsTicking` | src/pages/OrderConfirmationAndTrackingPage.tsx:71 | the interval starts unless the stage is "delivered" or "cancelled" |
| `OrderTracking.NextKey` | src/pages/OrderConfirmationAndTrackingPage.tsx:75-82 | the stage after the `indexOf` position, or none at the last stage |
| `OrderTracking.AfterTicks` | src/pages/OrderConfirmationAndTrackingPage.tsx:72-84 | the stage after n ticks, stopping where the interval is cleared |
| `OrderTracking.LoadRule` | src/pages/OrderConfirmationAndTrackingPage.tsx:53-64 | the order id is the route id or "ORD-123456"; a non-empty stored key is resumed, else "confirmed" is written; no other entry changes |
| `OrderTracking.NextKeyRule` | src/pages/OrderConfirmationAndTrackingPage.tsx:75-82 | stage i < 3 moves to i + 1, "delivered" stops, an unknown key moves to "confirmed", and "cancelled" is never reached |
| `OrderTracking.AfterTicksStage` | src/pages/OrderConfirmationAndTrackingPage.tsx:72-84 | from stage i, n ticks reach stage min(i + n, 3): the stage never decreases and stays at "delivered" |
| `OrderTracking.ThreeTicksToDelivered` | src/pages/OrderConfirmationAndTrackingPage.tsx:72-84 | from "confirmed" exactly three ticks reach "delivered"; from an unknown key, four |
| `OrderTracking.OrderTracker.Load` | src/pages/OrderConfirmationAndTrackingPage.tsx:50-71 | the loaded order, the store after the load, and the start condition (not delivered, not cancelled) |
| `OrderTracking.OrderTracker.Tick` | src/pages/OrderConfirmationAndTrackingPage.tsx:72-84 | advances one stage, writes the same key to the store and changes no other field; at the last stage changes nothing and stops; the stored key always equals the in-memory key |
| `RestaurantListing.MatchesCuisine` | src/pages/RestaurantListingPage.tsx:42 | the lower-cased cuisine includes the lower-cased filter |
| `RestaurantListing.MatchesSearch` | src/pages/RestaurantListingPage.tsx:45 | the lower-cased name or cuisine includes the lower-cased term |
| `RestaurantListing.Selected` | src/pages/RestaurantListingPage.tsx:41-46 | passes the cuisine test unless the filter is exactly "All", and the search test unless the term is empty |
| `RestaurantListing.Selection` | src/pages/RestaurantListingPage.tsx:39-47 | the one-pass reference: the restaurants that are selected, in order |
| `RestaurantListing.SelectionSoundComplete` | src/pages/RestaurantListingPage.tsx:39-48 | the result is an order-preserving sub-list; each result matches every active test (soundness); each restaurant matching them is kept (completeness) |
| `RestaurantListing.NoCriteriaKeepsAll` | src/pages/RestaurantListingPage.tsx:40-47 | filter "All" with an empty search returns the whole list in order |
| `RestaurantListing.CaseInsensitive` | src/pages/RestaurantListingPage.tsx:41-46 | terms and filters that lower-case alike give the same result, provided the filters agree on being exactly "All" |
| `RestaurantListing.AllSentinelIsCaseSensitive` | src/pages/RestaurantListingPage.tsx:41 | "ALL" is not the sentinel: a restaurant kept under "All" can be dropped under "ALL" |
| `RestaurantListing.SelectionOfPasses` | src/pages/RestaurantListingPage.tsx:39-47 | the two successive filters compute the one-pass reference |
| `RestaurantListing.ListingPage.constructor` | src/pages/RestaurantListingPage.tsx:22-25 | empty search, filter "All", the full list shown, loading |
| `RestaurantListing.ListingPage.FilterAndSearchRestaurants` | src/pages/RestaurantListingPage.tsx:39-48 | the shown list becomes the reference selection for the given term and filter |
| `RestaurantListing.ListingPage.FinishLoading` | src/pages/RestaurantListingPage.tsx:28-37 | the end of loading filters with the first render's "" and "All", so the whole list is shown while the stored term and filter stay |
| `RestaurantListing.CriteriaDuringLoadingDropped` | src/pages/RestaurantListingPage.tsx:28-37 | after loading the shown list is the full list, which differs from the selection for any term or filter some restaurant fails |
| `RestaurantListing.ListingPage.HandleSearchChange` | src/pages/RestaurantListingPage.tsx:50-54 | the new term is stored and used with the current filter |
| `RestaurantListing.ListingPage.HandleFilterClick` | src/pages/RestaurantListingPage.tsx:56-59 | the new filter is stored and used with the current term |
| `RestaurantMenu.Lookup` | src/pages/RestaurantMenuPage.tsx:65-70 | found iff the route id is a key of the table, and then it is that entry |
| `RestaurantMenu.Bucket` | src/pages/RestaurantMenuPage.tsx:88 | a category's array: the menu items carrying it, in menu order |
| `RestaurantMenu.Grouped` | src/pages/RestaurantMenuPage.tsx:86-90 | the reference grouping: each occurring category mapped to its bucket |
| `RestaurantMenu.Categories` | src/pages/RestaurantMenuPage.tsx:86-90 | the grouped object's keys, in first-occurrence order, without repeats |
| `RestaurantMenu.CategoriesOccur` | src/pages/RestaurantMenuPage.tsx:88 | a category is a key iff some menu item carries it |
| `RestaurantMenu.GroupMenuItemsByCategory` | src/pages/RestaurantMenuPage.tsx:86-91 | the push loop builds exactly the reference grouping and key order |
| `RestaurantMenu.GroupedStep` | src/pages/RestaurantMenuPage.tsx:87-89 | one more item is pushed onto its category's bucket, creating the bucket on first sight |
| `RestaurantMenu.GroupingPartitions` | src/pages/RestaurantMenuPage.tsx:86-90 | every item is in its own category's bucket and only there; buckets keep menu order; keys are the occurring categories; no bucket is empty |
| `RestaurantMenu.SizesSumToMenuLength` | src/pages/RestaurantMenuPage.tsx:86-90 | the bucket sizes add up to the menu length |
| `RestaurantMenu.MenuPage.constructor` | src/pages/RestaurantMenuPage.tsx:54-56 | no restaurant, loading, counter 0 |
| `RestaurantMenu.MenuPage.Load` | src/pages/RestaurantMenuPage.tsx:60-74 | a hit stores the table entry; a miss keeps the previous restaurant (none at first) |
| `RestaurantMenu.MenuPage.HandleAddToCart` | src/pages/RestaurantMenuPage.tsx:76-84 | the counter rises by exactly one |
| `UserProfile.ProfileLengthsValid` | src/pages/UserProfilePage.tsx:19-24 | the profile schema's length rules: name ≥ 2, a given phone ≥ 10 |
| `UserProfile.AddressFieldsValid` | src/pages/UserProfilePage.tsx:30-33 | the address schema's length rules: street ≥ 3, city ≥ 2, state ≥ 2, zip ≥ 5 |
| `UserProfile.Merge` | src/pages/UserProfilePage.tsx:110 | `{ ...addr, ...data }`: the form's fields win, an absent optional field keeps the address's |
| `UserProfile.EditById` | src/pages/UserProfilePage.tsx:110 | the `map` merging the form into the addresses with the edited id |
| `UserProfile.GeneratedId` | src/pages/UserProfilePage.tsx:113 | "addr" and the timestamp's decimal string |
| `UserProfile.NewAddress` | src/pages/UserProfilePage.tsx:113 | the form's fields with the generated id |
| `UserProfile.DeleteById` | src/pages/UserProfilePage.tsx:121 | the `filter` dropping the addresses with the id |
| `UserProfile.AvatarFallback` | src/pages/UserProfilePage.tsx:146 | the first two characters upper-cased, or "U" when that is empty |
| `UserProfile.InitialDataValid` | src/pages/UserProfilePage.tsx:43-52 | the starting profile and addresses satisfy the length rules, with distinct address ids |
| `UserProfile.FormValidity` | src/pages/UserProfilePage.tsx:28-35 | an address is valid iff street ≥ 3, city ≥ 2, state ≥ 2 and zip ≥ 5; a valid form gives valid edited and new addresses |
| `UserProfile.EditProperties` | src/pages/UserProfilePage.tsx:109-110 | editing sets the form's fields (and its id, when it has one) on the matching addresses; the others and the length stay; the book stays valid; ids stay distinct when the form keeps the edited id |
| `UserProfile.AddProperties` | src/pages/UserProfilePage.tsx:112-113 | adding appends one address with the generated id after the unchanged ones; distinct ids stay distinct exactly when the generated id is not already stored |
| `UserProfile.GeneratedIdsDiffer` | src/pages/UserProfilePage.tsx:113 | different timestamps generate different ids |
| `UserProfile.DeleteProperties` | src/pages/UserProfilePage.tsx:120-121 | deleting removes every address with the id, keeps the rest in order, and is idempotent |
| `UserProfile.DeleteKeepsBookValid` | src/pages/UserProfilePage.tsx:120-121 | deleting keeps the remaining addresses valid, and distinct ids stay distinct |
| `UserProfile.AvatarFallbackRule` | src/pages/UserProfilePage.tsx:146 | "U" for an empty name, else the first one or two characters upper-cased |
| `UserProfile.ProfilePage.constructor` | src/pages/UserProfilePage.tsx:63-69 | the placeholder profile and addresses, the dialog closed, nothing being edited |
| `UserProfile.ProfilePage.OnProfileSubmit` | src/pages/UserProfilePage.tsx:91-94 | the submitted profile replaces the saved one |
| `UserProfile.ProfilePage.AvatarText` | src/pages/UserProfilePage.tsx:146 | the avatar text is the fallback of the saved name, one or two characters long |
| `UserProfile.ProfilePage.HandleEditAddress` | src/pages/UserProfilePage.tsx:96-100 | the address is remembered as being edited and the dialog opens |
| `UserProfile.ProfilePage.HandleAddNewAddress` | src/pages/UserProfilePage.tsx:102-106 | no address is being edited and the dialog opens, so the next submit adds |
| `UserProfile.ProfilePage.SetAddressDialogOpen` | src/pages/UserProfilePage.tsx:299 | opening or closing the dialog leaves the edit state alone |
| `UserProfile.ProfilePage.OnAddressSubmit` | src/pages/UserProfilePage.tsx:108-118 | for any schema-valid form: edit or append by the edit state, then close the dialog with nothing being edited; the book stays valid |
| `UserProfile.ProfilePage.DeleteAddress` | src/pages/UserProfilePage.tsx:120-123 | the addresses become the filtered list; the book stays valid |

## Left out

- Markup, CSS classes, icons, image URLs, toasts and `console.log`: presentation only. The
  promo toast survives as `ApplyPromoCode`'s `accepted` result.
- Timers and effects (`setTimeout`, `setInterval`, `clearInterval`). A load is a constructor
  or method call. A tick is a `Tick` call, allowed only while the interval runs (`ticking`).
- The loading flag and the `prevOrder` null check of the tracking page: the order is always
  set before the interval starts.
- Floating point and `toFixed` rounding: money is exact `real`.
- `Date.now()` is a natural-number parameter.
- Quantities are integers: the page only ever passes a line's quantity ± 1.
- Cart.PromoIgnoresCase: case mapping covers the ASCII letters only. JavaScript's
  `toUpperCase`/`toLowerCase` are full Unicode, so for example "ſave10" also matches there.
- RestaurantListing.CaseInsensitive: the same ASCII-only case mapping applies.
- UserProfile.AvatarFallbackRule: the same ASCII-only upper-casing, so the one-or-two-character
  length is the model's. JavaScript's `toUpperCase` can lengthen a string ("ßa" gives "SSA"),
  and `substring` counts UTF-16 code units, not characters.
- UserProfile.ProfilePage.AvatarText: its one-or-two-character bound holds only under the
  model's ASCII upper-casing, for the same reason.
- zod's `.email()` and `.url()` checks, and react-hook-form's `reset`/`watch`. Only the
  minimum lengths are modelled, counted in characters.
- The profile name is always present. The `?.` guard on it is not modelled.
- JavaScript object quirks: prototype keys such as "constructor" look up as truthy, and
  integer-like keys come first in `Object.entries` order. Keys here are plain map keys.
- The labels of the five cuisine buttons. Any string is accepted as a filter.
- Navigation, the route table, the placeholder payment and reorder handlers, past orders, and
  the navigation, restaurant-card and menu-item-card components. They hold no logic to state.
