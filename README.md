# BHU Quick Food: the ordering logic, in Dafny

This project models the client-side ordering logic of the BHU Quick Food campus food-ordering web app.
A student fills a cart with menu items, checks out to a hostel with a payment method, and follows the
order on a tracking page while simulated timers move it from `confirmed` to `delivered`. Around that
flow sit the session store and route guard, the home-page search, the profile summary, the
announcement banner, the password rules of the reset page, and the derived values and table updates of
the admin pages (cafeterias, orders, users, dashboard).

Each source file of that logic is one Dafny module, in the source's own form:

- A state cell that the source replaces step by step is a field of a `class`, whose methods state the
  new state exactly. These are the cart, the order store, the checkout page, the cafeteria editor, the
  role table, the banner's dismissed list, the tracking counter and the session.
- Expressions the source computes are functions with named results. Their meaning is proved in
  lemmas: the status patch, the slug, the payload, the filters and searches, the totals, the display
  name, the access decision and the password checks.

Helper modules:

| module | holds |
|---|---|
| `Wrappers` | `Option` |
| `Seqs` | filtering, subsequences and counting |
| `Text` | ASCII character classes, JavaScript `\s`, trimming, `includes`, case mapping, one-character `replace` |
| `Radix` | `Number#toString(radix)` and its decoding |
| `Domain` | the database's `order_status` and `app_role` enums |

Modelling conventions:

- The order store's five statuses are a subset type of the seven-valued `order_status` enum.
- Money is an integer number of naira.
- A random draw is a bounded natural-number parameter (a "roll"), and so is a clock reading. A timer
  jitter is a real in [0, 4000).
- A remote write that can fail carries a boolean `fails` parameter. A database table is a `map` or a
  `seq`.

Where the code and the design description differ, the model follows the code:

- The order store keeps orders in memory only. It names an order `ORD-` plus the upper-case base-36
  timestamp, not an id assigned by a database.
- Statuses advance by four local timers, not by a subscription to remote updates.
- The delivery estimate is `25 + floor(random * 15)`. That range is 25-39 minutes, not 25-40.
- The session store in `src/contexts/AuthContext.tsx` is a mock user/login/signup store. The pages
  also read `profile`, `hasRole` and `isLoading` from a session context that is not part of this model.
  Those pages take the user's roles as a set of `app_role` values and the loading and signed-in flags
  as booleans.

## Model

| member | source | states |
|---|---|---|
| `Domain.StatusNameInjective` | src/integrations/supabase/types.ts:520-527 | The seven order statuses have seven distinct database names. |
| `Radix.FromToRadix` | src/contexts/OrderContext.tsx:38 | Decoding the base-b digits of n returns n (round trip of `toString(radix)`). |
| `Radix.ToRadixLength` | src/contexts/OrderContext.tsx:49 | A number between b^(k-1) and b^k renders as exactly k digits. |
| `Text.Trim` | src/pages/admin/ManageCafeterias.tsx:42-45 | `trim()` returns an infix of its input that neither starts nor ends with JavaScript whitespace. |
| `Text.TrimDropsSpace` | src/pages/admin/ManageCafeterias.tsx:42-45 | `trim()` only drops whitespace: its result is the slice of the input between a prefix and a suffix that are all whitespace, so with the no-whitespace-at-either-end property of `Text.Trim` it is the longest such slice. |
| `Text.TrimIsTrimEndOfTrimStart` | src/pages/admin/ManageCafeterias.tsx:42-45 | Trimming is the same as dropping leading whitespace, then trailing whitespace. |
| `Text.TrimEmptyIff` | src/pages/admin/ManageCafeterias.tsx:42 | `trim()` gives "" exactly when every character is JavaScript whitespace. |
| `Text.TrimIdempotent` | src/pages/admin/ManageCafeterias.tsx:45 | Trimming a trimmed string changes nothing. |
| `Text.LowerIncludesProps` | src/pages/Home.tsx:29-30 | A case-insensitive `includes` accepts the empty query, accepts every exact occurrence, and ignores the case of the searched text. |
| `CartContext.Find` | src/contexts/CartContext.tsx:40 | A line is found iff some line has the id, and the found line is in the cart with that id. |
| `CartContext.MapMatching` | src/contexts/CartContext.tsx:42 | A map over the lines changes only the lines with the id and keeps the length. |
| `CartContext.Added` | src/contexts/CartContext.tsx:40-44 | A present id: same length, that line's quantity +1 with snapshot, cafeteria and position kept, others unchanged. An absent id: one line with quantity 1 appended, earlier lines unchanged. |
| `CartContext.Removed` | src/contexts/CartContext.tsx:51 | The result holds exactly the lines whose id differs. |
| `CartContext.Cart.constructor` | src/contexts/CartContext.tsx:35 | The cart starts empty and well formed. |
| `CartContext.Cart.AddItem` | src/contexts/CartContext.tsx:38-45 | `items` becomes `Added(old items)` and stays well formed (one line per id, quantities >= 1). |
| `CartContext.Cart.RemoveItem` | src/contexts/CartContext.tsx:50-52 | `items` becomes `Removed(old items)` and stays well formed. |
| `CartContext.Cart.UpdateQuantity` | src/contexts/CartContext.tsx:54-60 | A quantity <= 0 removes the line exactly as `removeItem` does. A positive quantity sets that line's quantity. The cart stays well formed. |
| `CartContext.Cart.UpdateInstructions` | src/contexts/CartContext.tsx:62-64 | Only the matching line's instructions change, and the cart stays well formed. |
| `CartContext.Cart.ClearCart` | src/contexts/CartContext.tsx:66 | The cart is empty. |
| `CartContext.AddedWellFormed` | src/contexts/CartContext.tsx:40-44 | Adding keeps one line per id and every quantity >= 1. |
| `CartContext.WellFormedCons` | src/contexts/CartContext.tsx:40-44 | A cart is well formed iff its head is unique and positive and its tail is well formed. |
| `CartContext.RemovedWellFormed` | src/contexts/CartContext.tsx:51 | Removing keeps the cart well formed. |
| `CartContext.WithQuantityWellFormed` | src/contexts/CartContext.tsx:58 | Setting a positive quantity keeps the cart well formed. |
| `CartContext.WithInstructionsWellFormed` | src/contexts/CartContext.tsx:63 | Setting instructions keeps the cart well formed. |
| `CartContext.WithQuantity` | src/contexts/CartContext.tsx:54-61 | The lines after `updateQuantity` with a positive quantity: the matching line's quantity is replaced and every other line is kept. Its laws are in `CartContext.MapMatching`, `CartContext.QuantityAfterWithQuantity` and `CartContext.WithQuantityWellFormed`. |
| `CartContext.WithInstructions` | src/contexts/CartContext.tsx:62-66 | The lines after `updateInstructions`: the matching line's instructions are replaced and every other line is kept. Its laws are in `CartContext.MapMatching` and `CartContext.WithInstructionsWellFormed`. |
| `CartContext.MapMatchingAbsent` | src/contexts/CartContext.tsx:58-63 | Updating an absent id changes nothing. |
| `CartContext.RemovedAbsent` | src/contexts/CartContext.tsx:51 | Removing an absent id changes nothing. |
| `CartContext.RemovedKeepsOrder` | src/contexts/CartContext.tsx:51 | The remaining lines keep their relative order (subsequence). |
| `CartContext.TotalItemsMapMatching` | src/contexts/CartContext.tsx:68 | The item count after an update changes by exactly the matching line's quantity change. |
| `CartContext.SubtotalMapMatching` | src/contexts/CartContext.tsx:69 | The subtotal after an update that keeps the snapshot changes by price times the quantity change. |
| `CartContext.TotalItemsAppend` | src/contexts/CartContext.tsx:68 | Appending a line adds its quantity to the item count. |
| `CartContext.TotalItems` | src/contexts/CartContext.tsx:68 | `totalItems` is the sum of the quantities. How it changes under add, remove and update is proved in the `AddedTotalItems`, `RemovedTotalItems` and `TotalItemsMapMatching` lemmas. |
| `CartContext.Subtotal` | src/contexts/CartContext.tsx:69 | `subtotal` is the sum of unit price times quantity. How it changes under add, remove and update is proved in the `AddedSubtotal`, `RemovedSubtotal` and `SubtotalMapMatching` lemmas. |
| `CartContext.SubtotalAppend` | src/contexts/CartContext.tsx:69 | Appending a line adds price x quantity to the subtotal. |
| `CartContext.AddedTotalItems` | src/contexts/CartContext.tsx:40-44 | `addItem` raises the item count (`totalItems`, src/contexts/CartContext.tsx:68) by exactly 1. |
| `CartContext.AddedSubtotal` | src/contexts/CartContext.tsx:40-44 | `addItem` raises the subtotal (src/contexts/CartContext.tsx:69) by the item's price. |
| `CartContext.MulSucc` | src/contexts/CartContext.tsx:69 | p(q+1) = pq + p, the step behind a quantity bump's subtotal. |
| `CartContext.RemovedTotalItems` | src/contexts/CartContext.tsx:51-68 | Removing lowers the item count by the removed line's quantity. |
| `CartContext.RemovedSubtotal` | src/contexts/CartContext.tsx:51-69 | Removing lowers the subtotal by the removed line's price x quantity. |
| `CartContext.QuantityAfterWithQuantity` | src/contexts/CartContext.tsx:58 | After setting a quantity, the id holds exactly q if present; every other id keeps its own. |
| `CartContext.QuantityAfterAdded` | src/contexts/CartContext.tsx:40-44 | After `addItem`, the added id's quantity is one higher; other ids are unaffected. |
| `CartContext.QuantityAfterBump` | src/contexts/CartContext.tsx:42 | Bumping a present line raises only its own quantity, by 1. |
| `CartContext.FindAppend` | src/contexts/CartContext.tsx:40-44 | After an append, the lookup finds an earlier line first, otherwise the appended one. |
| `CartContext.AddAllQuantity` | src/contexts/CartContext.tsx:38-45 | Any sequence of adds keeps the cart well formed. Each id's quantity grows by the number of adds of that id. |
| `CartContext.CartArithmeticExample` | src/contexts/CartContext.tsx:68-69 | Two adds of a 1500 item and one of an 800 item give 3 items and subtotal 3800. |
| `OrderContext.OrderId` | src/contexts/OrderContext.tsx:38 | The id is "ORD-" followed by at least one character, each a digit or an upper-case letter. |
| `OrderContext.OrderIdRoundTrip` | src/contexts/OrderContext.tsx:38 | Decoding the id's base-36 digits returns the timestamp. |
| `OrderContext.OrderIdInjective` | src/contexts/OrderContext.tsx:38 | Different timestamps give different ids. |
| `OrderContext.RiderPhone` | src/contexts/OrderContext.tsx:49 | The phone has 11 digits: "080", then a non-zero digit, then 8 digits in all that read as roll + 10000000. |
| `OrderContext.NewOrder` | src/contexts/OrderContext.tsx:37-50 | total = subtotal + fee, status confirmed, fields as passed, eta in [25, 39], rider from the pool of five, phone of 11 characters starting "080". |
| `OrderContext.Patched` | src/contexts/OrderContext.tsx:67 | The status patch keeps the number of orders. |
| `OrderContext.PatchedScope` | src/contexts/OrderContext.tsx:59-67 | Only the status of orders with the id changes; every other field and every other order is unchanged. |
| `OrderContext.PatchedLastWins` | src/contexts/OrderContext.tsx:58-68 | Two patches of one id equal the later one; an absent current order stays absent. |
| `OrderContext.PatchedIdempotent` | src/contexts/OrderContext.tsx:67-68 | Applying the same patch twice equals applying it once, for the list and the current order. |
| `OrderContext.PatchedCurrentLastWins` | src/contexts/OrderContext.tsx:58-68 | The current order takes the later of two patches; a current order with another id is untouched. |
| `OrderContext.StepDelay` | src/contexts/OrderContext.tsx:60 | Step i fires in [(i+1)*8000, (i+1)*8000 + 4000) milliseconds. |
| `OrderContext.StepDelaysOrdered` | src/contexts/OrderContext.tsx:55-60 | The windows are disjoint and increasing, so a later step always fires later. |
| `OrderContext.OrderStore.constructor` | src/contexts/OrderContext.tsx:33-34 | No orders and no current order. |
| `OrderContext.OrderStore.PlaceOrder` | src/contexts/OrderContext.tsx:36-64 | Returns `NewOrder(...)`, prepends it (earlier orders follow unchanged and in order) and makes it current. It schedules preparing, rider_assigned, on_the_way and delivered for that id in firing order. |
| `OrderContext.OrderStore.UpdateOrderStatus` | src/contexts/OrderContext.tsx:66-69 | The list and the current order are patched as `Patched` / `PatchedCurrent` say. |
| `OrderContext.OrderStore.RunProgression` | src/contexts/OrderContext.tsx:56-61 | Firing the schedule in order leaves the order (and the current order, if it is that order) at the last scheduled status. |
| `OrderContext.PlaceAndDeliver` | src/contexts/OrderContext.tsx:36-64 | After placing and letting every timer fire, the new order is first and current, delivered, with total = subtotal + fee. |
| `Hostels.TableShape` | src/data/hostels.ts:8-17 | Exactly 8 hostels with pairwise distinct, non-empty ids and distinct names. |
| `Hostels.TableRanges` | src/data/hostels.ts:9-16 | Every fee is in [200, 350] and every extra time in [5, 12]. |
| `Hostels.FindIn` | src/pages/Checkout.tsx:22 | `find` returns a hostel of the list with that id, and returns none iff none has it. |
| `Hostels.Find` | src/pages/Checkout.tsx:22 | The same lookup on the hostel table. |
| `Hostels.FindUnique` | src/pages/Checkout.tsx:22 | A hostel of the table is the one its id finds, since ids are unique. |
| `Checkout.DeliveryFee` | src/pages/Checkout.tsx:22-23 | 0 when no hostel matches; otherwise a fee in [200, 350]. |
| `Checkout.DeliveryFeeMatchesTable` | src/pages/Checkout.tsx:22-23 | The fee is the matching hostel's own fee, and it is 0 iff no hostel has the id. |
| `Checkout.Total` | src/pages/Checkout.tsx:24 | The total is the cart's subtotal plus the delivery fee listed in the hostel table for the selected hostel, or the subtotal alone when no hostel of the table has the selected id. |
| `Checkout.RedirectsToCart` | src/pages/Checkout.tsx:50-51 | The page goes back to the cart iff the cart is empty and the success overlay is not shown. `HandlePlaceOrder` proves that this is false after an order is placed. |
| `Checkout.CheckoutPage.constructor` | src/pages/Checkout.tsx:16-19 | Nothing selected, not processing, no success overlay. |
| `Checkout.CheckoutPage.SelectHostel` | src/pages/Checkout.tsx:102 | The clicked hostel is selected and its fee is the page's fee; nothing else changes. |
| `Checkout.CheckoutPage.SelectPayment` | src/pages/Checkout.tsx:139 | One of card, transfer or cash is selected (src/pages/Checkout.tsx:26-30); nothing else changes. |
| `Checkout.CheckoutPage.HandlePlaceOrder` | src/pages/Checkout.tsx:32-48 | A missing hostel is refused before a missing payment, with nothing changed. Otherwise the order gets the cart's lines, subtotal, fee, total and hostel name and is prepended as current. The cart is emptied afterwards and the path is `/tracking/<id>`. The page no longer redirects to the cart (src/pages/Checkout.tsx:50-52). |
| `OrderTracking.FindOrder` | src/pages/OrderTracking.tsx:20 | `find` returns the first order with the id, or none iff no order has it. |
| `OrderTracking.Lookup` | src/pages/OrderTracking.tsx:20 | The current order if its id matches, otherwise the first matching order, otherwise none; a result always has the id. |
| `OrderTracking.StepIndexIn` | src/pages/OrderTracking.tsx:44 | `findIndex`: the first position holding the status, or -1 iff it is absent. |
| `OrderTracking.StepIndexTracked` | src/pages/OrderTracking.tsx:44 | Each of the five statuses maps to its own position 0..4. |
| `OrderTracking.ProgressOfStatus` | src/pages/OrderTracking.tsx:45 | The bar is 20(i+1) percent at step i, 100 exactly for delivered, 0 for a status off the timeline. |
| `OrderTracking.ProgressPercent` | src/pages/OrderTracking.tsx:45 | `((index + 1) / 5) * 100`, computed over the reals. `ProgressOfStatus` and `ProgressMonotone` state what it gives per status. |
| `OrderTracking.ProgressMonotone` | src/pages/OrderTracking.tsx:45 | A later step shows a fuller bar. |
| `OrderTracking.RemainingTime` | src/pages/OrderTracking.tsx:46 | Never negative and never above the estimate (or 0); in the first minute it is the estimate. |
| `OrderTracking.RemainingTimeMonotone` | src/pages/OrderTracking.tsx:46 | The countdown never rises as time passes and is 0 once the estimate has elapsed. |
| `OrderTracking.StepViews` | src/pages/OrderTracking.tsx:87-89 | One view per timeline step. |
| `OrderTracking.CountCurrentNone` | src/pages/OrderTracking.tsx:89 | No step flagged current means a count of 0. |
| `OrderTracking.CountCurrentOne` | src/pages/OrderTracking.tsx:89 | Exactly one step flagged current means a count of 1. |
| `OrderTracking.TimelineShape` | src/pages/OrderTracking.tsx:87-89 | Step i is complete iff i <= the status's index; the current step is the status's own; exactly one step is current. |
| `OrderTracking.RiderCardWindow` | src/pages/OrderTracking.tsx:117 | A shown rider card implies the order is at step 2 or 3 (rider assigned, on the way). |
| `OrderTracking.ShowRiderCard` | src/pages/OrderTracking.tsx:117 | The rider card shows iff the status is rider assigned or on the way and the rider's name is present and non-empty. An empty name is falsy in the source. |
| `OrderTracking.RiderCardForStoreOrders` | src/pages/OrderTracking.tsx:117 | For orders with a pool rider, the card is shown iff the status is rider_assigned or on_the_way. |
| `OrderTracking.TrackingTimer.constructor` | src/pages/OrderTracking.tsx:21 | The counter starts at 0. |
| `OrderTracking.TrackingTimer.Tick` | src/pages/OrderTracking.tsx:23-27 | A tick adds one second only while an undelivered order is shown. |
| `OrderTracking.CounterRuns` | src/pages/OrderTracking.tsx:24-25 | The seconds counter runs iff an order is shown and it is not delivered. `TrackingTimer.Tick` follows it. |
| `ResetPassword.TestClass` | src/pages/ResetPassword.tsx:11-13 | A character-class test is true iff some character is in the class. |
| `ResetPassword.PasswordChecks` | src/pages/ResetPassword.tsx:9-14 | Four checks in order (length, upper case, digit, special), with their captions. Met iff length >= 8, some A-Z, some 0-9, some character that is not an ASCII letter or digit. |
| `ResetPassword.Every` | src/pages/ResetPassword.tsx:24 | `every` is true iff every check is met. |
| `ResetPassword.AllMetIff` | src/pages/ResetPassword.tsx:24 | All checks are met iff length >= 8 and an upper-case letter, a digit and a special character occur. |
| `ResetPassword.ChecksMonotone` | src/pages/ResetPassword.tsx:9-14 | Typing more characters never unmeets a met check. |
| `ResetPassword.AllMetMonotone` | src/pages/ResetPassword.tsx:24 | A password meeting every rule still does after more typing. |
| `ResetPassword.HandleSubmit` | src/pages/ResetPassword.tsx:26-30 | The update is requested iff all checks are met, and with the typed password. |
| `ResetPassword.AcceptedExample` | src/pages/ResetPassword.tsx:28-30 | "Passw0rd!" is submitted. |
| `ResetPassword.RejectedExample` | src/pages/ResetPassword.tsx:28 | "passw0rd!" (no capital) is ignored. |
| `ManageCafeterias.CollapseSpaces` | src/pages/admin/ManageCafeterias.tsx:44 | `replace(/\s+/g, '-')` leaves no whitespace and never lengthens. |
| `ManageCafeterias.GeneratedSlug` | src/pages/admin/ManageCafeterias.tsx:44 | A generated slug holds only a-z, 0-9 and '-', and is no longer than the name. |
| `ManageCafeterias.SlugSpec` | src/pages/admin/ManageCafeterias.tsx:44 | An independent one-pass reference for the slug: a whitespace run gives one '-', a character that becomes a-z, 0-9 or '-' when lower-cased is kept lower-cased, and anything else is dropped. `GeneratedSlugIsSpec` proves the source's regex chain equal to it. |
| `ManageCafeterias.Slug` | src/pages/admin/ManageCafeterias.tsx:44 | A non-blank slug field is used trimmed; otherwise the slug is generated from the name. |
| `ManageCafeterias.LowerCons` | src/pages/admin/ManageCafeterias.tsx:44 | Lower-casing works character by character. |
| `ManageCafeterias.LowerCharSpace` | src/pages/admin/ManageCafeterias.tsx:44 | Lower-casing neither creates nor removes whitespace. |
| `ManageCafeterias.TrimStartLower` | src/pages/admin/ManageCafeterias.tsx:44 | Lower-casing commutes with dropping leading whitespace. |
| `ManageCafeterias.FilterSingle` | src/pages/admin/ManageCafeterias.tsx:44 | Filtering one character keeps it iff it passes. |
| `ManageCafeterias.FilterCons` | src/pages/admin/ManageCafeterias.tsx:44 | Filtering works character by character. |
| `ManageCafeterias.GeneratedSlugIsSpec` | src/pages/admin/ManageCafeterias.tsx:44 | The three-pass chain equals a one-pass reference definition: each letter or digit lower-cased, each whitespace run one '-', everything else dropped. |
| `ManageCafeterias.SlugSpecFixed` | src/pages/admin/ManageCafeterias.tsx:44 | A string of slug characters is its own slug. |
| `ManageCafeterias.GeneratedSlugIdempotent` | src/pages/admin/ManageCafeterias.tsx:44 | Generating a slug from a generated slug returns it unchanged. |
| `ManageCafeterias.LowerAlnumsSkipSpaces` | src/pages/admin/ManageCafeterias.tsx:44 | Leading whitespace adds no letter or digit. |
| `ManageCafeterias.SlugKeepsLettersAndDigits` | src/pages/admin/ManageCafeterias.tsx:44 | The slug's letters and digits are the name's ASCII letters and digits, lower-cased and in order. |
| `ManageCafeterias.SlugSpecTrailingDash` | src/pages/admin/ManageCafeterias.tsx:44 | A name ending in whitespace gives a slug ending in '-'. |
| `ManageCafeterias.PaddedNameGivesDashes` | src/pages/admin/ManageCafeterias.tsx:44-45 | The slug is generated from the untrimmed name, so leading or trailing whitespace gives a leading or trailing '-'. |
| `ManageCafeterias.SlugExample` | src/pages/admin/ManageCafeterias.tsx:44 | A name shaped like "A b!" (a capital, a space, a small letter, '!') gives the capital lower-cased, '-', and the small letter, as "A b!" gives "a-b". |
| `ManageCafeterias.Payload` | src/pages/admin/ManageCafeterias.tsx:45 | Trimmed name, the slug, a trimmed description that is null iff blank, and the other fields as typed. |
| `ManageCafeterias.EditRoundTrip` | src/pages/admin/ManageCafeterias.tsx:35-45 | Opening a normalised row for editing and saving it unchanged writes back the same row. |
| `ManageCafeterias.Write` | src/pages/admin/ManageCafeterias.tsx:47-53 | The write never reports a missing name, and it reports failure exactly when the remote write fails. |
| `ManageCafeterias.WriteTable` | src/pages/admin/ManageCafeterias.tsx:47-53 | A failed write leaves the table as it was. A truthy editing id updates that row, and only if it exists. Otherwise the payload is inserted under the fresh id. A write that does not fail updates iff the editing id is truthy. |
| `ManageCafeterias.WriteChangesOneRow` | src/pages/admin/ManageCafeterias.tsx:47-53 | No row disappears. A row that is new or changed holds the payload and is the edited row or the new one. |
| `ManageCafeterias.Save` | src/pages/admin/ManageCafeterias.tsx:42-53 | A blank name is refused and the table is handed back unchanged. A name that is not blank is never refused. |
| `ManageCafeterias.SaveWritesTrimmedRows` | src/pages/admin/ManageCafeterias.tsx:42-53 | No row disappears. A row that is new or changed holds `Payload(form)`, is the edited row or the new one, and has a non-blank, trimmed name. |
| `ManageCafeterias.PayloadNameTrimmed` | src/pages/admin/ManageCafeterias.tsx:42-45 | When the typed name is not blank, the saved name is non-blank and already trimmed. |
| `ManageCafeterias.CafeteriaEditor.constructor` | src/pages/admin/ManageCafeterias.tsx:28-31 | Empty form, no editing id, form closed, not saving. |
| `ManageCafeterias.CafeteriaEditor.OpenAdd` | src/pages/admin/ManageCafeterias.tsx:34 | The form is reset to the defaults, no editing id, the form shown. |
| `ManageCafeterias.CafeteriaEditor.OpenEdit` | src/pages/admin/ManageCafeterias.tsx:35-39 | The form holds the row's fields with the defaults for missing ones; the editing id is set and the form is shown. |
| `ManageCafeterias.FormOf` | src/pages/admin/ManageCafeterias.tsx:36 | The form filled from a row: a missing slug or description becomes "", a missing or empty price range becomes the naira sign, a missing or empty delivery time becomes "20-35 min", and a missing open flag becomes true. `EditRoundTrip` relates it to `Payload`. |
| `ManageCafeterias.CafeteriaEditor.HandleSave` | src/pages/admin/ManageCafeterias.tsx:41-57 | The table and outcome are those of `Save`. A refused name leaves the flags alone; otherwise saving ends and the form closes. |
| `ManageOrders.StatusIndex` | src/pages/admin/ManageOrders.tsx:12 | Every status is listed, at its index. |
| `ManageOrders.FilterOptions` | src/pages/admin/ManageOrders.tsx:66 | "all" followed by the seven status names in order. |
| `ManageOrders.FilterOptionsComplete` | src/pages/admin/ManageOrders.tsx:66 | Every status of `ORDER_STATUSES` (src/pages/admin/ManageOrders.tsx:12) has an option, and no two options coincide. |
| `ManageOrders.FilteredOrders` | src/pages/admin/ManageOrders.tsx:43 | "all" returns the list unchanged; any other filter keeps exactly the orders with that status name; never longer. |
| `ManageOrders.FilteredIsSubsequence` | src/pages/admin/ManageOrders.tsx:43 | The filtered list keeps the fetched order (subsequence). |
| `ManageOrders.FilterByStatus` | src/pages/admin/ManageOrders.tsx:43 | A status filter keeps each order of that status with its multiplicity and drops the rest. |
| `ManageOrders.Label` | src/pages/admin/ManageOrders.tsx:68-90 | Every '_' becomes ' ': same length, no '_', other characters kept. |
| `ManageOrders.LabelInjective` | src/pages/admin/ManageOrders.tsx:90 | On space-free names, labelling loses no information. |
| `ManageOrders.LabelsDistinct` | src/pages/admin/ManageOrders.tsx:68-90 | Different statuses get different labels. |
| `ManageOrders.LabelExample` | src/pages/admin/ManageOrders.tsx:68 | rider_assigned shows as "rider assigned"; the "all" chip shows "All". |
| `ManageOrders.StatusChoices` | src/pages/admin/ManageOrders.tsx:97-104 | The status select offers every status. |
| `AdminDashboard.Stats` | src/pages/admin/AdminDashboard.tsx:21-29 | No data: all zeros. Otherwise the row count, the sum of totals, and the number of pending or confirmed rows, which is at most the row count. |
| `AdminDashboard.RevenueAppend` | src/pages/admin/AdminDashboard.tsx:26 | Revenue adds up over concatenation. |
| `AdminDashboard.Revenue` | src/pages/admin/AdminDashboard.tsx:26 | Revenue is the sum of the order totals. |
| `AdminDashboard.IsAwaiting` | src/pages/admin/AdminDashboard.tsx:27 | An order counts as pending iff its status is pending or confirmed. |
| `AdminDashboard.RevenueBounds` | src/pages/admin/AdminDashboard.tsx:26 | With non-negative totals, revenue is at least any one order's total. |
| `AdminDashboard.RevenueNonNegative` | src/pages/admin/AdminDashboard.tsx:26 | With non-negative totals, revenue is non-negative. |
| `AdminDashboard.AdminSections` | src/pages/admin/AdminDashboard.tsx:35-42 | Manage Orders is always last; a super admin gets four sections, anyone else only Manage Orders. |
| `AdminDashboard.SectionsByRole` | src/pages/admin/AdminDashboard.tsx:30-42 | Manage Orders is always offered; any other section implies the stats query is enabled (super admin). |
| `ManageUsers.RolesComplete` | src/pages/admin/ManageUsers.tsx:12 | The role options (`ROLES`, shown by the select at src/pages/admin/ManageUsers.tsx:97) are the three roles, each once. |
| `ManageUsers.GetUserRoleSpec` | src/pages/admin/ManageUsers.tsx:38-41 | The role shown is that of the user's first row, or student when the user has no row. |
| `ManageUsers.GetUserRole` | src/pages/admin/ManageUsers.tsx:38-41 | The role of the first row for the user, or 'student' when there is none. Its meaning is stated by `ManageUsers.GetUserRoleSpec`. |
| `ManageUsers.SearchProfiles` | src/pages/admin/ManageUsers.tsx:54-57 | A profile is kept iff its lower-cased name or email contains the lower-cased query. |
| `ManageUsers.MatchesSearch` | src/pages/admin/ManageUsers.tsx:54-57 | The search test for one profile: its name or its email contains the query, both lower-cased. |
| `ManageUsers.SearchProps` | src/pages/admin/ManageUsers.tsx:54-57 | An empty query keeps every profile; the result keeps the list order. |
| `ManageUsers.UpdateRoleSucceeds` | src/pages/admin/ManageUsers.tsx:43-48 | After a successful delete and insert, the user has exactly one role row, with the new role, and `getUserRole` shows it. Other users' rows are untouched. |
| `ManageUsers.UpdatedRoles` | src/pages/admin/ManageUsers.tsx:43-48 | The role table after `updateRole`. A failed delete keeps the old rows, because its error is ignored. A failed insert adds nothing. Its laws are in `UpdateRoleSucceeds`, `FailedDeleteHidesNewRole` and `RoleTable.UpdateRole`. |
| `ManageUsers.NoRowsOf` | src/pages/admin/ManageUsers.tsx:46 | After the delete, the user has no row. |
| `ManageUsers.FilterOtherUser` | src/pages/admin/ManageUsers.tsx:46 | Deleting one user's rows leaves every other user's rows as they were. |
| `ManageUsers.FailedDeleteHidesNewRole` | src/pages/admin/ManageUsers.tsx:46-48 | When the delete fails (its error is ignored) and the insert succeeds, the page still shows the old role. |
| `ManageUsers.FirstRowOf` | src/pages/admin/ManageUsers.tsx:39 | A user with a row has a first row. |
| `ManageUsers.RoleTable.constructor` | src/pages/admin/ManageUsers.tsx:29-36 | The table starts as fetched. |
| `ManageUsers.RoleTable.UpdateRole` | src/pages/admin/ManageUsers.tsx:43-52 | The table becomes `UpdatedRoles(...)`; the call reports success iff the insert succeeded. |
| `Home.FilteredCafeterias` | src/pages/Home.tsx:28-32 | A cafeteria is kept iff its lower-cased name or description (null read as "") contains the lower-cased query. |
| `Home.MatchesSearch` | src/pages/Home.tsx:29-30 | The search test for one cafeteria: its name or its description contains the query, both lower-cased, with a missing description read as "". |
| `Home.SearchProps` | src/pages/Home.tsx:24-32 | An empty query keeps all; the result keeps input order; the selected category has no effect. |
| `Home.NameHitIsFound` | src/pages/Home.tsx:29 | A query occurring in a name finds that cafeteria. |
| `Profile.TotalSpentPrepend` | src/pages/Profile.tsx:81 | No orders means 0 spent; a newly placed order adds its total to the money spent. |
| `Profile.TotalSpent` | src/pages/Profile.tsx:81 | The money spent is the sum of the order totals. |
| `Profile.TotalSpentAppend` | src/pages/Profile.tsx:81 | The money spent on two order lists together is the sum of the money spent on each. |
| `Profile.RecentOrders` | src/pages/Profile.tsx:115 | The first min(5, n) orders, in list order. |
| `Profile.ShowRecent` | src/pages/Profile.tsx:111 | The recent-orders section is shown iff there is at least one order. |
| `Profile.RecentOrdersShown` | src/pages/Profile.tsx:111-115 | The section shows iff there is an order, and then it starts with the latest one. |
| `Profile.AvatarInitial` | src/pages/Profile.tsx:51 | The upper-cased first letter of the name, or 'U' when the name is absent or empty; never lower case. |
| `Profile.MenuLinks` | src/pages/Profile.tsx:89-95 | Order History and About first; the Admin Dashboard link iff super admin or cafeteria admin. |
| `Profile.Badges` | src/pages/Profile.tsx:59-68 | A Super Admin badge iff super admin, a Cafeteria Admin badge iff cafeteria admin. |
| `AnnouncementBanner.Visible` | src/components/announcements/AnnouncementBanner.tsx:25 | Exactly the announcements whose id is not dismissed. |
| `AnnouncementBanner.VisibleProps` | src/components/announcements/AnnouncementBanner.tsx:25 | With nothing dismissed all show; the visible ones keep their order. |
| `AnnouncementBanner.Banner.constructor` | src/components/announcements/AnnouncementBanner.tsx:9 | Nothing dismissed. |
| `AnnouncementBanner.Banner.Dismiss` | src/components/announcements/AnnouncementBanner.tsx:46 | The id is appended; earlier dismissals are kept. |
| `AnnouncementBanner.DismissHides` | src/components/announcements/AnnouncementBanner.tsx:25-46 | After a dismissal no new announcement appears, the dismissed one is hidden, and earlier dismissals remain. |
| `AnnouncementBanner.RendersNothingIff` | src/components/announcements/AnnouncementBanner.tsx:27 | Nothing renders iff every announcement has been dismissed. |
| `AnnouncementBanner.Banner.RendersNothing` | src/components/announcements/AnnouncementBanner.tsx:27 | The banner renders nothing iff no announcement is visible. `RendersNothingIff` turns that into "every announcement has been dismissed". |
| `ProtectedRoute.Decide` | src/components/ProtectedRoute.tsx:11-34 | Loading shows the spinner; loaded and signed out goes to /auth; children render only for a signed-in user. |
| `ProtectedRoute.DecideSignedIn` | src/components/ProtectedRoute.tsx:29-33 | Signed in, the page renders iff no role is required, the role is held, or the user is a super admin; otherwise the user goes to /home. |
| `ProtectedRoute.SuperAdminPasses` | src/components/ProtectedRoute.tsx:29 | A signed-in super admin passes every guard. |
| `AuthContext.LocalPart` | src/contexts/AuthContext.tsx:32 | `split('@')[0]`: the prefix before the first '@' (all of it if there is none), with no '@'. |
| `AuthContext.CapitalizeFrom` | src/contexts/AuthContext.tsx:32 | The capitalising scan keeps the length. |
| `AuthContext.Capitalize` | src/contexts/AuthContext.tsx:32 | `replace(/\b\w/g, toUpperCase)`: the scan starts outside a word. `CapitalizeFromSpec` and `CapitalizeIdempotent` state the result. |
| `AuthContext.CapitalizeFromSpec` | src/contexts/AuthContext.tsx:32 | Exactly the word characters at a word start (`\b\w`) are upper-cased; all others are kept. |
| `AuthContext.UpperCharWord` | src/contexts/AuthContext.tsx:32 | Upper-casing keeps word characters word characters and is idempotent. |
| `AuthContext.DisplayName` | src/contexts/AuthContext.tsx:32 | The display name is as long as the local part. |
| `AuthContext.DisplayNameShape` | src/contexts/AuthContext.tsx:32 | No '.' and no '@'; dots become spaces; other characters kept up to case; no word starts in lower case. |
| `AuthContext.CapitalizeIdempotent` | src/contexts/AuthContext.tsx:32 | Capitalising a capitalised name changes nothing. |
| `AuthContext.LocalPartExample` | src/contexts/AuthContext.tsx:32 | "a.b@x" has the local part "a.b". |
| `AuthContext.DisplayNameExample` | src/contexts/AuthContext.tsx:32 | "a.b@x" gives the name "A B". |
| `AuthContext.StudentId` | src/contexts/AuthContext.tsx:34 | "BHU/22/0" then four digits, not starting with 0, reading roll + 1000 (in [1000, 9999]): 12 characters. |
| `AuthContext.Merge` | src/contexts/AuthContext.tsx:50 | Each supplied field overrides, each omitted field is kept. |
| `AuthContext.MergeLaws` | src/contexts/AuthContext.tsx:49-51 | An empty update changes nothing, repeating an update changes nothing more, and two updates act as one in which the later wins. |
| `AuthContext.AuthSession.constructor` | src/contexts/AuthContext.tsx:24 | No user. |
| `AuthContext.AuthSession.Login` | src/contexts/AuthContext.tsx:26-39 | Succeeds iff the email is non-empty. Then the user is `user-1` with the derived name, the email and a generated student id. Otherwise the user is unchanged. |
| `AuthContext.AuthSession.Signup` | src/contexts/AuthContext.tsx:41-45 | Always succeeds and stores the given name, email and student id under `user-<clock>`. |
| `AuthContext.AuthSession.Logout` | src/contexts/AuthContext.tsx:47 | No user; not authenticated. |
| `AuthContext.AuthSession.UpdateProfile` | src/contexts/AuthContext.tsx:49-51 | Signed out: no change. Signed in: the user becomes the merge; authentication is unchanged (src/contexts/AuthContext.tsx:54). |

## Left out

- Timers run as an ordered schedule. `setTimeout` and `setInterval` are not modelled as concurrent
  callbacks. `PlaceOrder` returns the progression schedule, `RunProgression` fires it in delay
  order, and interleavings of those callbacks with other updates are not modelled.
- Randomness and clocks are parameters: `Math.random()`, `Date.now()` and `new Date()`.
- The cart's `justAdded` flag and its 800 ms reset (src/contexts/CartContext.tsx:46-47) are not
  modelled: they only drive an animation.
- Checkout's 2-second payment delay and 2.5-second clear-and-navigate timer are collapsed into one
  call of `HandlePlaceOrder`. An unmount between them, the hostel dropdown's open flag and the toasts
  are not modelled.
- JavaScript numbers: money is an unbounded integer and the progress bar is a real; float rounding
  and `toLocaleString` formatting are not modelled. `AdminDashboard.Stats` reads totals as integers
  instead of applying `Number(...)` to the database's numeric column.
- Text is modelled in ASCII:
  - `toLowerCase` and `toUpperCase` map ASCII letters only;
  - `\w` and the slug's character class are ASCII, as in the source;
  - `\s` and `trim()` use JavaScript's whitespace set;
  - lengths count characters, not UTF-16 code units.
- Backend calls are left out:
  - the Supabase queries that fetch cafeterias, orders, stats, announcements, profiles and roles are
    inputs, including the announcements query's "active, newest first, at most 3";
  - the order status update in `ManageOrders` and the cafeteria delete in `ManageCafeterias`;
  - the `updateUser` call of the reset page, whose request `HandleSubmit` returns;
  - query invalidation and toasts.
- Table order: the cafeteria table is a map from row id to row, so row order is not modelled.
  `ManageUsers.RoleTable` keeps rows in a sequence, and the insert appends.
- The `updating` and `deleting` busy flags of the admin pages and the `loading` flag of the reset
  page are not modelled.
- The session context that the pages read (`profile`, `hasRole`, `isLoading`) is not part of this
  model. The guard and the pages take the roles and flags as parameters.
- The profile page's signed-out view and logout navigation (src/pages/Profile.tsx:16-39) are
  presentation.
- The home page's category chips are presentation. The selected category is held, but no code reads it.
- `AuthContext.AuthSession.Signup` renders `Date.now()` in decimal, which is what string
  concatenation does for a non-negative integer.
