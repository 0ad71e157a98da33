# Training sandbox chaos engine, in Dafny

This project models the deterministic "chaos" engine of the training sandbox, a
Next.js site built to train end-to-end test writers. The same seed always yields
the same latencies, injected errors, pop-ups and animation delays. Four parts are covered:

- **the engine** (`lib/chaos.ts`): the 32-bit string hash, the seeded draws, the
  error decision, the latency with jitter, the simulated network delay, the
  configuration derived from a request, and the global configuration slot;
- **the server side**: the per-request configuration
  (`lib/server/chaosFromRequest.ts`), the training-token authorisation
  (`lib/server/trainingAuth.ts`), the fixed-window rate limiter
  (`lib/server/rateLimit.ts`) and the request middleware (`middleware.ts`);
- **the page logic that consumes the engine**: cart, multi-step form, catalogue,
  admin table, drag and drop board, login page, downloads, and the chaos
  controls panel;
- **the five "trap" components**: toast, modal, skeleton, spinner and pop-up overlay.

Each operation is a pure function over immutable data. React state updates
become functions from the old state to the new one. An `await` on a timer
becomes a value that says how long the page waits (`Chaos.Wait`). The process
environment, clock and request are parameters.

One piece of floating point stays abstract. `Math.abs(Math.sin(hash)) % 1` is
the parameter `unit: Chaos.UnitMap`, a function from a 32-bit hash to a real in
[0, 1). Every property below holds for every such function. The scaling
`u * (max - min)` is wrapped in `Chaos.Scale`, whose sign, bounds and
monotonicity are proved once (`Chaos.ScaleBounds`, `Chaos.ScaleMonotone`).

Modules follow the source files:

| module | file |
|---|---|
| `Int32`, `Text`, `QueryParams`, `Seqs`, `Wrappers`, `Environment` | JavaScript built-ins used by the core: `ToInt32`, string `trim`/`split`/`join`/`toLowerCase`, `URLSearchParams`, `Array.filter`/`sort` |
| `Chaos` | `lib/chaos.ts` |
| `ChaosFromRequest`, `TrainingAuth`, `RateLimit`, `Middleware` | `lib/server/*.ts`, `middleware.ts` |
| `Products`, `Catalog`, `Cart`, `Forms`, `Admin`, `DragDrop`, `AuthPage`, `Downloads`, `ChaosControls` | `components/pages/*.tsx`, `components/ChaosControls.tsx` |
| `Toast`, `Modal`, `Skeleton`, `Spinner`, `PopupOverlay` | `components/traps/*.tsx` |

Three facts about the code shape the model:

- `shouldTriggerError` returns `false` early only when the rate is exactly `0`
  (`=== 0`). A negative rate never triggers either, because a draw is never
  negative and so never below it: `Chaos.ShouldTriggerError` proves that no
  rate `<= 0` triggers.
- Every derived delay lies in a half-open range `[min, max)`, because a draw is
  strictly below 1.
- `initChaosFromRequest` reads the seed header with the `in` operator. On a
  `Headers` instance that test is always false, so only a plain object of
  headers can supply a seed. `getChaosConfigFromRequest` passes such an
  object, and it is the form the model takes.

## Model

| member | source | states |
|---|---|---|
| Int32.Wrap | lib/chaos.ts:43 | `hash & hash` maps any integer to the signed 32-bit integer congruent to it modulo 2^32 |
| Chaos.HashStep | lib/chaos.ts:42-43 | one loop step keeps the hash a signed 32-bit integer, congruent to 31·h + c modulo 2^32 |
| Chaos.ComputeHash | lib/chaos.ts:38-44 | the imperative loop over the UTF-16 code units of the key computes exactly the recursive hash `Hash`, and the result fits in 32 signed bits |
| Chaos.SeededRandom | lib/chaos.ts:37-47 | every draw lies in [0, 1) |
| Chaos.SeededRandomRange | lib/chaos.ts:52-60 | a draw lies in [min, max) when min < max, equals min when they coincide, and lies in (max, min] when the bounds are reversed |
| Chaos.ScaleMonotone | lib/chaos.ts:59 | for a positive width, a larger unit draw gives a strictly larger offset |
| Chaos.ShouldTriggerError | lib/chaos.ts:65-68 | a rate <= 0 never triggers, a rate >= 1 always triggers, and otherwise an error triggers exactly when the draw at that index is below the rate |
| Chaos.CalculateNetworkLatency | lib/chaos.ts:73-81 | the latency is never negative and, for min <= max and a non-negative jitter, lies between max(0, min − jitter) and max(0, max + jitter) |
| Chaos.KeyInjective | lib/chaos.ts:39 | two indices give the same key string only when they are equal, so different indices are independent draws |
| Chaos.JitterKeyDistinct | lib/chaos.ts:78-79 | for any index other than 0, the jitter draw at index·2 uses a different key from the base draw |
| Chaos.LatencyAtIndexZero | lib/chaos.ts:78-80 | at index 0 the base and the jitter share one draw u, so the latency is max(0, min − jitter + u·(max − min + 2·jitter)) |
| Chaos.ResolveSeed | lib/chaos.ts:113 | the seed is never empty: a non-empty seed parameter wins, then a non-empty seed header, then "default" |
| Chaos.InitChaosFromRequest | lib/chaos.ts:102-129 | chaos is on exactly when `chaos` is "1" or "true"; off gives the neutral configuration; on gives latency 100–2000 ms with 200 ms jitter, error rate 0.1, a pop-up exactly when draw 1 exceeds 0.5, and modal, toast and skeleton delays of 100 + 400·u₂, 200 + 600·u₃ and 300 + 900·u₄ for the draws u₂, u₃, u₄ at indices 2, 3 and 4 |
| Chaos.DerivationKeysDistinct | lib/chaos.ts:124-127 | the pop-up flag and the three delays are drawn from four pairwise distinct keys |
| Chaos.DerivedConfigWellFormed | lib/chaos.ts:115-128 | every derived configuration has a non-empty seed, 0 <= min <= max, non-negative jitter and delays, and a rate in [0, 1]; a disabled one has zero rate and delays |
| Chaos.SimulateNetworkDelay | lib/chaos.ts:86-97 | the page waits exactly when chaos is on and the maximum latency is non-zero, and then for the calculated, non-negative latency |
| Chaos.ChaosWaitBounds | lib/chaos.ts:86-97 | under the chaos policy every simulated request waits, and for between 0 and 2200 ms |
| Chaos.SetChaosState | lib/chaos.ts:134-143 | reading the configuration after storing one returns what was stored |
| Chaos.ResetChaosState | lib/chaos.ts:148-159 | a reset returns the slot to its initial, neutral state whatever it held |
| Chaos.SlotLifecycle | lib/chaos.ts:134-159 | the last store wins, and a reset erases any earlier store |
| Chaos.NeutralIsInert | lib/chaos.ts:22-31 | the disabled configuration never delays a request and never injects an error, and with a non-empty seed it is well formed |
| ChaosFromRequest.LowerHeaders | lib/server/chaosFromRequest.ts:13-16 | the keys are exactly the lower-cased header names, and for each one the value of the last header with that lower-cased name wins |
| ChaosFromRequest.GetChaosConfigFromRequest | lib/server/chaosFromRequest.ts:10-37 | unauthorised in production, the request's parameters and seed header are ignored: the result is neutral with seed "default", or enabled with that seed when chaos is on by default; otherwise an explicit `chaos` parameter decides, and without one the default switch turns chaos on |
| ChaosFromRequest.DefaultChaosKeepsSeed | lib/server/chaosFromRequest.ts:27-34 | when chaos is on by default and the request does not mention it, the request's own seed parameter survives into the enabled configuration |
| ChaosFromRequest.SeedHeaderAnyCase | lib/server/chaosFromRequest.ts:13-16 | a seed header written in any letter case supplies the seed when no seed parameter is present and the caller is not hidden |
| TrainingAuth.ExpectedToken | lib/server/trainingAuth.ts:13-16 | there is an expected token exactly when the environment variable is set and non-empty |
| TrainingAuth.AuthFromTokens | lib/server/trainingAuth.ts:19-27 | without an expected token nobody is authorised; with one, the caller is authorised exactly when the header, query or cookie token equals it, and a non-empty query token is always reported for removal |
| TrainingAuth.GetTrainingAuthFromNextRequest | lib/server/trainingAuth.ts:18-28 | a caller is authorised exactly when an expected token exists and equals the `x-training-token` header, the `training_token` parameter or the session cookie; a query token is reported for removal exactly when one is expected and the parameter is present and non-empty |
| TrainingAuth.FindCookie | lib/server/trainingAuth.ts:32-37 | the first trimmed `;`-part whose name matches supplies the value; no value exactly when no part has that name |
| TrainingAuth.GetCookieValue | lib/server/trainingAuth.ts:30-38 | there is no value exactly when the `Cookie` header is missing, empty, or has no `;`-part with that name; otherwise the value is that of the first part with the name |
| TrainingAuth.CookiePairValue | lib/server/trainingAuth.ts:34-35 | a pair `name=value` reads back its name and its whole value, even when the value itself contains `=` |
| TrainingAuth.BareNameIsEmptyValue | lib/server/trainingAuth.ts:30-36 | a header holding just the cookie name, with no `=`, yields the empty string rather than null |
| TrainingAuth.GetTrainingAuthFromRequest | lib/server/trainingAuth.ts:40-51 | a caller is authorised exactly when an expected token exists and equals the header token, the query token or the session cookie parsed out of the raw `Cookie` header, the same decision as the middleware variant |
| RateLimit.RateLimitFixedWindow | lib/server/rateLimit.ts:17-46 | an unknown key or an expired window opens a new window with count 1; a full open window refuses without changing anything; otherwise the call is counted; no other key's bucket is touched |
| RateLimit.CountStaysWithinLimit | lib/server/rateLimit.ts:26-45 | for a limit of at least 1, a stored count never rises above the limit |
| RateLimit.RunInOpenWindow | lib/server/rateLimit.ts:31-45 | a burst inside one open window allows exactly min(number of calls, remaining room) calls, and the count grows by that number |
| RateLimit.FreshKeyWindow | lib/server/rateLimit.ts:17-46 | a new key that sends a burst within one window gets exactly min(calls, limit) calls through |
| RateLimit.GetClientIp | lib/server/rateLimit.ts:48-54 | the address is never empty: the trimmed first entry of `x-forwarded-for` (a single address, free of commas), else `x-real-ip`, else "unknown" |
| Middleware.StripChaosParams | middleware.ts:43-53 | after stripping, no `chaos`, `seed` or `debug` parameter is left, and every other parameter is kept |
| Middleware.StripKeepsOthers | middleware.ts:49-53 | stripping the chaos parameters never changes what any other parameter reads as |
| Middleware.Decide | middleware.ts:5-80 | a query token is always removed first by a redirect, which sets the session cookie exactly for authorised callers; internal routes answer 404 to everyone else; in production without authorisation, chaos parameters are redirected away and the seed header dropped; no response ever sets a cookie for an unauthorised caller |
| Middleware.SessionCookieHidden | middleware.ts:17-25 | any response that sets the session cookie answers an authorised caller, with the expected token, `httpOnly`, `sameSite=lax`, path `/`, eight hours of life, and `secure` exactly in production |
| Catalog.FilterProducts | components/pages/CatalogPage.tsx:32-53 | a product is listed exactly when it matches the category ("All" matches any), the brand, and the lower-cased query in its name or description |
| Catalog.FilterStagesAgree | components/pages/CatalogPage.tsx:35-53 | the three successive filters of the page give the same list, in the same order, as one filter by the conjunction of the three criteria |
| Catalog.PrecedesIsPreorder | components/pages/CatalogPage.tsx:56-68 | each sort option is a total preorder (price ascending, price descending, rating descending, name) when the name comparison is one |
| Catalog.FilteredAndSorted | components/pages/CatalogPage.tsx:32-71 | the displayed list is a permutation of the filtered products, contains exactly the matching products, and is ordered by the chosen option |
| Catalog.JsSlice | components/pages/CatalogPage.tsx:75 | for non-negative bounds, `slice` is the clamped subsequence; it is never longer than the list |
| Catalog.PageItems | components/pages/CatalogPage.tsx:73-76 | page p shows the items at positions 6(p−1) to 6p, clamped to the list, and never more than six |
| Catalog.TotalPages | components/pages/CatalogPage.tsx:78 | there are no pages exactly when there are no items, and otherwise the last page is the one holding the last item |
| Catalog.FirstPagesPrefix | components/pages/CatalogPage.tsx:73-76 | pages 1 to k laid end to end are the first 6k items |
| Catalog.PagesPartition | components/pages/CatalogPage.tsx:73-78 | pages 1 to the page count show every item exactly once and in order |
| Catalog.PreviousPage | components/pages/CatalogPage.tsx:236 | the previous page is never below 1 and is one less than a page above 1 |
| Catalog.NextPage | components/pages/CatalogPage.tsx:256 | the next page never exceeds the page count, is one more when not on the last page, and stays within 1..count |
| Catalog.FilterChangeShowsFirstPage | components/pages/CatalogPage.tsx:100-142 | after changing the search text, the category or the brand, the first six results are shown |
| Cart.SetQuantity | components/pages/CartPage.tsx:52-53 | the items of the given product take the new quantity, floored at 0; every other item is untouched |
| Cart.UpdateQuantity | components/pages/CartPage.tsx:51-57 | no kept item has quantity 0; other products are kept exactly when they had a positive quantity; the product takes a positive new quantity, a quantity <= 0 removes it, and the surviving items keep their order |
| Cart.RemoveItem | components/pages/CartPage.tsx:59-63 | an item stays exactly when it belongs to another product, and the remaining items keep their relative order |
| Cart.ZeroQuantityRemoves | components/pages/CartPage.tsx:51-63 | on a cart of positive quantities, setting a quantity <= 0 is the same as removing the product |
| Cart.SubtotalNonNegative | components/pages/CartPage.tsx:65 | non-negative prices and quantities give a non-negative subtotal |
| Cart.SubtotalRemove | components/pages/CartPage.tsx:59-65 | removing a product lowers the subtotal by exactly the lines of that product |
| Cart.LookupPromo | components/pages/CartPage.tsx:16-20 | exactly WELCOME10, SAVE20 and BIG50 are codes, each with a discount in (0, 100] and a positive minimum |
| Cart.PromoDiscount | components/pages/CartPage.tsx:66-68 | no known code gives no discount; a known code gives its percentage of a non-negative subtotal, never more than the subtotal |
| Cart.ComputeTotals | components/pages/CartPage.tsx:65-71 | the discount is the promo discount of the subtotal, shipping is 15.99 exactly for express and 5.99 exactly for standard, tax is 20 % of the discounted subtotal, and the total is their sum, at least the shipping |
| Cart.ApplyPromo | components/pages/CartPage.tsx:73-85 | an unknown code or a subtotal below the minimum leaves the applied code as it was, with the matching message; the code is applied (upper-cased, no message) exactly when it exists and the minimum is met |
| Cart.AcceptedPromoDiscount | components/pages/CartPage.tsx:66-85 | once a code is accepted, the discount is its percentage of the subtotal |
| Cart.MinimumNotRechecked | components/pages/CartPage.tsx:66-69 | an applied code is not checked against its minimum again: below the minimum it still takes its full, positive percentage of the subtotal |
| Cart.PromoCaseInsensitive | components/pages/CartPage.tsx:75-84 | a code typed in lower case behaves exactly like the same code in upper case |
| Cart.HandleCheckout | components/pages/CartPage.tsx:87-110 | an empty cart does nothing; otherwise the page waits on draw 1, then fails with the server error exactly when chaos is on and draw 2 triggers, else waits on draw 3 and confirms |
| Cart.CartAfterCheckout | components/pages/CartPage.tsx:87-104 | the cart ends up empty exactly when it was empty or no server error was simulated at draw 2; otherwise every line is kept as it was |
| Cart.CheckoutKeepsOrEmpties | components/pages/CartPage.tsx:97-104 | a non-empty cart is emptied exactly when the order is confirmed, and a failed checkout keeps it unchanged |
| Cart.CheckoutWithoutChaos | components/pages/CartPage.tsx:87-110 | with chaos off a non-empty cart always checks out, without any wait |
| Cart.FailedCheckoutSharesDraw | components/pages/CartPage.tsx:94-97 | under the chaos policy a failed checkout has always waited, and at least 160 ms less than its base latency: the failure and the jitter share draw 2 |
| Forms.MatchEmail | components/pages/FormsPage.tsx:41 | the scanning loop accepts exactly the strings containing non-space, `@`, non-space, `.`, non-space, in that order |
| Forms.ValidatePersonal | components/pages/FormsPage.tsx:36-49 | step 1 reports first and last name when empty, the email and phone when empty or malformed, each with its own message, and nothing else |
| Forms.ValidateAddress | components/pages/FormsPage.tsx:51-60 | step 2 reports address, city and country when empty and the postal code unless it is exactly five digits, and nothing else |
| Forms.ValidateCompany | components/pages/FormsPage.tsx:62-69 | step 3 reports only for a company: a missing name, or a non-empty VAT number that is not two capitals followed by digits |
| Forms.ValidateStep | components/pages/FormsPage.tsx:33-73 | a step reports no error exactly when its own fields are acceptable: non-empty names, a well-formed email and phone for step 1; non-empty address fields and a five-digit postal code for step 2; no company, or a named one with an empty or well-formed VAT number, for step 3 |
| Forms.PersonalValidMeans | components/pages/FormsPage.tsx:36-49 | an accepted step 1 has non-empty names and phone, and an email of at least five characters with an `@` before a `.` |
| Forms.AddressValidMeans | components/pages/FormsPage.tsx:54-58 | an accepted postal code has five digits and reads as a number below 100000 |
| Forms.CompanyOptional | components/pages/FormsPage.tsx:62-69 | without a company, step 3 always passes |
| Forms.HandleNext | components/pages/FormsPage.tsx:75-79 | "next" shows the current step's errors and advances exactly when the step is valid and not the last |
| Forms.HandlePrevious | components/pages/FormsPage.tsx:81-83 | "previous" goes back one step and never below step 1 |
| Forms.PreviousUndoesNext | components/pages/FormsPage.tsx:75-83 | going back after a successful "next" returns to the same step |
| Forms.HandleFileChange | components/pages/FormsPage.tsx:85-95 | no file changes nothing; an over-limit file changes no field and records the size error; a file within 5 MiB is stored with its size; only the file fields and the file error can change |
| Forms.FileChangeKeepsLimit | components/pages/FormsPage.tsx:85-95 | a form whose stored file, if any, is within 5 MiB keeps that property through any file change |
| Forms.FileIrrelevantToValidation | components/pages/FormsPage.tsx:85-95 | choosing a file never changes the outcome of any step's validation |
| Forms.HandleSubmit | components/pages/FormsPage.tsx:97-114 | the form is rejected with the step-3 errors exactly when step 3 fails; otherwise it waits on draw 1, then one second more |
| Admin.PrecedesIsPreorder | components/pages/AdminPage.tsx:31-37 | each column and direction is a total preorder, strings ordered by UTF-16 code units |
| Admin.SortedRows | components/pages/AdminPage.tsx:29-38 | without a sort column the rows are untouched; otherwise they are a permutation of the rows ordered ascending or descending on that column |
| Admin.HandleSort | components/pages/AdminPage.tsx:40-47 | clicking the sorted column flips the direction; clicking another column sorts it ascending |
| Admin.HandleSelect | components/pages/AdminPage.tsx:49-53 | exactly the rows of that product flip their selection, and no product changes |
| Admin.HandleSelectInvolution | components/pages/AdminPage.tsx:49-53 | selecting the same product twice restores the table |
| Admin.HandleSelectAll | components/pages/AdminPage.tsx:55-58 | every row becomes selected, unless all already were, in which case every row is cleared |
| Admin.HandleSelectAllToggles | components/pages/AdminPage.tsx:55-58 | on a non-empty table the header checkbox flips, and a checked one clears every row |
| Admin.SelectedCount | components/pages/AdminPage.tsx:80 | the count is the number of selected rows, at most the number of rows, and zero exactly when no row is selected |
| Admin.HandleBulkDelete | components/pages/AdminPage.tsx:76-78 | a row stays exactly when it was not selected, and the rows that stay keep their order |
| Admin.BulkDeleteCount | components/pages/AdminPage.tsx:76-80 | the rows left plus the rows counted as selected are all the rows |
| Admin.FreshTableUnselected | components/pages/AdminPage.tsx:14-16 | the table starts with every product in order and none selected, so bulk delete removes nothing |
| Admin.Override | components/pages/AdminPage.tsx:69 | the edited values replace the name and price when present, and nothing else changes |
| Admin.HandleSaveEdit | components/pages/AdminPage.tsx:65-74 | without an edited product nothing happens; otherwise exactly the rows of that product take the edited values, and editing ends |
| Admin.EditThenSaveUnchanged | components/pages/AdminPage.tsx:60-74 | saving an edit without changing any value leaves the table as it was |
| DragDrop.Drop | components/pages/DragDropPage.tsx:25-33 | without a dragged item nothing happens; otherwise exactly the dragged item moves to the target list, nothing else changes, and the drag ends |
| DragDrop.DropOnOwnList | components/pages/DragDropPage.tsx:17-33 | picking an item up and dropping it on its own list leaves every item where it was and ends the drag |
| DragDrop.Column | components/pages/DragDropPage.tsx:61-62 | a column shows exactly the items of that list |
| DragDrop.DropLandsInTarget | components/pages/DragDropPage.tsx:17-33 | an item dragged and dropped appears in the target column |
| DragDrop.DropKeepsOnBoard | components/pages/DragDropPage.tsx:25-33 | dropping on one of the three lists keeps every item on one of them |
| DragDrop.ColumnsPartition | components/pages/DragDropPage.tsx:35-62 | when every item is on one of the three lists, the three columns together show every item once |
| DragDrop.InitialColumns | components/pages/DragDropPage.tsx:6-11 | the initial board has every item on a list, two of them in "todo" |
| AuthPage.FindUser | components/pages/AuthPage.tsx:52-54 | a demo account is found exactly when its email and password both match |
| AuthPage.HandleLogin | components/pages/AuthPage.tsx:34-86 | the page always waits on draw 0; sign-in succeeds exactly when no 401 is injected at draw 1 and the credentials match; success waits once more (draw 2 with chaos, draw 1 without) and schedules expiry exactly when draw 3 triggers at half the error rate |
| AuthPage.LoginWithoutChaos | components/pages/AuthPage.tsx:34-86 | with chaos off, sign-in succeeds exactly for a demo account, never waits, never expires, and fails only with the bad-credentials message |
| AuthPage.DemoAccountsSignIn | components/pages/AuthPage.tsx:10-13 | each demo account signs in as itself unless a 401 is injected |
| AuthPage.ExpiryAtHalfRate | components/pages/AuthPage.tsx:44-72 | under the chaos policy, matching credentials with no 401 at draw 1 sign in, and the session is set to expire exactly when draw 3 is below 0.05, half the error rate |
| AuthPage.SessionStaysDemo | components/pages/AuthPage.tsx:52-97 | logging in, logging out and expiry never put anyone but a demo account into the session |
| AuthPage.ExpiryMatchesLogout | components/pages/AuthPage.tsx:64-97 | the expiry timer leaves the session exactly as logout does, and with chaos off logout does not wait |
| ChaosControls.UpdateChaos | components/ChaosControls.tsx:17-30 | navigation goes to "/"; enabling sets `chaos=1` and a non-empty new seed, and otherwise keeps the old seed; disabling removes `chaos` and keeps the seed |
| ChaosControls.UpdateKeepsOtherParams | components/ChaosControls.tsx:17-30 | no parameter other than `chaos` and `seed` changes |
| ChaosControls.UpdateRoundTrip | components/ChaosControls.tsx:17-30 | the configuration derived from the new address has chaos on exactly as requested, with the requested seed when on |
| ChaosControls.ToggleReachesEngine | components/ChaosControls.tsx:32-36 | after a toggle the page navigated to runs chaos exactly as the checkbox now shows, with the panel's seed when it is not empty |
| ChaosControls.ToggleTwice | components/ChaosControls.tsx:32-36 | toggling twice restores the panel |
| ChaosControls.SeedChangeReachesEngine | components/ChaosControls.tsx:32-43 | a new seed reaches the engine at once while chaos is on; while it is off, the next toggle carries it |
| Downloads.CsvRoundTrip | components/pages/DownloadsPage.tsx:20-32 | when no field holds a comma or a newline, splitting the file on newlines then commas gives back the header and every product's fields |
| Downloads.ExportsUseDistinctDraws | components/pages/DownloadsPage.tsx:12-64 | the two exports draw their latency from different keys |
| Downloads.ExportsAtSameInstant | components/pages/DownloadsPage.tsx:12-64 | two exports at the same instant give different files, named after that instant with different media types; neither waits without chaos, and each waits at most 2.2 s under the chaos policy |
| Toast.KindIndexOf | components/traps/Toast.tsx:35-36 | the kind index is the floor of four times draw 12, always one of the four kinds |
| Toast.Schedule | components/traps/Toast.tsx:21-50 | a toast is scheduled exactly when chaos is on and draw 10 exceeds 0.5, after toastDelay + 500·u ms for the draw u at index 11, so in [toastDelay, toastDelay + 500) |
| Toast.RemoveToast | components/traps/Toast.tsx:52-54 | a toast stays exactly when its identifier differs, and the remaining toasts keep their relative order |
| Toast.CloseUndoesFire | components/traps/Toast.tsx:34-54 | closing a freshly fired toast restores the list when its identifier was new |
| Toast.ToastUnderPolicy | components/traps/Toast.tsx:21-36 | under a derived configuration a toast appears after 200 to 1300 ms, and its three draws (whether, when, which kind) use distinct keys |
| Modal.FadeInDelay | components/traps/Modal.tsx:52-54 | no delay without chaos; otherwise modalDelay + 200·u for the draw u at the modal's index |
| Modal.FadeInUnderPolicy | components/traps/Modal.tsx:52-54 | with a derived configuration the fade-in delay lies in [100, 700) ms |
| Modal.HandleTab | components/traps/Modal.tsx:24-46 | focus is moved only from the last element with Tab (to the first) or from the first with Shift+Tab (to the last), and always to an existing element |
| Modal.FocusWraps | components/traps/Modal.tsx:35-45 | focus wraps around in both directions |
| Modal.NextFocusable | components/traps/Modal.tsx:24-46 | where the browser moves focus when the trap does not intercept Tab: the nearest element further on (back with Shift) that can take focus, skipping those that cannot, or out of the modal when there is none |
| Modal.TabFrom | components/traps/Modal.tsx:24-46 | as written, Tab (Shift+Tab) leaves the modal exactly when it is pressed off the last (first) matched element and no element further on can take focus; at the guarded end focus wraps only if the element at the other end can take focus, and otherwise stays put |
| Modal.TrapFrom | components/traps/Modal.tsx:24-46 | a trap wrapping over the elements that can take focus always keeps focus inside the modal, on an element that can take it |
| Modal.AllFocusableAgree | components/traps/Modal.tsx:24-46 | when every matched element can take focus, the trap as written and the wrapping trap agree, and Tab and Shift+Tab move round the cycle of elements |
| Modal.DisabledEndLeaks | components/traps/Modal.tsx:27-45 | as written, when the elements after the focused one cannot take focus, Tab from it leaves the modal, while the wrapping trap keeps focus inside |
| Modal.CheckoutTabLeaks | components/pages/CartPage.tsx:326-358 | in the checkout confirmation while an order is processing, Tab from "Annuler" leaves the modal and Shift+Tab from the close button does not wrap; the wrapping trap cycles between the two enabled buttons |
| Modal.TabVisitsInOrder | components/traps/Modal.tsx:24-46 | when every element can take focus, pressing Tab from the first visits every element in order and is back on the first after as many presses as there are elements |
| Modal.ShiftTabUndoesTab | components/traps/Modal.tsx:35-45 | under the wrapping trap, Shift+Tab undoes Tab and Tab undoes Shift+Tab from every element that can take focus, including at the two ends |
| Modal.React | components/traps/Modal.tsx:24-100 | a closed modal ignores every event; focus is only ever moved by Tab on an open modal, and to an existing element |
| Modal.OnlyEscapeOrOutsideCloses | components/traps/Modal.tsx:74-100 | an open modal asks to close exactly on Escape or on a click outside its content; Tab never closes it, and other keys do nothing |
| Skeleton.RevealDelay | components/traps/Skeleton.tsx:18-34 | without chaos the content shows at once; with chaos after skeletonDelay + 500·u ms for the draw u at the placeholder's index |
| Skeleton.RevealOrderFollowsDraws | components/traps/Skeleton.tsx:18-34 | with chaos on, one placeholder is revealed before another exactly when its draw is smaller |
| Skeleton.TestIdInjective | components/traps/Skeleton.tsx:43 | two placeholders share a test identifier only when they share an index |
| Skeleton.OffsetIndicesDiffer | components/pages/CatalogPage.tsx:182-196 | the grid placeholder i and the card image placeholder i + 10 draw from different keys |
| Spinner.SizeClassesDistinct | components/traps/Spinner.tsx:15-19 | the three sizes have different classes |
| Spinner.Duration | components/traps/Spinner.tsx:21-24 | one second without chaos; otherwise 0.5 + 1.5·u seconds for the draw u at the spinner's index |
| Spinner.DurationFollowsDraw | components/traps/Spinner.tsx:21-24 | with chaos on, one spinner has a shorter period than another exactly when its draw is smaller |
| PopupOverlay.ShowDelay | components/traps/PopupOverlay.tsx:15-26 | the pop-up is scheduled exactly when chaos and the flag are on and the draw at its index exceeds 0.3, after 500 + 2000·u ms for the draw u at the next index |
| PopupOverlay.ShowAndDelayDrawsDiffer | components/traps/PopupOverlay.tsx:19-22 | whether the pop-up shows and when are drawn from different keys |
| PopupOverlay.ClicksOnlyHide | components/traps/PopupOverlay.tsx:34-48 | clicks never bring the pop-up back: after any clicks it is visible exactly when it was and every click landed on its content |
| PopupOverlay.HomePopupFollowsFlag | components/traps/PopupOverlay.tsx:15-22 | on the home page (index 1, the configuration's own seed) the pop-up shows exactly when chaos and the configuration's pop-up flag are on |

## Left out

- `Math.abs(Math.sin(hash)) % 1` is the parameter `Chaos.UnitMap`, constrained only to [0, 1). The model does not compute sines, and every property holds for every such map.
- Floating-point rounding is not modelled: prices, latencies and totals are exact reals. For example, the 0.1 + 0.2 style errors of `subtotal * (discount / 100)` are absent.
- `Number.prototype.toString` of a price in the CSV export is the parameter `showPrice`. `Date.now().toString()` is `Text.Decimal` of a natural number, the time in milliseconds.
- `String.prototype.localeCompare` for the catalogue's name order is the parameter `nameLe`, required to be a total preorder. The admin table compares strings by UTF-16 code units, as `<` does.
- Catalog.FilteredAndSorted: ordering and permutation are proved, but the stability of `Array.prototype.sort` (equal elements keep their order) is not.
- Admin.SortedRows: the same holds, ordering and permutation without stability.
- `toLowerCase`/`toUpperCase` map ASCII letters only. Other scripts are left unchanged.
- Timers, promises, React rendering, `localStorage`, `sessionStorage`, `alert` and `router.push` are not modelled. Each handler returns the waits it would await and the state it would set. DOM focus is modelled only inside a modal, as a position among the elements its selector matches together with which of them can take focus (`Modal.NextFocusable`); which page element receives focus once it leaves the modal is not modelled.
- The order in which concurrent timers fire, and clean-up functions that cancel them, are left out.
- `URLSearchParams.toString()` and parsing are not modelled. Parameters are an ordered list of name/value pairs with `get`, `has`, `set` and `delete`.
- The `Headers` form of `initChaosFromRequest`'s second argument is left out, because there the `in` test is always false (see above).
- The components' default props (seed "default", index 0, size `md`) are not modelled as defaults: every trap function takes its seed and index, and the spinner its size, as explicit arguments.
- Modal.TabVisitsInOrder: stated only for modals whose matched elements can all take focus. With a disabled element the trap as written lets focus leave the modal (see Findings), so no cycle exists to state.
- `generateRandomSeed` (`Math.random().toString(36)`) is not modelled. Its result is simply a new seed passed to `ChaosControls.HandleSeedChange`.
- `JSON.stringify` of the product list is not modelled. Only the wait, file name and media type of the JSON export are.
- `parseFloat` of an edited price (and its `NaN` result) is left out: an edited price is a real or absent.
- The admin table's column widths and resizing are left out. They change only presentation.
- The product fixtures of `lib/data.ts` are not part of this model. Pages take the product list as input, and only the category and brand names are restated.
- The rate limiter's buckets live in one process; in the model they are an explicit map passed in and returned. Sharing between serverless instances is out of scope.
- The `config.matcher` of the middleware (which paths it runs on) is not modelled.
- Draw indices are integers. JavaScript would also accept fractional indices, which no caller passes.

## Findings

| source | as written | input that shows it | evidently intended | confidence | as-written member | corrected member |
|---|---|---|---|---|---|---|
| components/traps/Modal.tsx:27-45 | the trap's ends are the first and last elements the selector matches, disabled buttons included: Tab is intercepted only at the last matched element even when that one cannot take focus, and `focus()` on a disabled element does nothing | the checkout confirmation while an order is processing (components/pages/CartPage.tsx:326-358): close button, "Annuler", and "Confirmer" disabled; Tab from "Annuler" leaves the modal, and Shift+Tab from the close button stays on it | Tab and Shift+Tab wrap over the elements that can take focus, so focus never leaves an open modal | medium, not executed | Modal.CheckoutTabLeaks | Modal.TrapFrom |
