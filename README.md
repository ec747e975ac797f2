# Inventory client core, modelled in Dafny

This is a model of the logic at the heart of a React-Native inventory client for warehousemen. It covers seven parts:

- **Product detail screen (`components/screens/product.tsx`).**
  - A product's total quantity is the sum of its per-warehouse stock rows.
  - The total decides a stock-status badge.
  - A warehouseman can increase or decrease the stock of their own warehouse. The change either produces the next product value or is refused with one of three messages.
- **Dashboard (`app/dashboard/index.tsx`).**
  - Each product is decorated with its aggregated quantity.
  - The list is copy-sorted by one of five keys. Any other key leaves it as it is.
- **Metrics hook (`hooks/useStatistics.ts`).**
  - It computes the product count, the out-of-stock count and the total units.
  - It also builds the five best-stocked and five least-stocked products as `{id, name, quantity}` entries.
- **Search screen (`components/screens/search.tsx`).** A query of three or more characters selects the products whose lower-cased name contains the lower-cased query, or whose barcode contains it as typed. A shorter query selects nothing.
- **New-product form (`components/screens/addProductForm.tsx`).**
  - The form's initial state.
  - The field-by-field validation. Later checks overwrite earlier messages.
  - The product record built from a valid form.
- **The `products` Redux slice (`slices/poductSlice.ts`).** The loading, error and data transitions of its three fetches.
- **The `auth` Redux slice (`slices/authSlice.ts`).** The sign-in state transitions, and the outcome of the `login` thunk.

How the project is laid out:

- **Pure code.** The screens, the hook and the form's record building are pure. They are Dafny functions with properties proved as lemmas.
- **Validation.** The validation fills an error dictionary in place. It is a method proved against a declarative specification, `FieldError`.
- **Redux slices.** The reducers assign state fields in place. They are classes whose methods state the whole new state and keep the class invariant `Valid()`.
- **Sorting.** JavaScript's `Array.prototype.sort` is modelled by a stable insertion sort. `Sorting.SortStable` proves the stability; the language requires it since ES2019.

Files:

- `common.dfy`: `Option`, `Result`, filtering, whitespace and substring search.
- `types.dfy`: the records.
- `stock.dfy`: stock sums, and row lookup and replacement.
- `sorting.dfy`: the sort and its properties.
- One file per core source file.
- `scenarios.dfy`: worked concrete cases.

Open-ended inputs are parameters:

- `String.prototype.localeCompare` is assumed to be a total preorder, stated as `Dashboard.Collation`.
- `String.prototype.toLowerCase` is left unconstrained.
- The clock reading (`new Date().toISOString()`).
- The number parses (`parseInt`, `parseFloat`, `Number`), with `None` standing for NaN.
- The verdict of the asynchronous barcode check.
- The payloads of the HTTP thunks.

## Model

| member | source | states |
|---|---|---|
| Stock.Reduce | components/screens/product.tsx:30 | folding the rows from an accumulator gives the accumulator plus the sum of the row quantities |
| Stock.AggregatedQuantity | app/dashboard/index.tsx:39 | a product without a stock list has quantity 0; otherwise the quantity is the sum over its rows |
| Stock.SumNonNegative | components/screens/product.tsx:30 | rows that are all non-negative have a non-negative sum |
| Stock.SumZeroIffAllEmpty | components/screens/product.tsx:30 | with non-negative rows, the sum is 0 exactly when every row is 0 |
| Stock.SumAppend | components/screens/product.tsx:30 | the sum of two concatenated row lists is the sum of the two sums |
| Stock.FindStock | components/screens/product.tsx:28 | the lookup finds nothing exactly when no row has the warehouse id; otherwise it returns the first row with that id |
| Stock.SetQuantity | components/screens/product.tsx:64-68 | the rebuilt list has the same length; every row of the warehouse gets the new quantity and every other row is kept |
| Stock.SumSetQuantity | components/screens/product.tsx:64-68 | with unique warehouse ids, replacing one row's quantity moves the sum by the difference |
| Stock.SetQuantityNoMatch | components/screens/product.tsx:64-68 | replacing the quantity of a warehouse that has no row leaves the list unchanged |
| ProductScreen.TotalQuantity | components/screens/product.tsx:30 | the screen's total is the sum of the row quantities, and 0 for an empty list |
| ProductScreen.StockStatusOf | components/screens/product.tsx:34-38 | the badge is out of stock exactly at 0 and in stock exactly from 10 |
| ProductScreen.ProductStatus | components/screens/product.tsx:30-38 | for non-negative rows: out of stock iff the total is 0, low iff it is 1 to 9, in stock iff it is at least 10; out of stock iff every row is empty |
| ProductScreen.ErrorMessage | components/screens/product.tsx:40-59 | every refusal shows a non-empty message |
| ProductScreen.UserStock | components/screens/product.tsx:28 | a row is found exactly when somebody is signed in and the product has a row for their warehouse, and it is the first such row; with nobody signed in no row is found |
| ProductScreen.Apply | components/screens/product.tsx:52-54 | an increase adds exactly the amount to the current quantity, a decrease takes exactly the amount away |
| ProductScreen.ActorOf | components/screens/product.tsx:72 | the appended edit names the user's id, and is blank exactly when that id is 0 |
| ProductScreen.QuantityChange | components/screens/product.tsx:40-76 | an invalid amount is refused first; then a missing row for the actor's warehouse; then a row whose new quantity would be negative. Each refusal happens exactly under its condition. A success replaces the quantity of every row of the warehouse with the row's quantity moved by the amount, appends exactly one edit by the actor at the given time, keeps the older edits in order, and changes no other field |
| ProductScreen.ChangeKeepsRowsNonNegative | components/screens/product.tsx:52-68 | a successful change of a product whose rows are non-negative leaves them non-negative, and the total non-negative |
| ProductScreen.ChangeMovesTotalByAmount | components/screens/product.tsx:52-68 | with one row per warehouse, a successful change moves the total up or down by exactly the amount and keeps the ids unique |
| Dashboard.Decorate | app/dashboard/index.tsx:38-41 | a decorated product carries its aggregated quantity, and no other field changes |
| Dashboard.DecorateAll | app/dashboard/index.tsx:38-41 | the decorated list has the same length and holds each product decorated, at the same position |
| Dashboard.OrderFor | app/dashboard/index.tsx:44-58 | a comparator exists exactly for the five known keys |
| Dashboard.FilteredProduct | app/dashboard/index.tsx:44-59 | the result is a permutation of the input, and an unknown key returns the input unchanged |
| Dashboard.OrderIsPreorder | app/dashboard/index.tsx:46-55 | every known key's comparator is a total preorder (for `name`, when the collation is one) |
| Dashboard.FilteredIsSorted | app/dashboard/index.tsx:44-55 | for a known key the result is sorted by that key's comparator |
| Dashboard.PriceOrders | app/dashboard/index.tsx:46-49 | `price-asc` gives non-decreasing prices and `price-desc` non-increasing ones |
| Dashboard.NameOrders | app/dashboard/index.tsx:50-51 | `name` gives names in collation order |
| Dashboard.DecoratedKeys | app/dashboard/index.tsx:38-55 | on any permutation of the decorated list the quantity sort key is the aggregated quantity |
| Dashboard.QuantityAscOrders | app/dashboard/index.tsx:52-53 | `quantity-asc` on the decorated list gives non-decreasing aggregated quantities |
| Dashboard.QuantityDescOrders | app/dashboard/index.tsx:54-55 | `quantity-desc` on the decorated list gives non-increasing aggregated quantities |
| Dashboard.DefaultOrdersByQuantity | app/dashboard/index.tsx:22-53 | the dashboard's initial filter orders the list by aggregated quantity, fewest first |
| Dashboard.FilteredIdempotent | app/dashboard/index.tsx:44-59 | applying the same key twice gives the same list as applying it once |
| Dashboard.FilteredIsStable | app/dashboard/index.tsx:44-55 | products that a known key cannot tell apart keep their relative input order |
| Sorting.Insert | app/dashboard/index.tsx:47 | insertion adds exactly the one element |
| Sorting.Sort | app/dashboard/index.tsx:47 | sorting is a permutation |
| Sorting.InsertSorted | app/dashboard/index.tsx:47 | inserting into a sorted list keeps it sorted |
| Sorting.SortSorted | app/dashboard/index.tsx:47 | under a total preorder the result is sorted |
| Sorting.SortKeepsSorted | app/dashboard/index.tsx:47 | an already sorted list is returned unchanged |
| Sorting.SortIdempotent | app/dashboard/index.tsx:47 | sorting twice gives the same list as sorting once |
| Sorting.InsertTied | app/dashboard/index.tsx:47 | insertion keeps the relative order of the elements tied with any given one |
| Sorting.SortStable | app/dashboard/index.tsx:47 | the sort is stable: elements tied with any given one appear in their input order |
| Sorting.PrefixPrecedesRest | hooks/useStatistics.ts:40-41 | in a sorted list, every element of a prefix may precede every element after it |
| Statistics.TotalUnits | hooks/useStatistics.ts:30-33 | the running total gives the accumulator plus the sum of the aggregated quantities |
| Statistics.Entry | hooks/useStatistics.ts:35-39 | an entry carries the product's id and name and its aggregated quantity |
| Statistics.Entries | hooks/useStatistics.ts:34-39 | one entry per product, at the same position |
| Statistics.Ranking | hooks/useStatistics.ts:34-49 | a ranking has five entries, or all of them when there are fewer products |
| Statistics.CalculateStatistics | hooks/useStatistics.ts:23-50 | the product count is the list length; the out-of-stock count equals the one-by-one count of products whose aggregated quantity is 0, and is at most the product count; the unit total is the sum of the aggregated quantities; both rankings have min(5, n) entries |
| Statistics.OutOfStockCount | hooks/useStatistics.ts:26-29 | the out-of-stock count is the length of the filter of empty products and equals the one-by-one count of them; that filter keeps, with multiplicity, exactly the products whose aggregated quantity is 0; the count is 0 iff none is empty, and n iff all are |
| Statistics.FilterAll | hooks/useStatistics.ts:26-29 | a filter keeps every element exactly when every element passes |
| Statistics.FilterNone | hooks/useStatistics.ts:26-29 | a filter keeps nothing exactly when no element passes |
| Statistics.OutOfStockIsEmptyCount | hooks/useStatistics.ts:26-29 | the length of the filter of empty products is the one-by-one count of products whose aggregated quantity is 0 |
| Statistics.UnitSumZeroIffAllOut | hooks/useStatistics.ts:30-33 | with non-negative rows the unit total is non-negative, and 0 exactly when every product is out of stock |
| Statistics.UnitSumAppend | hooks/useStatistics.ts:30-33 | the unit total of two concatenated catalogues is the sum of their totals |
| Statistics.RankingEntriesComeFromProducts | hooks/useStatistics.ts:34-49 | every ranking entry is the entry of one of the products |
| Statistics.RankingIsTop | hooks/useStatistics.ts:34-49 | a ranking is sorted by its comparator, draws its entries from the products, and every left-out entry may follow every shown one |
| Statistics.MostAddedIsTop | hooks/useStatistics.ts:34-41 | the most-stocked list is non-increasing in quantity, and no left-out product has more units than a shown one |
| Statistics.MostRemovedIsBottom | hooks/useStatistics.ts:42-49 | the least-stocked list is non-decreasing in quantity, and no left-out product has fewer units than a shown one |
| Common.Filter | components/screens/search.tsx:21-24 | a filter keeps exactly the elements that pass, each as often as in the input |
| Common.FilterIsSubsequence | components/screens/search.tsx:21-24 | a filter's result is a subsequence of its input |
| Common.IncludesIffOccurs | components/screens/search.tsx:22-23 | `includes` holds exactly when the needle occurs at some position of the text |
| Search.SearchResults | components/screens/search.tsx:19-29 | a query shorter than 3 gives nothing; otherwise a product is in the result exactly when it is in the catalogue and its name or barcode matches; no product appears more often than in the catalogue |
| Search.ResultsAreSubsequence | components/screens/search.tsx:21-24 | the results keep the catalogue's order |
| Search.MatchesIffWindow | components/screens/search.tsx:22-23 | a product matches exactly when the lowered query occurs in the lowered name or the query occurs in the barcode |
| AddProductForm.WarehouseInfo | components/screens/addProductForm.tsx:20-22 | nothing is found exactly when no product has a row for the user's warehouse (always, with nobody signed in); otherwise the result is the first row for that warehouse on the first product that has one, and carries the warehouse id; only the products the search reads need their stocks list |
| AddProductForm.WarehouseName | components/screens/addProductForm.tsx:24 | the name is never empty; it is the row's name when there is a row with a non-empty name, and "Main Stock" when there is no row or its name is empty |
| AddProductForm.WarehouseLocation | components/screens/addProductForm.tsx:25-29 | the found row's location when there is a row; otherwise the user's city, or "" with nobody signed in, at latitude and longitude 0 |
| AddProductForm.CreatorId | components/screens/addProductForm.tsx:43 | the creator is the user's id, and 0 with nobody signed in |
| AddProductForm.InitialForm | components/screens/addProductForm.tsx:32-46 | the form starts with the next id, the given barcode or none, empty text fields, and one edit entry naming the creator |
| AddProductForm.DefaultWarehouse | components/screens/addProductForm.tsx:20-29 | with no row for the user's warehouse anywhere, the search reads every product's stocks list without needing more, and the new row is named "Main Stock" and placed at latitude 0 |
| AddProductForm.AllStocksReached | components/screens/addProductForm.tsx:20-22 | when every product carries a stocks list, the search for the user's row can run whoever the user is |
| AddProductForm.IdentityChecks | components/screens/addProductForm.tsx:119-122 | after the name, type and barcode checks, exactly those three fields hold their final message, and nothing else has one |
| AddProductForm.RequiredChecks | components/screens/addProductForm.tsx:119-125 | after the required checks, the name, type, barcode, supplier and image messages are final; the price holds "required" exactly for a blank price; solde and quantity have no message |
| AddProductForm.ValidateForm | components/screens/addProductForm.tsx:116-142 | a field has an error exactly when the last applicable check fires, and holds that check's message; the form is valid exactly when the map is empty, which is exactly when no field has an error |
| AddProductForm.MessagePrecedence | components/screens/addProductForm.tsx:121-133 | a blank price ends with "must be a positive number", a registered barcode with "already registered", and a solde at least the price with "less than price" |
| AddProductForm.StockId | components/screens/addProductForm.tsx:154 | the new row's id is the user's warehouse id when that is non-zero, and 1 otherwise or with nobody signed in; it is never 0 |
| AddProductForm.BuildProduct | components/screens/addProductForm.tsx:148-159 | a valid form gives the parsed price, which is positive. The solde is 0 when absent, and otherwise the parsed solde, strictly between 0 and the price. The id, name, type, barcode, supplier, image and edit log are copied from the form. There is one non-negative row with the parsed quantity when it is positive, and none otherwise |
| AddProductForm.CreatedFromInitialForm | components/screens/addProductForm.tsx:32-46 | a product created from the initial form has id n+1, only the creation edit, and no row when the quantity field is blank |
| ProductSlice.DefaultError | slices/poductSlice.ts:65-96 | the fallback message is "Error fetching products" for the list and "Error fetching product" for one product |
| ProductSlice.ErrorText | slices/poductSlice.ts:65-96 | the error is the message when it is non-empty, the request's default otherwise, and never empty |
| ProductSlice.ProductState.constructor | slices/poductSlice.ts:7-12 | the initial state has no products, no product, not loading, no error |
| ProductSlice.ProductState.Pending | slices/poductSlice.ts:57-60 | a pending fetch sets loading and clears the error, leaving the data as it was |
| ProductSlice.ProductState.ProductsFulfilled | slices/poductSlice.ts:61-64 | the list fetch ends with the payload as the catalogue; the product on show and the error are kept |
| ProductSlice.ProductState.ProductFulfilled | slices/poductSlice.ts:75-92 | a single-product fetch ends with the payload as the product on show, an absent payload clearing it; the catalogue and the error are kept |
| ProductSlice.ProductState.Rejected | slices/poductSlice.ts:65-96 | a rejected fetch ends loading with a non-empty error and keeps the data |
| ProductSlice.ProductState.Fetch | slices/poductSlice.ts:26-96 | a whole fetch ends not loading, with the payload stored and no error, or with the error and the data kept; a fetch by id always leaves a product on show, while a fetch by a barcode nobody has clears it |
| AuthSlice.LoginOutcome | slices/authSlice.ts:16-31 | the login succeeds exactly when the lookup answered with a user that was saved. A missing user is refused with "Invalid secret key", and a failed lookup or save with the connection message |
| AuthSlice.AuthState.constructor | slices/authSlice.ts:7-12 | the initial state is signed out, with no user, not loading and no error |
| AuthSlice.AuthState.LoginPending | slices/authSlice.ts:61-64 | a pending login sets loading and clears the error; who is signed in is kept |
| AuthSlice.AuthState.LoginFulfilled | slices/authSlice.ts:65-69 | a fulfilled login ends loading and signs in the payload |
| AuthSlice.AuthState.LoginRejected | slices/authSlice.ts:70-73 | a rejected login ends loading with the payload as the error, and keeps who is signed in |
| AuthSlice.AuthState.LoadUserFulfilled | slices/authSlice.ts:74-77 | the restored user becomes the user, and the state is signed in exactly when there is one |
| AuthSlice.AuthState.LogoutFulfilled | slices/authSlice.ts:78-83 | logging out clears the user, the signed-in flag and the error, and keeps the loading flag |
| AuthSlice.AuthState.Login | slices/authSlice.ts:14-73 | a whole login ends not loading, signed in with the user on success, or with the refusal message and the old sign-in state on failure |
| Scenarios.DecreaseBelowZeroRefused | components/screens/product.tsx:52-59 | taking 15 from a row of 10 is refused as negative |
| Scenarios.IncreaseAccepted | components/screens/product.tsx:52-76 | adding 5 to a row of 10 gives 15 and one edit by the actor |
| Scenarios.MissingRowRefused | components/screens/product.tsx:47-50 | an actor without a row on the product is refused |
| Scenarios.ShortQueryFindsNothing | components/screens/search.tsx:19-29 | a two-letter query gives no results |
| Scenarios.PriceAscExample | app/dashboard/index.tsx:46-47 | products priced 10 and 5 come out as 5, then 10 |
| Scenarios.StatisticsExample | hooks/useStatistics.ts:23-50 | products with 5 and 20 units give 2 products, 0 out of stock, 25 units, and rankings [20, 5] and [5, 20] |

## Left out

- The thunks' HTTP calls (`getAllProducts`, `getProductById`, `getProductByBarcode`, `getUserBySecretKey`, `updateProductStock`, `createProduct`): their results are the reducers' payloads and the `Lookup` input.
- Device storage (`AsyncStorage`), including the `loadUser` thunk's read and parse: the restored user is the `LoadUserFulfilled` payload, and a failed save is the `saved` input of `LoginOutcome`.
- `loadUser.rejected` has no reducer case, so it changes nothing and has no method.
- RTK's own `action.error.message`: in `ProductState.Rejected` it is a parameter. RTK's actual value for a `rejectWithValue` rejection is library behaviour and is not modelled.
- The screens' component state (`setError`, `setIsModalVisible`, `setErrors`), navigation, alerts, styles and rendering. `handleQuantityChange` is modelled as the decision returning a `Result`; persisting the product and refetching the list are outside the model.
- The 500 ms debounce of the search, and the asynchronous barcode-uniqueness effect of the form: timers and network. The effect's verdict is the `barcodeExists` input.
- The search effect reruns only when the query changes (components/screens/search.tsx:33), so results shown on screen can be stale after the product list changes. `Search.SearchResults` takes the list as it is when it is called and does not model that stale read.
- The camera, barcode scanner, image picker and PDF export.
- Floating point: prices and soldes are exact reals, and `parseFloat` results are inputs. NaN is `None`, so every comparison with it is false.
- Stock quantities are integers. A fractional `Number(initialQuantity)` such as 1.5 is not modelled.
- `localeCompare` and `toLowerCase`: locale collation and Unicode case mapping are parameters.
- `String.prototype.trim`: the white space set is written out from sections 12.2 and 12.3 of ECMA-262; a space separator added by a later Unicode version is not followed.
- ProductScreen.TotalQuantity, ProductScreen.ProductStatus, ProductScreen.QuantityChange, ProductScreen.ChangeKeepsRowsNonNegative and ProductScreen.ChangeMovesTotalByAmount: the screen reads `product.stocks` unconditionally when it renders, so a product without a `stocks` list throws a TypeError there. That crash is not modelled, and these members require the list to be present.
- AddProductForm.WarehouseInfo, AddProductForm.BuildProduct and AddProductForm.CreatedFromInitialForm: the search for the user's row throws a TypeError on the first product it reads that has no `stocks` list. That crash is not modelled; these members require `StocksReached`, which says every product the search reads carries the list.
- String lengths count characters, not UTF-16 code units as JavaScript does. This matters only for the search screen's three-character gate on astral characters.
- Timestamps are taken as opaque strings.
