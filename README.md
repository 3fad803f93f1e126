# Sweet shop inventory rules, in Dafny

This project models the core rules of a small sweet-shop application: a
Django REST back end that keeps a catalog of stock items (sweets), and a
React single-page front end over it. The core is:

- **The stock item** (`backend/sweets/models.py`). A `Sweet` has a quantity
  that is never negative. `purchase(amount)` takes items out of stock and
  `restock(amount)` puts them back, each behind its guards. `is_in_stock`
  holds when the quantity is positive. In the model, `SweetModels.Sweet` is a
  class with those fields. Its `Purchase` and `Restock` methods change only
  `quantity` and return the error text where the source raises `ValueError`.
  The guards are written once, as `PurchaseRule` and `RestockRule`.
- **The catalog search** (`backend/sweets/views.py`). It narrows the full list
  one filter at a time: name and category match as substrings ignoring case,
  and the price bounds are inclusive. A price bound that does not parse ends
  the search early with a 400. `SweetViews.Search` does exactly these steps.
  It is proved equal to `SearchResponse`, which selects with a list of
  criteria: what the items must satisfy, and in what order they are kept.
- **The purchase and restock endpoints** (`views.py`). The amount is checked by
  the serializer, the model method is applied, and the outcome becomes a 200
  with the new quantity or a 400 with the error.
- **The field validators** (`backend/sweets/serializers.py`,
  `backend/authentication/serializers.py`). These cover price, quantity and
  amount, plus the password check and the removal of `password_confirm` at
  registration.
- **The client's session and list logic** (`frontend/src/app.jsx`). This
  covers the login/logout session store and the screen it selects, how the
  search parameters are built, how a list response is normalised, the delete
  confirmation, how amounts fall back to a default, the register body, and the
  item form. `Dashboard.Dashboard` holds the dashboard's state cells. Each
  handler takes the outcomes of its API calls as parameters and appends the
  calls it makes to `requests`. That way, "which calls, and how many reloads"
  becomes part of the verified state.

Prices are integer cents. The conversions `float(...)` in the search and
`parseFloat` in the form are foreign parsing, so they appear as a parameter
`parsePrice: string -> Option<int>`. JavaScript's `parseInt`, applied to the
text of a number input, is written out (`Numerals.ParseInt`). Python's and
JavaScript's printing of integers is also written out (`Numerals.IntToString`).

Three details of the code that the model keeps:

- The price must be at least 0.01; a price of 0 is refused.
- The insufficient-stock text is `Insufficient stock. Only N available.`.
- A delete shows its success message even when the server refused it, because
  `api.deleteSweet` returns `res.ok` and never throws on a refusal.

Two framework facts shape the validators. The REST framework checks a field's
own limits before the serializer's `validate_*` hook runs. For a decimal field
these are its digit limits, then `min_value`; for an integer field,
`min_value` and `max_value`. It derives these limits from the model field:
`max_digits=10, decimal_places=2` on the price, `MinValueValidator` on both
fields, and the integer column's range on the quantity. So `validate_amount`,
`validate_price` and `validate_quantity` are modelled as written, and they are
also proved never to reject what their field let through
(`SweetSerializers.PurchaseAmount` and its neighbours). Django runs model field
validators from serializers and `full_clean`, not from `save`. So the `Sweet`
constructor takes arguments that already satisfy them, as the serializer's do.

## Model

| member | source | states |
|---|---|---|
| `Numerals.IntToString` | backend/sweets/models.py:50 | an integer's decimal text, as a Python f-string prints it; it starts with '-' exactly when the integer is negative |
| `Numerals.ParseInt` | frontend/src/app.jsx:377 | `parseInt` on a number input's text: the empty text and text starting with anything but a digit or a sign give NaN (`None`); text starting with a digit gives a non-negative number; a number is read only where a digit occurs |
| `Numerals.ParseIntOfIntToString` | frontend/src/app.jsx:446 | `parseInt` of a number reads back that number: parsing an integer's decimal text gives the integer |
| `Numerals.ParseIntOfIntToStringThen` | frontend/src/app.jsx:377 | an integer's decimal text followed by anything not starting with a digit (a fraction, an exponent) reads as that integer: an optional sign, then the leading digits |
| `Numerals.ParseIntStopsAtNonDigit` | frontend/src/app.jsx:407 | a typed "2.5" reads as 2, "1e3" as 1, and ".5" as NaN |
| `Text.Lower` | backend/sweets/views.py:40-44 | the case folding `__icontains` applies: same length, and each ASCII capital becomes its small letter |
| `Text.ContainsIffSlice` | backend/sweets/views.py:40-44 | the recursive substring test holds exactly when the query occurs at some offset of the text |
| `Text.QueryCaseIrrelevant` | backend/sweets/views.py:40-44 | a case-insensitive match does not change when the query is lower-cased or upper-cased, or when the text is upper-cased |
| `SweetModels.PurchaseRule` | backend/sweets/models.py:46-52 | a purchase succeeds exactly when 0 < amount <= quantity, leaving quantity - amount (not negative); amount <= 0 gives "Purchase amount must be positive"; otherwise too little stock gives the insufficient-stock message with the quantity |
| `SweetModels.RestockRule` | backend/sweets/models.py:65-68 | a restock succeeds exactly when amount > 0, leaving quantity + amount; otherwise it fails with "Restock amount must be positive" |
| `SweetModels.QuantityStaysNonNegative` | backend/sweets/models.py:19-21 | starting from a quantity >= 0, purchase and restock keep it >= 0, whether they succeed or fail |
| `SweetModels.RestockUndoesPurchase` | backend/sweets/models.py:46-68 | restocking the amount just purchased restores the quantity, and purchasing the amount just restocked does too |
| `SweetModels.InsufficientStock` | backend/sweets/models.py:50 | the insufficient-stock text starts with "Insufficient stock. Only " and the available quantity can be read back from just after those words |
| `SweetModels.InsufficientStockMessage` | backend/sweets/tests/test_models.py:93 | the insufficient-stock error contains "Insufficient stock", whatever quantity it reports |
| `SweetModels.InStockIffPurchasable` | backend/sweets/models.py:71-74 | an item is in stock exactly when some purchase of it can succeed |
| `SweetModels.CreateStoresInvalidFields` | backend/sweets/tests/test_models.py:38-56 | as written, creating an item with price -1.00 or quantity -5 stores it: nothing refuses the fields |
| `SweetModels.CreateChecked` | backend/sweets/models.py:14-21 | creation with the price and quantity validators (or check constraints on those two columns) run before the row is stored succeeds exactly when price and quantity are within their limits, storing the given fields; otherwise it names exactly the refused fields |
| `SweetModels.CheckedCreateRefusesInvalidFields` | backend/sweets/tests/test_models.py:38-56 | with validation before saving, the negative price and the negative quantity of the model tests are both refused, each naming its field |
| `SweetModels.Sweet.constructor` | backend/sweets/models.py:11-22 | a new item holds the given fields, and they satisfy the price and quantity constraints |
| `SweetModels.Sweet.IsInStock` | backend/sweets/models.py:71-74 | is_in_stock holds exactly when quantity > 0, which is exactly when a purchase of one item succeeds |
| `SweetModels.Sweet.Purchase` | backend/sweets/models.py:36-53 | error and new quantity are as `PurchaseRule` says, with the quantity unchanged on error; name, category, price and description are untouched; the field constraints are kept |
| `SweetModels.Sweet.Restock` | backend/sweets/models.py:55-69 | error and new quantity are as `RestockRule` says, with the quantity unchanged on error; the other fields are untouched; the field constraints are kept |
| `SweetModels.PurchaseScenarios` | backend/sweets/tests/test_models.py:70-94 | 3 bought out of 10 leaves 7; 5 out of 2 is refused with an "Insufficient stock" error and leaves 2 |
| `SweetModels.RestockScenarios` | backend/sweets/tests/test_models.py:96-120 | restocking 20 onto 5 gives 25; restocking -5 is refused with "Restock amount must be positive" and leaves 15 |
| `SweetSerializers.ValidatePrice` | backend/sweets/serializers.py:17-21 | `validate_price` rejects a price <= 0 with "Price must be greater than zero" and otherwise returns the value unchanged |
| `SweetSerializers.ValidateQuantity` | backend/sweets/serializers.py:23-27 | `validate_quantity` rejects negative values with "Quantity cannot be negative", accepts 0, and returns the value unchanged |
| `SweetSerializers.ValidatePurchaseAmount` | backend/sweets/serializers.py:34-38 | the purchase `validate_amount` hook rejects amounts <= 0 with the model's message and passes the others unchanged |
| `SweetSerializers.ValidateRestockAmount` | backend/sweets/serializers.py:45-49 | the restock `validate_amount` hook rejects amounts <= 0 with the model's message and passes the others unchanged |
| `SweetSerializers.PriceField` | backend/sweets/models.py:14-18 | the whole price field accepts exactly prices from one cent up to but not including 10^10 cents (more than 8 digits before the point breaks `max_digits=10, decimal_places=2`), returning them unchanged; too many digits is refused first, then a price below the minimum |
| `SweetSerializers.QuantityField` | backend/sweets/models.py:19-21 | the whole quantity field accepts exactly quantities from 0 to the integer column's maximum 2147483647, returning them unchanged; below 0 is refused with the minimum, above the column with the maximum |
| `SweetSerializers.PurchaseAmount` | backend/sweets/serializers.py:30-38 | a purchase amount is accepted exactly when present, an integer and >= 1, and is returned unchanged; otherwise the error says missing, not an integer, or below 1 |
| `SweetSerializers.RestockAmount` | backend/sweets/serializers.py:41-49 | a restock amount is accepted exactly when present, an integer and >= 1, and is returned unchanged; otherwise the error says why |
| `SweetSerializers.ValidatorsMatchModelConstraints` | backend/sweets/serializers.py:17-27 | the price and quantity hooks accept exactly what the model's field validators accept |
| `SweetSerializers.AcceptedAmountsPassModelGuard` | backend/sweets/serializers.py:30-49 | an accepted amount never meets the model's "must be positive" guard: an accepted restock always succeeds, and an accepted purchase fails only for lack of stock |
| `SweetViews.Narrow` | backend/sweets/views.py:41 | one `filter` keeps items of the list that satisfy the criterion, and no more than the list |
| `SweetViews.Select` | backend/sweets/views.py:40-57 | the selection keeps only items of the list that satisfy every criterion |
| `SweetViews.NarrowSelect` | backend/sweets/views.py:40-57 | filtering a selection once more equals selecting with the extra criterion appended, so the chain of filters is a conjunction |
| `SweetViews.SelectMembers` | backend/sweets/views.py:40-57 | an item is selected exactly when it is in the list and meets every criterion |
| `SweetViews.SelectIsSubsequence` | backend/sweets/views.py:64-65 | the selection keeps the list's order: it is a subsequence of the input list |
| `SweetViews.QueryParam` | backend/sweets/views.py:35-40 | a query parameter counts as given exactly when it is present and not empty, and its value is then the query's |
| `SweetViews.SearchResponse` | backend/sweets/views.py:33-65 | the reference reading of a search: status 200 or 400; a 400 carries "Invalid min_price value" or "Invalid max_price value"; a 200 carries a list no longer than the stock list |
| `SweetViews.Search` | backend/sweets/views.py:28-65 | the step-by-step filtering with early returns gives exactly `SearchResponse` of the list and the query |
| `SweetViews.ActiveCriteriaMeaning` | backend/sweets/views.py:40-57 | an item meets the query's filters exactly when the name and category, ignoring case, contain the given texts and the price lies within the given bounds, inclusive |
| `SweetViews.SearchWithoutFilters` | backend/sweets/views.py:35-65 | a query without name, category, min_price or max_price, or with them empty, returns 200 with the whole list in its order |
| `SweetViews.SearchRejectsBadBounds` | backend/sweets/views.py:46-62 | an unparseable min_price gives 400 "Invalid min_price value" whatever max_price is; otherwise an unparseable max_price gives 400 "Invalid max_price value"; status 200 exactly when a list is returned |
| `SweetViews.SearchResultIsFilteredList` | backend/sweets/views.py:33-65 | a successful search returns an order-preserving subsequence of the list, holding exactly the items that meet every filter |
| `SweetViews.SearchByNameScenario` | backend/sweets/test_views.py:115-124 | `?name=Chocolate` over "Chocolate Bar" and "Gummy Bears" returns only "Chocolate Bar" |
| `SweetViews.PurchasedMessage` | backend/sweets/views.py:81 | the purchase reply starts with "Successfully purchased " and the amount reads back from just after those words |
| `SweetViews.RestockedMessage` | backend/sweets/views.py:106 | the restock reply starts with "Successfully restocked " and the amount reads back from just after those words |
| `SweetViews.PurchaseAction` | backend/sweets/views.py:68-90 | an invalid amount gives 400 with the serializer's error keyed "amount" and no change; a valid one with enough stock gives 200 with remaining_quantity equal to the new quantity; too little stock gives 400 with the model's text; the "must be positive" error never comes out |
| `SweetViews.RestockAction` | backend/sweets/views.py:93-115 | an invalid amount gives 400 keyed "amount" and no change; a valid one gives 200 with new_quantity equal to the old quantity plus the amount; the `except ValueError` branch (lines 109-113) is proved unreachable, because an accepted amount is at least 1 |
| `SweetViews.EndpointScenarios` | backend/sweets/test_views.py:126-152 | buying 5 of 50 gives 200 and leaves 45; buying 10 of 5 gives 400 and leaves 5; restocking 20 onto 10 gives 200 and 30 |
| `AuthSerializers.Validate` | backend/authentication/serializers.py:29-35 | fails, with the error keyed "password", exactly when password and password_confirm differ; otherwise returns the fields unchanged |
| `AuthSerializers.Create` | backend/authentication/serializers.py:37-45 | removes password_confirm from the dictionary, keeps every other entry, and passes username, email and password on unchanged |
| `AuthSerializers.Register` | backend/authentication/serializers.py:29-45 | validate then create, for fields that passed their own checks: fails exactly on a password mismatch; on success the user is made from the sent username, email and password, and that password equals the confirmation |
| `SweetForms.InitForm` | frontend/src/app.jsx:435-439 | the form's initial cells as written: empty for a new item; for an edited item with quantity 0, an empty quantity cell |
| `SweetForms.InitFormCorrected` | frontend/src/app.jsx:435-439 | the corrected initial cells keep the item's quantity, 0 included, and agree with the original everywhere else |
| `SweetForms.ParseQuantity` | frontend/src/app.jsx:446 | `parseInt` of the quantity cell gives back a number copied from the item, and NaN for an empty cell |
| `SweetForms.Submit` | frontend/src/app.jsx:441-449 | the submitted record carries name, category and description as typed, the price through `parseFloat` and the quantity through `parseInt` |
| `SweetForms.EditingSoldOutSendsNaN` | frontend/src/app.jsx:438 | as written, saving the edit form of an item with quantity 0 unchanged sends a NaN quantity |
| `SweetForms.EditRoundTrip` | frontend/src/app.jsx:435-448 | with the corrected cells, saving an edit form unchanged sends the item's name, category, price and quantity back |
| `SweetForms.AmountInput` | frontend/src/app.jsx:377 | `parseInt(value) \|\| 1`: never 0; NaN and 0 become 1; any other parsed number is kept |
| `SweetForms.AmountInputReadsTypedNumber` | frontend/src/app.jsx:407 | a typed non-zero integer is taken as typed, 0 becomes 1, and a cleared cell becomes 1 |
| `SweetForms.PurchaseClick` | frontend/src/app.jsx:381-388 | the Purchase button sends something exactly when the item is in stock, and then the purchase cell's amount |
| `SweetForms.NewCard` | frontend/src/app.jsx:328-329 | a card starts with positive purchase and restock amounts, each of which the input reads back as itself |
| `SweetForms.TypePurchase` | frontend/src/app.jsx:377 | typing into the purchase input leaves the restock amount alone, never sets 0, and keeps a typed non-zero number |
| `SweetForms.TypeRestock` | frontend/src/app.jsx:407 | typing into the restock input leaves the purchase amount alone, never sets 0, and keeps a typed non-zero number |
| `SweetForms.CardAmountsMeetBackend` | frontend/src/app.jsx:327-330 | a fresh card's amounts (1 and 10) pass the backend's amount checks, and its enabled purchase always succeeds; a typed "-3", in either input, is sent and refused as below 1 |
| `ApiClient.OrElse` | frontend/src/app.jsx:585 | `message \|\| fallback`: the message when it is not empty, else the fallback |
| `ApiClient.FailureMessage` | frontend/src/app.jsx:121-124 | `error.error \|\| fallback`: the body's error text when present and not empty; the fallback when it is missing or empty |
| `ApiClient.RegisterBody` | frontend/src/app.jsx:35-40 | the register body has exactly the four registration fields, with password_confirm equal to password |
| `ApiClient.RegisterBodyPassesValidation` | frontend/src/app.jsx:39 | a body the client sends always passes the backend's password-match check, unchanged |
| `ApiClient.NormaliseList` | frontend/src/app.jsx:550 | a bare array is shown as is; an object shows its `results`, or nothing when it has none |
| `ApiClient.NormaliseSearch` | frontend/src/app.jsx:571 | a bare array is shown as is; anything else shows an empty list |
| `ApiClient.BareAndEnvelopeAgree` | frontend/src/app.jsx:550 | an array and the same array in a `{results}` envelope are shown alike, and a search array is shown as a list array is |
| `ApiClient.PurchaseReply` | frontend/src/app.jsx:112-126 | a purchase response is done exactly when its status is 2xx; a 2xx reply is done with the body's `message`; otherwise it fails with the body's non-empty `error` text, or with "Purchase failed" when the body has none or an empty one |
| `ApiClient.RestockReply` | frontend/src/app.jsx:128-142 | a restock response is done exactly when its status is 2xx; a 2xx reply is done with the body's `message`; otherwise it fails with the body's non-empty `error` text, or with "Restock failed" when the body has none or an empty one |
| `ApiClient.PurchaseErrorsReachClient` | frontend/src/app.jsx:121-124 | an insufficient-stock 400 reaches the client with the backend's own text; a serializer 400 becomes "Purchase failed" |
| `ApiClient.PurchaseGrantReachesClient` | frontend/src/app.jsx:112-126 | a purchase the stock covers is granted, and its 200 reply reaches the client as done with the backend's "Successfully purchased" message, from which the amount reads back |
| `ApiClient.RestockErrorsReachClient` | frontend/src/app.jsx:128-142 | every refusal the restock endpoint can send is the serializer's, and it reaches the client as "Restock failed"; an accepted amount always restocks, and the client is done with the backend's message |
| `Session.AuthProvider.constructor` | frontend/src/app.jsx:9-10 | a new session has no user and no token |
| `Session.AuthProvider.Login` | frontend/src/app.jsx:12-15 | login sets the token to the pair's access token and the user to the given user, replacing any earlier session |
| `Session.AuthProvider.Logout` | frontend/src/app.jsx:17-20 | logout resets both token and user to null |
| `Session.ScreenFor` | frontend/src/app.jsx:775-791 | the dashboard is shown exactly when a user is set; otherwise the login or register page, as chosen |
| `Session.Submit` | frontend/src/app.jsx:151-162 | a successful login hands user and access token to the session and shows no error; a failed one leaves the session alone and shows the message or the fallback |
| `Session.RejectedLoginScenario` | frontend/src/app.jsx:151-162 | a 401 with "Invalid credentials" shows that text and stays on the login screen |
| `Session.RejectedRegistrationScenario` | frontend/src/app.jsx:238-249 | a refused registration shows the error body's JSON text, never the fallback, and stays on the register screen |
| `Session.SignInOutScenario` | frontend/src/app.jsx:775-777 | after login the dashboard is shown, after logout the login page |
| `Dashboard.SearchParams` | frontend/src/app.jsx:560-562 | the request's parameters are at most name and category, and none is sent empty |
| `Dashboard.SearchParamsMeaning` | frontend/src/app.jsx:560-562 | the search parameters hold name exactly when the name field is not empty, and category likewise, with the typed values and no other key; they are empty exactly when both fields are |
| `Dashboard.DashboardSearchAnswer` | frontend/src/app.jsx:559-571 | the dashboard's search never gets the backend's 400, and the backend returns, in list order, exactly the items whose name and category contain the typed texts, ignoring case |
| `Dashboard.Dashboard.constructor` | frontend/src/app.jsx:534-540 | the dashboard starts with an empty list, empty filters, no form, no message, loading, and no calls made |
| `Dashboard.Dashboard.Mount` | frontend/src/app.jsx:542-544 | the first render makes one list call and shows its normalised reply, or "Failed to load sweets"; loading ends |
| `Dashboard.Dashboard.LoadSweets` | frontend/src/app.jsx:546-557 | one list call; a reply is normalised and shown; a failure keeps the list and shows "Failed to load sweets"; loading ends |
| `Dashboard.Dashboard.HandleSearch` | frontend/src/app.jsx:559-576 | with both filters empty, it is a full reload and no search call; otherwise there is one search call with the built parameters, and its reply is normalised or "Search failed" is shown |
| `Dashboard.Dashboard.HandlePurchase` | frontend/src/app.jsx:578-588 | one purchase call; on success the reply's message and exactly one reload; on failure the error or "Purchase failed", with the list unchanged and no reload |
| `Dashboard.Dashboard.HandleRestock` | frontend/src/app.jsx:590-600 | one restock call; on success the reply's message and one reload; on failure the error or "Restock failed", with no reload |
| `Dashboard.Dashboard.OpenForm` | frontend/src/app.jsx:709-711 | opening the form shows it, with the item to edit, or none for a new item |
| `Dashboard.Dashboard.CancelForm` | frontend/src/app.jsx:759-762 | cancelling hides the form and forgets the edited item |
| `Dashboard.Dashboard.HandleSave` | frontend/src/app.jsx:602-619 | an update call for the edited item, or a create call when none is edited; on success the matching message, the form closed and one reload; on failure "Failed to save sweet" with the form kept |
| `Dashboard.Dashboard.HandleDelete` | frontend/src/app.jsx:621-633 | declined confirmation: no call, no reload, nothing changed; otherwise one delete call, then success message and one reload for any response, or "Failed to delete sweet" on a transport error |
| `Dashboard.OneReloadAfterMutation` | frontend/src/app.jsx:583-628 | counted over the call log, a handler's calls add one reload after a success and none after a failure |
| `Dashboard.RefusedPurchaseScenario` | frontend/src/app.jsx:578-588 | buying 3 of an item with 2 left shows the backend's insufficient-stock text and leaves the displayed list as it was |

## Left out

- Network I/O is not modelled. This covers every `fetch`, headers, the bearer token, HTTP status handling beyond 2xx versus other, and JSON encoding and parsing. Each API call is an outcome passed into the handler that makes it.
- For the register call, the error text is `JSON.stringify` of the error body, and the login body is `{username, password}`. Both are foreign serialisation.
- React rendering, the `setTimeout` that clears a status message after three seconds, and `window.confirm` itself are not modelled. Confirmation is a boolean input.
- The loading flags and the Enter-key submission of the login and register pages are not modelled. Neither is the restock panel toggle of `SweetCard`. These are view state.
- Overlapping requests are not modelled. The handlers start `loadSweets` without awaiting it, so responses can race; in the model each reload completes before the handler returns.
- Django ORM behaviour is not modelled: `save()`, `get_object()` and its 404, UUID generation, `created_at`/`updated_at`, and `Meta.ordering`/indexes. The search takes the queryset as a list already in its order.
- `float(min_price)` and `parseFloat` are a parameter returning a price in cents or nothing. Bounds finer than a cent, and strings such as "nan" or "inf", are not modelled.
- `__icontains` folds ASCII letters only, as SQLite's LIKE does. A database that folds all of Unicode would match more.
- The REST framework's reading of `request.data['amount']` is abstracted: absent, not an integer, or an integer (`SweetSerializers.AmountField`). The framework's default error texts are given as kinds, not as text.
- Creating, updating and deleting an item in the backend are the framework's default ModelViewSet actions and are not modelled. Only their price and quantity checks are (`PriceField`, `QuantityField`).
- `validate_password`, `User.objects.create_user` and JWT issuing are foreign library calls. `AuthSerializers.Create` returns the arguments it passes to `create_user`.
- The `IsAuthenticated`, `IsAdmin` and `IsAdminOrReadOnly` permission checks are not modelled: their source, `permissions.py`, is not part of this model. So there are no 401 or 403 responses.
- `backend/sweets/urls.py` and `backend/sweets/admin.py` hold routing and configuration with no logic.
- AuthSerializers.Register: takes fields that already passed their own checks, and starts from there. Those checks are not modelled: presence, the email format, the unique username of `AbstractUser`, the unique email of `backend/authentication/models.py:10`, and `validate_password`. They run before `validate`, so with matching passwords a taken username or email still gets a 400.
- SweetSerializers.QuantityField: the maximum is the signed 32-bit range Django gives an integer column on PostgreSQL, MySQL and Oracle. On SQLite Django uses the 64-bit range, so the bound would be 2^63 - 1.
- SweetViews.RestockAction: the restock amount has no maximum, so a restock can push the quantity past the integer column's range. `save()` then raises a database error, not a `ValueError`, and the source answers 500. The model has no column bound on the stored quantity and answers 200.
- Numerals.ParseInt and SweetForms.AmountInput: exact on integers. JavaScript's `parseInt` returns a double, so a number of more than about 16 digits is rounded.
- The `console.error` calls in `loadSweets` and `handleSearch` write to the browser console only.
- A repeated query parameter (where `query_params.get` takes the last value) is not modelled. The query is a map.
- `Numerals.ParseInt` does not skip leading blanks or read a `0x` prefix. The value of a number input never has either.
- An item on the client carries its price in cents. The text the API sends is `SweetForms.PriceText`.

## Findings

| source | as written | input that shows it | evidently intended | confidence | as-written member | corrected member |
|---|---|---|---|---|---|---|
| backend/sweets/models.py:14-21 | the price and quantity validators are attached to the fields only; `save()` runs none of them and there is no check constraint, so `Sweet.objects.create` stores the row, while tests/test_models.py:38-56 expect an exception | `Sweet.objects.create(name="Invalid Sweet", category="Test", price=Decimal("-1.00"), quantity=10)`, and the same with price 2.00 and quantity -5 | creating an item with a price below 0.01 or a negative quantity raises, e.g. by running the price and quantity validators in `save()` or by check constraints on those columns | medium; not executed | `SweetModels.CreateStoresInvalidFields` | `SweetModels.CheckedCreateRefusesInvalidFields` |
| frontend/src/app.jsx:438 | `useState(sweet?.quantity \|\| '')`, then `parseInt(quantity)` at line 446 | editing an item whose quantity is 0 and saving without retyping the quantity sends a NaN quantity (JSON null), which the backend refuses, so the save fails | keep a quantity of 0 (`sweet?.quantity ?? ''`), so saving an unchanged form sends the item's own quantity | medium; not executed | `SweetForms.EditingSoldOutSendsNaN` | `SweetForms.EditRoundTrip` |
