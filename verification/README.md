# Storefront decision logic in Dafny

This project models the sequential decision logic of a small storefront. A React client keeps a cart and a logged-in user in local storage, sends the cart to a Flask backend to open a Stripe checkout session, and asks the backend to verify the payment when Stripe redirects back. The backend validates registrations, logins, profile and password changes, admin product uploads, and orders. Orders decrement stock item by item and roll back on any failure.

The model is functional. Rows, `to_dict` records and cart lines are immutable datatypes. Each handler, store action and effect is a pure function from the old state and the request to the reply and the new state. External capabilities are function parameters that the model does not interpret:

- bcrypt's hash and check;
- `isValidPhoneNumber`;
- the ISO country lookup;
- `decodeURIComponent`;
- Stripe's session creation and retrieval;
- Flask's `url_for`;
- the stored file name an upload receives;
- the id the database assigns.

Case folding is ASCII lower-casing. Prices are opaque integers that are carried but never computed with.

Modules follow the source files:

| module | file | source |
|---|---|---|
| `Models` | models.dfy | rows, `to_dict`, column defaults |
| `Gates` | gates.dfy | `api_login_required`, `admin_required` |
| `AuthRoutes` | auth_routes.dfy | register, login, logout, profile, password |
| `AdminRoutes` | admin_routes.dfy | extension filter, uploads, product create and update |
| `OrderService` | order_service.dfy | address, phone rule, line-item processing |
| `OrderRoutes` | order_routes.dfy | checkout-session validation, verify decision table |
| `AuthStore` | auth_store.dfy | client auth context |
| `CartStore` | cart_store.dfy | client cart context |
| `OrderSuccess` | order_success.dfy | checkout-return page and its run-once guard |
| `Checkout` | checkout.dfy | checkout form |
| `Catalogue` | catalogue.dfy | home-page brand list and search |
| `ProductDetail` | product_detail.dfy | quantity clamp and add button |
| `RouteGuard` | route_guard.dfy | protected routes |
| `ApiClient` | api_client.dfy | CSRF cookie and request interceptor |
| `Wrappers`, `Seqs`, `Text` | | shared option type, sequence operations (`filter`, `find`, `new Set`), string operations (`toLowerCase`, `includes`, `trim`, `split`, `join`) |

Where the code and the evident design disagree, the model follows the code:

- `addToCart` takes one argument and always adds one unit. The quantity the product page passes is ignored (`ProductDetail.ChosenQuantityIgnored`).
- The checkout form never writes the shipping address to session storage. With no stash, the order-success page ends with its "Shipping address not found" message (`OrderSuccess.VerifySession`).
- The auth store restores the user from local storage and never asks the server.
- `addToCart` checks the stock of the product object it is given, but an existing line keeps the stock snapshot taken when it was first added. A line can therefore exceed its own snapshot after a restock (`CartStore.AddCanExceedSnapshot`). The bound holds when every product comes from one consistent catalogue (`CartStore.RunKeepsInvariant`).
- Mounting the cart provider runs both effects. A restored cart survives a reload only while a user is stored (`CartStore.Mount`).

## Model

| member | source | states |
|---|---|---|
| Models.ProductToDict | backend/app/models.py:14-25 | every column is copied; one image URL per image, in relationship order, under the upload folder; the thumbnail is the first URL, or none exactly when there are no images |
| Models.UserToDict | backend/app/models.py:42-49 | the client record carries id, username, email, admin flag and phone number |
| Models.UserToDictHidesHash | backend/app/models.py:42-49 | two rows differing only in their password hash serialise identically, so the hash is never exposed |
| Models.NewUser | backend/app/models.py:33-40 | a new user is not an admin and has no phone number (the column defaults) |
| Gates.LoginRequired | backend/app/__init__.py:46-52 | the handler proceeds iff the session has a user id; otherwise 401 |
| Gates.AdminRequired | backend/app/__init__.py:54-61 | proceeds iff logged in and the admin flag is true; a guest gets 401, never 403; a logged-in non-admin gets 403 |
| Gates.DeniedHandlerIrrelevant | backend/app/__init__.py:46-61 | a denied request's response does not depend on the handler |
| AuthRoutes.Register | backend/app/auth/routes.py:10-26 | 400 iff there is no body or a falsy username, email or password; otherwise 409 iff some user has that username or email; otherwise 201 with exactly one new user appended; nothing changes on an error |
| AuthRoutes.Login | backend/app/auth/routes.py:28-43 | 400 iff a field is missing; 200 iff the first user in table order matching the identity by username or email passes the hash check; on 200 the session gets the id and admin flag of that first matching user and the reply carries its `to_dict`; otherwise 401 with the session unchanged |
| AuthRoutes.RegisteredUserCanLogIn | backend/app/auth/routes.py:10-43 | after a successful registration, logging in with the same password by the new username or e-mail gives 200 and a session the login gate lets through, provided no earlier user is identified by that name |
| AuthRoutes.UsernameShadowedByEmail | backend/app/auth/routes.py:18-43 | registration accepts a username equal to another user's e-mail; when the database returns matching rows in table order, a login by that name checks the older user's password and answers 401 |
| AuthRoutes.Logout | backend/app/auth/routes.py:45-48 | the whole session is cleared, so the login gate then denies with 401 |
| AuthRoutes.UpdateProfile | backend/app/auth/routes.py:57-79 | 404 for an unknown user; 409 iff the wanted username or email differs from one's own and is taken; 500 when username or email is absent (NOT NULL); 200 replaces exactly username, email and phone of that user |
| AuthRoutes.ProfileConflictIsAnotherUser | backend/app/auth/routes.py:68-71 | under unique columns, a 409 happens exactly when another user holds the wanted username or email, so keeping one's own values never conflicts |
| AuthRoutes.ChangePassword | backend/app/auth/routes.py:92-104 | the checks apply in order and the first failure decides: a missing field, a wrong current password, a new password equal to the current one, a confirmation mismatch; otherwise the new hash |
| AuthRoutes.ChangePasswordRoute | backend/app/auth/routes.py:81-107 | 404 iff the user is unknown; otherwise the status is the outcome's: 400 for missing fields, 403 for a wrong current password, 400 for a reused or mismatched password, 200 iff the change succeeds; only 200 changes that user's hash, to the hash of the new password, and no other row changes |
| AuthRoutes.SamePasswordRefused | backend/app/auth/routes.py:98-99 | re-submitting the current password as the new one is refused with 400 |
| AdminRoutes.AllowedFile | backend/app/admin/routes.py:12-14 | true iff the name contains a dot and the lower-cased text after the last dot is png, jpg, jpeg or gif |
| AdminRoutes.AllowedFileByExtension | backend/app/admin/routes.py:12-14 | for `base.ext` with a dot-free extension, the answer depends on the extension alone, case-insensitively |
| AdminRoutes.SaveProductImages | backend/app/admin/routes.py:16-29 | one image record per non-empty, allowed upload, in upload order, each pointing at the product |
| AdminRoutes.CreateProduct | backend/app/admin/routes.py:31-52 | 400 iff name, price or stock is absent; 500 iff price or stock does not parse; 201 adds exactly one product with description and brand defaulting to '' and the accepted images; nothing changes otherwise |
| AdminRoutes.CreatedProductServed | backend/app/admin/routes.py:31-52 | a created product's `to_dict` has the form's name and parsed numbers, one image URL per accepted upload in upload order, and a thumbnail iff some upload was accepted |
| AdminRoutes.UpdateProduct | backend/app/admin/routes.py:54-70 | 404 iff the product is unknown; 500 iff a present price or stock does not parse; 200 replaces each field only if it is in the form, keeps the others and appends the accepted images; no other product changes |
| AdminRoutes.EmptyUpdateKeepsProduct | backend/app/admin/routes.py:59-63 | an empty form with no uploads leaves the catalogue unchanged |
| OrderService.CreateAddress | backend/app/services/order_service.py:6-19 | fails iff one of fullName, streetAddress, city, postalCode or country is missing; apartmentSuite and phoneNumber are optional |
| OrderService.CreateAddressShippingInfo | backend/app/orders/routes.py:99-108 | the `shippingInfo` object listed for a stored address, posted back to `create_address`, creates exactly the same address |
| OrderService.UpdateUserPhone | backend/app/services/order_service.py:54-61 | a falsy phone, an unknown user or a user who already has a phone leaves all users unchanged; otherwise only that user's phone is set |
| OrderService.UpdateUserPhoneIdempotent | backend/app/services/order_service.py:54-61 | once a phone is set, later calls never overwrite it |
| OrderService.ProcessLineItems | backend/app/services/order_service.py:28-52 | on success there is one order product per item, in order, with its quantity and unit amount; each product's stock drops by the total quantity of its items and stays non-negative; the key set is unchanged |
| OrderService.ProcessFailsAtFirstBadItem | backend/app/services/order_service.py:31-43 | succeeds iff every item passes its check (metadata, existence, stock already reduced by earlier items); otherwise fails at the first failing item with its reason |
| OrderService.SufficientUpFront | backend/app/services/order_service.py:41-52 | when every product's stock covers the total quantity ordered for it, processing succeeds |
| OrderRoutes.BuildLineItems | backend/app/orders/routes.py:20-42 | succeeds iff every cart item passes its check; otherwise the first failing item's status answers; each line item uses the stored name and price, never a client price, and the item's quantity |
| OrderRoutes.CreateCheckoutSession | backend/app/orders/routes.py:11-57 | a missing or empty cart gives 400; a rejected cart gives the first failing item's status (404 for an unknown id, else 400) and no URL; 200 iff a session URL was created from the built line items; 500 iff Stripe fails after validation |
| OrderRoutes.VerifyOrder | backend/app/orders/routes.py:59-89 | 400 iff session id, user or address is missing, or the line items raise; 402 iff the payment is not "paid"; 500 when Stripe cannot be reached or the address lacks a required key; 200 iff the paid session's address and line items both succeed, then adding exactly one order with the phone update; every other status leaves the database unchanged |
| OrderRoutes.VerifyLineItemFailureIs400 | backend/app/orders/routes.py:78-85 | a line-item ValueError answers 400 and rolls back the address and phone writes |
| OrderRoutes.VerifyRecordsPaidOrder | backend/app/orders/routes.py:70-81 | a paid session whose products exist with stock for the whole batch gives 200 and appends exactly one order for that user, with one order product per Stripe line item |
| AuthStore.Restore | frontend/src/context/AuthContext.jsx:14-24 | the initial user is the stored one, or none when storage is missing or unparseable |
| AuthStore.Sync | frontend/src/context/AuthContext.jsx:27-35 | a user is written to storage; no user removes the key |
| AuthStore.Mount | frontend/src/context/AuthContext.jsx:14-35 | after mounting, storage mirrors the restored user |
| AuthStore.Login | frontend/src/context/AuthContext.jsx:38-40 | the user becomes exactly the given data, and storage follows |
| AuthStore.Logout | frontend/src/context/AuthContext.jsx:43-66 | whatever the server does (ok, non-ok, throws), the user ends as none, storage is cleared, the promise fulfils, and an error is logged iff the call was not ok |
| AuthStore.ReloadRestoresUser | frontend/src/context/AuthContext.jsx:14-35 | reloading an in-sync store restores exactly the same state |
| AuthStore.LogoutSurvivesReload | frontend/src/context/AuthContext.jsx:43-66 | after any logout a reload comes back logged out |
| CartStore.Find | frontend/src/context/CartContext.jsx:43-44 | the first line with the id, and none iff no line has it |
| CartStore.AddToCart | frontend/src/context/CartContext.jsx:36-61 | an absent or nameless product, or one whose in-cart quantity has reached its stock, changes nothing; otherwise the matching line gains exactly one unit and keeps its snapshot, or a new line of one unit is appended; all other lines are unchanged |
| CartStore.RemoveFromCart | frontend/src/context/CartContext.jsx:63-66 | no line with the id remains, every other line remains, nothing new appears, and an absent id is a no-op |
| CartStore.UpdateQuantity | frontend/src/context/CartContext.jsx:68-86 | absent id: no-op; above the line's stock snapshot: no-op; otherwise below one: exactly removal; otherwise the line gets exactly that quantity and the others are untouched |
| CartStore.Restore | frontend/src/context/CartContext.jsx:14-22 | the initial cart is the stored one, or empty when storage is missing or unparseable |
| CartStore.Mount | frontend/src/context/CartContext.jsx:14-32 | after both effects run at mount, the cart is persisted and is the restored cart if a user is present, and empty otherwise |
| CartStore.Step | frontend/src/context/CartContext.jsx:24-91 | every action is followed by persisting; clearing and the user becoming absent empty the cart; a present user leaves it |
| CartStore.RunPersists | frontend/src/context/CartContext.jsx:24-26 | after any sequence of actions, storage holds exactly the shown cart, so a reload restores it |
| CartStore.AddWithoutStockRejected | frontend/src/context/CartContext.jsx:43-49 | a product with stock zero or less is never added |
| CartStore.AddKeepsUniqueIds | frontend/src/context/CartContext.jsx:43-57 | adding never creates a second line for an id |
| CartStore.AddStaysWithinPassedStock | frontend/src/context/CartContext.jsx:43-57 | after a successful add, the product's line holds between one unit and the stock passed in |
| CartStore.AddCanExceedSnapshot | frontend/src/context/CartContext.jsx:46-54 | a concrete restock where the line ends with three units against a snapshot of two |
| CartStore.StepKeepsInvariant | frontend/src/context/CartContext.jsx:36-91 | each action keeps ids unique, quantities between one and the snapshot, and snapshots equal to the catalogue, provided added products come from that catalogue |
| CartStore.RunKeepsInvariant | frontend/src/context/CartContext.jsx:36-91 | the same invariant over any sequence of actions |
| CartStore.RemoveKeepsUniqueIds | frontend/src/context/CartContext.jsx:63-66 | removal keeps ids unique |
| CartStore.AddThenRemoveRestores | frontend/src/context/CartContext.jsx:51-66 | adding a product not in the cart and then removing it restores the cart |
| CartStore.UpdateToZeroIsRemove | frontend/src/context/CartContext.jsx:72-79 | with non-negative snapshots, setting quantity zero is exactly removal |
| CartStore.RemoveKeepsOrder | frontend/src/context/CartContext.jsx:63-66 | removal keeps the remaining lines in their relative order |
| CartStore.LogoutEmptiesCart | frontend/src/context/CartContext.jsx:28-32 | after any logout the user effect empties the cart, also after a reload |
| OrderSuccess.CatchMessage | frontend/src/pages/OrderSuccessPage.jsx:41-43 | the server's message when truthy, else the error's message when non-empty, else exactly the fixed fallback; never empty |
| OrderSuccess.VerifySession | frontend/src/pages/OrderSuccessPage.jsx:24-48 | loading ends; the verify call is made iff a session id and a parsed address exist; the stash is removed iff there is a session id; the cart is cleared iff the server verified, which is exactly when no error is set; the fixed messages for a missing id and a missing address; a parse error or a refusal shows the catch message built from it |
| OrderSuccess.Render | frontend/src/pages/OrderSuccessPage.jsx:59-85 | loading shows the waiting view; otherwise an error shows the error view; otherwise the thank-you note |
| OrderSuccess.ThankYouOnlyAfterVerified | frontend/src/pages/OrderSuccessPage.jsx:38-85 | the thank-you note appears iff the cart was cleared, which needs a session id and a stashed address |
| OrderSuccess.Fire | frontend/src/pages/OrderSuccessPage.jsx:19-56 | a run never changes the ref; with the ref unset it starts verification and arms the cleanup; with it set it does nothing; a cleanup sets the ref iff armed |
| OrderSuccess.VerificationStartsAtMostOnce | frontend/src/pages/OrderSuccessPage.jsx:19-56 | over any alternating run/cleanup sequence, verification starts at most once |
| OrderSuccess.StrictModeStartsOnce | frontend/src/pages/OrderSuccessPage.jsx:18-56 | strict mode's run, cleanup, run starts it exactly once |
| Checkout.InitialAddress | frontend/src/pages/CheckoutPage.jsx:44-52 | full name is the username or ''; phone is the user's phone or ''; every other field is '' |
| Checkout.ExtractAddressComponent | frontend/src/pages/CheckoutPage.jsx:24-28 | the first component carrying the type gives its long name, or its short name when asked; '' when none carries it |
| Checkout.ExtractScansInOrder | frontend/src/pages/CheckoutPage.jsx:24-28 | components are read front to back: a leading component of the type answers, any other is skipped |
| Checkout.StreetLine | frontend/src/pages/CheckoutPage.jsx:77-83 | the non-empty parts of number and route joined by one space; the place name when both are empty |
| Checkout.AddressSelect | frontend/src/pages/CheckoutPage.jsx:70-93 | a failed lookup changes nothing; otherwise only street, city, postal code and country change, from the extracted components |
| Checkout.GetCountryCode | frontend/src/pages/CheckoutPage.jsx:30-38 | no code for an empty name; otherwise exactly what the lookup returns |
| Checkout.FormatFieldName | frontend/src/pages/CheckoutPage.jsx:112 | the label contains no capital letter and is at least as long as the key |
| Checkout.CamelizeFormat | frontend/src/pages/CheckoutPage.jsx:112 | a key without spaces is recovered from its label, so distinct keys get distinct labels |
| Checkout.PostalCodeLabel | frontend/src/pages/CheckoutPage.jsx:112 | `postalCode` is labelled `postal code` |
| Checkout.HandleCheckout | frontend/src/pages/CheckoutPage.jsx:96-123 | an invalid non-empty phone blocks first; otherwise the first empty field among the six required ones (all but apartmentSuite, in declaration order) is named; the request `{cartItems, shippingAddress}` is sent iff both checks pass |
| Checkout.ApartmentOptional | frontend/src/pages/CheckoutPage.jsx:106-108 | emptying apartmentSuite never blocks a submission that would go through |
| Checkout.AfterResponse | frontend/src/pages/CheckoutPage.jsx:118-130 | a success navigates to the returned URL; a failure shows the server message or the fixed fallback |
| Checkout.ClientCartAccepted | frontend/src/pages/CheckoutPage.jsx:120-123 | the server builds line items for a sent cart iff every line's product exists with enough stock; a rejection is 400 or 404, never the malformed-item case |
| Catalogue.Brands | frontend/src/pages/HomePage.jsx:46-50 | 'All' first, then every product brand exactly once and nothing else |
| Catalogue.BrandsInFirstOccurrenceOrder | frontend/src/pages/HomePage.jsx:46-50 | the brands after 'All' appear in the order of their first occurrence |
| Catalogue.FilterProducts | frontend/src/pages/HomePage.jsx:53-59 | a product is shown iff its lower-cased name contains the lower-cased term and the selection is 'All' or its brand |
| Catalogue.FilteredKeepsOrder | frontend/src/pages/HomePage.jsx:53-59 | the shown products are an order-preserving subsequence of the catalogue |
| Catalogue.NoFilterShowsAll | frontend/src/pages/HomePage.jsx:56-57 | an empty term with 'All' shows every product |
| Catalogue.SearchIgnoresCase | frontend/src/pages/HomePage.jsx:56 | terms equal up to letter case select the same products |
| Catalogue.LowerCaseTermEquivalent | frontend/src/pages/HomePage.jsx:56 | lower-casing the term changes nothing |
| Catalogue.NoResultsMeansNothingMatches | frontend/src/pages/HomePage.jsx:109 | the no-results note shows iff a term was typed and no product matches |
| ProductDetail.ClampQuantity | frontend/src/pages/ProductDetailPage.jsx:67-72 | never above stock; at least one when stock is at least one; a value already in range is kept; non-numeric, zero or negative input becomes one; too large becomes stock |
| ProductDetail.ClampIdempotent | frontend/src/pages/ProductDetailPage.jsx:69-71 | clamping a clamped value changes nothing |
| ProductDetail.HandleAddToCart | frontend/src/pages/ProductDetailPage.jsx:60-64 | nothing happens without a loaded product; otherwise it is the cart's add |
| ProductDetail.ChosenQuantityIgnored | frontend/src/pages/ProductDetailPage.jsx:60-64 | whatever quantity is chosen, a new product enters the cart with one unit |
| RouteGuard.Decide | frontend/src/components/auth/ProtectedRoute.jsx:7-28 | home iff admin-only and not an admin user; login iff a guest on a member route; render iff an admin on an admin route or any user on a member route |
| RouteGuard.AdminRouteNeverAsksLogin | frontend/src/components/auth/ProtectedRoute.jsx:11-22 | an admin-only route never redirects to the login page |
| RouteGuard.GuardAgreesWithServer | frontend/src/components/auth/ProtectedRoute.jsx:11-27 | for a freshly logged-in user the client guard renders exactly when the server's admin or login gate proceeds |
| ApiClient.FirstValue | frontend/src/api/axiosInstance.js:19-26 | a value iff some entry starts with `name=`; it is the decoded remainder of the first such entry |
| ApiClient.GetCookie | frontend/src/api/axiosInstance.js:16-29 | none for an empty cookie string; otherwise the decoded remainder of the first trimmed `;`-separated entry starting with `name=` |
| ApiClient.SingleEntry | frontend/src/api/axiosInstance.js:19-22 | a one-entry cookie string yields a value iff its entry names the cookie |
| ApiClient.LongerNameNotMatched | frontend/src/api/axiosInstance.js:22 | `csrf_token2=abc` is not read as `csrf_token` |
| ApiClient.Intercept | frontend/src/api/axiosInstance.js:31-37 | only the headers may change; get, head and options pass unchanged; other methods gain `X-CSRF-Token` exactly when the cookie holds a non-empty token |
| ApiClient.HeaderOnlyOnUnsafeRequests | frontend/src/api/axiosInstance.js:31-35 | the header is present iff the method is unsafe and a token exists; with no cookie nothing changes |

## Left out

- Money: prices, Stripe unit amounts (`int(price*100)`), `/100.0` conversions, order totals and `toFixed` formatting are floating point. Prices are opaque integers here, and the order row has no total.
- Persistence mechanics: JSON serialisation, local and session storage, cookies and the ORM become plain state fields. A rollback is "state unchanged". A stored JSON `null` cart, which would make the cart `null`, is not modelled.
- Identifiers and files: database ids, uuid naming, `secure_filename`, saving and deleting files, and `makedirs`. The id and the stored file name are parameters.
- AdminRoutes.CreateProduct: requires a fresh id, the guarantee the database's key assignment gives the handler.
- AuthRoutes.Login: the login query's `.first()` has no ORDER BY, so which matching row the database returns is unspecified. The model checks the matching rows in table (id) order. When one row matches by e-mail and another by username, a database that returns them in another order would check the other row's password (see `AuthRoutes.UsernameShadowedByEmail`).
- Request bodies: bodies are string-to-string maps. A field of the wrong JSON type is modelled as missing. The exception is a cart item whose `id` is JSON `null`: the source looks it up, finds nothing and answers 404, while the model has no null id and so does not cover that case. A request with no JSON body makes `data.get` fail before any check, a 500, in the profile update (PUT), the password change (POST), `create_checkout_session` and `verify_order`; this is not modelled.
- Product stock default: the `stock` column defaults to 0, but the only creating route answers 400 without a `stock` field, so the default is never reached and is not modelled.
- Guarded routes: `Gates.Guarded` only combines a gate with a handler's reply. The handlers take the session's user id as a parameter instead of running behind it, so a denied request is stated by `Gates.DeniedHandlerIrrelevant` rather than per route.
- ApiClient.GetCookie: `decodeURIComponent` is treated as total. A malformed escape, which would make the interceptor throw, is not modelled.
- Checkout.GetCountryCode: a lookup that throws and a lookup that returns `undefined` are both "no code".
- Checkout: `handleInputChange` and `handlePhoneChange` only store a value under a key and are not modelled as operations. A phone cleared to `undefined` is modelled as ''.
- Checkout and OrderSuccess: the loading flag is modelled only in its settled state, not while the request is pending. Toasts, console output, rendering details and navigation are out of scope.
- Foreign services: Stripe, Google Places (including a missing `window.google` and an empty place id, both "no place"), bcrypt, the phone validator and the country converter are parameters.
- The logout `fetch` sends no credentials. Whether the server session is cleared by it is a property of the browser, so the client and server logouts are modelled separately.
- CartStore.Step: the user effect fires on every `UserIs` action rather than only when the user object changes identity. Both give the same cart, since a present user changes nothing and clearing twice is clearing once.
- Other routes: read-only routes (`get_user_profile`, and `get_my_orders` beyond its `shippingInfo` object), `delete_product` and the remaining admin listings, plus the `admin_test` route, which references an unimported `session`.
- backend/src/app.py is an older monolith that the running app does not use, and is not part of this model. The same goes for configuration, wiring and the presentational pages.
- Concurrency: database races and React's scheduling. Strict mode's double effect appears only as the explicit run, cleanup, run sequence.
