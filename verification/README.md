# SalesFlow order placement and access rules, in Dafny

SalesFlow is a small sales-ordering web application. Salesmen browse a product
catalogue in which every product holds stock for two colours, dark and light.
They collect products in a client-side cart and place an order for a customer
(a "store"). The server clamps every cart line to the stock that is left,
takes that stock and records one order. Admins maintain the catalogue and the
salesman accounts. A route guard keeps non-admins out of the admin pages. It
also has a rule meant to keep managers inside the order pages, but that rule
never fires, because the token it reads never carries the manager flag (see
"## Findings").

This project models the rules of that application as Dafny and proves what
they promise:

- `Common`: the JavaScript string and array primitives the code relies on.
  These are `includes`, `startsWith`, ASCII `toLowerCase`, `filter`, `find`,
  `parseInt(s, 10)` and integer `toString`.
- `Tables`: the persisted entities (Product, Store, Order, User) and their
  schema invariants. It also holds the `Db` class, an in-memory table per
  collection, which the route methods update.
- `StoreRoute`: order placement (`POST /api/store`).
  - The customer is upserted by email.
  - Each cart line is clamped to its colour's stock, that stock is taken, and the line is staged.
  - One order is recorded if anything was staged.
- `CartSlice` and `CartView`:
  - `CartSlice` is the Redux cart reducer; `CartSlice.CartStore` is the store object that `addToCart` mutates in place.
  - `CartView` holds the cart sheet's +/- and delete handlers.
- `Middleware`: the route guard and the token its role flags come from.
- `OrdersRoute`: the role-scoped, newest-first order listing.
- `ProductsRoute`: product lookup, and product update/create with its status codes.
- `SalesmenRoute` and `SetupRoute`: salesman creation and seeding of the first admin.
- `AddProductPage`: the product form's quantity inputs, its submit check, and
  the form it posts.
- `OrderSearch`, `ProductSearch` and `UserSearch`: the case-insensitive search
  boxes of the orders page, the product list and the admin dashboard.

## Model

| member | source | states |
|---|---|---|
| StoreRoute.PlaceOrder | app/api/store/route.ts:37-118 | Five outcomes, and the database invariants hold afterwards. (1) No session: 401 and nothing changes. (2) Any empty customer field: 400 and nothing changes. (3) Otherwise the customer is upserted and the product table becomes the result of processing the whole cart. (4) If some line's product lookup threw (a malformed id, or no such product): 500 with that fault, and no order is recorded. The stock the other lines took stays taken. (5) Otherwise: 201 with the staged count, and exactly one order is appended iff something was staged. That order carries the upserted customer, the caller, the creation time and the staged lines. |
| StoreRoute.TakeStock | app/api/store/route.ts:67-92 | The loop over the cart leaves the product table, the staged lines and the fault exactly as `Fulfil` of the original table prescribes. |
| StoreRoute.Upsert | app/api/store/route.ts:56-60 | The returned customer has the submitted name/address/number/email and the caller as salesman. An existing customer with that email is overwritten in place; otherwise one is appended. No other customer changes. Distinct emails stay distinct. |
| StoreRoute.Fulfilled | app/api/store/route.ts:75-78 | A line's fulfilled quantity is the smaller of the request and the stock. |
| StoreRoute.FulfilOnlyTakesStock | app/api/store/route.ts:80-83 | Processing a cart keeps the same product ids. Names, numbers, prices and images are unchanged. Stock never rises, and non-negative stock stays non-negative. Distinct product numbers stay distinct. |
| StoreRoute.FulfilStagesValidLines | app/api/store/route.ts:71-87 | Every staged line names a product the lookup finds (a well-formed, stored id), has a real colour and has quantity at least 1 (the order schema's minimum). |
| StoreRoute.FulfilFault | app/api/store/route.ts:71-73 | The request fails iff some cart line's lookup throws. The reported fault belongs to such a line: either its id does not cast to an object id, or the id is well formed and no product has it. |
| StoreRoute.FulfilStagesPlan | app/api/store/route.ts:67-92 | Assume no (product, colour) key repeats. Then the staged lines are exactly the found lines whose quantity, clamped against the original stock, is positive, in cart order. This holds even when other lines threw. |
| StoreRoute.FulfilTakesPerLine | app/api/store/route.ts:71-83 | Under the same condition, the key of each found line loses exactly the positive part of that line's clamped quantity, whether or not another line threw. |
| StoreRoute.FulfilKeepsUnnamedKey | app/api/store/route.ts:67-92 | A (product, colour) key keeps its stock when no cart line names it, or when its id does not cast. |
| StoreRoute.FulfilMatchesPlan | app/api/store/route.ts:67-92 | Gathers the placement properties. There is a fault iff some lookup throws. The planned lines are staged. Each found line's key is reduced by its line's take, and every other key is untouched. |
| StoreRoute.ClampExample | app/api/store/route.ts:75-87 | Stock is dark 5 / light 0, and the cart asks for dark 8 and light 3. One line, dark 5, is staged, and no stock is left. |
| StoreRoute.MissingLineExample | app/api/store/route.ts:67-92 | Stock is dark 5 of `p1`, and the cart asks for 1 of an unknown product `x`, then 2 dark of `p1`. The fault is "`x` not found", and `p1` is left with dark 3. |
| StoreRoute.AppendKeepsOrdersWellFormed | models/Order.ts:20-24 | Appending an order whose store exists and whose lines have quantity at least 1 keeps the order table well formed. |
| Tables.WithStock | models/Product.ts:14-27 | Setting one colour's stock leaves the other colour and every other field unchanged. |
| CartSlice.CartStore.AddToCart | store/Cart.ts:30-41 | The in-place find-then-increment-or-push leaves exactly the cart `Added` describes, and keys stay unique. |
| CartSlice.CartStore.Dispatch | store/Cart.ts:43-61 | Dispatching `update` or `remove` replaces the cart with the reducer's result, and keys stay unique. |
| CartSlice.CartStore.ClearCart | store/Cart.ts:62-65 | The cart becomes empty. |
| CartSlice.CartStore.constructor | store/Cart.ts:24 | The cart starts empty (storage persistence aside), with unique keys. |
| CartSlice.AddMergesExisting | store/Cart.ts:31-34 | Adding an item whose (id, colour) is present keeps the length. That item's quantity grows by the payload's, and every other item is untouched. |
| CartSlice.AddAppendsNew | store/Cart.ts:35-38 | Adding an item whose key is absent appends it. |
| CartSlice.AddKeepsKeysUnique | store/Cart.ts:30-41 | `addToCart` keeps (id, colour) keys unique. |
| CartSlice.Updated | store/Cart.ts:43-52 | `update` keeps the length of the cart. |
| CartSlice.UpdateOnlyChangesQuantities | store/Cart.ts:44-48 | `update` changes only `quantities`, and only on the items with the payload's key. |
| CartSlice.UpdateMissingKeyIsIdentity | store/Cart.ts:44-48 | `update` with an absent key changes nothing. |
| CartSlice.UpdateKeepsKeysUnique | store/Cart.ts:43-52 | `update` keeps keys unique. |
| CartSlice.RemoveDropsKey | store/Cart.ts:54-61 | `remove` keeps the other items in order, each as many times as it occurred, and drops every item with the key. |
| CartSlice.RemoveIdempotent | store/Cart.ts:54-61 | Removing a key twice equals removing it once. |
| CartSlice.RemoveKeepsKeysUnique | store/Cart.ts:54-61 | `remove` keeps keys unique. |
| CartView.BelowOneDispatchesNothing | components/cart/Cart.tsx:21-23 | A target quantity below 1 dispatches nothing and leaves the cart as it is. |
| CartView.DispatchesFirstRowWithId | components/cart/Cart.tsx:24-28 | Otherwise the dispatched item is the first row with that `_id`, unchanged but for its quantity. |
| CartView.DeleteRemovesRow | components/cart/Cart.tsx:32-34 | Deleting a row of a cart with unique keys removes exactly that row and keeps the rest in order. |
| CartView.RemovedCount | store/Cart.ts:54-61 | With unique keys, removing a present key drops exactly one item. |
| CartView.ClicksKeepQuantitiesPositive | components/cart/Cart.tsx:21-29 | From quantities of at least 1, the +/- buttons never produce a quantity below 1. |
| CartView.SecondColourRowEditsFirstRow | components/cart/Cart.tsx:24 | As written: with a dark row (1) and a light row (5) of one product, + on the light row sets the dark row to 6 and leaves the light row unchanged. |
| CartView.ClickRowChangesOnlyThatRow | components/cart/Cart.tsx:21-29 | Corrected (lookup by id and colour): a click changes exactly the clicked row's quantity by one step, never below 1, and nothing else. |
| Middleware.NoTokenSignsIn | middleware.ts:22 | A request without a token to a guarded path is sent to sign in. |
| Middleware.NonAdminKeptOutOfAdmin | middleware.ts:11-13 | A non-admin on a path starting with `/admin` is redirected to `/`, managers included. |
| Middleware.ManagerKeptInOrders | middleware.ts:14-16 | A manager outside `/orders` is redirected to `/orders`, unless the admin rule fired first. |
| Middleware.PassesIffNoRuleApplies | middleware.ts:11-18 | A request passes iff it is not (a non-admin on `/admin…`) and not (a manager outside `/orders…`). |
| Middleware.ExactOrdersTestRedundant | middleware.ts:14 | The `pathname !== "/orders"` test changes no decision. |
| Middleware.RedirectsSettle | middleware.ts:5-32 | Redirect targets are guarded paths, and after at most two redirects every signed-in user passes. |
| Middleware.ManagerRuleNeverFires | middleware.ts:8-16 | As written: the `jwt` callback (lines 45-51 of the sign-in route, app/api/auth/[...nextauth]/route.ts) copies `isAdmin` into the token but not `isManager`. So the flag read here is always false, and no user is ever redirected to `/orders`. |
| Middleware.ManagerReachesProducts | middleware.ts:14-16 | As written: a manager asking for `/products` is let through. |
| Middleware.ManagerRuleFiresWithRoles | middleware.ts:14-16 | Corrected (the token carries `isManager`): a manager outside `/orders` is redirected there. |
| OrdersRoute.Insert | app/api/orders/route.ts:27 | Inserting into a newest-first list keeps it newest first and adds exactly that order. |
| OrdersRoute.SortNewestFirst | app/api/orders/route.ts:27 | The result is newest first and a permutation of the input. |
| OrdersRoute.NoSessionNoOrders | app/api/orders/route.ts:10-12 | No session: 401. |
| OrdersRoute.AdminSeesAll | app/api/orders/route.ts:17-27 | An admin receives every order, each as often as stored, newest first. |
| OrdersRoute.OthersSeeOwn | app/api/orders/route.ts:28-38 | Anyone else, managers included, receives exactly the orders they created, newest first. |
| OrdersRoute.ErrorsCarryMessage | app/api/orders/route.ts:42-47 | A failure answers 500 with the error's message, or "Internal Server Error" when it has none. |
| ProductsRoute.GetNeedsSession | app/api/products/route.ts:18-20 | `GET` without a session answers 401. |
| ProductsRoute.GetById | app/api/products/route.ts:24-28 | A single product is answered iff a well-formed id names a stored product, and it is that product. A malformed id gives 400; an unknown one gives 404. |
| ProductsRoute.GetWithoutIdListsAll | app/api/products/route.ts:29 | Without an id the whole table is answered. |
| ProductsRoute.ErrorStatuses | app/api/products/route.ts:156-170 | A failure answers 409 iff its code is 11000, and 500 otherwise. |
| ProductsRoute.Save | app/api/products/route.ts:114 | Saving validates first and stores only an acceptable product, under its id. An unacceptable one gives 500. A product number held by another product gives 409. Non-negative stock and distinct product numbers are preserved. |
| ProductsRoute.MergeKeepsUnlessSubmitted | app/api/products/route.ts:97-107 | On update, each of name/number/price/dark/light keeps the stored value when nothing was submitted for it, and takes the (parsed) submission otherwise. |
| ProductsRoute.ImageReplacedOnlyByUpload | app/api/products/route.ts:109-112 | The image changes only when a file was sent and uploaded. |
| ProductsRoute.EmptyUpdateChangesNothing | app/api/products/route.ts:85-122 | An update that submits nothing leaves a valid table unchanged and answers with the stored product. |
| ProductsRoute.ResubmittedNumbersKept | app/api/products/route.ts:99-107 | Re-submitting the stored numbers as decimal text keeps them. In the code this holds only between -2^53 and 2^53 (see the number-width line under "## Left out"). |
| ProductsRoute.Post | app/api/products/route.ts:67-171 | Each outcome with its effect on the table. Non-admin: 401, nothing changes. Update: a malformed id gives 500 and an unknown id 404, both with nothing changed; a failed upload is mapped by its code with nothing changed; otherwise the merged product is saved. Create: a missing field or image gives 400 with nothing changed; a failed upload is mapped by its code; otherwise the new product is saved. The table's invariants hold afterwards. |
| SalesmenRoute.NewSalesman | app/api/admin/salesmen/route.ts:30-36 | The created user has the submitted name, email and number, and neither `isAdmin` nor `isManager`. |
| SalesmenRoute.AppendAbsentKeepsEmailsDistinct | models/User.ts:10-14 | Appending a user whose email is not found keeps emails distinct, and the lookup then finds that user. |
| SalesmenRoute.CreateSalesman | app/api/admin/salesmen/route.ts:7-46 | Non-admin: 401 and nothing changes. Existing email: 400 and nothing changes. A required field empty: 500 and nothing changes. Otherwise exactly one role-less user is appended. One user is added iff the reply is success, and emails stay distinct. |
| SetupRoute.SeedAdmin | app/api/setup/route.ts:19-25 | The seeded user has the admin email and `isAdmin`. |
| SetupRoute.SeededHasAdmin | app/api/setup/route.ts:12-25 | After seeding, the admin email is present. If it was present, the table is unchanged; otherwise exactly the admin was appended. |
| SetupRoute.SeedIdempotent | app/api/setup/route.ts:12-27 | Seeding twice equals seeding once. |
| SetupRoute.SeedKeepsEmailsDistinct | models/User.ts:10-14 | Seeding keeps emails distinct. |
| SetupRoute.Setup | app/api/setup/route.ts:5-27 | Anyone may call it. It leaves the seeded table, keeps the invariants, and answers "already exists" iff the admin email was present. |
| AddProductPage.SubmitRefusedIffNoStock | app/product/add/page.tsx:109-113 | Submit is refused with "At least one color quantity is required." iff neither quantity is positive. One positive quantity is enough, even if the other is negative. |
| AddProductPage.BlankFormRefused | app/product/add/page.tsx:21-28 | The blank form cannot be submitted. |
| AddProductPage.QuantityInputReads | app/product/add/page.tsx:87 | Unparsable input is stored as 0, and a number's decimal text is stored as that number. In the code this holds only between -2^53 and 2^53 (see the number-width line under "## Left out"). |
| AddProductPage.UpdatersTouchOneColour | app/product/add/page.tsx:84-99 | Editing one colour leaves the other colour and every other field unchanged. |
| AddProductPage.SentQuantitiesParseBack | app/product/add/page.tsx:120-121 | The quantities the page sends parse back on the server to the form's numbers. In the code this holds only between -2^53 and 2^53 (see the number-width line under "## Left out"). |
| AddProductPage.SubmitNewAsWritten | app/product/add/page.tsx:119 | As written: a submitted create request from an admin answers 500 and stores nothing. |
| AddProductPage.FixedCreateSaves | app/product/add/page.tsx:115-122 | Corrected (empty id): a complete create request goes to the create branch and stores exactly the product in the form. |
| OrderSearch.FilteredOrdersKeepOrder | app/orders/page.tsx:65 | The shown orders are a subsequence of the fetched ones. |
| OrderSearch.ShownIffMatches | app/orders/page.tsx:65-81 | An order is shown iff it was fetched and matches. |
| OrderSearch.MatchesIffContains | app/orders/page.tsx:66-79 | An order matches iff the lower-cased term occurs in a lower-cased salesman/store field, or in some product's lower-cased name or number, or in its price text. |
| OrderSearch.EmptyTermShowsAll | app/orders/page.tsx:65-81 | An empty term shows every order. |
| OrderSearch.FilterTwiceIsOnce | app/orders/page.tsx:65 | Searching twice with a term equals searching once. |
| OrderSearch.PriceTextIsLowerCase | app/orders/page.tsx:78 | Leaving the price text un-lower-cased loses nothing. |
| ProductSearch.ListedKeepOrder | components/products/product-list.tsx:48 | The listed products are a subsequence of the fetched ones. |
| ProductSearch.ListedIffOccurs | components/products/product-list.tsx:48-51 | A product is listed iff the lower-cased search occurs in its lower-cased name or number. |
| ProductSearch.SearchIgnoresCase | components/products/product-list.tsx:49-50 | Searching with the lower-cased text gives the same list. |
| ProductSearch.EmptySearchListsAll | components/products/product-list.tsx:48-51 | An empty search lists every product. |
| ProductSearch.FilterTwiceIsOnce | components/products/product-list.tsx:48-51 | Filtering is idempotent. |
| UserSearch.ListedIffOccurs | app/admin/page.tsx:31-36 | A user is listed iff the lower-cased query occurs in their lower-cased name or email. |
| UserSearch.ListedKeepOrder | app/admin/page.tsx:32 | The listed users keep the fetched order. |
| UserSearch.EmptyQueryListsAll | app/admin/page.tsx:30-37 | An empty query lists every user. |
| UserSearch.TypingFiltersFetched | app/admin/page.tsx:28-37 | A keystroke keeps the fetched users and lists a subsequence of them; with the box cleared it lists them all. |
| UserSearch.FetchWithEmptyQueryShowsAll | app/admin/page.tsx:18-37 | While the query is empty, the fetch handler's "all users" list is already the filtered list. The effect's rerun then changes nothing. |
| Common.IncludesMeansOccurs | app/orders/page.tsx:67 | `includes` holds iff the term occurs at some position. |
| Common.ParseIntOfToString | app/api/products/route.ts:102-105 | `parseInt(n.toString(), 10)` gives back `n` for every integer of the model. JavaScript agrees only while `n` is exact and printed without an exponent (see the number-width line under "## Left out"). |
| Common.ParseInt | app/api/products/route.ts:102-105 | Body models `parseInt(s, 10)`: skip leading whitespace, take an optional sign and the longest digit prefix, none when there is no digit. Properties in `Common.ParseIntOfToString` and `AddProductPage.QuantityInputReads`. |
| Common.IntToString | app/product/add/page.tsx:120-121 | Body models a number's decimal text, as the form data sends it. Properties in `Common.ParseIntOfToString`. |
| Common.Includes | app/orders/page.tsx:67 | Body models `String.prototype.includes`, a left-to-right search. Properties in `Common.IncludesMeansOccurs`. |
| Middleware.Decide | middleware.ts:5-18 | Body models the `middleware` function: the admin rule, then the manager rule, else pass. Properties in `Middleware.PassesIffNoRuleApplies`, `NonAdminKeptOutOfAdmin` and `ManagerKeptInOrders`. |
| Middleware.Guard | middleware.ts:4-33 | Body models the guard as a whole: the matcher, then the `authorized` callback, then `middleware`. Properties in `Middleware.NoTokenSignsIn` and `RedirectsSettle`. |
| OrdersRoute.ListOrders | app/api/orders/route.ts:7-47 | Body models the listing handler: 401, then the role-scoped, newest-first query, or 500 with the error's message. Properties in `OrdersRoute.NoSessionNoOrders`, `AdminSeesAll`, `OthersSeeOwn` and `ErrorsCarryMessage`. |
| ProductsRoute.Get | app/api/products/route.ts:13-31 | Body models `GET /api/products`: 401, 400 for a malformed id, 404 for an unknown one, the product, or the whole table. Properties in `ProductsRoute.GetNeedsSession`, `GetById` and `GetWithoutIdListsAll`. |
| ProductsRoute.Merged | app/api/products/route.ts:97-112 | Body models the update's field merge. Properties in `ProductsRoute.MergeKeepsUnlessSubmitted`, `ImageReplacedOnlyByUpload` and `ResubmittedNumbersKept`. |
| ProductsRoute.Fresh | app/api/products/route.ts:132-143 | Body models the product data of a create, with each number parsed. Properties in `ProductsRoute.Post` and `AddProductPage.FixedCreateSaves`. |
| ProductsRoute.ErrorReply | app/api/products/route.ts:156-170 | Body models the catch block's mapping of an error code to a reply. Properties in `ProductsRoute.ErrorStatuses`. |
| CartSlice.Added | store/Cart.ts:30-41 | Body models the `addToCart` reducer on values. Properties in `CartSlice.AddMergesExisting`, `AddAppendsNew` and `AddKeepsKeysUnique`. |
| CartSlice.Removed | store/Cart.ts:54-61 | Body models the `remove` reducer, a filter on the key. Properties in `CartSlice.RemoveDropsKey`, `RemoveIdempotent` and `RemoveKeepsKeysUnique`. |
| CartView.QuantityChange | components/cart/Cart.tsx:20-29 | Body models `handleQuantityChange`: nothing below 1, otherwise `update` of the first row with that `_id`. Properties in `CartView.BelowOneDispatchesNothing` and `DispatchesFirstRowWithId`. |
| CartView.Delete | components/cart/Cart.tsx:32-34 | Body models the delete handler's `remove` action. Properties in `CartView.DeleteRemovesRow`. |
| StoreRoute.Step | app/api/store/route.ts:67-92 | Body models one cart line's callback: the lookup, which may throw, then the clamp, the take and the staging. Properties in `StoreRoute.FulfilStagesPlan`, `FulfilTakesPerLine` and `FulfilFault`. |
| StoreRoute.Fulfil | app/api/store/route.ts:67-92 | Body models the whole cart, line after line. Properties in `StoreRoute.FulfilMatchesPlan` and `StoreRoute.TakeStock`. |
| AddProductPage.QuantityInput | app/product/add/page.tsx:87 | Body models `parseInt(value)`, with 0 for text that does not parse. Properties in `AddProductPage.QuantityInputReads`. |
| AddProductPage.Submission | app/product/add/page.tsx:115-122 | Body models the form data the page posts. Properties in `AddProductPage.SentQuantitiesParseBack`. |
| AddProductPage.HandleSubmit | app/product/add/page.tsx:109-122 | Body models `handleSubmit`: refuse without stock, otherwise post. Properties in `AddProductPage.SubmitRefusedIffNoStock` and `BlankFormRefused`. |
| SetupRoute.Seeded | app/api/setup/route.ts:12-25 | Body models the seeding: create the admin unless its email exists. Properties in `SetupRoute.SeededHasAdmin`, `SeedIdempotent` and `SeedKeepsEmailsDistinct`. |
| OrderSearch.FilteredOrders | app/orders/page.tsx:65-81 | Body models the orders page's search filter. Properties in `OrderSearch.ShownIffMatches` and `MatchesIffContains`. |
| ProductSearch.FilteredProducts | components/products/product-list.tsx:48-51 | Body models the product list's search filter. Properties in `ProductSearch.ListedIffOccurs`. |
| UserSearch.FilteredUsers | app/admin/page.tsx:28-37 | Body models the admin dashboard's search filter. Properties in `UserSearch.ListedIffOccurs`. |

## Left out

- Concurrency in order placement. The handler takes stock for all lines concurrently; the model processes them one after another.
  - `StoreRoute.PlaceOrder` requires that no two cart lines name the same (product, colour). Two such lines would race on one stock counter.
  - The staged lines of the recorded order are promised only up to permutation, since the concurrent pushes fix no order.
  - A line whose product lookup throws records a fault, and the other lines still run. Their stock stays taken, as the handler's callbacks leave it once all of them have finished.
- `StoreRoute.PlaceOrder` names the first throwing line in cart order when several lines throw. In the handler, which error wins depends on timing, so `StoreRoute.FulfilFault` promises only that the fault belongs to a throwing line.
- `StoreRoute.PlaceOrder` answers a malformed cart id with the fault `Malformed(id)`. The handler answers 500 with the driver's cast-error text, which the model does not spell out.
- `StoreRoute.PlaceOrder` takes cart quantities as integers. The product card's quantity starts as the empty text `""` and becomes a JavaScript number (`+e.target.value`) only once the field is edited, so a fraction can reach the handler. A line asking for between 0 and 1 units would take that stock and then fail the order schema's minimum of 1 with 500; the model does not capture that. `StoreRoute.FulfilStagesValidLines` relies on integral quantities for its minimum of 1. The handler compares and subtracts a text quantity as the number it spells, and skips a line whose quantity is `""`.
- `CartSlice.Added` and `CartSlice.CartStore.AddToCart` add quantities as integers. When the product card's quantity field is left untouched, the card dispatches the empty text `""`, since the build ignores type errors. The reducer's `existing + payload` then yields text, and later additions concatenate: adding 3, then `""`, then 2 leaves the text `"32"`. The cart sheet's `+` button concatenates on such a text as well (`"32" + 1` is `"321"`). Text-valued quantities are not modelled.
- `StoreRoute.PlaceOrder` requires every cart colour to be dark or light. The cart can carry the empty colour, and the handler would then index a stock the schema does not have.
- `StoreRoute.PlaceOrder` assumes the customer upsert, the product saves and the order creation do not fail. Database failures other than a product lookup that throws are not modelled.
- The customer search handler in app/api/store/route.ts, which uses user text as a regular expression, is not part of this model.
- Order totals, order status, remarks and an order review step do not exist in the code (the order schema has no such fields), so they are not modelled.
- `ProductsRoute.Merged` and `ProductsRoute.Fresh` read the price with the integer parser `Common.ParseInt` where the code uses `parseFloat`, so prices are integers and `ProductsRoute.Post` differs from the code on non-integral price text. The price input is a number field, and the differences are these:
  - `"12.75"` is stored as 12 rather than 12.75.
  - `".5"` does not parse, so the model answers 500 and stores nothing, where the code stores 0.5.
  - `"1e3"` is stored as 1 rather than 1000.
  - `"-0.5"` parses to 0 and is stored, where the code's value fails the schema's minimum of 0 and answers 500.
- `Common.ParseIntOfToString`, `AddProductPage.QuantityInputReads`, `AddProductPage.SentQuantitiesParseBack` and `ProductsRoute.ResubmittedNumbersKept` hold for the model's numbers, which are unbounded integers. JavaScript numbers are doubles: integers are exact only up to 2^53 in magnitude, and from 10^21 on `toString` writes an exponent. So the round trips hold in the code only for integers between -2^53 and 2^53. Two examples fall outside that range:
  - A quantity of 10^21 is sent as `"1e+21"`, which the server's `parseInt(…, 10)` reads as 1.
  - The text `"9007199254740993"` is read by the page as 9007199254740992.
- `toLowerCase` is modelled for ASCII letters only.
- `Common.ParseInt` models `parseInt(s, 10)` on decimal text after leading whitespace and an optional `+` or `-` sign. Only space, tab, line feed and carriage return count as whitespace. JavaScript also skips vertical tab, form feed, U+00A0, U+FEFF, U+2028, U+2029 and the other Unicode space separators, and the model does not.
- The object-id syntax check of the database driver is a parameter (`isValidId`). The id the database gives a new product is also a parameter (`newId`), assumed fresh.
- The image upload is an outside service; the form carries its outcome (a URL, or a failure with an optional code).
- Password hashing is a parameter (`hash`).
- The session is an input: whether a caller is signed in and whether they are an admin.
- Joins of orders with their stores, creators and products are not modelled. The order search works on already-joined views.
- Creation and update timestamps are not modelled, except the order's creation time, which is an input (`now`).
- Form fields that are absent and form fields that are empty are the same in the model. The handlers treat both as missing.
- Persistence of the cart in browser storage is not modelled.
- Rendering is not modelled, and neither are the fetches the pages make.
- A failed `GET /api/products` query (500) is not modelled.
- The race between the email lookup and the insert in salesman creation is not modelled: a duplicate inserted in between would answer 500.

## Findings

| source | as written | input that shows it | evidently intended | confidence | as-written member | corrected member |
|---|---|---|---|---|---|---|
| app/api/auth/[...nextauth]/route.ts:45-51 | The `jwt` callback copies `id` and `isAdmin` into the token but not `isManager`, so the manager rule of middleware.ts:14-16 never fires. | A user with `isManager` true and `isAdmin` false opens `/products`; the request is let through. | The token carries `isManager`, and managers are redirected to `/orders`. | high; not executed | Middleware.ManagerRuleNeverFires | Middleware.ManagerRuleFiresWithRoles |
| components/cart/Cart.tsx:24 | `handleQuantityChange` finds the row by `_id` alone, while the cart is keyed by `_id` and colour. | Cart [p1 dark ×1, p1 light ×5]; pressing + on the light row sets the dark row to 6 and leaves the light row at 5. | The row is found by `_id` and colour, and only the clicked row changes. | high; not executed | CartView.SecondColourRowEditsFirstRow | CartView.ClickRowChangesOnlyThatRow |
| app/product/add/page.tsx:119 | The page appends the `id` query parameter even when it is absent. The form data then holds the text `"null"`, which the endpoint takes for an update id. | Open the page without `?id=`, fill in every field, submit as an admin. The lookup of product `"null"` fails its id cast, and the answer is 500 with nothing stored. | Without an id, the id field is empty and the endpoint creates the product. | high; not executed | AddProductPage.SubmitNewAsWritten | AddProductPage.FixedCreateSaves |
