# Distribution management system: a Dafny model of its decision logic

This project models the parts of the sales and distribution management
system that make decisions. The rest of the system is database access, HTTP
plumbing and React markup.

- **Order store.** The Express back end keeps orders in an `[Order]` header
  table and an `OrderItem` table. It writes both inside one transaction per
  request and reads orders back newest first. The model keeps both tables as
  one map from order id to a header and its item rows.
- **Product catalogue.** The catalogue is plain CRUD with a required-field
  check.
- **Login.** A login joins a user to their roles, checks the password hash
  and signs a token.
- **Browser side.** The client reads the token to decide what a user may do.
  A set of pages keeps local state: the cart, "My Orders", the product
  search and forms, delivery scheduling, user administration, payments,
  invoices, stock transfers, inventory entry and reports.

Every operation is a pure function over immutable data.

- **Transactions.** A transactional write returns the store it commits, or
  the store it started from when any statement fails. The statement that
  fails is named by a `Db.Fault` parameter, so every failure point of a
  transaction is covered.
- **HTTP handlers.** Each handler returns the status code and JSON body it
  sends.
- **Page handlers.** An asynchronous handler is split in two. The first half
  gives the state while the request is in flight and the request, if any. The
  second half gives the state after the reply. A handler that works through
  timers is modelled by the state its timers leave.
- **Parameters.** The clock, the token decoder, the password-hash comparison
  and the token signer are parameters.

Money and quantities are integers in the smallest unit. A property a request
leaves out, and a column that is SQL `NULL`, is an `Option`. An empty number
input reads as `None`.

Module by module:

- `Wrappers`: `Option` and `Result`.
- `Db`: which statement of a transaction fails.
- `JsText`: the JavaScript string operations the pages use. These are
  `trim`, case mapping, `includes` and `String(n)`.
- `Sorting`: a stable insertion sort, for `ORDER BY`.
- `OrderRepository`, `OrderService`, `OrderController`: the order endpoints.
- `ProductRepository`, `ProductService`, `ProductController`: the product
  endpoints.
- `AuthService`, `AuthController`: login.
- `JwtService`: the token helpers.
- `HomePage`: the role menu.
- `CartPage`, `MyOrdersPage`, `BrowseProductsPage`, `ProductForms`,
  `DeliverySchedulingPage`, `UserManagementPage`, `PaymentsPage`,
  `BillingPage`, `StockTransfersPage`, `InventoryPage`, `ReportsPage`: the
  page handlers.
- `OrderFlows`: the cart and "My Orders" pages composed with the order
  endpoints.

## Model

| member | source | states |
|---|---|---|
| OrderRepository.NewItemsAt | backend/src/repositories/order.repository.js:25-39 | Inserted row k copies request item k's product, quantity and unit price. It takes the k-th fresh identity and carries Total = Quantity * UnitPrice. |
| OrderRepository.InsertItems | backend/src/repositories/order.repository.js:89-103 | The item loop fails exactly when one of its statements fails. Otherwise it appends exactly the new rows to this order and leaves the header and every other order alone. |
| OrderRepository.CreateOrder | backend/src/repositories/order.repository.js:3-47 | Succeeds exactly when no statement fails and `items` is present. It then adds exactly one new order id, owned by the caller, with one item row per request item and Total = Quantity * UnitPrice. Every pre-existing order is unchanged. Any failure, a missing `items` included, returns the original store. The store invariant is kept. |
| OrderRepository.UpdateOrder | backend/src/repositories/order.repository.js:49-111 | An absent id fails with "Order not found". A missing `items` always fails. Any failure leaves the store as it was. Success happens exactly when the order exists, no statement fails and `items` is present. It overwrites the retailer, centre, delivery date, status and update stamp and keeps CreatedBy and CreatedDate. The item list becomes exactly the new list with fresh rows and consistent totals. Other orders are untouched. |
| OrderRepository.GetOrderById | backend/src/repositories/order.repository.js:157-201 | Returns `null` exactly when no order has the id. Otherwise it returns that order's header with exactly its own items. |
| OrderRepository.GetOrders | backend/src/repositories/order.repository.js:203-248 | Returns every order the filter selects, and only those, each exactly once with its own items, sorted by CreatedDate descending. |
| OrderRepository.SortedViewsExact | backend/src/repositories/order.repository.js:221-222 | Sorting the selected orders by creation date neither loses nor invents an order. |
| OrderRepository.GetAllOrders | backend/src/repositories/order.repository.js:113-155 | An order id is listed exactly when it is in the store, and no id twice. The list is newest first. |
| OrderRepository.GetOrdersByCreatedBy | backend/src/repositories/order.repository.js:203-248 | Lists exactly the orders created by the given employee, each once with its own items, newest first. |
| OrderRepository.GetOrdersByRetailerId | backend/src/repositories/order.repository.js:250-294 | Lists exactly the orders of the given retailer, each once, newest first. A NULL retailer matches nothing. |
| OrderRepository.GetOrdersByRdcId | backend/src/repositories/order.repository.js:296-339 | Lists exactly the orders of the given distribution centre, each once, newest first. |
| OrderService.CreateOrder | backend/src/services/order.service.js:3-5 | A created order's CreatedBy is the caller's employee id. A failure leaves the store unchanged. |
| OrderService.UpdateOrder | backend/src/services/order.service.js:7-9 | An updated order's UpdatedBy is the caller's employee id. A failure leaves the store unchanged. |
| OrderService.GetOrderById | backend/src/services/order.service.js:15-23 | Without a database failure, "Order not found" is raised exactly when the id is absent. Otherwise the repository's order is returned unchanged. |
| OrderService.GetAllOrders | backend/src/services/order.service.js:11-13 | Passes the repository's list through unchanged, or the database failure. |
| OrderService.GetFilteredOrders | backend/src/services/order.service.js:25-35 | Passes the filtered lists through unchanged, or the database failure. |
| OrderController.CreateOrder | backend/src/controller/order.controller.js:3-15 | Answers 201 exactly when the transaction commits, with the new order's id and the caller as its owner. Otherwise it answers 500 "Order creation failed" with the store unchanged. |
| OrderController.UpdateOrder | backend/src/controller/order.controller.js:17-35 | Answers 200 exactly when the update commits, carrying the rewritten header. An absent order gives 404 "Order not found", unless the database itself fails with that text. Every other failure gives 500 "Order update failed". Nothing changes unless the answer is 200. |
| OrderController.UpdateAbsentOrderIs404 | backend/src/controller/order.controller.js:29-31 | Updating an order that does not exist answers 404 with "Order not found" and changes nothing. |
| OrderController.GetOrderById | backend/src/controller/order.controller.js:51-70 | Answers 200 with the stored order, or 404 exactly when it is absent (absent a database failure). A database failure answers 500 "Failed to retrieve order", unless its message is exactly "Order not found", which answers 404. |
| OrderController.ListOrders | backend/src/controller/order.controller.js:37-118 | A list endpoint never answers 404. It answers 200 with the repository's list, or 500 "Failed to retrieve orders" on any failure. |
| ProductRepository.ByNameIsTotalPreorder | backend/src/repositories/product.repository.js:14 | Ordering by product name is total and transitive, so sorting by it is well defined. |
| ProductRepository.GetAllProducts | backend/src/repositories/product.repository.js:3-21 | Returns every stored product, each once, sorted by name ascending. |
| ProductRepository.GetProductById | backend/src/repositories/product.repository.js:23-42 | Returns the matching row, or `null` exactly when there is none. |
| ProductRepository.AddProduct | backend/src/repositories/product.repository.js:44-62 | Inserts one row under a new id and returns that id. The other rows are unchanged. |
| ProductRepository.UpdateProductById | backend/src/repositories/product.repository.js:64-86 | Reports true exactly when a row matched. It rewrites only that row's name, price and unit. An absent id leaves the table unchanged. |
| ProductRepository.DeleteProduct | backend/src/repositories/product.repository.js:88-102 | Reports true exactly when a row matched and removes only that row. An absent id leaves the table unchanged. |
| ProductService.GetAllProducts | backend/src/services/product.service.js:3-5 | Passes the repository's list through unchanged. |
| ProductService.GetProductById | backend/src/services/product.service.js:7-15 | Raises "Product not found" exactly when the repository finds no row. Otherwise it returns that row. |
| ProductService.AddProduct | backend/src/services/product.service.js:17-29 | Rejects a falsy name, price or unit (a price of 0 included) without touching the table. Otherwise it inserts exactly the given fields under a new id. |
| ProductService.UpdateProduct | backend/src/services/product.service.js:31-58 | An absent product gives "Product not found" even when the fields are also bad, because existence is checked first. An existing product with a falsy field gives the required-fields error. Success rewrites exactly that product. Failures change nothing. |
| ProductService.UpdateNeverReportsNoRowUpdated | backend/src/services/product.service.js:48-55 | Within one call the existence check and the update see the same table, so "Failed to update product" never arises. |
| ProductService.DeleteProduct | backend/src/services/product.service.js:60-68 | An absent product gives "Product not found" and deletes nothing. An existing one is removed and the repository's true is returned. |
| ProductController.RequiredMessageIsRecognised | backend/src/controller/product.controller.js:51 | The service's missing-field message contains "required", and "Product not found" does not. |
| ProductController.GetAllProducts | backend/src/controller/product.controller.js:3-16 | Answers 200 with the sorted catalogue, or 500 on any failure. |
| ProductController.GetProductById | backend/src/controller/product.controller.js:18-37 | Answers 200 with the stored product, or 404 exactly when it is absent (absent a database failure). A database failure answers 500 "Failed to retrieve product", unless its message is exactly "Product not found", which answers 404. |
| ProductController.AddProduct | backend/src/controller/product.controller.js:39-57 | Answers 201 with the new id exactly when the fields are present and the insert succeeds. A missing field gives 400 with the service's message. Other failures give 500 "Product creation failed", and nothing is inserted. |
| ProductController.AddMissingFieldIs400 | backend/src/controller/product.controller.js:51-53 | A body with a falsy required field is answered 400 and inserts nothing. |
| ProductController.UpdateProduct | backend/src/controller/product.controller.js:59-82 | Answers 200 exactly when the product exists, the fields are present and the update succeeds. The exact "Product not found" test comes before the "required" substring test. A database failure whose message is neither "Product not found" nor contains "required" gives 500 "Product update failed". Nothing changes unless the answer is 200. |
| ProductController.UpdateAbsentWithBadFieldsIs404 | backend/src/controller/product.controller.js:72-78 | Updating an absent product with missing fields answers 404, not 400. |
| ProductController.UpdateFailedIs500 | backend/src/controller/product.controller.js:72-80 | "Failed to update product" matches neither the not-found test nor the "required" test, so it would fall through to 500. |
| ProductController.DeleteProduct | backend/src/controller/product.controller.js:84-103 | Answers 200 "Product deleted successfully" exactly when the product exists and neither statement fails, and then exactly that row is gone. An absent product answers 404 and deletes nothing. A failing statement whose message is not "Product not found" answers 500 "Product deletion failed" and deletes nothing. |
| AuthService.UserWithRolesByEmail | backend/src/repositories/auth.repository.js:3-22 | Every row carries the requested email. A row is returned exactly when some user with that email, one of its UserRoles links and the role with that link's RoleId produce it. |
| AuthService.RowsForLinkExact | backend/src/repositories/auth.repository.js:17 | The rows for one link are exactly those of the roles whose RoleId matches the link. |
| AuthService.RowsForUserExact | backend/src/repositories/auth.repository.js:16-17 | The rows for one user are exactly those of the links carrying its UserId, joined to their roles. |
| AuthService.RowsForUsersExact | backend/src/repositories/auth.repository.js:15-18 | The rows for a list of users are exactly those of the users with the requested email, joined through their links to their roles. |
| AuthService.UserWithoutRolesHasNoRows | backend/src/repositories/auth.repository.js:16-17 | Because both joins are inner joins, a user with no role links yields no rows at all. |
| AuthService.ClaimsOf | backend/src/services/auth.service.js:19-27 | The claims take userId, employeeId and email from the first row. Roles lists the role name of every row, in row order, with no deduplication. |
| AuthService.Login | backend/src/services/auth.service.js:5-35 | No rows, or a password that does not match the first row's hash, give "Invalid email or password" and no token. A success is exactly the token signed over the first row's identity and all roles. A query or signing failure is passed on. |
| AuthService.BothFailuresAlike | backend/src/services/auth.service.js:8-17 | An unknown email and a wrong password produce identical results. |
| AuthService.RolelessUserCannotLogIn | backend/src/repositories/auth.repository.js:16-17 | A user with no roles cannot log in, whatever the password. |
| AuthService.UserWithRoleCanLogIn | backend/src/services/auth.service.js:5-36 | The only account with an email, linked to at least one role, logs in with a password matching its hash when the signer succeeds. The token is signed over its user id and a role list that includes that role. |
| AuthController.Login | backend/src/controller/auth.controller.js:3-18 | Answers 400 "Email and password required" exactly when the email or password is falsy. A 200 carries exactly the service's token. A 401 carries exactly the service's error message. |
| AuthController.PresenceCheckComesFirst | backend/src/controller/auth.controller.js:7-11 | With a falsy email or password the answer does not depend on the user tables or the database, so no query is made. |
| AuthController.QueryFailureIs401 | backend/src/controller/auth.controller.js:14-17 | A failing query is answered 401 with the driver's message. |
| AuthController.WrongPasswordIs401 | backend/src/controller/auth.controller.js:14-17 | A wrong password is answered 401 "Invalid email or password". |
| JwtService.SetToken | frontend/src/services/jwtService.js:6-7 | Only a non-empty token is stored. Otherwise storage is unchanged. |
| JwtService.ClearToken | frontend/src/services/jwtService.js:8 | After clearing, no token is stored. |
| JwtService.UserFromToken | frontend/src/services/jwtService.js:10-17 | A missing or empty token gives nothing. Otherwise the decoder's result, which is nothing for a malformed token. |
| JwtService.TokenExpired | frontend/src/services/jwtService.js:19-23 | Expired when there is no payload, or no (or zero) `exp`. Otherwise expired exactly when now >= exp * 1000. A token that is not expired is present. |
| JwtService.Authenticated | frontend/src/services/jwtService.js:25 | Authenticated is exactly "not expired". |
| JwtService.ExpiryIsPermanent | frontend/src/services/jwtService.js:22 | Once expired, a token stays expired as the clock advances. |
| JwtService.TextClaim | frontend/src/services/jwtService.js:27-29 | A claim read with `\|\| null` is absent exactly when it is missing or empty. |
| JwtService.UserId | frontend/src/services/jwtService.js:27 | The user id is reported exactly when the token is present, decodes, and carries a non-empty userId, and it is that value. |
| JwtService.EmployeeId | frontend/src/services/jwtService.js:28 | The employee id is reported exactly when the token is present, decodes, and carries a non-empty employeeId, and it is that value. |
| JwtService.Roles | frontend/src/services/jwtService.js:30 | The roles claim, or no roles when there is no payload or no claim. |
| JwtService.Email | frontend/src/services/jwtService.js:29 | The email is reported exactly when the token is present, decodes, and carries a non-empty email, and it is that value. |
| JwtService.HasRole | frontend/src/services/jwtService.js:32 | True exactly when some position of the roles list holds the role, compared exactly. False without a readable token. |
| JwtService.HasAnyRole | frontend/src/services/jwtService.js:33 | True exactly when some wanted role is held. False for the empty list. |
| JwtService.HasAllRoles | frontend/src/services/jwtService.js:34 | True exactly when every wanted role is held. True for the empty list. |
| JwtService.AllImpliesAny | frontend/src/services/jwtService.js:33-34 | For a non-empty list, holding all the roles implies holding one of them. |
| JwtService.NoTokenNoAccess | frontend/src/services/jwtService.js:25-32 | Without a token there is no role, no authentication and no employee id. |
| HomePage.GroupInAllButtons | frontend/src/pages/home.js:53 | Every group's buttons are on the administrator's full menu. |
| HomePage.AllButtonsFromGroups | frontend/src/pages/home.js:5-32 | Every button on the full menu belongs to some role group. |
| HomePage.Normalize | frontend/src/pages/home.js:44-47 | Role k of the normalised list is role k upper-cased; the length is kept. |
| HomePage.ButtonsForRoles | frontend/src/pages/home.js:55-61 | With no recognised role the non-admin menu is empty, which shows the warning. |
| HomePage.ButtonsForRolesAppend | frontend/src/pages/home.js:56-60 | The menu for a list of roles is the menus of its parts concatenated, in role order. |
| HomePage.ButtonsForRolesMembership | frontend/src/pages/home.js:55-61 | A button is on the non-admin menu exactly when one of the roles has it in its group, so unknown roles contribute nothing. |
| HomePage.VisibleButtons | frontend/src/pages/home.js:44-62 | If any role upper-cases to ADMIN, every group is shown in declaration order. Otherwise the menu is the groups of the upper-cased roles concatenated in role order, repeats kept; so a button is shown exactly when one of the upper-cased roles has it in its group. |
| HomePage.VisibleButtonsAreKnown | frontend/src/pages/home.js:5-62 | Whatever the roles, every visible button belongs to the role-group table. |
| HomePage.LowerCaseAdminSeesAll | frontend/src/pages/home.js:44-54 | A lower-case "admin" role still sees the full menu, because roles are upper-cased first. |
| HomePage.RepeatedRoleRepeatsButtons | frontend/src/pages/home.js:56-60 | A repeated role repeats its buttons, because nothing deduplicates. |
| HomePage.Render | frontend/src/pages/home.js:36-101 | Without a token nothing is shown and the login page is requested. Otherwise the visible buttons are shown, with the no-permissions warning exactly when there are none. |
| HomePage.Logout | frontend/src/pages/home.js:64-67 | Logging out removes the token and leads to the login page. |
| CartPage.Load | frontend/src/pages/cart.js:17-22 | The page shows the saved cart, or an empty cart when nothing is saved. |
| CartPage.Save | frontend/src/pages/cart.js:24-27 | The page and local storage hold the same items. |
| CartPage.WithQuantity | frontend/src/pages/cart.js:32-36 | Only lines of the given product get the new quantity. Length, order and other lines are kept. |
| CartPage.ChangeQuantity | frontend/src/pages/cart.js:29-38 | An empty value or one below 1 leaves the cart unchanged. Otherwise only the matching product's quantity changes, and the result is saved. |
| CartPage.ChangeQuantityIdempotent | frontend/src/pages/cart.js:29-38 | Setting the same quantity twice is the same as setting it once. |
| CartPage.RemoveItem | frontend/src/pages/cart.js:40-43 | A line remains exactly when it was there and is not of the removed product. The result is saved. |
| CartPage.WithoutAppend | frontend/src/pages/cart.js:41 | Removing a product from a joined cart removes it from each part, so the kept lines stay in order with repeats. |
| CartPage.WithoutAndOnlyPartition | frontend/src/pages/cart.js:41 | The kept lines and the removed product's lines together are exactly the cart's lines, each as often as it occurs. |
| CartPage.Total | frontend/src/pages/cart.js:45-49 | With no negative price or quantity the total is not negative. A cart of free items totals 0. |
| CartPage.ItemCount | frontend/src/pages/cart.js:199 | With every quantity at least 1 the count is at least the number of lines, and equals it when every quantity is 1. |
| CartPage.TotalAppend | frontend/src/pages/cart.js:45-49 | The total of two carts joined is the sum of their totals. |
| CartPage.RemoveSplitsTotal | frontend/src/pages/cart.js:40-49 | Removing a product takes exactly its lines' price times quantity off the total. |
| CartPage.PositiveLinesPositiveTotal | frontend/src/pages/cart.js:199 | With positive prices and quantities, a non-empty cart has a total of at least its number of lines (so positive) and an item count of at least its number of lines. |
| CartPage.PayloadOf | frontend/src/pages/cart.js:66-71 | Request items correspond one to one with cart lines. Product, quantity and price are copied, and total = unitPrice * quantity. |
| CartPage.RequestOf | frontend/src/pages/cart.js:62-72 | The request names retailer 1 and centre 1, a delivery date seven days after now, and the cart's payload items. |
| CartPage.AsOrderInput | frontend/src/pages/cart.js:62-72 | The order endpoint reads the request's ids, date and items. It ignores the items' totals, and the request carries no status. |
| CartPage.StartCreate | frontend/src/pages/cart.js:51-60 | An empty cart sets "Cart is empty. Please add products first." and sends nothing. Otherwise the cart's request is sent and the messages are cleared. |
| CartPage.FinishCreate | frontend/src/pages/cart.js:74-89 | A created order empties the cart and storage, reports the order number and schedules /orders. A failure keeps the cart and shows the error's message, or "Failed to create order". |
| MyOrdersPage.Mount | frontend/src/pages/myOrders.js:13-31 | Without an employee id the page sets "User not authenticated." and fetches nothing. Otherwise it fetches that employee's orders. |
| MyOrdersPage.FinishLoad | frontend/src/pages/myOrders.js:21-28 | A successful fetch lists exactly the returned orders, or none. A failure keeps the list and shows the message, or "Failed to load orders". |
| MyOrdersPage.Open | frontend/src/pages/myOrders.js:33-37 | Opening an order selects it and clears both messages. |
| MyOrdersPage.Close | frontend/src/pages/myOrders.js:39-41 | Closing clears the selection and nothing else. |
| MyOrdersPage.StatusOnlyBody | frontend/src/pages/myOrders.js:49-51 | The request the status buttons send carries the new status and no items or header columns. |
| MyOrdersPage.FullBody | frontend/src/pages/myOrders.js:49-51 | The corrected request carries the order's current header columns and items, with the new status. |
| MyOrdersPage.StartActionAsWritten | frontend/src/pages/myOrders.js:43-51 | With no selection nothing happens. Otherwise the status-only request for the selected order is sent and the messages are cleared. |
| MyOrdersPage.StartAction | frontend/src/pages/myOrders.js:43-51 | The same, sending the full order with the new status. |
| MyOrdersPage.Applied | frontend/src/pages/myOrders.js:76-82 | The local copy takes the new status, and confirm sets isConfirmed. The id and items are kept. |
| MyOrdersPage.FinishAction | frontend/src/pages/myOrders.js:43-90 | On success only listed orders with the id the request was sent for take the new status. The dialog's copy takes it too if a dialog is still open, whichever order it shows; a closed dialog stays closed. The info message is set. On failure the list and selection are unchanged and the error shows the message or the action's fallback. |
| MyOrdersPage.BadgeColour | frontend/src/pages/myOrders.js:92-103 | Confirmed gets success, Pending warning and Cancelled danger. Exactly the other statuses, and none, get secondary. |
| MyOrdersPage.BadgeText | frontend/src/pages/myOrders.js:100 | The badge shows the status, or N/A when there is none. |
| MyOrdersPage.ActionBadge | frontend/src/pages/myOrders.js:52-99 | After a successful cancel the dialog's badge is danger, and after a confirm it is success. |
| OrderFlows.TotalsAgree | backend/src/repositories/order.repository.js:26 | Rows whose totals are quantity times price add up to the cart's calculateTotal. |
| OrderFlows.CheckoutStoresTheCart | frontend/src/pages/cart.js:62-76 | When the database does not fail, checkout answers 201. The store then holds one item row per cart line, in order. The stored totals add up to the total the cart showed. The order belongs to the caller and has no status. |
| OrderFlows.StatusOnlyUpdateAlwaysFails | frontend/src/pages/myOrders.js:49-51 | As written, cancel and confirm never succeed. The store is left as it was, the page shows an error with its list unchanged, and for an existing order the error is "Order update failed". |
| OrderFlows.StatusChangeKeepsOrder | backend/src/repositories/order.repository.js:65-103 | With the full request, a status change on a stored order answers 200. Only the status and update stamp of its header change. Every item is kept with its product, quantity, price and total. Other orders are untouched. |
| OrderFlows.PageAgreesWithStore | frontend/src/pages/myOrders.js:52-59 | With the full request, the status the dialog shows after an action is the status the database holds. |
| OrderFlows.UpdateReplyOf | frontend/src/pages/myOrders.js:48-61 | A 2xx response resolves and anything else is a failure carrying the response's message. |
| OrderFlows.CreateReplyOf | frontend/src/pages/cart.js:73-86 | A 201 with an id is a created order. A non-2xx response is a rejection carrying its message. |
| BrowseProductsPage.Filter | frontend/src/pages/browseProducts.js:35-44 | A blank term shows every product. Otherwise a product is shown exactly when its lower-cased name contains the lower-cased term. Either way the result is a subsequence of the list, in list order. |
| BrowseProductsPage.Matching | frontend/src/pages/browseProducts.js:40-42 | A product is kept exactly when it matches, and never more products than given. The kept products are a subsequence of the list, in list order. |
| BrowseProductsPage.MatchingAppend | frontend/src/pages/browseProducts.js:40 | Filtering keeps relative order: filtering a concatenation concatenates the filtered parts. |
| BrowseProductsPage.MatchingIdempotent | frontend/src/pages/browseProducts.js:40-42 | Filtering the result again by the same term returns it unchanged. |
| BrowseProductsPage.FilterIdempotent | frontend/src/pages/browseProducts.js:35-44 | Filtering the filtered list by the same term changes nothing, blank or not. |
| BrowseProductsPage.SearchIgnoresCase | frontend/src/pages/browseProducts.js:40-42 | "MILK" finds "Milk Powder": the match ignores ASCII case. |
| BrowseProductsPage.SearchTermIsNotTrimmed | frontend/src/pages/browseProducts.js:36-41 | " milk" with a leading space does not find "Milk": a non-blank term is matched untrimmed. |
| BrowseProductsPage.Shown | frontend/src/pages/browseProducts.js:17-19 | What is shown is always drawn from the fetched products. |
| BrowseProductsPage.FinishFetch | frontend/src/pages/browseProducts.js:21-33 | A fetch shows the returned products, or none. A failure keeps the list and shows an error. |
| BrowseProductsPage.AddToCartNotice | frontend/src/pages/browseProducts.js:46-49 | The notice begins with the product's name. |
| ProductForms.Apply | frontend/src/pages/addProduct.js:16-23 | An edit changes only the named field. |
| ProductForms.Validate | frontend/src/pages/addProduct.js:25-48 | A form passes exactly when the name and unit are not blank and the price is present and positive. Otherwise the first failing check's message is reported, in the order name, price, unit. |
| ProductForms.AsInput | frontend/src/pages/addProduct.js:50-52 | The request carries the typed name, price and unit. |
| ProductForms.AcceptedFormPassesServer | backend/src/services/product.service.js:17-29 | A form the page accepts also passes the server's required-field check, and the stored fields are the typed ones. |
| ProductForms.ServerAcceptsBlankName | backend/src/services/product.service.js:18-26 | The server accepts a blank name " " that the page refuses. |
| JsText.ErrorText | frontend/src/pages/addProduct.js:63-65 | The error shown is the thrown message when it is present and non-empty, and exactly the fallback otherwise. Every page that shows a thrown message with a fallback uses it. |
| ProductForms.AddChange | frontend/src/pages/addProduct.js:16-23 | handleChange updates only the named field and clears the error. The success message, loading flag and redirect are untouched. The edit page's handleChange (frontend/src/pages/editProduct.js:39-46) is the same code. |
| ProductForms.AddSubmit | frontend/src/pages/addProduct.js:25-52 | A request is sent exactly when validation passes. Otherwise the first failure is shown and nothing is sent. |
| ProductForms.AddFinish | frontend/src/pages/addProduct.js:50-67 | Success resets the form to empty fields and schedules the product list. Failure keeps the form and shows the error. |
| ProductForms.FormOf | frontend/src/pages/editProduct.js:27-31 | The loaded form carries the product's name, price and unit. |
| ProductForms.UntouchedFormRoundTrips | frontend/src/pages/editProduct.js:27-74 | Submitting a loaded form unedited writes back exactly the stored fields. |
| ProductForms.EditLoad | frontend/src/pages/editProduct.js:22-37 | Loading copies the product into the form. A failure leaves the empty form and shows the error or "Failed to load product details". |
| ProductForms.FailedLoadCannotSubmit | frontend/src/pages/editProduct.js:55-59 | After a failed load, submitting is refused with "Product name is required". |
| ProductForms.EditSubmit | frontend/src/pages/editProduct.js:48-74 | The update request is sent exactly when validation passes, with the same checks and messages as the add page. |
| ProductForms.EditFinish | frontend/src/pages/editProduct.js:74-85 | The form is kept after either outcome. Success schedules the product list and failure shows the error. |
| DeliverySchedulingPage.OrderIdsAreTheListedIds | frontend/src/pages/deliveryScheduling.js:16-26 | The selectable ids are exactly the listed orders' ids, in order. |
| DeliverySchedulingPage.Remove | frontend/src/pages/deliveryScheduling.js:40 | The ids left are exactly the old ones other than the removed id. |
| DeliverySchedulingPage.RemoveKeepsDistinct | frontend/src/pages/deliveryScheduling.js:40 | Removing an id from a selection without duplicates leaves none. |
| DeliverySchedulingPage.RemoveAbsent | frontend/src/pages/deliveryScheduling.js:40 | Removing an id that is not selected changes nothing. |
| DeliverySchedulingPage.RemoveAppended | frontend/src/pages/deliveryScheduling.js:40 | Removing the id just appended restores the previous selection. |
| DeliverySchedulingPage.Toggle | frontend/src/pages/deliveryScheduling.js:38-42 | A present id is removed and an absent one appended. Toggling never introduces duplicates. |
| DeliverySchedulingPage.ToggleTwiceRestores | frontend/src/pages/deliveryScheduling.js:38-42 | Toggling an unselected id twice restores the selection exactly. |
| DeliverySchedulingPage.ToggleTwiceSameOrders | frontend/src/pages/deliveryScheduling.js:38-42 | Toggling any id twice restores the same set of ids. |
| DeliverySchedulingPage.ToggleOrder | frontend/src/pages/deliveryScheduling.js:38-42 | Only the toggled id changes membership. The selection stays duplicate-free and within the listed orders. |
| DeliverySchedulingPage.ToggleAll | frontend/src/pages/deliveryScheduling.js:44-51 | With the flag off every listed order is selected, and with it on the selection is cleared. The flag flips. |
| DeliverySchedulingPage.ToggleAllTwiceClears | frontend/src/pages/deliveryScheduling.js:44-51 | Select-all followed by unselect-all clears the selection, whatever was ticked before. |
| DeliverySchedulingPage.Validate | frontend/src/pages/deliveryScheduling.js:57-72 | Submission passes exactly when the trimmed destination, date, driver and a non-empty selection are all given. Otherwise the first missing one is reported in that order. |
| DeliverySchedulingPage.Submit | frontend/src/pages/deliveryScheduling.js:53-87 | A failed check sets only its message. Success shows the success message. The entries and the selection are kept. |
| DeliverySchedulingPage.Reset | frontend/src/pages/deliveryScheduling.js:89-96 | Reset clears every field, the selection, the flag and the message. |
| UserManagementPage.SeedIdsDistinct | frontend/src/pages/userManagement.js:5-9 | The seeded users have distinct ids. |
| UserManagementPage.Add | frontend/src/pages/userManagement.js:15-21 | Any empty field sets "Please fill all fields." and changes nothing else. Otherwise exactly one Active user is prepended and the form is cleared. |
| UserManagementPage.AddKeepsIdsDistinct | frontend/src/pages/userManagement.js:18-19 | Adding at a time later than every existing id keeps the ids distinct. |
| UserManagementPage.SameInstantSharesId | frontend/src/pages/userManagement.js:18 | Two users added in the same millisecond share an id. |
| UserManagementPage.Flip | frontend/src/pages/userManagement.js:29 | Active becomes Inactive, and any other status becomes Active. |
| UserManagementPage.ToggleStatus | frontend/src/pages/userManagement.js:27-31 | Only users with the matching id flip status. Length and everything else are kept. |
| UserManagementPage.ToggleAbsentIsNoOp | frontend/src/pages/userManagement.js:29 | Toggling an absent id leaves the list unchanged. |
| UserManagementPage.ToggleTwiceRestores | frontend/src/pages/userManagement.js:28-30 | Toggling the same id twice restores the list. |
| UserManagementPage.ResetPasswordMessage | frontend/src/pages/userManagement.js:23-25 | The notice is "Password reset link sent to ", then the user's email, then " (demo).", and nothing else. |
| BillingPage.SampleOrdersConsistent | frontend/src/pages/billingAndInvoices.js:8-65 | In every demo invoice each line total is quantity times price and the subtotal is their sum. Tax is 10% of the subtotal and total = subtotal + tax. |
| BillingPage.Find | frontend/src/pages/billingAndInvoices.js:79 | A hit is a listed order whose String(id) equals the entry. A miss means no listed id reads as the entry. |
| BillingPage.Search | frontend/src/pages/billingAndInvoices.js:72-86 | A blank entry sets "Please enter an Order ID". A hit shows the invoice. A miss sets "Order #… not found" and clears the invoice. |
| BillingPage.EverySampleOrderFindable | frontend/src/pages/billingAndInvoices.js:79-81 | Typing any demo order's id finds exactly that order. |
| BillingPage.FindFirstMatch | frontend/src/pages/billingAndInvoices.js:79 | The lookup returns the first order whose id reads as the entry. |
| JsText.DecimalStringInjective | frontend/src/pages/billingAndInvoices.js:79 | Distinct ids read differently under String(id), so an id lookup is unambiguous. |
| BillingPage.Reset | frontend/src/pages/billingAndInvoices.js:96-100 | Reset clears the entry, the invoice and the error. |
| PaymentsPage.InvoicesMatchBilledOrders | frontend/src/pages/payments.js:7-43 | The demo invoices are the billing page's demo orders, with the same ids and amounts equal to their totals. |
| PaymentsPage.Find | frontend/src/pages/payments.js:72-74 | A hit matches the entry as String(id) or exactly as the invoice number. A miss means no invoice matches either way. |
| PaymentsPage.Search | frontend/src/pages/payments.js:59-85 | Search first clears the invoice, method and messages. A blank entry sets an error. A hit shows the invoice, and a miss sets "not found". |
| PaymentsPage.ChooseMethod | frontend/src/pages/payments.js:87-90 | Choosing a method records it and clears the error. |
| PaymentsPage.Pay | frontend/src/pages/payments.js:92-127 | No method gives an error. A paid invoice is refused. Online only announces the portal and leaves the status alone. Cheque and cash on delivery mark the invoice Paid, change nothing else and report the amount in LKR. |
| PaymentsPage.NoDoublePayment | frontend/src/pages/payments.js:101-104 | Paying the same invoice a second time is refused and leaves it as it is. |
| PaymentsPage.PaymentIsNotKept | frontend/src/pages/payments.js:72-76 | Searching again after a payment shows the demo invoice as it was: the payment is not kept. |
| PaymentsPage.Reset | frontend/src/pages/payments.js:129-135 | Reset clears the entry, the invoice, the method and both messages. |
| StockTransfersPage.QuantityFor | frontend/src/pages/stockTransfers.js:173 | A branch with no inventory entry shows quantity 0. |
| StockTransfersPage.EveryBranchStocked | frontend/src/pages/stockTransfers.js:8-28 | Every listed branch has a demo inventory entry. |
| StockTransfersPage.LevelOf | frontend/src/pages/stockTransfers.js:174-175 | The level is success exactly above 150, warning in (75, 150], danger in (0, 75] and secondary otherwise. |
| StockTransfersPage.StockText | frontend/src/pages/stockTransfers.js:199 | "Out of stock" at 0, "Low stock" below 75, "Adequate stock" from 75. |
| StockTransfersPage.SeventyFiveIsAmbiguous | frontend/src/pages/stockTransfers.js:175-199 | At exactly 75 the level is danger while the message says "Adequate stock". |
| StockTransfersPage.LevelAndTextAgreeElsewhere | frontend/src/pages/stockTransfers.js:175-199 | For every other non-negative quantity the colour and the message agree. |
| StockTransfersPage.PercentLabel | frontend/src/pages/stockTransfers.js:195 | The label is the nearest whole percentage of 300 units: three times it is within one of the quantity. |
| StockTransfersPage.Find | frontend/src/pages/stockTransfers.js:62 | A hit is a listed product whose String(id) equals the choice, and a miss means none does. |
| StockTransfersPage.Search | frontend/src/pages/stockTransfers.js:53-77 | No choice sets "Please select a product". A hit shows the product with the demo inventory. A miss sets "Product not found" and clears the selection. |
| StockTransfersPage.ListedProductFound | frontend/src/pages/stockTransfers.js:62-71 | Choosing any listed product finds it without error. |
| StockTransfersPage.Reset | frontend/src/pages/stockTransfers.js:79-83 | Reset clears the choice, the product shown and the error. |
| InventoryPage.Validate | frontend/src/pages/inventoryManagement.js:50-53 | Passes exactly when the branch, date and product are chosen and the quantity is present and positive. Otherwise the first missing one is reported in that order. |
| InventoryPage.BranchName | frontend/src/pages/inventoryManagement.js:57 | A known branch id gives its name, and an unknown one the id itself. |
| InventoryPage.BranchNameIn | frontend/src/pages/inventoryManagement.js:57 | The first branch whose String(id) matches (no earlier one does) gives its name, falling back to the id for an empty name or no match. |
| InventoryPage.ProductLabel | frontend/src/pages/inventoryManagement.js:58-62 | The first listed product whose String(id) matches gives its ProductName, falling back to the id for an empty name. An unlisted id is shown as the id itself. |
| InventoryPage.Submit | frontend/src/pages/inventoryManagement.js:46-68 | A failed check shows its message. Success shows "Saved:" with the branch and product labels and the quantity. The entries are kept. |
| InventoryPage.Reset | frontend/src/pages/inventoryManagement.js:70-76 | Reset clears all four fields and the message, leaving a form that asks for a branch. |
| ReportsPage.AfterIsStrictTotalOrder | frontend/src/pages/reports.js:91 | Date comparison of YYYY-MM-DD values is a strict total order. |
| ReportsPage.SampleData | frontend/src/pages/reports.js:99 | An unknown report id yields no rows. |
| ReportsPage.ListedTypesHaveRows | frontend/src/pages/reports.js:7-65 | Every listed report type has sample rows, all of that report's kind. |
| ReportsPage.FindType | frontend/src/pages/reports.js:101 | A hit is a listed type with that id, and a miss means none has it. |
| ReportsPage.Validate | frontend/src/pages/reports.js:81-94 | Passes exactly when both dates and a type are chosen and from is not after to. Otherwise the first failure is reported in the order dates, type, range. |
| ReportsPage.Generate | frontend/src/pages/reports.js:81-113 | A failed check shows only its message. Otherwise the report has the chosen type and that type's sample rows. |
| ReportsPage.RangeDoesNotFilter | frontend/src/pages/reports.js:96-105 | Any valid date range yields the same rows: the range does not filter the data. |
| ReportsPage.SameDayAllowed | frontend/src/pages/reports.js:91-94 | Equal from and to dates are accepted, because the comparison is strict. |
| ReportsPage.BadgeColour | frontend/src/pages/reports.js:188-279 | Exactly the sales and customer rows have no status badge. Stock: Good is success, Low warning, otherwise danger. Orders: Delivered is success, Pending warning, otherwise info. Payments: Paid is success, Pending warning, otherwise danger. Deliveries: Delivered is success, In Transit info, otherwise warning. |
| ReportsPage.Reset | frontend/src/pages/reports.js:127-133 | Reset restores the default range and clears the type, the report and the error, so no table shows. |

## Left out

- **The database connection** (`backend/src/config/db.js`). `order.repository.js:1` imports `connectDB`, which `db.js` does not export, and `db.js` opens a new pool per call. The model assumes the connection succeeds. A failing statement is the `fault` parameter, so connection-level failures are indistinguishable from statement failures.
- **Concurrency** between requests and transaction isolation. Every call is atomic and sequential.
- **Row orders the SQL does not fix.** The order of item rows within an order is modelled as insertion order, which the queries do not guarantee. Orders with equal CreatedDate may be listed in any order. Only the descending order is stated. The order of login rows when several users share an email is also not fixed.
- AuthService.UserWithRolesByEmail: the contract states which rows occur, not how often or in what order. The query has no `ORDER BY`, and the model's nested loops are one of the join orders the database may use.
- **SQL collation and string comparison.** `ORDER BY ProductName` is modelled as code-point order. The equality tests `WHERE u.Email = @Email` (auth.repository.js:18) and `WHERE o.CreatedBy = @CreatedBy` (order.repository.js:221) are modelled as exact string equality. SQL Server's `=` ignores trailing spaces, and under the usual case-insensitive collation also ignores case. So a login with `"nimal@islandlink.lk "` finds the user's rows in the program but none in the model.
- **Number formats.** `Decimal(18,2)` columns, string prices, non-numeric path parameters and decimal quantities typed into number inputs are left out. Money and quantities are integers.
- InventoryPage.Submit: the success text prints the quantity as `String` of the parsed number, while the page prints the raw input text (inventoryManagement.js:61). A typed "007" shows "Qty: 007" in the page and "Qty: 7" in the model.
- **Commit failures.** `transaction.commit()` (order.repository.js:41,105) has no fault step of its own. A failing commit ends like any other failing statement, in an error and the original store, so only the point of failure is not distinguished.
- **Unicode.** Case mapping covers the ASCII letters only. `trim` removes ASCII white space, the no-break space, the byte-order mark and the line and paragraph separators, but not the other Unicode space separators.
- **Libraries.** bcrypt, jsonwebtoken, jwt-decode and uuid are parameters. Token expiry settings and the `exp` claim's generation are not modelled.
- **User registration** (`user.repository.js`, `user.service.js`, `user.controller.js`). These are thin wrappers over uuid, hashing and one INSERT.
- **Plumbing.** Express routing and middleware, the axios client services and the React router shell carry no decisions. The client services' reply conversion is stated in `OrderFlows.UpdateReplyOf` and `OrderFlows.CreateReplyOf`.
- **Static pages.** The dashboard, promotions and delivery-tracking pages are static data, charts and floating-point map bounds.
- **Rendering and side effects.** JSX markup, `setTimeout` delays (only the final state is modelled), local storage beyond the cart and token, `alert`, `window.print`, navigation and the native date-input `min` constraint are left out.
- **Display formatting.** `toLocaleString`, `toFixed` beyond whole amounts, and the progress bar's width are left out.
- **Object-prototype keys.** A status named like a built-in object key (e.g. "constructor") would find a function in the badge maps. It is modelled as an ordinary unknown status.
- ProductService.UpdateProduct: "Failed to update product" cannot arise in a sequential model, because the row exists between the check and the update. A concurrent delete could make it arise.
- ProductController.AddProduct: a database error whose message contains "required" would also be answered 400. The contract states the 400-iff-missing-field equivalence only for other database messages.
- OrderController.UpdateOrder: a database error whose message is exactly "Order not found" would also be answered 404. The 404 equivalence is stated only for other database messages.
- **Product flows.** "Add to Cart" on the browse page only shows a notice; nothing writes the cart. Writing the cart happens outside the modelled pages.

## Findings

| source | as written | input that shows it | evidently intended | confidence | as-written member | corrected member |
|---|---|---|---|---|---|---|
| frontend/src/pages/myOrders.js:49-51 | Cancel and confirm send only `{ orderStatus }` to the update endpoint. That endpoint rewrites the whole order and iterates `order.items` (backend/src/repositories/order.repository.js:89). The loop throws on `undefined` after the header UPDATE and the item DELETE, so the transaction rolls back and the page shows "Order update failed". | Any stored order, pressing "Cancel" in its dialog: the request body is `{ orderStatus: 'Cancelled' }`. | Send the order's current retailer, centre, delivery date and items with the new status, so that only the status (and update stamp) changes and the page's local update matches the database. | not executed | MyOrdersPage.StartActionAsWritten, OrderFlows.StatusOnlyUpdateAlwaysFails | MyOrdersPage.StartAction, OrderFlows.StatusChangeKeepsOrder |
