# Peptide storefront core, modelled in Dafny

This project models the core of a small Next.js storefront backed by a hosted
Postgres database (Supabase). It covers:

- the JSON API route handlers for the cart, for orders and checkout, and for
  promotions (list, create, validate);
- the administrators' order list and account registration;
- the bearer-token gate (`requireAuth`/`requireAdmin`) and the page proxy;
- the client-side token helpers, the response envelope and the formatting helpers;
- the state machines of the UI components: the cart sheet's quantity editor, the
  add-to-cart control, the pagination window the three admin lists share, the
  checkout form's radio groups, the promotion toggle, and the admin order card and
  order detail views.

The database is one `Db.Store` object whose tables are sequences of rows, where a
row's id is its position. The two lookup tables (products, shipment methods) are
maps. Route handlers are methods that modify the store. Each handler names the
tables it may write and states the reply it returns and the new table contents.
A failing database call is a `faults` map argument: a step present in the map
fails with that message.

The query forms the code uses (`.single()`, `.limit(1)`, `.maybeSingle()`, a
filtered list) are the functions of `Query`. Their differences are proved where the
handlers depend on them. Signing and verifying tokens, hashing passwords and the
clock are parameters: `verify`, `hash`, `now`.

Files:

| file | models |
|---|---|
| `wrappers.dfy` | `Option`, `Result` |
| `strings.dfy` | `trim`, case mapping, `replace`, `split`/`join`, `indexOf`, decimal rendering |
| `envelope.dfy` | shared/helpers/api-response.ts |
| `schema.dfy` | the table rows, the enums of shared/enums/status.ts, replies, the `Db.Store` class |
| `query.dfy` | `.single()`, `.limit(1)` and filtered reads |
| `auth.dfy` | shared/utils/auth.ts |
| `proxy.dfy` | proxy.ts |
| `token.dfy` | shared/utils/token.ts |
| `paging.dfy` | page and page-size clamping and `.range()` pages of the two list endpoints |
| `cart_route.dfy` | app/api/cart/route.ts |
| `orders_route.dfy` | app/api/orders/route.ts |
| `promotions.dfy` | app/api/promotions/route.ts and app/api/promotions/validate/route.ts |
| `admin_orders.dfy` | app/api/admin/orders/route.ts |
| `register.dfy` | app/api/auth/register/route.ts |
| `formatter.dfy` | shared/utils/formatter.ts |
| `cart_sheet.dfy` | components/cart/cart-sheet.tsx |
| `add_to_cart.dfy` | components/products/add-to-cart.tsx |
| `page_numbers.dfy` | the `pageNumbers` window of the promotions tab, the orders tab and the admin panel page |
| `checkout_form.dfy` | components/orders/checkout-form.tsx |
| `promotions_tab.dfy` | the status toggle of components/admin/promotions-tab.tsx |
| `order_views.dfy` | components/admin/order-card.tsx and components/admin/order-detail.tsx |

## Model

| member | source | states |
|---|---|---|
| Envelope.PaginatedSuccess | shared/helpers/api-response.ts:21-34 | a paginated envelope is successful and carries exactly the given rows, pagination and message |
| Envelope.SuccessResponse | shared/helpers/api-response.ts:36-47 | a success envelope carries exactly the given data and message |
| Envelope.ErrorResponse | shared/helpers/api-response.ts:49-59 | an error envelope is unsuccessful with `null` data |
| Envelope.EnvelopesDistinct | shared/helpers/api-response.ts:36-59 | no success envelope equals an error envelope; `success` tells them apart |
| Envelope.DefaultMessages | shared/helpers/api-response.ts:21-59 | the default messages are "Operation successful", "Operation failed" and "Paginated data fetched successfully" |
| Schema.Failure | shared/helpers/api-response.ts:49-59 | an error reply has the given status, an unsuccessful body, null data and the message |
| Schema.Success | shared/helpers/api-response.ts:36-47 | a success reply has the given status, a successful body, the data and the message |
| Query.Matching | app/api/orders/route.ts:17-21 | a filtered read returns exactly the matching row positions, in table order |
| Query.First | app/api/cart/route.ts:93-99 | `.limit(1)` finds a row iff one matches, and then the first match |
| Query.Single | app/api/cart/route.ts:19-24 | `.single()` finds a row only when it is the one match, and nothing when none match |
| Query.SingleIsFirst | app/api/cart/route.ts:19-24 | when at most one row can match, `.single()` and `.limit(1)` agree |
| Query.SingleMissesDuplicates | app/api/auth/register/route.ts:27-36 | with two matches `.single()` finds nothing though `.limit(1)` finds a row |
| Query.AtMostOneMatching | app/api/cart/route.ts:19-24 | under the at-most-one invariant a filtered read has at most one row |
| Auth.RequireAuth | shared/utils/auth.ts:18-42 | missing or malformed header gives 401 "Unauthorized"; a failed verification gives 401 "Invalid or expired token"; otherwise the payload |
| Auth.RequireAdmin | shared/utils/auth.ts:50-60 | authentication failures pass through; the payload is returned iff authenticated with the administrator role (case-insensitive) |
| Auth.BearerToken | shared/utils/auth.ts:26-32 | a token is read only from a header of the bearer form: "Bearer", one space, the token without spaces, then the end or a space |
| Auth.BearerTokenAccepts | shared/utils/auth.ts:26-32 | the header yields token `t` iff it is exactly "Bearer", one space, `t` without spaces, then the end or a space |
| Auth.BearerTokenSound | shared/utils/auth.ts:26-32 | an accepted header has the bearer form |
| Auth.BearerTokenComplete | shared/utils/auth.ts:26-32 | every header of the bearer form is accepted with its token |
| Auth.BearerSchemeIsStrict | shared/utils/auth.ts:26-32 | "bearer " (lower case) and "Bearer" with two spaces are refused |
| Proxy.AnyPrefix | proxy.ts:30-33 | true iff some permitted route is a prefix of the path |
| Proxy.Gate | proxy.ts:6-38 | root passes; no cookie redirects to /unauthorized; a failed verification redirects to revalidation and deletes the cookie; else /forbidden unless a permission prefixes the path |
| Proxy.NoPermissionsNoAccess | proxy.ts:30-36 | a verified token without `perms` reaches no page but the root |
| Token.FindRow | shared/utils/token.ts:9-11 | the first cookie row starting with the prefix, or none iff no row does |
| Token.CookieRows | shared/utils/token.ts:9-10 | at least one row, and joining the rows with "; " gives the cookie string back |
| Token.GetToken | shared/utils/token.ts:8-13 | no token iff no cookie row starts with `name=` |
| Token.RowValue | shared/utils/token.ts:12 | the value read has no `=`; for a name without `=`, the row is the name, `=`, then the value, then possibly more |
| Token.TokenValueOfRow | shared/utils/token.ts:12 | the token read from `name=v` is `v` up to its first `=` |
| Token.GetTokenFirstRow | shared/utils/token.ts:9-12 | with several `name=` rows the first is read |
| Token.Base64UrlToBase64 | shared/utils/token.ts:26 | same length; `-` becomes `+`, `_` becomes `/`, every other character is kept |
| Token.DecodeToken | shared/utils/token.ts:19-26 | empty token: "Token is missing"; not three dot-separated parts: "Invalid token structure"; else the payload part in base64 |
| Token.DecodeTokenStructure | shared/utils/token.ts:21-24 | decoding gets past the checks iff the token is non-empty with exactly two dots |
| Paging.ClampPage | app/api/promotions/route.ts:17 | the page is at least 1, the request's page when that is at least 1, else 1 |
| Paging.PromotionsPageSize | app/api/promotions/route.ts:18-21 | the page size is in [1, 100], 10 when absent |
| Paging.AdminPageSize | app/api/admin/orders/route.ts:34-37 | the page size is in [1, MAX_PAGE_SIZE]; absent or 0 gives DEFAULT_PAGE_SIZE |
| Paging.ZeroPageSizeDiffers | app/api/admin/orders/route.ts:33-37 | an explicit page size 0 gives 1 on promotions but 10 on admin orders |
| Paging.PageRange | app/api/promotions/route.ts:22-23 | a page's range starts at a non-negative row and spans exactly `pageSize` rows |
| Paging.PageRangesAdjacent | app/api/promotions/route.ts:22-23 | consecutive pages ask for adjacent ranges |
| Paging.CeilDiv | app/api/admin/orders/route.ts:62-63 | the least page count whose pages hold `total` rows; 0 iff no rows |
| Paging.PromotionsTotalPages | app/api/promotions/route.ts:41-42 | at least 1, and the ceiling of total/pageSize when there are rows |
| Paging.AdminTotalPages | app/api/admin/orders/route.ts:62-63 | the least page count that holds every order, 0 for none |
| Paging.PageIds | app/api/promotions/route.ts:30-34 | newest id first, `pageSize` ids per page, fewer on the last, none past the end |
| Paging.RowOnPage | app/api/promotions/route.ts:22-34 | every row is listed on exactly one page, and that page is within the page count |
| CartRoute.SingleActiveCart | app/api/cart/route.ts:19-24 | the user's active cart when it is the only one |
| CartRoute.FirstActiveCart | app/api/cart/route.ts:93-99 | the user's first active cart, none iff there is none |
| CartRoute.SingleAgreesWithFirst | app/api/cart/route.ts:19-24 | with one active cart per user, GET's `.single()` and POST's `.limit(1)` find the same cart |
| CartRoute.FindOrCreateKeepsOneActive | app/api/cart/route.ts:93-125 | POST's find-or-create keeps at most one active cart per user, and the used cart is the user's active one |
| CartRoute.FindLine | app/api/cart/route.ts:128-134 | the first line of the product in the cart, none iff the cart has no such line |
| CartRoute.AddToLine | app/api/cart/route.ts:128-167 | adding keeps every existing line's cart and product in place, adds at most one line, and leaves a line for the product in the cart |
| CartRoute.AddToLineAt | app/api/cart/route.ts:128-167 | adding updates the found line in place or appends one new line |
| CartRoute.AddToLineQuantity | app/api/cart/route.ts:140-167 | adding increments an existing line by the quantity, or creates it with that quantity |
| CartRoute.AddToLineOthers | app/api/cart/route.ts:128-167 | adding leaves every other (cart, product) line unchanged |
| CartRoute.AddToLineKeepsUnique | app/api/cart/route.ts:128-167 | adding never creates a second line for a product in a cart |
| CartRoute.SetQuantity | app/api/cart/route.ts:212-216 | PATCH keeps every line's cart and product |
| CartRoute.SetQuantityEffect | app/api/cart/route.ts:212-216 | PATCH sets the matching line's quantity and no other |
| CartRoute.SetQuantityAbsent | app/api/cart/route.ts:212-216 | PATCH of a product not in the cart changes nothing |
| CartRoute.SetQuantityKeepsUnique | app/api/cart/route.ts:212-216 | PATCH keeps lines unique |
| CartRoute.RemoveLines | app/api/cart/route.ts:261-265 | DELETE never adds lines |
| CartRoute.RemoveLinesEffect | app/api/cart/route.ts:261-265 | DELETE removes the matching line and keeps every other |
| CartRoute.RemoveLinesKeepsUnique | app/api/cart/route.ts:261-265 | DELETE keeps lines unique |
| CartRoute.CartLines | app/api/cart/route.ts:41-56 | each line shown has a product and that product's name and price, and is a line of the cart |
| CartRoute.CartLinesJoin | app/api/cart/route.ts:41-56 | the lines shown are, in table order, exactly the cart's lines whose product exists, each with its own product id and quantity and the product's name and price |
| CartRoute.RequestedQuantity | app/api/cart/route.ts:88 | a positive numeric quantity is used as given, anything else is 1 |
| CartRoute.GetCart | app/api/cart/route.ts:10-69 | auth failures pass through; no cart gives success with null data; else the cart's lines; reads only |
| CartRoute.FindOrCreateCart | app/api/cart/route.ts:93-125 | reuses the first active cart or inserts one; on failure the carts are unchanged |
| CartRoute.AddOrIncrementLine | app/api/cart/route.ts:128-167 | on success the lines become `AddToLine`; on failure they are unchanged |
| CartRoute.PostCart | app/api/cart/route.ts:71-180 | missing product id gives 400; a failed cart query gives 500 with its message and no write; a failed cart insert, line read or line write gives 500 with that step's message; the reply is 200 iff no call on the path fails, and then the cart is found or created and the line table becomes `AddToLine` |
| CartRoute.PatchCart | app/api/cart/route.ts:182-232 | missing product or quantity below 1 gives 400; no cart gives 404; else the quantity is set |
| CartRoute.DeleteCartItem | app/api/cart/route.ts:234-281 | missing product gives 400; no cart gives 404; else the line is removed |
| OrdersRoute.SubtotalAppend | app/api/orders/route.ts:110-115 | the subtotal of two lists is the sum of their subtotals |
| OrdersRoute.Subtotal | app/api/orders/route.ts:110-115 | with no negative price or quantity the subtotal is not negative |
| OrdersRoute.PlacedOrder | app/api/orders/route.ts:117-144 | a pending order of the caller; subtotal from the lines; total = subtotal + fee; code "ORD-" and the time; contact, recipient, address fields and payment method copied from the request; an empty phone stored as null |
| OrdersRoute.OrderLines | app/api/orders/route.ts:146-163 | one order line per cart line, with its product, quantity and price snapshot |
| OrdersRoute.OrderAmountsAgree | app/api/orders/route.ts:110-163 | the order lines add up to the order's subtotal, and the total adds the fee |
| OrdersRoute.LinesSubtotal | app/api/orders/route.ts:146-163 | the order lines add up to the cart subtotal |
| OrdersRoute.Converted | app/api/orders/route.ts:165-177 | only the checked-out cart changes, to `converted` |
| OrdersRoute.ConvertEndsActiveCart | app/api/orders/route.ts:165-177 | after checkout the user has no active cart, and every other user's active cart is unchanged |
| OrdersRoute.Checkout | app/api/orders/route.ts:54-207 | 404 for a missing cart, unreadable items or an unknown shipment method; then order, items and cart conversion in that order, each failure leaving the earlier writes |
| OrdersRoute.WriteOrder | app/api/orders/route.ts:117-177 | the order row, its items and the cart conversion are written in that order; the first failing write answers 500 with its message and leaves the earlier writes; otherwise 200 with the new order id |
| OrdersRoute.UserOrders | app/api/orders/route.ts:17-21 | exactly the caller's orders whose shipment method exists, with its code |
| OrdersRoute.InsertByDateKeeps | app/api/orders/route.ts:21 | insertion keeps every view and adds one |
| OrdersRoute.InsertByDate | app/api/orders/route.ts:21 | one view longer, and the inserted view is in it |
| OrdersRoute.InsertByDateSorted | app/api/orders/route.ts:21 | insertion keeps a list newest first |
| OrdersRoute.NewestFirstOrderSorts | app/api/orders/route.ts:21 | the listing is newest first and a permutation of the joined orders |
| OrdersRoute.NewestFirstOrder | app/api/orders/route.ts:21 | the listing has as many views as were joined |
| OrdersRoute.ListUserOrders | app/api/orders/route.ts:11-45 | auth failures pass through; a read failure gives 500; else the caller's orders, newest first |
| OrdersRoute.ListedOrdersAreTheUsers | app/api/orders/route.ts:17-21 | an order is listed iff it is the caller's |
| Promotions.PromotionRows | app/api/promotions/route.ts:31-34 | one row per id of the page, in page order |
| Promotions.ListPromotions | app/api/promotions/route.ts:11-66 | auth failures pass through; a read failure gives 500; else the page's rows and its pagination block |
| Promotions.SanitizeCode | app/api/promotions/route.ts:94 | the stored code is trimmed and upper-case, is the upper-cased slice of the input with only whitespace outside it (so the input trimmed and upper-cased), and a normalised code is kept |
| Promotions.SanitizeIdempotent | app/api/promotions/route.ts:94 | normalising twice is normalising once |
| Promotions.SanitizeIgnoresCase | app/api/promotions/route.ts:94 | codes differing only in letter case are stored the same |
| Promotions.SanitizeIgnoresPadding | app/api/promotions/route.ts:94 | whitespace before or after the code, in any amounts, does not change the stored code |
| Promotions.NewPromotionRow | app/api/promotions/route.ts:111-126 | the normalised code and the request's fields, created by the caller |
| Promotions.InsertKeepsCodesUnique | app/api/promotions/route.ts:96-126 | inserting a code the lookup did not find keeps codes unique |
| Promotions.CreatePromotion | app/api/promotions/route.ts:68-150 | 400 for missing fields, an unknown type or an existing code, 500 for a failed insert; else 201 and one new row; codes stay unique |
| Promotions.ValidatePromotion | app/api/promotions/validate/route.ts:9-71 | 400 without a code, 404 for an unknown code, 400 when already used; else 200 with the promotion; reads only |
| Promotions.ValidationIsCaseSensitive | app/api/promotions/validate/route.ts:22-32 | a lower-case code finds no normalised promotion, though it would be stored as that code |
| AdminOrders.AdminOrderRows | app/api/admin/orders/route.ts:43-54 | one row per id of the page, in page order |
| AdminOrders.ListAdminOrders | app/api/admin/orders/route.ts:27-85 | non-administrators get 403 before the read; a read failure gives 500; else the page and its pagination |
| Register.EmailFilterText | app/api/auth/register/route.ts:30 | an absent email is matched as the text "undefined" |
| Register.CheckInput | app/api/auth/register/route.ts:12-23 | name, username and password are required; an email, when given, needs an `@` |
| Register.StoredEmail | app/api/auth/register/route.ts:45 | the trimmed email, or null when absent or blank |
| Register.NewUser | app/api/auth/register/route.ts:38-49 | trimmed name and username, the stored email and the hash instead of the password |
| Register.RegisterUser | app/api/auth/register/route.ts:9-62 | 400 for bad input or an existing account, 500 for a failed insert; else 201 and one new user |
| Register.UntrimmedUsernamePassesCheck | app/api/auth/register/route.ts:27-49 | for any username sent with surrounding whitespace, accounts holding its trimmed form (and not the email) are not found by the duplicate check, and the new account stores that trimmed username again |
| Register.TwoMatchesPassCheck | app/api/auth/register/route.ts:27-36 | two accounts matching the filter make the duplicate check find nothing |
| Formatter.FormatFullName | shared/utils/formatter.ts:3-5 | the result is trimmed, and is "first last" for trimmed non-empty names |
| Formatter.FormatNpwp | shared/utils/formatter.ts:7-14 | fifteen digits get the `dd.ddd.ddd.d-ddd.ddd` shape; any other input is returned as it is |
| Formatter.NpwpRoundTrip | shared/utils/formatter.ts:7-14 | deleting the dots and the dash of a formatted number gives the digits back |
| Formatter.KeepWellFormed | shared/utils/formatter.ts:30-37 | keeps exactly the well-formed options; an all-well-formed list is kept whole |
| Formatter.SanitizeOptions | shared/utils/formatter.ts:26-38 | undefined stays undefined; an array keeps only well-formed options |
| Formatter.KeepWellFormedIsSubsequence | shared/utils/formatter.ts:30-37 | the kept options are in their original order |
| Formatter.SanitizeOptionsOrderAndIdempotence | shared/utils/formatter.ts:26-38 | sanitising keeps order and sanitising again changes nothing |
| Formatter.SeparatorText | shared/utils/formatter.ts:56 | the text handed to `Number` is the input's characters other than `.`, in order, with the first comma among them turned into `.` and nothing else changed |
| Formatter.SeparatorTextCounts | shared/utils/formatter.ts:56 | the decimal point appears iff the input had a comma, and only one comma is converted |
| Strings.Trim | app/api/promotions/route.ts:94 | the result has no whitespace at either end, is a slice of the input with only whitespace outside it, and a trimmed input is kept |
| Strings.RemoveAll | shared/utils/formatter.ts:56 | no `x` is left, and an input without `x` is kept |
| Strings.RemoveAllKeepsOrder | shared/utils/formatter.ts:56 | the `k`-th character left is the `k`-th character of the input that is not `x` |
| Strings.ReplaceFirst | shared/utils/formatter.ts:56 | same length, and an input without `x` is kept |
| Strings.ReplaceFirstAt | shared/utils/formatter.ts:56 | with `k` the first index of `x`, the result is the input with position `k` replaced by `y` |
| Strings.ReplaceFirstPointwise | shared/utils/formatter.ts:56 | each character is kept except at the first index of `x`, which becomes `y` |
| Formatter.BlocksKey | shared/utils/formatter.ts:59-82 | a key is blocked iff it is neither digits/backspace only nor an allowed key |
| Formatter.SingleCharacterKeys | shared/utils/formatter.ts:59-82 | a single digit and c, v, C, V pass; any other single character is blocked |
| CartSheetView.Clamp | components/cart/cart-sheet.tsx:18-19 | the quantity is within [1, 99], and in-range values are kept |
| CartSheetView.CartSheet.GetQty | components/cart/cart-sheet.tsx:48-52 | the local override when there is one, else the server quantity |
| CartSheetView.CartSheet.SetQty | components/cart/cart-sheet.tsx:53-56 | stores the clamped value for the product only; every override stays in range |
| CartSheetView.CartSheet.Decrease | components/cart/cart-sheet.tsx:128-130 | stores the shown quantity minus one, clamped |
| CartSheetView.CartSheet.Increase | components/cart/cart-sheet.tsx:159-161 | stores the shown quantity plus one, clamped |
| CartSheetView.CartSheet.TypeQuantity | components/cart/cart-sheet.tsx:146-151 | an unreadable value is ignored; a number is floored, clamped and stored |
| CartSheetView.CartSheet.BlurUpdate | components/cart/cart-sheet.tsx:58-68 | an update is sent only for a shown quantity that differs from the server's and is at least 1 |
| CartSheetView.CartSheet.HandleQtyBlur | components/cart/cart-sheet.tsx:58-68 | sends that update and drops only this product's override |
| CartSheetView.CartSheet.DecreaseDisabled | components/cart/cart-sheet.tsx:131-134 | disabled iff the shown quantity is at most 1 or an update is pending |
| CartSheetView.CartSheet.IncreaseDisabled | components/cart/cart-sheet.tsx:162-165 | disabled iff the shown quantity is at least 99 or an update is pending |
| CartSheetView.BlurSendsExactlyChanges | components/cart/cart-sheet.tsx:58-68 | with overrides in range an update is sent iff the quantity changed |
| CartSheetView.EnabledStepsMoveByOne | components/cart/cart-sheet.tsx:128-165 | an enabled button moves the quantity by exactly one |
| CartSheetView.ShownSubtotalMatchesCheckout | components/cart/cart-sheet.tsx:74-77 | before any edit the sheet's subtotal is the one checkout charges |
| AddToCartView.ChangedQuantity | components/products/add-to-cart.tsx:33-38 | unreadable or below 1 gives 1, above 99 gives 99, else the floor |
| AddToCartView.Decreased | components/products/add-to-cart.tsx:40-42 | one less, never below 1 |
| AddToCartView.Increased | components/products/add-to-cart.tsx:44-46 | one more, never above 99 |
| AddToCartView.AddToCart.HandleChange | components/products/add-to-cart.tsx:33-38 | the quantity becomes the clamped typed value |
| AddToCartView.AddToCart.HandleDecrease | components/products/add-to-cart.tsx:40-42 | the quantity becomes one less, at least 1 |
| AddToCartView.AddToCart.HandleIncrease | components/products/add-to-cart.tsx:44-46 | the quantity becomes one more, at most 99 |
| AddToCartView.AddToCart.HandleAddToCart | components/products/add-to-cart.tsx:48-58 | unauthenticated: nothing sent and the login dialog opens; else the product id in decimal with the quantity |
| AddToCartView.AddToCart.DecreaseDisabled | components/products/add-to-cart.tsx:76 | disabled iff at 1 or pending |
| AddToCartView.AddToCart.IncreaseDisabled | components/products/add-to-cart.tsx:97 | disabled iff at 99 or pending |
| AddToCartView.IncreaseThenDecrease | components/products/add-to-cart.tsx:40-46 | below 99, one step up and one down returns to the start |
| AddToCartView.StepsStayInRange | components/products/add-to-cart.tsx:40-46 | steps stay within [1, 99] and move by one when not at a bound |
| Strings.NatToStringRoundTrip | components/products/add-to-cart.tsx:55 | `String(id)` reads back as `id` |
| PageNumbers.BuildPageNumbers | components/admin/promotions-tab.tsx:64-75 | the loop builds exactly the page window |
| PageNumbers.PageWindow | components/admin/promotions-tab.tsx:64-75 | at most nine buttons, each a page between 1 and the page count or one of the two markers |
| PageNumbers.FewPagesAllListed | components/admin/orders-tab.tsx:58-69 | up to seven pages, every page is listed in order |
| PageNumbers.ManyPagesShape | app/admin/panel/page.tsx:73-84 | at most nine entries, from 1 to the last page; neighbouring numbers are consecutive; a marker stands for a gap of at least two |
| PageNumbers.ManyPagesWindow | components/admin/promotions-tab.tsx:64-75 | the window around the page is listed; each ellipsis appears iff pages are hidden on its side |
| PageNumbers.NavFlags | components/admin/promotions-tab.tsx:60-62 | previous shown iff past page 1; next iff before the last page; a missing total counts as one page |
| PageNumbers.NavAgreesWithWindow | components/admin/orders-tab.tsx:54-69 | next is shown iff the last listed page is past the current one |
| CheckoutForm.RadioValue | components/orders/checkout-form.tsx:245 | the prefixed value of an option |
| CheckoutForm.SelectedId | components/orders/checkout-form.tsx:221-224 | the chosen id with its prefix removed, empty when nothing is chosen |
| CheckoutForm.SelectionRoundTrip | components/orders/checkout-form.tsx:221-245 | choosing an option gives back its id |
| CheckoutForm.PickedItemShown | components/orders/checkout-form.tsx:221-245 | the radio shows the chosen option as checked |
| CheckoutForm.GroupsDoNotClash | components/orders/checkout-form.tsx:221-269 | a shipment value and a payment value are never equal |
| CheckoutForm.IsGlobalDisabled | components/orders/checkout-form.tsx:67-71 | the form is disabled iff any of its four loads is pending |
| PromotionsTab.ToggleRequest | components/admin/promotions-tab.tsx:77-84 | the request sets the opposite of the current state |
| PromotionsTab.ToggleProperties | components/admin/promotions-tab.tsx:77-95 | toggling twice restores the state; the toast says "activated" iff the request activates |
| OrderViews.Present | components/admin/order-detail.tsx:49-56 | only non-empty texts taken from the parts; none iff no part is truthy; all of them, in order, when every part is |
| OrderViews.PresentKeepsOrder | components/admin/order-detail.tsx:49-56 | the `k`-th text kept is the value of the `k`-th truthy part |
| OrderViews.PresentEnds | components/admin/order-card.tsx:25-32 | a truthy first part stays first, a truthy last part stays last, with a truthy second-to-last part right before it |
| OrderViews.AddressSegments | components/admin/order-detail.tsx:49-56 | at most four non-empty segments |
| OrderViews.AddressLine | components/admin/order-card.tsx:25-32 | the line is empty iff there is no segment |
| OrderViews.AddressLineShape | components/admin/order-card.tsx:25-32 | the line starts with its first segment and ends with its last; empty iff no column is given |
| OrderViews.AddressLineComplete | components/admin/order-detail.tsx:49-56 | with every column given, "address, city, state, postal code, country" |
| OrderViews.AddressLineWithoutCity | components/admin/order-detail.tsx:49-56 | with only the city missing, "address, state, postal code, country" |
| OrderViews.CardAddressText | components/admin/order-card.tsx:71 | the address line, or the card's fallback when it is empty |
| OrderViews.CardFallbackIsNotTheDash | components/admin/order-card.tsx:71 | the card's fallback is three characters, not the detail page's dash |
| OrderViews.PaymentLabel | components/admin/order-detail.tsx:225 | null gives the dash; otherwise every `-` becomes a space and nothing else changes |
| OrderViews.PaymentMethodsShownAsStored | shared/enums/status.ts:15-19 | the store's payment methods are shown as stored |
| OrderViews.ShipmentLabel | components/admin/order-detail.tsx:231-233 | the order's method, else the joined code, else the dash |
| OrderViews.StatusOptionsComplete | components/admin/order-detail.tsx:37-44 | every order status once, in lifecycle order, with six distinct texts |
| OrderViews.HandleStatusChange | components/admin/order-detail.tsx:58-60 | the order id in decimal, reading back as the id, with the chosen status |
| OrderViews.Timeline | components/admin/order-detail.tsx:248-251 | "Placed" with the creation date comes first |
| OrderViews.TimelineShowsSetStamps | components/admin/order-detail.tsx:252-281 | a milestone is shown iff its timestamp is truthy, and then with that timestamp |

## Left out

- Signing and verifying JSON web tokens, password hashing, the clock, e-mail sending and random ids are parameters (`verify`, `hash`, `now`) or left out. The order confirmation e-mail of app/api/orders/route.ts:179-191 is not modelled.
- Concurrency: two requests interleaving between a read and a write (two carts created at once, a code inserted twice) is not modelled; each handler runs alone on the store.
- `try`/`catch` blocks that turn an unexpected exception into a 500 are not modelled beyond the `faults` of the database calls. The register route's catch at app/api/auth/register/route.ts:63-68 answers without a status (so 200); it is not modelled.
- Strings.Trim: whitespace is ASCII white space plus the no-break space and the byte order mark, not every Unicode space.
- Strings.ToUpper: maps ASCII letters only; JavaScript's Unicode case mapping is not modelled. The same holds for Strings.ToLower.
- Promotions.SanitizeCode: inherits the ASCII-only case mapping and whitespace set.
- Paging.ClampPage: query parameters are integers or absent; fractional and non-numeric values (`NaN`) are not modelled. The same holds for Paging.PromotionsPageSize and Paging.AdminPageSize.
- Register.EmailFilterText: an absent email is always matched as the text "undefined"; an email sent as JSON `null` makes the source's filter text "null" (app/api/auth/register/route.ts:30), which the model does not distinguish.
- CartRoute.RequestedQuantity: quantities are integers; a fractional JSON number such as 2.5 passes the checks of app/api/cart/route.ts:88 and is used as sent, which the model does not represent. The same holds for CartRoute.PatchCart (app/api/cart/route.ts:192).
- CartSheetView.CartSheet.TypeQuantity: `valueAsNumber` is a real or absent (`NaN`); infinities are not modelled. The same holds for AddToCartView.ChangedQuantity.
- Token.DecodeToken: stops at the base64 text; `atob` and `JSON.parse` are not modelled.
- `formatCurrency` and `numericSeparator` (shared/utils/formatter.ts:16-24, 40-53) format with the browser's locale data, and `parseSeparator`'s final `Number(...)` parses a float; none is modelled. Formatter.SeparatorText covers the text handed to `Number`.
- Prices and amounts are integers; floating-point money is not modelled.
- `setToken` and `removeToken` write `document.cookie` and are not modelled; the token cookie's name is a parameter.
- The proxy's route matcher (proxy.ts:41-45) selects which paths reach the proxy. It is not modelled; the proxy is modelled for every path it receives.
- The admin order status route behind `useUpdateOrderStatus` is not part of this model. The detail page is modelled only up to the request it sends (OrderViews.HandleStatusChange).
- The values of the role and promotion-type enums come from files outside the core; the model takes the administrator role as "administrator" and the promotion types as "discount", "fixed" and "free_shipping".
- A `.range()` past the last row returns an empty page in the model.
- The admin list's column projection is not modelled; the list's rows are the order rows.
- React rendering, the toast component, query caching and the `updatingPromotionId` spinner state of the promotions tab are not modelled.
- Timeline dates are shown as stored; `formatDateTime` is not modelled.
- The response envelope's timestamps come from the clock and are left out.
- The order card's fallback for an empty address is modelled as it is written: three characters (U+00E2 U+20AC U+201D), the UTF-8 bytes of an em dash read as Windows-1252. OrderViews.CardFallbackIsNotTheDash states the difference from the detail page's dash.
- Checkout does not apply a promotion or record its use, does not check the payment method against the enum, accepts a cart without items and does not roll back earlier writes when a later one fails. Validation ignores `is_active` and the promotion's dates and does not normalise the code. The model keeps each of these as the code does.
