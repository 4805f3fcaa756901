# Restaurant site: tables, forms and page state

A model of a small restaurant web application written for Node.js. An
Express server (`server.js`) keeps three MySQL tables: `users`, `cart` and
`orders`. It also keeps a session per browser; the model follows one browser's session. Its JSON routes register and
log in users, edit and delete users, keep a per-user cart and turn a cart
into an order. In the browser:

- the registration, change-password and reset-password pages check their
  fields before they send anything;
- the admin page keeps a local copy of the user list, with hidden ids, a
  search box and delete/update dialogs;
- the cart page draws the cart with its total and turns its `-`/`+`
  buttons into requests;
- every page has a light/dark theme switch kept in local storage.

Modules:

- `Wrappers`, `Seqs`, `Text`: `Option`; order-preserving filtering, first
  index and reversal of sequences; the JavaScript string operations used
  (`trim`, `length` in UTF-16 code units, ASCII `toLowerCase`, `includes`,
  a `/[a-z]/` style test).
- `Schema`: the rows of the three tables, the queries the handlers run on
  them (a user's cart, clearing it, removing or re-quantifying a row by id
  and owner), the order total, and what a well-formed table is. Ids are
  unique. Emails are unique, as the table's `UNIQUE` key demands; usernames
  are unique only because registration and update look them up before
  writing (server.js:102, server.js:205). A user holds one cart row per item
  name. Every order snapshots a non-empty cart of its own user, with its total.
- `Server`: a class holding the tables, their auto-increment counters and
  the session; one method per route handler. Every method that changes a
  table keeps the tables well formed, and every cart operation leaves other
  users' rows as they were.
- `PasswordRules`, `Alerts`, `RegisterForm`, `ChangePasswordForm`,
  `ResetPasswordForm`: the client-side checks, as functions that return the
  first failure or the body to send.
- `AdminPanel`, `CartPage`, `ThemeToggle`: the page state holders, as classes
  whose methods update their fields, with pure functions for the search
  filter, the hidden-set toggle, the quantity rule and the theme switch.

Where the project's documentation and `server.js` differ, the model follows
`server.js`:
- the server accepts passwords of length 6, while the pages demand 8 with
  mixed case and a digit;
- the server stores the price the client sends;
- `GET /api/users`, `PUT /api/users/:id` and `DELETE /api/users/:id` check
  neither a session nor an admin flag;
- no route checks the `X-CSRF-Token` header the pages send;
- there is no upper bound on quantities.

Modelling conventions:
- An absent JSON field is the empty string or 0, because the source tests
  both with `!`.
- Prices are integers, in the smallest currency unit.
- Tables are sequences in insertion order, so `ORDER BY created_at DESC`
  is the reverse of a filter.
- `bcrypt` is a digest that remembers its salt and its password. The salt
  is a parameter, because the real salt is random.

## Model

| member | source | states |
|---|---|---|
| Seqs.FilterMembership | server.js:299-310 | an element is in a `WHERE` result exactly when it is in the table and satisfies the condition |
| Seqs.FilterMembers | server.js:299-310 | a `WHERE` result holds exactly the rows that pass, in table order |
| Seqs.FilterIsSubsequence | server.js:299-310 | a `WHERE` result keeps table order and drops rows only |
| Seqs.FilterAppend | server.js:284-285 | filtering distributes over appending a row, so an insert is seen only by queries its row satisfies |
| Seqs.FilterAbsorb | server.js:313-326 | deleting rows a later query rejects anyway does not change that query's result |
| Seqs.FilterPairwise | server.js:233-247 | deleting rows keeps every pairwise uniqueness the table had |
| Seqs.FilterPointwise | server.js:341-343 | updating only rows a query rejects, keeping them rejected, does not change that query's result |
| Seqs.FirstIndex | server.js:263-270 | the first row that satisfies the condition, or none when no row does |
| Seqs.Reverse | server.js:397-418 | `ORDER BY created_at DESC` over insertion order: position k holds the k-th newest row |
| Text.Trim | public/js/register.js:29-30 | `trim` cuts exactly the leading and trailing JavaScript whitespace and keeps the middle |
| Text.TrimOfTrimmed | public/js/reset-password.js:100-101 | a string with no surrounding whitespace is its own trim |
| Text.TrimIdempotent | public/js/reset-password.js:100-101 | trimming twice is trimming once |
| Text.Lower | public/js/admin.js:100-104 | `toLowerCase` restricted to ASCII: each `A`-`Z` becomes its lowercase letter, every other character is kept, and the length is kept |
| Text.CodeUnits | server.js:96 | `length` counts UTF-16 code units: between one and two per character, and exactly one per character iff no character lies outside the Basic Multilingual Plane |
| Text.Contains | public/js/admin.js:103-104 | `includes`: the term occurs in the string at some position |
| Text.TrimEmptyIff | public/js/register.js:35 | a trimmed field is empty exactly when the typed text is all whitespace |
| Text.HasCharIn | public/js/change-password.js:42-44 | `/[lo-hi]/.test(s)` holds exactly when some character of `s` is in the range |
| Schema.Hash | server.js:112 | a hash always matches the password it was made from |
| Schema.CompareHash | server.js:150 | a hash matches its own password and no other |
| Schema.Total | server.js:369 | Σ price × quantity over the rows, 0 for no rows; non-negative when every line is, non-positive when every line is |
| Schema.TotalAppend | server.js:369 | the order total is additive over splitting the cart |
| Schema.TotalPositive | server.js:369 | a non-empty cart of positive prices and quantities has a positive total (the server does not enforce positivity, see `Server.NegativeLineAccepted`) |
| Schema.CartOf | server.js:304 | a user's cart holds exactly the table rows with that user id, in table order |
| Schema.ClearCart | server.js:380 | after clearing, the table holds exactly the rows of other users, in order |
| Schema.RemoveRow | server.js:320 | after the delete, the table holds exactly the rows that do not match both the id and the owner, in order |
| Schema.SetQuantity | server.js:341-342 | rows stay in place with their id, owner, item and price; a row matching id and owner gets the new quantity; every other row is unchanged |
| Schema.OrdersOf | server.js:402 | a user's orders are exactly the orders with that user id, in insertion order |
| Schema.Profiles | server.js:186 | one entry per user, in order, with that user's id, username and email and no password |
| Schema.Taken | server.js:102-108 | the lookup finds a row iff some user has the email or some user has the username |
| Schema.TakenByOther | server.js:205-211 | the update's lookup is the registration lookup with the edited user left out: a clash found only with users of that id does not count, and a clash with any other user does; a found clash is one `Taken` finds too |
| Schema.ClearCartScoped | server.js:380 | clearing a user's cart empties it and leaves every other user's cart as it was |
| Schema.RemoveRowScoped | server.js:320 | deleting a row by id and owner leaves every other user's cart as it was |
| Schema.SetQuantityScoped | server.js:341-343 | setting a quantity by id and owner leaves every other user's cart as it was |
| Schema.UpdateRowScoped | server.js:272-274 | raising the quantity of one of a user's rows leaves every other user's cart as it was |
| Schema.AppendRowScoped | server.js:284-285 | a row inserted for a user is invisible in every other user's cart |
| Schema.AddUserOk | server.js:102-121 | inserting a user whose email and username are both free keeps ids, emails and usernames unique |
| Schema.RenameUserOk | server.js:205-226 | renaming a user to a name and email no other user holds keeps them unique |
| Schema.DeleteUserOk | server.js:236 | deleting users keeps the table well formed |
| Schema.BumpQuantityOk | server.js:272-274 | changing a row's quantity keeps ids and (user, item) pairs unique |
| Schema.AddRowOk | server.js:284-285 | inserting a row for an item the user does not hold keeps one row per (user, item) |
| Schema.SetQuantityOk | server.js:341-343 | a quantity update keeps the cart well formed |
| Schema.FilterCartOk | server.js:320 | deleting cart rows keeps the cart well formed |
| Schema.AddOrderOk | server.js:369-373 | appending a consistent order with a fresh id keeps the orders well formed |
| Server.RegisterInputError | server.js:92-98 | the register field checks in order: any empty field first, then a password under 6 UTF-16 code units, each with its message |
| Server.SurrogatePairsCountTwice | server.js:96 | a password of three emoji has length 6 and passes the server's length check |
| Server.Authenticated | server.js:252 | `!req.session.userId` fails: a user id is present and is not 0 |
| Server.CartInputMissing | server.js:258 | a field is falsy: an empty item name, or a price or quantity of 0 |
| Server.NegativeLineAccepted | server.js:258 | a negative price with a positive quantity passes the field check, and its line makes an order total negative |
| Server.Server.constructor | server.js:88-445 | empty, well-formed tables, every auto-increment counter at 1, and no session |
| Server.Server.Register | server.js:88-128 | field error: 400 with its message. Email or username taken: 400 "User already exists". Either way no user is inserted. Otherwise 201 and exactly one row with a fresh id and the hashed password is appended. Tables stay well formed |
| Server.Server.Login | server.js:131-162 | 400 iff a field is empty. 200 iff some user has that email and the password matches. An unknown email and a wrong password both get 401 "Invalid credentials". The session changes only on 200, to that user's id and username |
| Server.Server.Logout | server.js:165-168 | the session is gone afterwards and the reply is 200 |
| Server.Server.CurrentUser | server.js:171-182 | 401 without a session. 500 when the session's user no longer exists. 200 with that user's id, username and email exactly when the session is logged in and its user exists |
| Server.Server.ListUsers | server.js:185-192 | every user's id, username and email, newest first, without a session check |
| Server.Server.UpdateUser | server.js:195-230 | 400 when a field is empty. 400 when the name or email belongs to a user with a different id. 404 when the id is absent. Otherwise 200, which changes only that user's username and email; a user keeping their own name and email also gets 200. Any other reply leaves the table unchanged. Tables stay well formed |
| Server.Server.DeleteUser | server.js:233-247 | exactly the users with that id are removed and the others keep their order. 404 iff there was none |
| Server.Server.AddToCart | server.js:251-296 | 401 without a session and 400 when a field is falsy, both leaving the cart unchanged. An item the user already holds gets old + new quantity and no new row. Otherwise one row is appended with the client's price. One row per (user, item) is kept. Other users' carts are untouched |
| Server.Server.GetCart | server.js:299-310 | 401 without a session. Otherwise the rows are `CartOf` the session user: exactly that user's rows, in table order |
| Server.Server.RemoveCartItem | server.js:313-326 | 401 without a session. Otherwise only a row with that id owned by the session user is deleted. The reply is 200 even when none matched. Other users' carts are untouched |
| Server.Server.UpdateCartQuantity | server.js:329-350 | 401 without a session. 400 for a quantity below 1. Otherwise only a row with that id owned by the session user gets the quantity, with 200 even when none matched. Other users' carts are untouched |
| Server.Server.PlaceOrder | server.js:353-394 | 401 without a session. 400 "Cart is empty" and no order for an empty cart. Otherwise exactly one order is appended, holding the user's rows as a snapshot and total = Σ price × quantity. Then that user's cart, and only that cart, is emptied |
| Server.Server.ListOrders | server.js:397-418 | 401 without a session. Otherwise the session user's orders, newest first |
| Server.Server.LastOrder | server.js:421-445 | 401 without a session. Otherwise the first order the list would show, or null. That order belongs to the user and is consistent |
| PasswordRules.CheckRequirements | public/js/change-password.js:39-44 | each of the four flags holds exactly when its own requirement does; the length flag counts UTF-16 code units |
| PasswordRules.ValidatePasswordRequirements | public/js/change-password.js:39-53 | true iff the password has at least 8 UTF-16 code units, an ASCII lowercase letter, an uppercase letter and a digit; the reset page's copy at public/js/reset-password.js:46-58 is the same |
| Alerts.SafeType | public/js/register.js:13-14 | a type from {error, success, warning, info} is kept, any other becomes `info` |
| RegisterForm.Message | public/js/register.js:35-75 | the alert text of each failure |
| RegisterForm.ValidateRegistration | public/js/register.js:29-92 | checks run in this order and the first failure wins: empty field (username and email trimmed), username under 3, email without `@`, mismatch, then length, lowercase, uppercase, digit. Each failure is reported iff every earlier check passed. The request carries the trimmed username and email |
| RegisterForm.SendsExactlyStrongPasswords | public/js/register.js:51-75 | the page sends a request iff the fields are filled, the username and email are acceptable, the confirmation matches and the password meets the strength predicate the other pages use |
| RegisterForm.MissingFieldIffBlank | public/js/register.js:29-38 | "Please fill in all fields" is shown iff the username or email is empty or only whitespace, or a password field is empty |
| RegisterForm.SentRequestPassesServerChecks | public/js/register.js:86-92 | every request the page sends passes the server's field and length checks |
| ChangePasswordForm.Message | public/js/change-password.js:80-101 | the alert text of each failure |
| ChangePasswordForm.ValidateChange | public/js/change-password.js:75-119 | checks run empty field → weak new password → mismatch → same as current, and the first failure wins. The request is sent iff all pass |
| ResetPasswordForm.Message | public/js/reset-password.js:106-124 | the alert text of each failure |
| ResetPasswordForm.AllDigits | public/js/reset-password.js:111 | true iff every character is an ASCII digit |
| ResetPasswordForm.IsSixDigitCode | public/js/reset-password.js:111-114 | a code is accepted iff its length is 6 code units and every character is an ASCII digit, which is the same as exactly six ASCII digits |
| ResetPasswordForm.ValidateReset | public/js/reset-password.js:100-139 | email and code are trimmed, the passwords are not. Checks run fields → code → strength → match and the first failure wins. The request is sent iff all pass |
| ResetPasswordForm.MissingFieldIffBlank | public/js/reset-password.js:100-109 | "Please fill in all fields" is shown iff the email or code is empty or only whitespace, or a password field is empty |
| ResetPasswordForm.SentRequestIsWellFormed | public/js/reset-password.js:133-139 | a sent request has a six-digit code, a strong password and a non-empty trimmed email |
| AdminPanel.Matches | public/js/admin.js:102-105 | a user matches when the lowercased username or the lowercased email contains the term |
| AdminPanel.SearchUsers | public/js/admin.js:99-105 | the order-preserving filter by `Matches` on the lowercased term: exactly the matching users, in their order. The empty term keeps everyone |
| AdminPanel.EmptyTermKeepsAll | public/js/admin.js:102-105 | an empty search term filters out no one |
| AdminPanel.Toggle | public/js/admin.js:137-142 | toggling flips the membership of that id and of no other |
| AdminPanel.ToggleTwice | public/js/admin.js:137-142 | toggling the same id twice gives back the hidden set |
| AdminPanel.Truthy | public/js/admin.js:178 | `!userToDelete` (and `!userToUpdate`) fails: an id is present and is not 0 |
| AdminPanel.Panel.constructor | public/js/admin.js:1-4 | empty list, nothing hidden, no dialog target |
| AdminPanel.Panel.LoadUsers | public/js/admin.js:7-38 | a successful fetch replaces the list. A failed one leaves it |
| AdminPanel.Panel.ToggleUserVisibility | public/js/admin.js:137-151 | the hidden set is toggled at that id only, and the table is redrawn with the current search |
| AdminPanel.Panel.OpenDeleteModal | public/js/admin.js:154-155 | the delete dialog targets that id |
| AdminPanel.Panel.CloseDeleteModal | public/js/admin.js:170-174 | closing the delete dialog resets its target to null |
| AdminPanel.Panel.ConfirmDelete | public/js/admin.js:177-209 | nothing changes without a target or when the server refuses. Otherwise no user with that id remains, the others keep their order, the id is no longer hidden and the dialog closes |
| AdminPanel.Panel.OpenUpdateModal | public/js/admin.js:212-213 | the update dialog targets that id |
| AdminPanel.Panel.CloseUpdateModal | public/js/admin.js:223-227 | closing the update dialog resets its target to null |
| AdminPanel.Panel.SubmitUpdate | public/js/admin.js:230-268 | nothing changes without a target or when the server refuses. Otherwise only the username and email of the first entry with that id change, nothing when there is none, and the dialog closes |
| CartPage.ViewOf | public/js/cart.js:43-61 | a drawn row shows the item, price, quantity and price × quantity. Its `-` asks for quantity − 1 and its `+` for quantity + 1 |
| CartPage.DisplayCart | public/js/cart.js:36-69 | one row per cart entry, in order, and a displayed total of Σ price × quantity: the same total the server puts in the order |
| CartPage.LoadCart | public/js/cart.js:16-34 | a failed request shows the error. An empty cart shows the empty message and no rows. Otherwise the rows and the total are drawn |
| CartPage.RemoveItem | public/js/cart.js:95-98 | a `DELETE` for that row is sent iff the user confirms |
| CartPage.UpdateQuantity | public/js/cart.js:71-93 | a new quantity below 1 becomes a removal, sent only on confirmation. Otherwise a `PUT` of exactly that quantity is sent, never one the server rejects as below 1 |
| CartPage.ButtonsOfRow | public/js/cart.js:56-58 | `+` puts quantity + 1. `-` on a quantity above 1 puts quantity − 1. `-` on a quantity of 1 or less asks for a removal |
| CartPage.Cached | public/js/cart.js:3-4 | a token counts as cached only when present and non-empty |
| CartPage.TokenCache.constructor | public/js/cart.js:3 | the cache starts from the page's existing local storage |
| CartPage.TokenCache.GetCsrfToken | public/js/cart.js:2-11 | a cached token is returned and storage is left unchanged. Otherwise the fetched token is stored and returned. A non-empty returned token is what the next call finds |
| CartPage.TwoRequests | public/js/cart.js:2-11 | once the first call yields a non-empty token, the second call returns the same token and does not fetch |
| ThemeToggle.SavedTheme | public/js/theme-toggle.js:8-10 | the stored theme, or `light` when nothing (or the empty string) is stored |
| ThemeToggle.Toggled | public/js/theme-toggle.js:29 | `dark` becomes `light` and any other value becomes `dark` |
| ThemeToggle.ToggledTwice | public/js/theme-toggle.js:27-32 | toggling twice returns the original theme iff it was `light` or `dark` |
| ThemeToggle.DataTheme | public/js/theme-toggle.js:13-19 | the `data-theme` attribute is set, to `dark`, iff the theme is `dark`, and removed otherwise |
| ThemeToggle.Page.constructor | public/js/theme-toggle.js:35-41 | on load the saved theme is applied |
| ThemeToggle.Page.ApplyTheme | public/js/theme-toggle.js:13-19 | the attribute is present iff the theme is `dark` |
| ThemeToggle.Page.SaveTheme | public/js/theme-toggle.js:22-24 | the theme key is written and no other key |
| ThemeToggle.Page.ToggleTheme | public/js/theme-toggle.js:27-32 | the toggled theme is shown and stored, so the stored and the shown theme agree afterwards |
| ThemeToggle.Page.ToggleTwice | public/js/theme-toggle.js:27-32 | two clicks from `light` or `dark` restore the stored and the shown theme |

## Left out

- Database failures: every `500` branch that follows a failed query is left
  out, because each query is assumed to succeed. The exception is `GET /api/user`
  for a deleted user, which the source also answers with 500.
- A failed cart clear after an order is stored (server.js:380-384) is left out
  too, for the same reason: the query is assumed to succeed.
- Concurrent requests: each handler runs atomically. The check-then-insert race
  in registration and the read-insert-clear race in order placement are not
  modelled.
- `bcrypt`: hashing is a digest that remembers its password and salt. Only
  "compare matches the hashed password and no other" is kept. Cost factor and
  format are not modelled.
- `Schema.CompareHash`: compare is exact equality of passwords. bcrypt reads
  only the first 72 bytes of a password, so two passwords sharing those bytes
  both match the same hash; `Server.Server.Login` likewise accepts only the
  exact password in the model.
- `Text.Lower`: lowercases ASCII letters only and maps one character to one.
  JavaScript's full Unicode `toLowerCase` (accented capitals, `İ` becoming two
  code points) is not modelled.
- Several browsers at once: express-session keeps one session per cookie; the
  model holds the session of one browser.
- MySQL collation: emails, usernames and item names compare case-sensitively
  in the model, while MySQL's default collation ignores case and trailing
  spaces.
- `created_at`: insertion order stands for it. Rows created in the same second,
  which MySQL may return in any order, are not modelled. `Schema.CartOf` also
  keeps table order although `SELECT * FROM cart WHERE user_id = ?`
  (server.js:304) has no `ORDER BY`, so MySQL promises no order there.
- The `items` column round trip through `JSON.stringify`/`JSON.parse` is the
  identity in the model. Column names, such as `item_name`, are not modelled.
- Deleting a user leaves that user's cart rows and orders in place. Foreign-key
  cascades defined in the database schema are not part of this model.
- The login reply's `username` field (server.js:160), the page routes and redirects
  (server.js:48-84), the `express-session` cookie, and `listen` are not modelled.
- Routes that are not in `server.js` are not modelled: CSRF token issue and
  check, rate limiting, password reset, change password, and reviews. Neither
  are a server-side price table, a quantity upper bound, or an admin guard.
- `Server.Server.UpdateCartQuantity`: an absent `quantity` is 0 here and gets
  the 400. In the source, `undefined < 1` is false, so the update runs with a
  null quantity.
- Type checks of JSON bodies: fields are strings or integers. A number where a
  string is expected, or an array, is not modelled.
- Prices and totals are integers in the smallest currency unit. `toFixed(2)`
  formatting and floating-point rounding are not modelled.
- `AdminPanel.SearchUsers`: lowercasing covers ASCII letters only. JavaScript's
  full Unicode `toLowerCase` is not modelled.
- `CartPage.TokenCache.GetCsrfToken`: the fetched value is a string. A
  response without `csrfToken`, which would store the text `undefined`, is
  not modelled. Nor is a failed token request: there `response.json()`
  rejects, nothing is stored, and `updateQuantity` and `removeItem` catch the
  error and send nothing (public/js/cart.js:5-6, 90, 112). `server.js` has no
  `/api/csrf-token` route, so against it that failure is what happens.
- Browser-only effects are not modelled: DOM rendering, `escapeHtml`, dates,
  `updateStats`, alerts, timeouts, redirects and the `fetch` calls
  themselves. A request is the value a handler would send, and a response is
  a parameter.
- `placeOrderBtn` handler of the cart page (public/js/cart.js:117-144): it only
  confirms, posts and shows the result. The server side of the order is
  `Server.Server.PlaceOrder`.
- The login, admin-login, forgot-password, dashboard, navbar and menu scripts
  are not part of this model. Their checks repeat the registration page's.
- The admin setup scripts are one-shot database scripts and are not part of
  this model.
