# Product management API: a verified model of the backend's request logic

This project models the request logic of the product management backend
(`backend/server.js`), an Express server over Postgres. It covers:

- the two validation middlewares;
- the bearer-token gate in front of every `/products` route;
- the account handlers `/register` and `/login`;
- the paginated, filtered product listing, both as the query the handler
  builds and as what that query means;
- the owner-guarded create, update and delete of products.

Postgres tables are in-memory sequences held by two classes:
`Catalog.ProductTable` for products and `Credentials.UserStore` for users.
Each class has a consistency invariant, `Valid()`.

Every state-changing handler is a method. Its contract ties the reply and
the new table to a specification function over table values
(`CreateEffect`, `UpdateEffect`, `DeleteEffect`, `RegisterEffect`). The
properties the server promises are proved about those functions:

- the order of error precedence;
- "nothing else changes" on every refusal;
- preservation of the invariant;
- login after registration.

Foreign calls become function parameters:

- `verify: string -> Option<Claims>` for `jwt.verify`;
- `sign: Claims -> string` for `jwt.sign`;
- `hash: string -> string` for bcrypt. A stored hash accepts a password
  exactly when the password hashes to it.

Modules, in dependency order:

- `Http`: optional request fields, JavaScript truthiness, and the reply type
  `Outcome`.
- `Text`: JavaScript `trim`, UTF-16 `length`, `split(' ')`, and
  ASCII case-insensitive substring.
- `Validation`: `validateRegistration` and `validateProduct`, with a
  first-failing-rule reference definition.
- `Auth`: `authenticateToken`.
- `Products`: the meaning of a listing. This is filtering, newest-first
  order, the OFFSET/LIMIT window, `totalPages`, and the lemmas about pages.
- `ProductQuery`: the two query builders of GET /products, kept as clause
  and parameter sequences, plus an evaluator of such queries over a table.
- `Catalog`: the products table and the product handlers.
- `Credentials`: the users table, register and login.
- `Routes`: the mounted routes, with the gate in front of the handlers.

Modelling choices:

- Request strings are `Option<string>`: `None` is an absent field, and
  `Truthy` is JavaScript's `!!x` for strings.
- Lengths are UTF-16 code-unit counts, as in JavaScript.
- A price is `Missing`, `NotANumber` or an amount in cents.
- `page` and `limit` are naturals with the defaults 1 and 20.
- Page 0 with a positive limit gives a negative OFFSET. Postgres rejects
  it, so the listing answers 500 "Server error fetching products"
  (`ListingFor`). With page 0 and limit 0 the offset is 0 (JavaScript's
  `-0`, sent as "0"), and the listing answers 200.
- A limit of 0 makes `Math.ceil(total / 0)` non-finite, which JSON renders
  as `null`. `TotalPages` returns `None` in that case.
- Creation order is id order. The table appends rows with increasing ids,
  so `ORDER BY created_at DESC` is the reverse of the table.

## Model

| member | source | states |
|---|---|---|
| Text.Trim | backend/server.js:105 | `trim()` for the validators: the ends of the result are not whitespace, the result is a contiguous part of the input and everything cut off before and after it is whitespace, and it is empty exactly when every character is whitespace |
| Text.Utf16Length | backend/server.js:90 | `length` in UTF-16 code units: between the number of code points and twice that, equal to it when no character is above U+FFFF |
| Text.Split | backend/server.js:71 | `split(' ')`: at least one part, and no part contains the separator |
| Text.JoinSplit | backend/server.js:71 | joining the parts of a split with the separator gives back the input: no character is lost or added |
| Text.SplitJoin | backend/server.js:71 | splitting the join of separator-free words gives back exactly those words |
| Text.SplitAtFirstSeparator | backend/server.js:71 | the first part of a split ends at the first separator, and the rest is the split of what follows it |
| Validation.ValidateRegistration | backend/server.js:87-100 | passes exactly when username (present, at least 3 code units), email (present, contains '@') and password (present, at least 6 code units) all hold; otherwise 400 with the message of the first failing rule only |
| Validation.ValidateProduct | backend/server.js:102-118 | passes exactly when name, price (present, numeric, above 0), category and description (each non-blank after trim) all hold; otherwise 400 with the first failing rule's message |
| Validation.FirstFailure | backend/server.js:87-118 | the reference definition of an ordered rule chain: the message of the first rule that fails, or none when all hold |
| Validation.RegistrationIsFirstFailure | backend/server.js:87-100 | `validateRegistration` agrees with the first-failure chain of its three rules, in source order |
| Validation.ProductIsFirstFailure | backend/server.js:102-118 | `validateProduct` agrees with the first-failure chain of its four rules, in source order |
| Validation.ZeroPriceRejected | backend/server.js:108-110 | a price of 0 is refused with "Valid price is required" once the name is valid |
| Auth.BearerToken | backend/server.js:70-73 | the token is the second space-separated word of the header, kept only when non-empty; it never contains a space |
| Auth.TokenIsSecondWord | backend/server.js:71 | for `scheme + " " + token + rest`, where rest is empty or starts with a space, the token found is exactly `token`, or none when it is empty |
| Auth.NoSpaceNoToken | backend/server.js:71-75 | a header without a space carries no token |
| Auth.Authenticate | backend/server.js:69-84 | no token gives 401 "Access token required"; a token the verifier refuses gives 403 "Invalid or expired token"; otherwise the caller is exactly the verified claims |
| Auth.MissingHeaderIsUnauthorized | backend/server.js:70-75 | no Authorization header gives 401 |
| Auth.BareSchemeIsUnauthorized | backend/server.js:71-75 | "Bearer" and "Bearer " give 401 whatever the verifier says |
| Auth.BearerHeaderVerifiesToken | backend/server.js:71-83 | "Bearer t" hands exactly t to the verifier: refusal gives 403, acceptance admits the verified claims |
| Products.Filtered | backend/server.js:228-238 | the kept rows are exactly the rows that match the category and the search term, and they are no more than the input |
| Products.FilteredKeepsOrder | backend/server.js:228-241 | filtering keeps creation order |
| Products.Reverse | backend/server.js:241 | newest-first order is the table read backwards, element by element |
| Products.NewestFirstIsNewestFirst | backend/server.js:241 | rows in creation order, reversed, have strictly decreasing ids |
| Products.Window | backend/server.js:243-249 | OFFSET/LIMIT: the window has `min(limit, n - offset)` rows (none past the end), and its i-th row is row `offset + i` |
| Products.WindowKeepsOrder | backend/server.js:241-249 | a window of a newest-first sequence is newest first |
| Products.TotalPages | backend/server.js:279 | `ceil(total / limit)`: the least page count whose pages hold every row; none for limit 0 |
| Products.PagesArePrefix | backend/server.js:243-249 | pages 1 to n together are exactly the first `n * limit` rows |
| Products.PagesCoverAll | backend/server.js:279 | pages 1 to totalPages hold every row once, in order |
| Products.PageLength | backend/server.js:222-279 | pages before the last are full, the last holds the remainder, and later pages are empty |
| Products.TwentyFiveRowsTwoPages | backend/server.js:221-279 | 25 rows with the default limit make 2 pages: the windows at offsets 0 and 20 are the newest 20, then the remaining 5 |
| ProductQuery.BuildListQuery | backend/server.js:224-249 | placeholders are numbered consecutively from $1; category comes before search; search uses one placeholder for both columns; LIMIT and OFFSET take the last two numbers; every table is answered with the window of matching rows, newest first, or a database error for a negative offset |
| ProductQuery.BuildCountQuery | backend/server.js:253-268 | the same filter clauses and parameters, consecutively numbered; counts exactly the matching rows of every table |
| ProductQuery.FilterQueryUnique | backend/server.js:228-266 | the filter part is determined by the filter, so the count query's parameters are the list query's minus LIMIT and OFFSET |
| ProductQuery.EveryPlaceholderBound | backend/server.js:224-249 | every `$n` a numbered query uses has a parameter: 1 <= n <= the number of parameters |
| ProductQuery.ILikeWrapped | backend/server.js:236-237 | `ILIKE '%term%'` is the case-insensitive substring test |
| ProductQuery.CategoryThenSearch | backend/server.js:228-238 | running the category clause and then the search clause keeps exactly the filtered rows |
| ProductQuery.ListQueryMeaning | backend/server.js:224-251 | a filter part followed by ORDER BY, LIMIT and OFFSET evaluates to the newest-first window of the filtered rows |
| Catalog.IndexOfId | backend/server.js:317-324 | `WHERE id = $1`: the position found holds that id, and none is found exactly when no row has it |
| Catalog.ListingFor | backend/server.js:220-285 | the listing answers 500 exactly when the offset is negative; otherwise 200 with the defaulted page and limit, the products being exactly the window of the matching rows, newest first, that starts at offset (page - 1) * limit and holds at most `limit` rows; total = the number of matches, totalPages = ceil(total/limit); the products are only matching rows of the table, at most `limit` and at most `total` of them, newest first |
| Catalog.TwentyFiveProductsTwoPages | backend/server.js:221-279 | with 25 products, no filter and the default limit, the listing of page 1 (and of the default page) holds the newest 20 products and that of page 2 the remaining 5, both with total 25 and totalPages 2 |
| Catalog.CreateEffect | backend/server.js:289-307 | a body the validator rejects gives 400 and no change; otherwise 201 and exactly one appended row with the next id, the submitted fields as given and the caller as owner |
| Catalog.UpdateEffect | backend/server.js:310-343 | validation (400), then unknown id (404, for any caller), then not the owner (403), each with no change; a valid body from the owner of an existing row always succeeds (200), replacing exactly name, price, category and description of that row and keeping its id and owner |
| Catalog.DeleteEffect | backend/server.js:346-372 | unknown id (404, for any caller), then not the owner (403), both with no change; the owner of an existing row always succeeds (200), and the delete removes exactly the rows with that id, which is exactly one row |
| Catalog.RemoveKeepsConsistent | backend/server.js:365 | removing one row keeps ids unique and ordered, and what remains is exactly the rows with a different id |
| Catalog.CreateKeepsConsistent | backend/server.js:294-297 | a create keeps ids unique, in creation order and below the next id |
| Catalog.UpdateKeepsConsistent | backend/server.js:330-333 | an update keeps the table consistent |
| Catalog.DeleteKeepsConsistent | backend/server.js:365 | a delete keeps the table consistent |
| Catalog.ProductTable.constructor | backend/server.js:39-50 | the products table starts empty, with the next id 1 |
| Catalog.ProductTable.List | backend/server.js:220-285 | builds and runs the list and count queries and returns exactly `ListingFor` of the table; changes nothing |
| Catalog.ProductTable.Create | backend/server.js:289-307 | the reply and the new table are `CreateEffect` of the old table; the invariant is kept |
| Catalog.ProductTable.Update | backend/server.js:310-343 | the reply and the new table are `UpdateEffect` of the old table; the invariant is kept |
| Catalog.ProductTable.Delete | backend/server.js:346-372 | the reply and the new table are `DeleteEffect` of the old table; the invariant is kept |
| Credentials.Clashing | backend/server.js:128-131 | `WHERE username = $1 OR email = $2`: exactly the users sharing the username or the email |
| Credentials.Named | backend/server.js:182-185 | `WHERE username = $1`: exactly the users with that username |
| Credentials.RegisterEffect | backend/server.js:123-168 | the validator first (400, its message); then a taken username or email gives 400 "Username or email already exists"; refusals change nothing; registration succeeds exactly when validation passes and no user shares the username or the email, and then appends one user with the next id and the hashed password and answers 201 with a token over that id and username |
| Credentials.LoginReply | backend/server.js:171-217 | 400 exactly when username or password is missing or empty; every other refusal is the same 401 "Invalid credentials"; a 200 names a user with that username whose stored hash accepts the password, and its token is signed over that user's id and username |
| Credentials.NamedUnique | backend/server.js:182-189 | with unique usernames the lookup returns exactly the one user with that name |
| Credentials.LoginSucceedsIff | backend/server.js:175-195 | with unique usernames, login succeeds exactly when both fields are given and some user has that username and a hash that accepts the password |
| Credentials.UnknownUserLooksLikeWrongPassword | backend/server.js:187-195 | an unknown username and a wrong password for a known one get the identical reply, 401 "Invalid credentials" |
| Credentials.RegisterKeepsConsistent | backend/server.js:128-145 | registration keeps usernames unique, emails unique and ids in order |
| Credentials.RegisterThenLogin | backend/server.js:123-217 | right after a successful registration, logging in with the same username and password succeeds (200) with the same user record and a token signed over the same claims, that account's id and username |
| Credentials.UserStore.constructor | backend/server.js:30-36 | the users table starts empty, with the next id 1 |
| Credentials.UserStore.Register | backend/server.js:123-168 | the reply and the new table are `RegisterEffect` of the old table; the invariant is kept |
| Credentials.UserStore.Login | backend/server.js:171-217 | the reply is exactly `LoginReply` of the table; the table is only read |
| Routes.GetRoute | backend/server.js:220 | GET /products behind the gate: the gate's refusal, or the listing; an answered listing only returns matching rows of the table |
| Routes.PostPrecedence | backend/server.js:289-307 | POST refuses in this order: 401 no token, 403 bad token, 400 invalid body, every refusal leaving the table unchanged; an admitted caller with a valid body gets 201 and exactly one appended row owned by the caller |
| Routes.PutPrecedence | backend/server.js:310-338 | PUT refuses in this order: 401 no token, 403 bad token, 400 invalid body, 404 unknown id, 403 not owner, every refusal leaving the table unchanged; an admitted owner with a valid body gets 200 |
| Routes.DeleteOnlyByOwner | backend/server.js:346-367 | DELETE succeeds exactly when the gate admits the caller and the table holds a row with that id owned by the caller; every refusal leaves the table unchanged |
| Routes.GetProducts | backend/server.js:220 | the reply is `GetRoute`: gate, then listing |
| Routes.PostProduct | backend/server.js:289 | the reply and the new table are the gate followed by `CreateEffect` |
| Routes.PutProduct | backend/server.js:310 | the reply and the new table are the gate followed by `UpdateEffect` |
| Routes.DeleteProduct | backend/server.js:346 | the reply and the new table are the gate followed by `DeleteEffect` |

## Left out

- Express routing, Postgres and the connection pool are not modelled; the
  tables are in-memory sequences. `initDatabase` and its DDL are reflected
  only in the empty starting tables with next id 1.
- SQL text is not modelled. The builders produce clause and parameter
  sequences in the same order and with the same `$n` numbers as the
  strings the handler concatenates.
- The query builders are straight-line code, as in the handler, which has
  no loop.
- `ILike` reads only the `%term%` form the handler produces. `%` and `_`
  inside the search term itself are not treated as wildcards, and `\`
  (LIKE's default escape character) is not treated as an escape. So a
  search for `a\` builds `%a\%`, which Postgres reads as "ends in a%",
  while the model looks for the text `a\`. Case is
  folded for ASCII letters only.
- bcrypt: `hash` is a deterministic function and its salt is not modelled.
  `bcrypt.compare(p, stored)` is `hash(p) == stored`.
- JWT: `sign` maps the claims `{id, username}` to a token. The `iat`/`exp`
  fields and the 24-hour expiry are the verifier's business. `verify` is an
  oracle that either refuses a token or returns its claims.
- `created_at` and `updated_at` timestamps are not modelled. Creation
  order is id order: rows are appended with increasing ids. Timestamp ties
  are therefore not modelled.
- JavaScript coercions of `page`, `limit` and `price` are not modelled.
  This includes non-numeric strings, `parseInt` of fractions, and prices
  carrying more than two decimals, which `DECIMAL(10,2)` would round.
  `page` and `limit` are naturals, and a price is `Missing`, `NotANumber`
  or whole cents.
- Each body field other than price is absent or a string. A price is
  `Missing`, `NotANumber` or whole cents, whatever its JSON type, so the
  JSON number the frontend sends is the ordinary `Amount` case. Non-string
  values of the other fields are not modelled. For example, a numeric
  `username` has `.length` undefined, so `undefined < 3` is false and it
  passes the registration validator.
- Column width limits (`VARCHAR(255)`, `VARCHAR(100)`) and the foreign key
  from `products.user_id` to `users.id` are not modelled.
- Postgres `=` and `ILIKE` collation details are not modelled.
- Database failures other than the negative OFFSET are not modelled:
  connectivity, the unique constraint firing under a concurrent duplicate
  registration, and the 500 replies of the `catch` blocks.
- Integer and decimal widths are not modelled; ids and prices are
  unbounded. Three 500s of the server are therefore missing:
  - an `:id` outside the Postgres INTEGER range, such as
    PUT /products/3000000000, which fails to parse in Postgres and answers
    500 where the model answers 404;
  - a price above the 99999999.99 that `DECIMAL(10,2)` holds;
  - exhaustion of the SERIAL id sequence, which `nextId` never reaches.
- Concurrency is not modelled. Every handler is one atomic step, so the
  check-then-write races of register, update and delete do not arise.
- `/health`, CORS, `app.listen`, the error-handling middleware and the
  frontend are not modelled.
- Credentials.RegisterThenLogin: the login token is stated as signed over
  the same claims `{id, username}` as the registration token. The two
  tokens are not claimed to be equal, because `jwt.sign` also embeds the
  issue time (`iat`), which the model's `sign` does not take.
- The `:id` path parameter of PUT and DELETE is taken as an integer. A
  non-numeric id makes Postgres fail and the server answers 500; the model
  has no such request, so that 500 is not modelled.
- Credentials.LoginReply: its success case is stated through whichever
  user the lookup returns first. That this is the only user with that name
  needs the invariant, and is stated separately in
  `Credentials.LoginSucceedsIff`.
