# Anonymous shopping cart of the webstore

A model of the cart logic in `main.py` of the FastAPI webstore. Visitors are identified only by
the `session_id` cookie. Every line of every visitor's cart lives in one shared SQL table,
`cart_items`. Each row has a primary key `id`, a `session_id`, a `product_id` and a `quantity`.
Three routes change that table:

- `add_to_cart` bumps the visitor's line for a product, or inserts one with quantity 1.
- `remove_from_cart` lowers the line by one, or deletes it when it holds one. Without a line it does nothing.
- `clear_cart` deletes all of the visitor's lines.

`view_cart` reads every row of the table. Its query has no session filter.

The model has four modules:

- `CartLines` (`cart_lines.dfy`) is the abstract cart. It is a map from a (session, product)
  key to a quantity. `Added`, `Removed` and `Cleared` are the three changes. The lemmas cover
  positivity, the add/remove round trips, the isolation of sessions, and clearing.
- `CartTable` (`cart_table.dfy`) is the table as rows. `Table` is a class holding
  `rows: seq<CartItem>`. Its methods `AddLine`, `RemoveLine` and `ClearSession` update a row in
  place, append a row or delete rows, as the handlers do.
  - `FirstMatch` is the `filter_by(...).first()` lookup.
  - `QuantitiesOf` reads the rows as the abstract map.
  - The `...Refines...` lemmas show that each row-level change is its abstract counterpart and
    keeps the table invariant: unique (session, product) pair, unique positive id, quantity at
    least 1.
  - A new row gets the largest id plus one. This is SQLite's rowid rule for an
    `INTEGER PRIMARY KEY`.
- `Session` (`session.dfy`) is `get_or_create_session_id`. The cookie value is reused when it is
  present and non-empty. Otherwise a fresh token is used and recorded as an http-only cookie.
- `Routes` (`routes.dfy`) holds the cart routes. The three mutating routes (add, remove, clear)
  each resolve the session, apply the table operation and answer with a 303 redirect to `/cart`.
  `ViewCart` resolves no session and changes nothing: it returns every row of the table, which
  main.py hands to the `cart.html` template.
  - `AddToCart`, `RemoveFromCart` and `ClearCart` carry the session cookie on the redirect they
    return. This is the corrected form described under "## Findings".
  - `AddToCartAsWritten`, `RemoveFromCartAsWritten` and `ClearCartAsWritten` are the routes as
    main.py writes them: the cookie goes on the injected response, and the returned redirect
    carries none.

The randomness of `uuid4()` is not modelled: the fresh token is a parameter of each mutating route. Each
handler runs as one atomic step on the table. The database session, commit and close are not
modelled.

Facts about main.py that the model keeps:

- `add_to_cart` does not check that the product exists or is available.
- The code has no checkout, order or reservation.
- `view_cart` returns the rows of all sessions, not one visitor's.
- `remove_from_cart` deletes a line whose quantity is 1 or less. Only quantity 1 occurs, because of the table invariant.

## Model

| member | source | states |
|---|---|---|
| `CartLines.Added` | main.py:90-95 | an existing line for the key goes up by exactly one, a missing one appears with quantity 1; every other key keeps its quantity and no key disappears |
| `CartLines.Removed` | main.py:106-111 | a line above one goes down by exactly one, a line at one or less is deleted, a missing line leaves the cart unchanged; no other key changes |
| `CartLines.Cleared` | main.py:122 | exactly the lines of the given session are gone; all other lines keep their quantities |
| `CartLines.AddedKeepsPositive` | main.py:90-95 | adding never stores a quantity below one |
| `CartLines.RemovedKeepsPositive` | main.py:106-111 | removing never stores a quantity below one: the line at one is deleted rather than set to zero |
| `CartLines.ClearedKeepsPositive` | main.py:122 | clearing never stores a quantity below one |
| `CartLines.RemoveUndoesAdd` | main.py:90-111 | remove right after add for the same key gives back the previous quantity map |
| `CartLines.AddUndoesRemove` | main.py:90-111 | add right after remove gives back the previous map when a line existed |
| `CartLines.OtherSessionsUntouched` | main.py:90-111 | add and remove for one session leave every other session's cart unchanged |
| `CartLines.ClearedEmptiesOnlyThatSession` | main.py:122 | after clearing, the session's cart is empty and every other session's cart is as before |
| `CartLines.ClearedIdempotent` | main.py:122 | clearing twice is the same as clearing once |
| `CartTable.FirstMatch` | main.py:90 | the lookup returns the position of the first row with the (session, product) key, or nothing exactly when no row has that key |
| `CartTable.QuantitiesOfAt` | main.py:90 | a key has a quantity exactly when the lookup finds a row, and that quantity is the found row's |
| `CartTable.LargestId` | main.py:45 | the largest primary key, 0 for an empty table, bounds every id; the new row's id is one above it, so it is unused |
| `CartTable.WithoutSession` | main.py:122 | the bulk delete keeps exactly the rows of other sessions |
| `CartTable.IncrementedRefinesAdded` | main.py:90-95 | the rows after add keep unique keys, unique ids and positive quantities, and their quantities are `Added` of the old ones |
| `CartTable.DecrementedRefinesRemoved` | main.py:106-111 | the rows after remove keep the invariant, and their quantities are `Removed` of the old ones |
| `CartTable.WithoutSessionRefinesCleared` | main.py:122 | the rows after clear keep the invariant, and their quantities are `Cleared` of the old ones |
| `CartTable.DecrementUndoesIncrement` | main.py:90-111 | remove right after add for the same key gives back exactly the same rows, ids included |
| `CartTable.WithoutSessionIdempotent` | main.py:122 | deleting a session's rows twice leaves the same rows as deleting them once |
| `CartTable.LinesPositive` | main.py:48 | no line of a well-formed table has a quantity below one |
| `CartTable.LineCount` | main.py:42-50 | with the uniqueness invariant there is exactly one distinct key per row |
| `CartTable.Table.constructor` | main.py:42-50 | the table starts empty and well formed |
| `CartTable.Table.AddLine` | main.py:90-96 | updates the found row's quantity in place or appends a new row with quantity 1 and the next id; keeps the invariant; quantities become `Added` of the old ones |
| `CartTable.Table.RemoveLine` | main.py:106-112 | decrements the found row in place or deletes it; keeps the invariant; quantities become `Removed` of the old ones |
| `CartTable.Table.ClearSession` | main.py:122-123 | deletes the session's rows; keeps the invariant; quantities become `Cleared` of the old ones |
| `Session.ResolvedSession` | main.py:72-76 | a present, non-empty cookie is the session unchanged; a missing or empty one gives the fresh token |
| `Session.IssuedCookies` | main.py:73-75 | only the `session_id` cookie is ever set; nothing is set when the request has a non-empty cookie; otherwise it is set to the fresh token, http-only |
| `Session.GetOrCreateSessionId` | main.py:71-76 | a non-empty incoming cookie is returned unchanged and nothing is set; a missing or empty one yields the fresh token, which is added to the response's cookies |
| `Session.SessionSticks` | main.py:71-76 | once a browser stores the issued cookie, its next request resolves to the same session and no new cookie is issued |
| `Routes.AddToCart` | main.py:85-98 | corrected form: the rows become `Incremented` of the old rows for the resolved visitor, quantities go as `Added` says, the table stays well formed, and the reply is a 303 to `/cart` carrying the issued cookie |
| `Routes.RemoveFromCart` | main.py:101-114 | corrected form: the rows become `Decremented` of the old rows for the resolved visitor, quantities go as `Removed` says, the table stays well formed, and the reply is a 303 to `/cart` carrying the issued cookie |
| `Routes.ClearCart` | main.py:117-125 | corrected form: the rows become `WithoutSession` of the old rows for the resolved visitor, quantities go as `Cleared` says, the table stays well formed, and the reply is a 303 to `/cart` carrying the issued cookie |
| `Routes.ViewCart` | main.py:78-83 | returns every row of the table, of all sessions, one per distinct key, each with quantity at least one |
| `Routes.AddToCartAsWritten` | main.py:85-98 | the table changes as in `AddToCart` and the cookie lands on the injected response, but the returned redirect carries no cookie |
| `Routes.RemoveFromCartAsWritten` | main.py:101-114 | the table changes as in `RemoveFromCart` and the cookie lands on the injected response, but the returned redirect carries no cookie |
| `Routes.ClearCartAsWritten` | main.py:117-125 | the table changes as in `ClearCart` and the cookie lands on the injected response, but the returned redirect carries no cookie |
| `Routes.CartLostAsWritten` | main.py:71-114 | as written, a first-time visitor's add and later remove run under different sessions, and the remove leaves the added line in place |
| `Routes.CartKeptCorrected` | main.py:71-114 | with the cookie on the returned redirect, the second request runs under the same session and the remove undoes the add |
| `Routes.AddThenRemove` | main.py:85-114 | with the corrected routes, a visitor who adds a product and then removes it, sending the cookie the first reply set, leaves the table exactly as it was, rows and ids included |
| `Routes.AddThenRemoveAsWritten` | main.py:71-114 | with the routes as written, a first-time visitor who adds a product and then removes it, sending back what the first reply set, leaves the table's lines changed: the added line stays |

## Left out

- FastAPI routing, Jinja2 templates, static files, `home`, `register_form`, `register_customer` and `populate` (main.py:1-23, 61-69, 128-157) are left out. They are I/O or plain inserts with no cart logic.
- The `Customer`, `Contact` and `Product` models (main.py:26-40, 52-59) are left out. `price` is a float and no total is computed anywhere.
- `view_cart`'s join of each row with its product (`joinedload`) is not modelled. The view returns the rows themselves, and the join is an outer join that drops no row.
- The foreign key on `product_id` is not enforced. SQLite does not enforce foreign keys by default, and `add_to_cart` accepts any product id.
- SQLAlchemy's session lifecycle (`SessionLocal()`, `commit`, `close`) is not modelled. Each handler is one atomic step on the table.
- Concurrency is out of scope. The read-modify-write at main.py:90-96 can lose an update under concurrent requests, and the model is sequential.
- `uuid4()` is replaced by the `freshToken` parameter. `Session.SessionSticks`, `Routes.CartKeptCorrected` and `Routes.AddThenRemove` assume that token is non-empty, which a uuid string always is.
- SQLite's 64-bit integer limits are not modelled. Quantities and ids are unbounded integers, so there is no overflow at 2^63 and no random rowid once the largest rowid is reached.
- Cookie attributes other than `httponly` (path, expiry) are left out, and so is the browser's cookie policy beyond storing what a reply sets.
- No product availability check, checkout, order or reservation is modelled. None of them exists in this code.

## Findings

| source | as written | input that shows it | evidently intended | confidence | as-written member | corrected member |
|---|---|---|---|---|---|---|
| main.py:71-125 | `get_or_create_session_id` sets the cookie on the injected `response`, but every cart route returns its own `RedirectResponse`. FastAPI sends a returned response unchanged, so the `Set-Cookie` header never reaches the browser. | A first visit without a cookie posts `add_to_cart` for product 1, then `remove_from_cart` for product 1. The second request mints a new uuid and finds no line, so the line added first stays. `clear_cart` misses it the same way. | The cookie should be set on the redirect that is returned, so that a visitor keeps one session. | medium: rests on FastAPI discarding the headers of the injected response when the endpoint returns a response itself; not executed | `Routes.AddToCartAsWritten`, `Routes.RemoveFromCartAsWritten`, `Routes.ClearCartAsWritten`, `Routes.CartLostAsWritten`, `Routes.AddThenRemoveAsWritten` | `Routes.AddToCart`, `Routes.RemoveFromCart`, `Routes.ClearCart`, `Routes.CartKeptCorrected`, `Routes.AddThenRemove` |
