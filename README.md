# VinylVibe store: a Dafny model of the storefront database

VinylVibe is a small Flask/SQLAlchemy storefront for vinyl records. Without
its HTTP, ORM and session layers, it is a small database of four tables
(users, vinyls, orders, order_items) and a few request handlers that read and
change them:

- registration and login;
- the admin-only catalog addition and statistics;
- the catalog listing;
- order placement, which records an order with its items and takes stock;
- first-run seeding of one administrator and six sample records.

This project models that core in Dafny and proves what each handler does to
the tables.

- `models.dfy` (module `Models`): the four kinds of row as datatypes. Also
  the two lookups the handlers run: `filter_by(email).first()` and the
  primary-key `get`. Also the database's integrity: primary keys follow
  insertion order, emails are unique, every order belongs to a user and
  every item belongs to an order.
- `ordering.dfy` (module `Ordering`): the bookkeeping of order placement.
  - `LineItems` gives the items written for a cart.
  - `StockAfter` gives the vinyls table after the cart.
  - `QuantityOrdered` gives how much of a record the cart asks for.
  - `WriteLine` and `WriteCart` are the placement loop, as methods over the
    table values.
- `accounts.dfy` (module `Accounts`): login, and what a new registration
  means for uniqueness of emails and for later logins.
- `seeding.dfy` (module `Seeding`): the seed data, and the guarded seeding
  of users and vinyls.
- `store.dfy` (module `Store`): the class `Store`, whose four `seq` fields
  are the tables. Its methods `Register`, `AddVinyl`, `PlaceOrder` and
  `InitDb` change the tables in place. Each method's postcondition gives the
  new tables in terms of the old ones and keeps `Valid()`. The read-only
  handlers `AdminStats` and `ListVinyls` are functions over the tables.
  Three client methods (`SeedTwice`, `RegisterTwice`, `FirstOrder`) run the
  handlers on a fresh store. They show that the contracts alone fix the
  resulting counts and stocks.

The signed-in user (Flask-Login's `current_user`) is a `caller: User`
parameter. The password library is not modelled:

- the salted hash that `generate_password_hash` returns is a parameter;
- `check_password_hash` is a function parameter `check`.

The model follows the code as written:

- An item's price is the price the client sent (app.py:181); it is not
  re-read from the catalog.
- Stock is decremented with no lower bound (app.py:188), so it may go
  negative.
- Cart quantities and vinyl ids are stored as given (app.py:179-180). A line
  may name a record that does not exist; it is still written as an item, and
  only the stock update is skipped (app.py:187).
- The order is created before the cart is read (app.py:168-174), so a cart
  with no lines still creates an order.

## Model

| member | source | states |
|---|---|---|
| Models.FindUserByEmail | vinylvibe-store/app.py:93 | returns the index of the first user with the email, or None exactly when no user has it |
| Models.FindVinyl | vinylvibe-store/app.py:186-187 | returns an index whose row has the id, or None exactly when no row has it |
| Models.Consistent | vinylvibe-store/app.py:22-65 | the schema's integrity: every table's primary keys are 1, 2, 3, … in insertion order, `users.email` is unique, every order's `user_id` names a user and every item's `order_id` names an order (`vinyl_id` is not required to name a vinyl, because placement stores it unchecked); every handler keeps it (`Store.Store.Valid`) |
| Models.GetByPrimaryKey | vinylvibe-store/app.py:37 | with rows numbered 1, 2, 3, …, the lookup by id `n` finds row `n - 1` when `1 <= n <= count`, and nothing otherwise |
| Ordering.LineItems | vinylvibe-store/app.py:176-183 | one item per cart line, in input order; `LineItemCopiesLine` states what each item holds |
| Ordering.LineItemCopiesLine | vinylvibe-store/app.py:176-183 | item `j` of an order gets id `firstId + j` and the new order's id, and copies line `j`'s vinyl id, quantity and price unchanged |
| Ordering.LineItemsKeepItemTableConsistent | vinylvibe-store/app.py:177-183 | the appended items keep the item table numbered, and every item still points at an existing order |
| Ordering.TakeStock | vinylvibe-store/app.py:186-188 | one line keeps the table's size, and leaves it unchanged when the line's id matches no vinyl |
| Ordering.TakeStockDecrements | vinylvibe-store/app.py:186-188 | with unique ids, one line lowers the stock of the row whose id it names by its quantity, with no lower bound; every other row, and every other field, is unchanged |
| Ordering.StockAfter | vinylvibe-store/app.py:176-188 | the vinyls table after the cart, line by line in input order, keeps its size; `StockDropsByQuantityOrdered` states each row's new stock |
| Ordering.StockDropsByQuantityOrdered | vinylvibe-store/app.py:176-188 | after the cart, each vinyl's stock equals its old stock minus the sum of the quantities of all lines naming its id, repeated lines included; no other field changes, and nothing stops the stock going negative |
| Ordering.StockAfterKeepsNumbering | vinylvibe-store/app.py:186-188 | placement never changes a vinyl's id |
| Ordering.UnnamedVinylUnchanged | vinylvibe-store/app.py:186-188 | a vinyl that no cart line names keeps its whole row |
| Ordering.UnknownIdsTakeNoStock | vinylvibe-store/app.py:186-188 | lines whose ids match no vinyl change no stock at all |
| Ordering.WriteLine | vinylvibe-store/app.py:177-188 | one iteration appends exactly one item copying the line, then applies that line's stock update |
| Ordering.WriteCart | vinylvibe-store/app.py:176-189 | the loop over the cart, in input order, appends exactly `LineItems` of the lines to the items table and leaves the vinyls table as `StockAfter` of the lines |
| Accounts.NewUser | vinylvibe-store/app.py:96-100 | a registered row gets the next id, the given email and hash, and role 'user' (the column default) |
| Accounts.Login | vinylvibe-store/app.py:116-125 | a success is some user with that email whose stored hash checks against the password, and the reply carries that user's id, name and role; every failure is the same "Credenciales incorrectas" reply; an unknown email always fails |
| Accounts.LoginSucceedsIff | vinylvibe-store/app.py:116-118 | with unique emails, login succeeds if and only if some user has that email and the password checks against that user's hash |
| Accounts.RegistrationKeepsEmailsUnique | vinylvibe-store/app.py:93-103 | appending a user whose email is not taken keeps emails unique |
| Accounts.RegisteredUserCanLogIn | vinylvibe-store/app.py:96-122 | right after registering with a hash the password checks against, login with that email and password returns the new row's id, name and role 'user' |
| Seeding.SampleVinyls | vinylvibe-store/app.py:238-245 | six sample records numbered 1 to 6, with stocks 10, 5, 8, 6, 4 and 7 |
| Seeding.AdminRow | vinylvibe-store/app.py:227-232 | the seeded administrator has the admin email, role 'admin' and the given hash |
| Seeding.SeedUsers | vinylvibe-store/app.py:225-234 | afterwards the admin email exists; the table is unchanged if it already existed; otherwise exactly one admin row is appended after the old rows |
| Seeding.SeedVinyls | vinylvibe-store/app.py:237-250 | a non-empty catalog is unchanged; an empty one becomes exactly the six sample records, numbered 1 to 6 with stocks 10, 5, 8, 6, 4 and 7 |
| Seeding.SeedingIsIdempotent | vinylvibe-store/app.py:224-252 | seeding a second time, whatever hash that run generates, leaves both tables as the first seeding left them |
| Seeding.SeedingKeepsDatabaseConsistent | vinylvibe-store/app.py:224-252 | seeding keeps ids numbered, emails unique and every reference valid |
| Store.Store.constructor | vinylvibe-store/app.py:221 | fresh, empty tables that satisfy the integrity invariant |
| Store.Store.Register | vinylvibe-store/app.py:89-106 | a taken email gives "Email ya registrado" and no change; otherwise exactly one user with role 'user' is appended and the reply carries its id, name and role; other tables are untouched and emails stay unique |
| Store.Store.AddVinyl | vinylvibe-store/app.py:139-156 | a non-admin caller gets "No autorizado" and nothing changes; for an admin, exactly one vinyl with the given title, artist, genre and price is appended, with stock 10 |
| Store.Store.PlaceOrder | vinylvibe-store/app.py:164-191 | exactly one pending order is appended, owned by the caller and carrying the client's total; its id is returned; the items table grows by exactly `LineItems` of the cart; vinyls become `StockAfter` of the cart; users are untouched; integrity is kept |
| Store.Store.InitDb | vinylvibe-store/app.py:216-253 | users become `SeedUsers`, vinyls become `SeedVinyls`, orders and items are untouched, and integrity is kept |
| Store.AdminStats | vinylvibe-store/app.py:199-210 | counts are returned if and only if the caller is an admin, and they are exactly the sizes of the users, vinyls and orders tables; anyone else gets the "No autorizado" error |
| Store.ListVinyls | vinylvibe-store/app.py:77-86 | one entry per row, in table order, carrying the row's id, title, artist, genre, price and stock |
| Store.AddedVinylIsListed | vinylvibe-store/app.py:145-151 | after an admin adds a record, the listing keeps the earlier entries and ends with the new record at stock 10 |
| Store.SeedTwice | vinylvibe-store/app.py:224-252 | seeding a fresh store twice gives an administrator's statistics of 1 user, 6 records and 0 orders, and the admin email cannot be registered again |
| Store.RegisterTwice | vinylvibe-store/app.py:93-106 | registering one email twice: the first attempt signs in user 1, the second is refused, and one user remains |
| Store.FirstOrder | vinylvibe-store/app.py:176-189 | on the seeded store, ordering 2 copies of record 1 plus one line naming no record leaves record 1 at stock 8 and record 2 at stock 5, with one order and two items |

## Left out

- HTTP glue is not modelled: routing, `request.get_json`, `jsonify`, `render_template`, the index page and `app.run`. Inputs are typed, well-formed values.
- Sessions are not modelled: `login_user`, `logout` and `load_user`. The signed-in user is the `caller` parameter. `PlaceOrder` requires that the caller is a stored user, which `login_required` guarantees.
- Password hashing is not modelled: the salted hash is a parameter and the check is a function parameter. `RegisteredUserCanLogIn` assumes the check accepts the password it was hashed from.
- Exception handlers are not modelled: missing JSON keys, storage failures and the generic error messages. In particular, placement commits the order header before the items (app.py:174). A failure inside the item loop would therefore leave an order without items, and the model does not capture that.
- In placement, the loop runs on the table values and the changed tables are assigned together at the end. ORM identity-map aliasing (the same `Vinyl` object returned for repeated ids) is modelled as repeated updates of the same row.
- `created_at` timestamps and `print` logging are not modelled.
- Floating-point prices and totals are `real` values that are only stored and copied. The `float(...)` conversion of the request's price is not modelled.
- The role and status columns are strings in the source. Only 'user', 'admin' and 'pending' are ever written, so they are datatypes here.
- `Vinyl.query.all()` and `.first()` have no ORDER BY. The model takes insertion (rowid) order.
- Concurrent placements racing on one record's stock are not modelled; every handler runs alone.
