/** The rows of the storefront's four tables (users, vinyls, orders,
    order_items) and the lookups the request handlers run against them.
    Rows are values; the tables that hold them live in the Store class. */
module Models {

  /** Prices and totals are floating-point columns that are only ever stored
      and copied, never computed with. */
  type Money = real

  datatype Option<+T> = None | Some(value: T)

  /** The `role` column: only 'user' (its default) and 'admin' are ever written. */
  datatype Role = UserRole | AdminRole

  /** The `status` column: only its default, 'pending', is ever written. */
  datatype Status = Pending

  datatype User = User(id: nat, name: string, email: string, passwordHash: string, role: Role)

  datatype Vinyl = Vinyl(id: nat, title: string, artist: string, genre: string, price: Money, stock: int)

  datatype Order = Order(id: nat, userId: nat, total: Money, status: Status)

  /** `vinylId` is whatever id the cart named: the foreign key is not enforced. */
  datatype OrderItem = OrderItem(id: nat, orderId: nat, vinylId: int, quantity: int, price: Money)

  /** The message of every role-gated refusal. */
  const NotAuthorized := "No autorizado"

  /** `User.query.filter_by(email=...).first()`: the index of the first user
      row with that email. */
  function FindUserByEmail(users: seq<User>, email: string): (r: Option<nat>)
    ensures r.Some? ==> r.value < |users| && users[r.value].email == email
    ensures r.Some? ==> forall j | 0 <= j < r.value :: users[j].email != email
    ensures r.None? <==> forall j | 0 <= j < |users| :: users[j].email != email
  {
    if |users| == 0 then None
    else if users[0].email == email then Some(0)
    else match FindUserByEmail(users[1..], email)
      case None => None
      case Some(k) => Some(k + 1)
  }

  /** `Vinyl.query.get(id)`: the index of the vinyl row whose primary key is `id`. */
  function FindVinyl(vinyls: seq<Vinyl>, id: int): (r: Option<nat>)
    ensures r.Some? ==> r.value < |vinyls| && vinyls[r.value].id == id
    ensures r.None? <==> forall j | 0 <= j < |vinyls| :: vinyls[j].id != id
  {
    if |vinyls| == 0 then None
    else if vinyls[0].id == id then Some(0)
    else match FindVinyl(vinyls[1..], id)
      case None => None
      case Some(k) => Some(k + 1)
  }

  /** Rows are never deleted, so every table's primary keys are 1, 2, 3, ... in insertion order. */
  predicate UsersNumbered(users: seq<User>) {
    forall i | 0 <= i < |users| :: users[i].id == i + 1
  }

  predicate VinylsNumbered(vinyls: seq<Vinyl>) {
    forall i | 0 <= i < |vinyls| :: vinyls[i].id == i + 1
  }

  predicate OrdersNumbered(orders: seq<Order>) {
    forall i | 0 <= i < |orders| :: orders[i].id == i + 1
  }

  predicate ItemsNumbered(items: seq<OrderItem>) {
    forall i | 0 <= i < |items| :: items[i].id == i + 1
  }

  /** Every order belongs to one of the first `userCount` users. */
  predicate OrdersReferenceUsers(orders: seq<Order>, userCount: nat) {
    forall i | 0 <= i < |orders| :: 1 <= orders[i].userId <= userCount
  }

  /** Every order item belongs to one of the first `orderCount` orders. */
  predicate ItemsReferenceOrders(items: seq<OrderItem>, orderCount: nat) {
    forall i | 0 <= i < |items| :: 1 <= items[i].orderId <= orderCount
  }

  /** The unique constraint on `users.email`. */
  predicate UniqueEmails(users: seq<User>) {
    forall i, j | 0 <= i < j < |users| :: users[i].email != users[j].email
  }

  predicate UniqueVinylIds(vinyls: seq<Vinyl>) {
    forall i, j | 0 <= i < j < |vinyls| :: vinyls[i].id != vinyls[j].id
  }

  /** The database's integrity: primary keys follow insertion order, emails
      are unique, every order belongs to a user and every item to an order. */
  predicate Consistent(users: seq<User>, vinyls: seq<Vinyl>, orders: seq<Order>, items: seq<OrderItem>) {
    && UsersNumbered(users) && VinylsNumbered(vinyls)
    && OrdersNumbered(orders) && ItemsNumbered(items)
    && UniqueEmails(users)
    && OrdersReferenceUsers(orders, |users|)
    && ItemsReferenceOrders(items, |orders|)
  }

  /** With numbered rows, the primary-key lookup finds row `id - 1` exactly when `id` is in range. */
  lemma GetByPrimaryKey(vinyls: seq<Vinyl>, id: int)
    requires VinylsNumbered(vinyls)
    ensures FindVinyl(vinyls, id) == if 1 <= id <= |vinyls| then Some(id - 1) else None
  {
    if 1 <= id <= |vinyls| {
      assert vinyls[id - 1].id == id;
    }
  }
}
