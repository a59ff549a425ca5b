/** The storefront database (users, vinyls, orders and order_items tables)
    and the request handlers that read and change it. The signed-in user
    (the session's `current_user`) is passed to each handler as `caller`. */
module Store {
  import opened Models
  import opened Ordering
  import opened Accounts
  import opened Seeding

  /** The reply of a role-gated write. */
  datatype Reply = Done | Refused(message: string)

  /** The reply of the admin statistics endpoint. */
  datatype StatsReply = Counts(users: nat, vinyls: nat, orders: nat) | StatsError(error: string)

  /** One object of the catalog listing. */
  datatype VinylView = VinylView(id: nat, title: string, artist: string, genre: string, price: Money, stock: int)

  /** New vinyls added through the admin endpoint always start with this stock. */
  const DefaultStock := 10

  class Store {
    var users: seq<User>
    var vinyls: seq<Vinyl>
    var orders: seq<Order>
    var items: seq<OrderItem>

    ghost predicate Valid()
      reads this
    {
      Consistent(users, vinyls, orders, items)
    }

    /** Freshly created, empty tables. */
    constructor ()
      ensures Valid()
      ensures users == [] && vinyls == [] && orders == [] && items == []
    {
      users, vinyls, orders, items := [], [], [], [];
    }

    /** Registration: a taken email is refused and changes nothing; otherwise
        one user with role 'user' and the given password hash is appended. */
    method Register(name: string, email: string, passwordHash: string) returns (reply: AuthReply)
      requires Valid()
      modifies this
      ensures Valid()
      ensures vinyls == old(vinyls) && orders == old(orders) && items == old(items)
      ensures (exists i | 0 <= i < |old(users)| :: old(users)[i].email == email) ==>
        reply == Rejected(EmailTaken) && users == old(users)
      ensures (forall i | 0 <= i < |old(users)| :: old(users)[i].email != email) ==>
        users == old(users) + [NewUser(old(users), name, email, passwordHash)] &&
        reply == SignedIn(|old(users)| + 1, name, UserRole)
    {
      if FindUserByEmail(users, email).Some? {
        reply := Rejected(EmailTaken);
        return;
      }
      var user := User(|users| + 1, name, email, passwordHash, UserRole);
      RegistrationKeepsEmailsUnique(users, name, email, passwordHash);
      users := users + [user];
      reply := SignedIn(user.id, user.name, user.role);
    }

    /** Adding a catalog entry: refused for a non-admin caller, with nothing
        changed; for an admin one vinyl with the given fields and stock 10 is
        appended. */
    method AddVinyl(caller: User, title: string, artist: string, genre: string, price: Money)
      returns (reply: Reply)
      requires Valid()
      modifies this
      ensures Valid()
      ensures users == old(users) && orders == old(orders) && items == old(items)
      ensures caller.role != AdminRole ==> reply == Refused(NotAuthorized) && vinyls == old(vinyls)
      ensures caller.role == AdminRole ==>
                reply == Done &&
                vinyls == old(vinyls) + [Vinyl(|old(vinyls)| + 1, title, artist, genre, price, DefaultStock)]
    {
      if caller.role != AdminRole {
        reply := Refused(NotAuthorized);
        return;
      }
      vinyls := vinyls + [Vinyl(|vinyls| + 1, title, artist, genre, price, DefaultStock)];
      reply := Done;
    }

    /** Order placement: one pending order owned by the caller with the
        client's total, then, line by line in input order, an order item
        copying the line and a stock decrement of the vinyl it names, if any;
        the changed tables are stored together at the end. */
    method PlaceOrder(caller: User, total: Money, lines: seq<CartLine>) returns (orderId: nat)
      requires Valid()
      requires caller in users
      modifies this
      ensures Valid()
      ensures users == old(users)
      ensures orderId == |old(orders)| + 1
      ensures orders == old(orders) + [Order(orderId, caller.id, total, Pending)]
      ensures items == old(items) + LineItems(orderId, |old(items)| + 1, lines)
      ensures vinyls == StockAfter(old(vinyls), lines)
    {
      orderId := |orders| + 1;
      orders := orders + [Order(orderId, caller.id, total, Pending)];
      LineItemsKeepItemTableConsistent(items, orderId, lines, |orders|);
      StockAfterKeepsNumbering(vinyls, lines);
      vinyls, items := WriteCart(vinyls, items, orderId, lines);
    }

    /** First-run seeding: the administrator if its email is missing, the six
        samples if the catalog is empty. `adminHash` is the salted hash the
        password library produced for the administrator's password. */
    method InitDb(adminHash: string)
      requires Valid()
      modifies this
      ensures Valid()
      ensures users == SeedUsers(old(users), adminHash)
      ensures vinyls == SeedVinyls(old(vinyls))
      ensures orders == old(orders) && items == old(items)
    {
      SeedingKeepsDatabaseConsistent(users, vinyls, orders, items, adminHash);
      if FindUserByEmail(users, AdminEmail).None? {
        users := users + [AdminRow(|users| + 1, adminHash)];
      }
      if |vinyls| == 0 {
        vinyls := SampleVinyls();
      }
    }
  }

  /** The admin statistics: for an admin, the sizes of the users, vinyls and
      orders tables; for anyone else an error and no counts. */
  function AdminStats(caller: User, users: seq<User>, vinyls: seq<Vinyl>, orders: seq<Order>): (r: StatsReply)
    ensures r.Counts? <==> caller.role == AdminRole
    ensures r.Counts? ==> r.users == |users| && r.vinyls == |vinyls| && r.orders == |orders|
    ensures r.StatsError? ==> r.error == NotAuthorized
  {
    if caller.role != AdminRole then StatsError(NotAuthorized)
    else Counts(|users|, |vinyls|, |orders|)
  }

  /** The catalog listing: one object per row, in table order, carrying the row's fields. */
  function ListVinyls(vinyls: seq<Vinyl>): (r: seq<VinylView>)
    ensures |r| == |vinyls|
    ensures forall i | 0 <= i < |vinyls| ::
              && r[i].id == vinyls[i].id && r[i].title == vinyls[i].title
              && r[i].artist == vinyls[i].artist && r[i].genre == vinyls[i].genre
              && r[i].price == vinyls[i].price && r[i].stock == vinyls[i].stock
  {
    seq(|vinyls|, i requires 0 <= i < |vinyls| =>
      VinylView(vinyls[i].id, vinyls[i].title, vinyls[i].artist, vinyls[i].genre, vinyls[i].price, vinyls[i].stock))
  }

  /** A record an admin adds shows up at the end of the listing with stock 10,
      whatever was listed before it. */
  lemma AddedVinylIsListed(vinyls: seq<Vinyl>, title: string, artist: string, genre: string, price: Money)
    ensures var listing := ListVinyls(vinyls + [Vinyl(|vinyls| + 1, title, artist, genre, price, DefaultStock)]);
      |listing| == |vinyls| + 1 &&
      listing[|vinyls|] == VinylView(|vinyls| + 1, title, artist, genre, price, 10) &&
      listing[..|vinyls|] == ListVinyls(vinyls)
  {
  }

  /** Starting the application twice on a fresh database: the second seeding
      changes nothing, so an administrator sees one user and six records. */
  method SeedTwice(adminHash: string, laterHash: string) returns (stats: StatsReply, adminSignIn: AuthReply)
    ensures stats == Counts(1, 6, 0)
    ensures adminSignIn == Rejected(EmailTaken)
  {
    var store := new Store();
    store.InitDb(adminHash);
    store.InitDb(laterHash);
    assert store.users == [AdminRow(1, adminHash)];
    stats := AdminStats(store.users[0], store.users, store.vinyls, store.orders);
    adminSignIn := store.Register("Intruso", AdminEmail, laterHash);
  }

  /** Registering the same email twice: the second attempt is refused and the
      first registration is unaffected. */
  method RegisterTwice(firstHash: string, secondHash: string) returns (first: AuthReply, second: AuthReply, userCount: nat)
    ensures first == SignedIn(1, "Ana", UserRole)
    ensures second == Rejected(EmailTaken)
    ensures userCount == 1
  {
    var store := new Store();
    first := store.Register("Ana", "ana@example.com", firstHash);
    assert store.users[0].email == "ana@example.com";
    second := store.Register("Ana Maria", "ana@example.com", secondHash);
    userCount := |store.users|;
  }

  /** A first order on a seeded database, placed by the administrator: two
      copies of the first sample plus a line naming no record. */
  method FirstOrder(adminHash: string) returns (firstStock: int, secondStock: int, itemCount: nat, orderCount: nat)
    ensures firstStock == 8 && secondStock == 5
    ensures itemCount == 2 && orderCount == 1
  {
    var store := new Store();
    store.InitDb(adminHash);
    var orderId := store.PlaceOrder(store.users[0], 1798.0, [CartLine(1, 2, 899.0), CartLine(99, 1, 500.0)]);
    itemCount, orderCount := |store.items|, |store.orders|;
    firstStock, secondStock := store.vinyls[0].stock, store.vinyls[1].stock;
  }
}
