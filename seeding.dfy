/** First-run seeding of the database: one administrator and six sample
    records, each added only when missing. */
module Seeding {
  import opened Models

  const AdminEmail := "admin@vinylvibe.com"

  /** The six sample records, with ids 1 to 6 (they are only added to an empty table). */
  function SampleVinyls(): (r: seq<Vinyl>)
    ensures |r| == 6 && VinylsNumbered(r)
    ensures forall k | 0 <= k < |r| :: r[k].stock == [10, 5, 8, 6, 4, 7][k]
  {
    [ Vinyl(1, "Abbey Road", "The Beatles", "rock", 899.0, 10),
      Vinyl(2, "Kind of Blue", "Miles Davis", "jazz", 1200.0, 5),
      Vinyl(3, "Thriller", "Michael Jackson", "pop", 999.0, 8),
      Vinyl(4, "The Dark Side of the Moon", "Pink Floyd", "rock", 1100.0, 6),
      Vinyl(5, "Random Access Memories", "Daft Punk", "electronic", 1050.0, 4),
      Vinyl(6, "B.B. King Live at the Regal", "B.B. King", "blues", 850.0, 7) ]
  }

  /** The administrator row seeding writes. */
  function AdminRow(id: nat, adminHash: string): (u: User)
    ensures u.email == AdminEmail && u.role == AdminRole
    ensures u.id == id && u.passwordHash == adminHash
  {
    User(id, "Administrador", AdminEmail, adminHash, AdminRole)
  }

  /** The users table after seeding: the administrator is appended only when
      no user has its email. `adminHash` is the salted hash of its password. */
  function SeedUsers(users: seq<User>, adminHash: string): (r: seq<User>)
    ensures FindUserByEmail(r, AdminEmail).Some?
    ensures FindUserByEmail(users, AdminEmail).Some? ==> r == users
    ensures FindUserByEmail(users, AdminEmail).None? ==>
      |r| == |users| + 1 && r[..|users|] == users && r[|users|].role == AdminRole &&
      r[|users|].id == |users| + 1 && r[|users|].passwordHash == adminHash
  {
    if FindUserByEmail(users, AdminEmail).Some? then users
    else
      var admin := AdminRow(|users| + 1, adminHash);
      assert (users + [admin])[|users|].email == AdminEmail;
      users + [admin]
  }

  /** The vinyls table after seeding: the samples are added only to an empty table. */
  function SeedVinyls(vinyls: seq<Vinyl>): (r: seq<Vinyl>)
    ensures |vinyls| > 0 ==> r == vinyls
    ensures |vinyls| == 0 ==> r == SampleVinyls()
  {
    if |vinyls| == 0 then SampleVinyls() else vinyls
  }

  /** Seeding twice leaves what seeding once left, whatever hash the second
      run would have generated. */
  lemma SeedingIsIdempotent(users: seq<User>, vinyls: seq<Vinyl>, adminHash: string, laterHash: string)
    ensures SeedUsers(SeedUsers(users, adminHash), laterHash) == SeedUsers(users, adminHash)
    ensures SeedVinyls(SeedVinyls(vinyls)) == SeedVinyls(vinyls)
  {
  }

  /** Seeding keeps the database consistent. */
  lemma SeedingKeepsDatabaseConsistent(users: seq<User>, vinyls: seq<Vinyl>, orders: seq<Order>,
                                       items: seq<OrderItem>, adminHash: string)
    requires Consistent(users, vinyls, orders, items)
    ensures Consistent(SeedUsers(users, adminHash), SeedVinyls(vinyls), orders, items)
  {
    var r := SeedUsers(users, adminHash);
    if FindUserByEmail(users, AdminEmail).None? {
      assert r[|users|].email == AdminEmail;
      assert forall i | 0 <= i < |users| :: r[i] == users[i];
    }
  }
}
