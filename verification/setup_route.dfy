/** First-run seeding (`GET /api/setup`): creates the default administrator
    unless a user with its email exists. There is no session or role check. */
module SetupRoute {
  import opened Common
  import opened Tables

  const AdminEmail := "admin@assetmanager.com"

  datatype Reply =
    | AdminCreated   // "Admin user created successfully"
    | AdminExists    // "Admin already exists"

  /** The seeded administrator; its password is stored as `hash` makes it. */
  function SeedAdmin(hash: string -> string): (u: User)
    ensures u.email == AdminEmail && u.isAdmin && !u.isManager
  {
    User("Admin", AdminEmail, hash("admin123"), "1234567890", false, true)
  }

  /** The user table after seeding. */
  function Seeded(users: seq<User>, hash: string -> string): seq<User> {
    if FindUser(users, AdminEmail).Some? then users else users + [SeedAdmin(hash)]
  }

  /** After seeding a user with the admin email is present, and the table grew
      by exactly the new administrator or not at all. */
  lemma SeededHasAdmin(users: seq<User>, hash: string -> string)
    ensures FindUser(Seeded(users, hash), AdminEmail).Some?
    ensures FindUser(users, AdminEmail).Some? ==> Seeded(users, hash) == users
    ensures FindUser(users, AdminEmail).None? ==>
      Seeded(users, hash) == users + [SeedAdmin(hash)] &&
      FindUser(Seeded(users, hash), AdminEmail) == Some(|users|)
  {
    if FindUser(users, AdminEmail).None? {
      var s := users + [SeedAdmin(hash)];
      var r := FindUser(s, AdminEmail);
      assert s[|users|].email == AdminEmail;
      assert forall j :: 0 <= j < |users| ==> s[j] == users[j];
      if r.None? || r.value < |users| {
        assert false;
      }
    }
  }

  /** Seeding twice leaves the same table as seeding once. */
  lemma SeedIdempotent(users: seq<User>, hash: string -> string)
    ensures Seeded(Seeded(users, hash), hash) == Seeded(users, hash)
  {
    SeededHasAdmin(users, hash);
  }

  /** Seeding keeps user emails distinct. */
  lemma SeedKeepsEmailsDistinct(users: seq<User>, hash: string -> string)
    requires DistinctUserEmails(users)
    ensures DistinctUserEmails(Seeded(users, hash))
  {
    if FindUser(users, AdminEmail).None? {
      var s := users + [SeedAdmin(hash)];
      assert forall j :: 0 <= j < |users| ==> s[j] == users[j];
    }
  }

  /** The handler; anyone may call it. */
  method Setup(db: Db, hash: string -> string) returns (reply: Reply)
    requires db.Valid()
    modifies db`users
    ensures db.Valid()
    ensures db.users == Seeded(old(db.users), hash)
    ensures reply == AdminExists <==> FindUser(old(db.users), AdminEmail).Some?
  {
    SeedKeepsEmailsDistinct(db.users, hash);
    if FindUser(db.users, AdminEmail).Some? {
      return AdminExists;
    }
    db.users := db.users + [SeedAdmin(hash)];
    reply := AdminCreated;
  }
}
