/** Salesman creation (`POST /api/admin/salesmen`): an admin adds a user whose
    email is not yet taken. The new user never receives a role, whatever the
    request asked for. Passwords are stored as `hash` makes them; the hashing
    itself is outside this model. */
module SalesmenRoute {
  import opened Common
  import opened Tables

  datatype SalesmanForm = SalesmanForm(name: string, email: string, password: string, number: string)

  datatype Reply =
    | Created          // 200, "Salesman created successfully"
    | Unauthorized     // 401
    | AlreadyExists    // 400, "User already exists"
    | Failed           // 500, "Error creating salesman"

  /** The user schema's `required` fields: a missing or empty one fails validation. */
  predicate Complete(f: SalesmanForm) {
    f.name != "" && f.email != "" && f.password != "" && f.number != ""
  }

  /** The user the handler creates: `isAdmin` set to false, `isManager` left at
      its default, false. */
  function NewSalesman(f: SalesmanForm, hash: string -> string): (u: User)
    ensures !u.isAdmin && !u.isManager
    ensures u.name == f.name && u.email == f.email && u.number == f.number
  {
    User(f.name, f.email, hash(f.password), f.number, false, false)
  }

  /** Appending a user whose email the lookup does not find keeps emails distinct. */
  lemma AppendAbsentKeepsEmailsDistinct(users: seq<User>, u: User)
    requires DistinctUserEmails(users) && FindUser(users, u.email).None?
    ensures DistinctUserEmails(users + [u])
    ensures FindUser(users + [u], u.email) == Some(|users|)
  {
    var r := FindUser(users + [u], u.email);
    assert (users + [u])[|users|] == u;
    assert forall j :: 0 <= j < |users| ==> (users + [u])[j] == users[j];
    if r.None? || r.value < |users| {
      assert false;
    }
  }

  method CreateSalesman(db: Db, session: Option<Session>, f: SalesmanForm, hash: string -> string)
    returns (reply: Reply)
    requires db.Valid()
    modifies db`users
    ensures db.Valid()
    ensures !(session.Some? && session.value.isAdmin) ==> reply == Unauthorized && db.users == old(db.users)
    ensures session.Some? && session.value.isAdmin && FindUser(old(db.users), f.email).Some? ==>
      reply == AlreadyExists && db.users == old(db.users)
    ensures session.Some? && session.value.isAdmin && FindUser(old(db.users), f.email).None? ==>
      if Complete(f) then reply == Created && db.users == old(db.users) + [NewSalesman(f, hash)]
      else reply == Failed && db.users == old(db.users)
    ensures reply == Created <==> |db.users| == |old(db.users)| + 1
  {
    if session.None? || !session.value.isAdmin {
      return Unauthorized;
    }
    if FindUser(db.users, f.email).Some? {
      return AlreadyExists;
    }
    if !Complete(f) {
      return Failed;
    }
    AppendAbsentKeepsEmailsDistinct(db.users, NewSalesman(f, hash));
    db.users := db.users + [NewSalesman(f, hash)];
    reply := Created;
  }
}
