/** `app/api/users.py`: list, read, field-wise update and delete of users. */
module UsersApi {
  import opened Common
  import opened Tables
  import opened Records
  import opened Database

  /** The JSON body of PUT /<id>; `None` is a key that is not in the body. */
  datatype UserUpdate = UserUpdate(username: Option<string>, email: Option<string>, password: Option<string>)

  /** The "user" object the update echoes. */
  datatype UserEcho = UserEcho(id: nat, username: string, email: string)

  const UserNotFound := "User not found"

  /** GET /: every stored user, in table order. */
  function GetUsers(users: seq<User>): (r: Reply<seq<UserView>>)
    ensures r.Ok? && r.status == 200 && |r.body| == |users|
    ensures forall i :: 0 <= i < |users| ==> r.body[i] == View(users[i])
    ensures forall u :: u in users ==> View(u) in r.body
  {
    var views := seq(|users|, i requires 0 <= i < |users| => View(users[i]));
    assert forall u :: u in users ==> View(u) in views by {
      forall u | u in users ensures View(u) in views {
        var i :| 0 <= i < |users| && users[i] == u;
        assert views[i] == View(u);
      }
    }
    Ok(200, views)
  }

  /** GET /<id>. */
  function GetUser(users: seq<User>, id: int): (r: Reply<UserView>)
    ensures r.Err? <==> Lookup(users, UserId, id).None?
    ensures r.Err? ==> r == Err(404, UserNotFound)
    ensures r.Ok? ==> r.status == 200 && r.body.id == id && exists u :: u in users && View(u) == r.body
  {
    match Lookup(users, UserId, id)
    case None => Err(404, UserNotFound)
    case Some(u) => Ok(200, View(u))
  }

  /** The user after the assignments of `update_user`: each field present in the body replaces
      the stored one; a present password is stored as its hash. */
  function ApplyUpdate(u: User, req: UserUpdate, hash: string -> string): (v: User)
    ensures v.id == u.id && v.avatarUrl == u.avatarUrl
    ensures v.username == (if req.username.Some? then req.username.value else u.username)
    ensures v.email == (if req.email.Some? then req.email.value else u.email)
    ensures v.passwordHash == (if req.password.Some? then hash(req.password.value) else u.passwordHash)
  {
    var v := if req.username.Some? then u.(username := req.username.value) else u;
    var v := if req.email.Some? then v.(email := req.email.value) else v;
    if req.password.Some? then v.(passwordHash := hash(req.password.value)) else v
  }

  /** An empty body changes nothing. */
  lemma EmptyUpdateIsIdentity(u: User, hash: string -> string)
    ensures ApplyUpdate(u, UserUpdate(None, None, None), hash) == u
  {
  }

  /** Replaces the row carrying `v`'s key by `v`; every other row stays as it was. */
  function Replace(users: seq<User>, v: User): (r: seq<User>)
    ensures |r| == |users|
    ensures forall i :: 0 <= i < |users| ==> r[i] == if users[i].id == v.id then v else users[i]
  {
    seq(|users|, i requires 0 <= i < |users| => if users[i].id == v.id then v else users[i])
  }

  /** PUT /<id>. */
  method UpdateUser(db: Db, id: int, req: UserUpdate, hash: string -> string) returns (r: Reply<UserEcho>)
    requires db.Valid()
    modifies db`users
    ensures db.Valid()
    ensures Lookup(old(db.users), UserId, id).None? ==> r == Err(404, UserNotFound) && db.users == old(db.users)
    ensures Lookup(old(db.users), UserId, id).Some? ==>
      var v := ApplyUpdate(Lookup(old(db.users), UserId, id).value, req, hash);
      && db.users == Replace(old(db.users), v)
      && r == Ok(200, UserEcho(v.id, v.username, v.email))
  {
    var found := Lookup(db.users, UserId, id);
    if found.None? {
      return Err(404, UserNotFound);
    }
    var v := ApplyUpdate(found.value, req, hash);
    db.users := Replace(db.users, v);
    r := Ok(200, UserEcho(v.id, v.username, v.email));
  }

  /** An update touches only the addressed user: every other row is unchanged, the addressed
      one differs only in the fields present, and ids keep their positions. */
  lemma UpdateChangesOnlyThatUser(users: seq<User>, id: int, req: UserUpdate, hash: string -> string)
    requires KeysAscending(users, UserId)
    requires Lookup(users, UserId, id).Some?
    ensures var v := ApplyUpdate(Lookup(users, UserId, id).value, req, hash);
      var after := Replace(users, v);
      && (forall i :: 0 <= i < |users| && users[i].id != id ==> after[i] == users[i])
      && (forall i :: 0 <= i < |users| && users[i].id == id ==> after[i] == ApplyUpdate(users[i], req, hash))
  {
    var u := Lookup(users, UserId, id).value;
    forall i | 0 <= i < |users| && users[i].id == id
      ensures users[i] == u
    {
      var j :| 0 <= j < |users| && users[j] == u;
      assert !(i < j) && !(j < i);
    }
  }

  /** DELETE /<id>. */
  method DeleteUser(db: Db, id: int) returns (r: Reply<string>)
    requires db.Valid()
    modifies db`users
    ensures db.Valid()
    ensures Lookup(old(db.users), UserId, id).None? ==> r == Err(404, UserNotFound) && db.users == old(db.users)
    ensures Lookup(old(db.users), UserId, id).Some? ==>
      && db.users == Delete(old(db.users), UserId, id)
      && |db.users| == |old(db.users)| - 1
      && r == Ok(200, "User deleted successfully")
  {
    if Lookup(db.users, UserId, id).None? {
      return Err(404, UserNotFound);
    }
    DeleteOne(db.users, UserId, id);
    ghost var before := db.users;
    db.users := Delete(db.users, UserId, id);
    assert KeysBelow(db.users, UserId, db.nextUserId) by {
      forall i | 0 <= i < |db.users| ensures db.users[i].id < db.nextUserId {
        assert db.users[i] in before;
      }
    }
    r := Ok(200, "User deleted successfully");
  }
}
