/** `app/api/auth.py`: register, login and logout. Password hashing (`set_password` /
    `check_password`) is the abstract function `hash`; issuing the JWT is left abstract and
    the reply carries the identity the token is created for. */
module AuthApi {
  import opened Common
  import opened Tables
  import opened Records
  import opened Database

  /** The JSON body of POST /register; `None` is a missing key. */
  datatype RegisterRequest = RegisterRequest(username: Option<string>, email: Option<string>,
                                             password: Option<string>, avatarUrl: Option<string>)

  /** The JSON body of POST /login. The username may also be JSON `null`; a `null` password
      would reach `check_password`, which is not part of this model, and is folded into a
      missing one. */
  datatype LoginRequest = LoginRequest(username: Field<string>, password: Option<string>)

  /** What a successful login returns besides the token: the token's identity (its `sub`
      claim) and the user. */
  datatype LoginBody = LoginBody(identity: string, user: UserView)

  const UsernameExists := Rejection(409, "Username already exists")
  const EmailExists := Rejection(409, "Email already exists")
  const InvalidCredentials := Rejection(401, "Invalid credentials")

  /** `User.query.filter_by(username=name)`, in table order. */
  function WithUsername(users: seq<User>, name: string): (r: seq<User>)
    ensures forall u :: u in r <==> u in users && u.username == name
  {
    Where(users, (u: User) => u.username == name)
  }

  /** `User.query.filter_by(username=name).first()` is not None. */
  predicate UsernameTaken(users: seq<User>, name: string) {
    WithUsername(users, name) != []
  }

  /** `User.query.filter_by(email=email).first()` is not None. */
  predicate EmailTaken(users: seq<User>, email: string) {
    Where(users, (u: User) => u.email == email) != []
  }

  /** No two users share a username, and no two share an email. */
  ghost predicate UniqueIdentities(users: seq<User>) {
    forall i, j :: 0 <= i < j < |users| ==>
      users[i].username != users[j].username && users[i].email != users[j].email
  }

  /** The checks of `register`, in source order: the username lookup (a missing key raises),
      then the email lookup, then reading the password. `None` means the user is created. */
  function RegisterCheck(users: seq<User>, req: RegisterRequest): (r: Option<Rejection>)
    ensures r == Some(UsernameExists) <==> req.username.Some? && UsernameTaken(users, req.username.value)
    ensures r == Some(EmailExists) <==>
      && req.username.Some? && !UsernameTaken(users, req.username.value)
      && req.email.Some? && EmailTaken(users, req.email.value)
    ensures r.None? <==>
      && req.username.Some? && !UsernameTaken(users, req.username.value)
      && req.email.Some? && !EmailTaken(users, req.email.value)
      && req.password.Some?
    ensures r.Some? ==> r.value in {UsernameExists, EmailExists, Crash}
  {
    if req.username.None? then Some(Crash)
    else if UsernameTaken(users, req.username.value) then Some(UsernameExists)
    else if req.email.None? then Some(Crash)
    else if EmailTaken(users, req.email.value) then Some(EmailExists)
    else if req.password.None? then Some(Crash)
    else None
  }

  /** A registration that passes its checks keeps usernames and emails unique, whatever id
      the new row gets: the invariant holds after any sequence of `register` calls. */
  lemma RegisterKeepsIdentitiesUnique(users: seq<User>, req: RegisterRequest, u: User)
    requires UniqueIdentities(users)
    requires RegisterCheck(users, req).None?
    requires u.username == req.username.value && u.email == req.email.value
    ensures UniqueIdentities(users + [u])
  {
    var name, email := req.username.value, req.email.value;
    forall i | 0 <= i < |users|
      ensures users[i].username != name && users[i].email != email
    {
      assert users[i] in users;
    }
  }

  /** POST /register. */
  method Register(db: Db, req: RegisterRequest, hash: string -> string) returns (r: Reply<UserView>)
    requires db.Valid()
    modifies db`users, db`nextUserId
    ensures db.Valid()
    ensures var check := RegisterCheck(old(db.users), req);
      check.Some? ==> r == Err(check.value.status, check.value.message) && db.users == old(db.users)
    ensures RegisterCheck(old(db.users), req).None? ==>
      var u := User(old(db.nextUserId), req.username.value, req.email.value,
                    hash(req.password.value), req.avatarUrl);
      db.users == old(db.users) + [u] && r == Ok(201, View(u))
    ensures UniqueIdentities(old(db.users)) ==> UniqueIdentities(db.users)
  {
    var check := RegisterCheck(db.users, req);
    if check.Some? {
      return Err(check.value.status, check.value.message);
    }
    ghost var before := db.users;
    var u := db.AddUser(req.username.value, req.email.value, hash(req.password.value), req.avatarUrl);
    if UniqueIdentities(before) {
      RegisterKeepsIdentitiesUnique(before, req, u);
    }
    r := Ok(201, View(u));
  }

  /** POST /login: the first user with that username, then the password check (which reads the
      password key only when the user exists). A missing username key raises; a `null` one
      matches nobody. The identity is the decimal string of the id. */
  function Login(users: seq<User>, req: LoginRequest, hash: string -> string): (r: Reply<LoginBody>)
    ensures req.username.Absent? ==> r == Err(500, Crash.message)
    ensures req.username.Null? ==> r == Err(401, "Invalid credentials")
    ensures req.username.Given? && WithUsername(users, req.username.value) == [] ==>
      r == Err(401, "Invalid credentials")
    ensures req.username.Given? && WithUsername(users, req.username.value) != [] && req.password.None? ==>
      r == Err(500, Crash.message)
    ensures req.username.Given? && req.password.Some? ==>
      var found := WithUsername(users, req.username.value);
      && (found != [] && hash(req.password.value) == found[0].passwordHash ==>
            r == Ok(200, LoginBody(NatToDecimal(found[0].id), View(found[0]))))
      && (found != [] && hash(req.password.value) != found[0].passwordHash ==>
            r == Err(401, "Invalid credentials"))
    ensures r.Ok? ==> (
      && r.status == 200 && req.username.Given? && req.password.Some?
      && var u := WithUsername(users, req.username.value)[0];
      && u in users && u.username == req.username.value && hash(req.password.value) == u.passwordHash
      && r.body == LoginBody(NatToDecimal(u.id), View(u)))
    ensures r.Err? ==> r.status in {401, InternalError}
  {
    match req.username
    case Absent => Err(Crash.status, Crash.message)
    case Null => Err(InvalidCredentials.status, InvalidCredentials.message)
    case Given(name) =>
      var found := WithUsername(users, name);
      if found == [] then Err(InvalidCredentials.status, InvalidCredentials.message)
      else if req.password.None? then Err(Crash.status, Crash.message)
      else if hash(req.password.value) != found[0].passwordHash then
        Err(InvalidCredentials.status, InvalidCredentials.message)
      else
        assert found[0] in found;
        Ok(200, LoginBody(NatToDecimal(found[0].id), View(found[0])))
  }

  /** A wrong password for an existing user is rejected like an unknown user. */
  lemma WrongPasswordRejected(users: seq<User>, req: LoginRequest, hash: string -> string)
    requires req.username.Given? && req.password.Some?
    requires forall u :: u in users && u.username == req.username.value ==>
               hash(req.password.value) != u.passwordHash
    ensures Login(users, req, hash) == Err(401, "Invalid credentials")
  {
    var found := WithUsername(users, req.username.value);
    if found != [] {
      assert found[0] in found;
    }
  }

  /** The identity a login issues names the user back: parsing it with `int(...)`, as the socket
      layer does with the token's `sub`, gives the user's id. */
  lemma LoginIdentityParses(users: seq<User>, req: LoginRequest, hash: string -> string)
    requires Login(users, req, hash).Ok?
    ensures ParseInt(Login(users, req, hash).body.identity) == Some(Login(users, req, hash).body.user.id as int)
  {
    ParseDecimalRoundTrip(Login(users, req, hash).body.user.id);
  }

  /** POST /logout: adds the current token's `jti` to the blocklist. */
  method Logout(db: Db, jti: string) returns (r: Reply<string>)
    modifies db`blocklist
    ensures db.blocklist == old(db.blocklist) + [jti]
    ensures r == Ok(200, "Successfully logged out")
  {
    db.blocklist := db.blocklist + [jti];
    r := Ok(200, "Successfully logged out");
  }
}
