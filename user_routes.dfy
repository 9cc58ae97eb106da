/** The user directory: `POST /register` and `POST /login`.

    Password hashing and comparison belong to a foreign library and appear
    here as function parameters: `hash(password, salt)` stands for
    `bcrypt.hash` and `compare(password, stored)` for `bcrypt.compare`. The
    salt, being random, is a parameter too. A signed token is modelled by its
    payload and lifetime; the signature and the secret are left out. */
module UserRoutes {
  import opened Base
  import opened UserModel

  /** A signed token: its payload names the user, and it expires after
      `expiresIn` seconds. */
  datatype Jwt = Jwt(userId: ObjectId, expiresIn: nat)

  /** `{ expiresIn: '1h' }`. */
  const TokenLifetime: nat := 3600

  /** What login answers: a token, or a status with its message. */
  datatype AuthReply = Issued(jwt: Jwt) | Refused(status: Status, msg: string)

  /** The one reply for both an unknown email and a wrong password. */
  const InvalidCredentials: AuthReply := Refused(BadRequest, "Invalid Credentials")

  /** `POST /register`. An email already stored is refused with 400 and
      nothing changes. Otherwise the password is hashed with the given salt
      (a missing password makes the hash throw: 500), the new user is
      validated and saved (a missing or empty required field: 500), and a
      token for the new user's id is returned. */
  method Register(db: UserCollection, name: Option<string>, email: string, password: Option<string>,
                  phone: Option<string>, hash: (string, string) -> string, salt: string, now: Time)
    returns (status: Status, token: Option<Jwt>)
    requires db.Valid()
    modifies db
    ensures db.Valid()
    ensures FindByEmail(old(db.users), email).Some? ==>
      status == BadRequest && token == None && unchanged(db)
    ensures FindByEmail(old(db.users), email).None? && password.None? ==>
      status == ServerError && token == None && unchanged(db)
    ensures FindByEmail(old(db.users), email).None? && password.Some? ==>
      var u := CreateUser(old(db.nextId), name, email, hash(password.value, salt), phone, now);
      && (u.None? ==> status == ServerError && token == None && unchanged(db))
      && (u.Some? ==>
            && status == OK
            && db.users == old(db.users) + [u.value]
            && db.nextId == old(db.nextId) + 1
            && token == Some(Jwt(u.value.id, TokenLifetime)))
    ensures status == OK ==>
      && |db.users| == |old(db.users)| + 1
      && db.users[|db.users| - 1].password == hash(password.value, salt)
      && db.users[|db.users| - 1].email == email
    ensures status == OK <==>
      && FindByEmail(old(db.users), email).None?
      && password.Some? && hash(password.value, salt) != ""
      && Truthy(name) && email != "" && Truthy(phone)
  {
    if FindByEmail(db.users, email).Some? {
      return BadRequest, None;
    }
    if password.None? {
      return ServerError, None;
    }
    var hashed := hash(password.value, salt);
    var created := CreateUser(db.nextId, name, email, hashed, phone, now);
    if created.None? {
      return ServerError, None;
    }
    var u := created.value;
    InvariantGrows(db.users, db.nextId, db.nextId + 1);
    db.users := db.users + [u];
    db.nextId := db.nextId + 1;
    status, token := OK, Some(Jwt(u.id, TokenLifetime));
  }

  /** `POST /login`. Looks the email up and compares the password with the
      stored hash; it reads the users and changes nothing. */
  function Login(users: seq<User>, email: string, password: Option<string>,
                 compare: (string, string) -> bool): (r: AuthReply)
    ensures FindByEmail(users, email).None? ==> r == InvalidCredentials
    ensures r.Issued? <==>
      (exists i :: 0 <= i < |users| && users[i].email == email && FindByEmail(users, email) == Some(i)
                   && password.Some? && compare(password.value, users[i].password))
    ensures r.Issued? ==>
      && FindByEmail(users, email).Some?
      && r.jwt == Jwt(users[FindByEmail(users, email).value].id, TokenLifetime)
    ensures r.Refused? ==> r == InvalidCredentials || (password.None? && r.status == ServerError)
    ensures FindByEmail(users, email).Some? && password.None? ==> r == Refused(ServerError, "Server Error")
  {
    match FindByEmail(users, email)
    case None => InvalidCredentials
    case Some(i) =>
      if password.None? then Refused(ServerError, "Server Error")
      else if !compare(password.value, users[i].password) then InvalidCredentials
      else Issued(Jwt(users[i].id, TokenLifetime))
  }

  /** An unknown email and a known email with a wrong password get the same
      reply, so a caller cannot tell which check failed. */
  lemma LoginFailuresIndistinguishable(users: seq<User>, unknown: string, known: string,
                                       guess: string, wrong: string, compare: (string, string) -> bool)
    requires FindByEmail(users, unknown).None?
    requires FindByEmail(users, known).Some?
    requires !compare(wrong, users[FindByEmail(users, known).value].password)
    ensures Login(users, unknown, Some(guess), compare) == Login(users, known, Some(wrong), compare)
    ensures Login(users, known, Some(wrong), compare) == InvalidCredentials
  {
  }

  /** Appending a user with a fresh email makes that email find the new user. */
  lemma FindByEmailAfterAppend(users: seq<User>, u: User)
    requires FindByEmail(users, u.email).None?
    ensures FindByEmail(users + [u], u.email) == Some(|users|)
  {
    assert (users + [u])[|users|] == u;
    assert forall k :: 0 <= k < |users| ==> (users + [u])[k] == users[k];
  }

  /** Register followed by login with the same credentials: when `compare`
      accepts every password against its own salted hash, the user that a
      successful registration appended can log in, and the token names it. */
  lemma LoginAfterRegister(users: seq<User>, u: User, password: string, salt: string,
                           hash: (string, string) -> string, compare: (string, string) -> bool)
    requires FindByEmail(users, u.email).None?
    requires u.password == hash(password, salt)
    requires forall p, s :: compare(p, hash(p, s))
    ensures Login(users + [u], u.email, Some(password), compare) == Issued(Jwt(u.id, TokenLifetime))
  {
    FindByEmailAfterAppend(users, u);
  }

  /** Registering an email twice: the second attempt is refused with 400 and
      the store holds one user with that email. */
  method RegisterTwice(db: UserCollection, name: Option<string>, email: string, password: Option<string>,
                       phone: Option<string>, hash: (string, string) -> string, salt1: string, salt2: string,
                       now: Time)
    returns (first: Status, second: Status)
    requires db.Valid()
    modifies db
    ensures db.Valid()
    ensures first == OK ==> second == BadRequest && |db.users| == |old(db.users)| + 1
    ensures first == OK ==> FindByEmail(db.users, email) == Some(|old(db.users)|)
  {
    var t1, t2;
    first, t1 := Register(db, name, email, password, phone, hash, salt1, now);
    if first == OK {
      FindByEmailAfterAppend(old(db.users), db.users[|db.users| - 1]);
    }
    second, t2 := Register(db, name, email, password, phone, hash, salt2, now);
  }

  /** Register followed by login with the same email and password: when
      `compare` accepts every password against its own salted hash, a
      successful registration is followed by a successful login whose token
      is the one registration issued. */
  method RegisterThenLogin(db: UserCollection, name: Option<string>, email: string, password: Option<string>,
                           phone: Option<string>, hash: (string, string) -> string,
                           compare: (string, string) -> bool, salt: string, now: Time)
    returns (status: Status, token: Option<Jwt>, reply: AuthReply)
    requires db.Valid()
    requires forall p, s :: compare(p, hash(p, s))
    modifies db
    ensures db.Valid()
    ensures status == OK ==> token.Some? && reply == Issued(token.value)
    ensures status != OK ==> token == None
  {
    ghost var before := db.users;
    status, token := Register(db, name, email, password, phone, hash, salt, now);
    if status == OK {
      LoginAfterRegister(before, db.users[|db.users| - 1], password.value, salt, hash, compare);
    }
    reply := Login(db.users, email, password, compare);
  }
}
