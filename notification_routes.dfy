/** The notification route: registering the caller's push token. */
module NotificationRoutes {
  import opened Base
  import opened UserModel

  /** Another user than the one at position `i` already holds `token`. */
  predicate TokenHeldByOther(users: seq<User>, i: nat, token: string) {
    exists k :: 0 <= k < |users| && k != i && users[k].expoPushToken == Some(token)
  }

  /** `POST /token`. A missing or empty token is refused with 400 before any
      lookup; a missing caller gets 404. Otherwise the caller's push token is
      overwritten; when another user already holds that token the unique
      sparse index makes the save fail and the handler answers 500 with the
      store unchanged. Registering the token the caller already holds
      succeeds and leaves the store as it was. */
  method RegisterPushToken(db: UserCollection, callerId: ObjectId, token: Option<string>)
    returns (status: Status)
    requires db.Valid()
    modifies db
    ensures db.Valid()
    ensures !Truthy(token) ==> status == BadRequest && unchanged(db)
    ensures Truthy(token) && FindById(old(db.users), callerId).None? ==>
      status == NotFound && unchanged(db)
    ensures Truthy(token) && FindById(old(db.users), callerId).Some? ==>
      var i := FindById(old(db.users), callerId).value;
      && (TokenHeldByOther(old(db.users), i, token.value) ==> status == ServerError && unchanged(db))
      && (!TokenHeldByOther(old(db.users), i, token.value) ==>
            && status == OK
            && db.users == old(db.users)[i := old(db.users)[i].(expoPushToken := token)]
            && db.nextId == old(db.nextId))
    ensures Truthy(token) && FindById(old(db.users), callerId).Some?
            && old(db.users)[FindById(old(db.users), callerId).value].expoPushToken == token ==>
      status == OK && unchanged(db)
  {
    if !Truthy(token) {
      return BadRequest;
    }
    var found := FindById(db.users, callerId);
    if found.None? {
      return NotFound;
    }
    var i := found.value;
    if db.users[i].expoPushToken == token {
      OwnTokenNotHeldByOther(db.users, db.nextId, i);
    }
    if TokenHeldByOther(db.users, i, token.value) {
      return ServerError;
    }
    var u := db.users[i];
    assert UserValid(u, db.nextId);
    ReplaceUserKeepsInvariant(db.users, db.nextId, i, u.(expoPushToken := token));
    db.users := db.users[i := u.(expoPushToken := token)];
    assert u.expoPushToken == token ==> db.users == old(db.users);
    status := OK;
  }

  /** Under the sparse unique index, the token a user already holds is held
      by nobody else, so registering it again is accepted. */
  lemma OwnTokenNotHeldByOther(users: seq<User>, nextId: ObjectId, i: nat)
    requires StoreInvariant(users, nextId)
    requires i < |users| && users[i].expoPushToken.Some?
    ensures !TokenHeldByOther(users, i, users[i].expoPushToken.value)
  {
  }
}
