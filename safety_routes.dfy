/** The safety routes: location update, the SOS fan-out, and the trusted
    contact list (add, update by id, delete by id, list). The caller's id is
    the one the auth middleware decoded from the request's token. */
module SafetyRoutes {
  import opened Base
  import opened UserModel

  // ---------------------------------------------------------------------
  // Location update

  /** `PUT /location`. A caller missing from the store gets 404. Otherwise
      `currentLocation` becomes exactly the given coordinates (no range
      check, and a missing coordinate stays missing) stamped with `now`, and
      nothing else about the user changes. */
  method UpdateLocation(db: UserCollection, callerId: ObjectId, latitude: Option<Coord>,
                        longitude: Option<Coord>, now: Time)
    returns (status: Status, location: Option<Location>)
    requires db.Valid()
    modifies db
    ensures db.Valid()
    ensures FindById(old(db.users), callerId).None? ==>
      status == NotFound && location == None && unchanged(db)
    ensures FindById(old(db.users), callerId).Some? ==>
      var i := FindById(old(db.users), callerId).value;
      && status == OK
      && location == Some(Location(latitude, longitude, now))
      && db.users == old(db.users)[i := old(db.users)[i].(currentLocation := location.value)]
      && db.nextId == old(db.nextId)
  {
    var found := FindById(db.users, callerId);
    if found.None? {
      return NotFound, None;
    }
    var i := found.value;
    var fix := Location(latitude, longitude, now);
    ReplaceUserKeepsInvariant(db.users, db.nextId, i, db.users[i].(currentLocation := fix));
    db.users := db.users[i := db.users[i].(currentLocation := fix)];
    status, location := OK, Some(fix);
  }

  // ---------------------------------------------------------------------
  // SOS fan-out

  /** The structured payload of an SOS push message. */
  datatype SosData = SosData(kind: string, userId: ObjectId, userName: string, location: Location,
                             timestamp: Time)

  /** One entry of the batch sent to the push endpoint. */
  datatype PushMessage = PushMessage(to: string, sound: string, title: string, data: SosData)

  /** The message for one push token. The text body, which prints the two
      coordinates to four decimals, is not modelled. */
  function SosMessage(caller: User, token: string, now: Time): PushMessage {
    PushMessage(token, "default", "SOS Alert from " + caller.name,
                SosData("SOS", caller.id, caller.name, caller.currentLocation, now))
  }

  /** Resolution of one contact to a push destination: a contact with an
      email that belongs to a registered user holding a push token resolves
      to that token; every other contact resolves to nothing. */
  function Resolve(users: seq<User>, c: Contact): (r: Option<string>)
    ensures !Truthy(c.email) ==> r == None
    ensures r.Some? ==>
      && r.value != ""
      && exists i :: 0 <= i < |users| && users[i].email == c.email.value && users[i].expoPushToken == r
  {
    if !Truthy(c.email) then None
    else
      match FindByEmail(users, c.email.value)
      case None => None
      case Some(i) => if Truthy(users[i].expoPushToken) then users[i].expoPushToken else None
  }

  /** The push destinations of a contact list, one per resolving contact, in
      list order. */
  function PushTargets(users: seq<User>, cs: seq<Contact>): (r: seq<string>)
    ensures |r| <= |cs|
    decreases |cs|
  {
    if cs == [] then []
    else
      var last := cs[|cs| - 1];
      PushTargets(users, cs[..|cs| - 1]) + Found(Resolve(users, last))
  }

  /** The destination of one contact as a list of zero or one tokens. */
  function Found(t: Option<string>): seq<string> {
    if t.Some? then [t.value] else []
  }

  /** The position of the first contact that resolves to a destination: the
      point where the handler has to build its first message. */
  function FirstResolving(users: seq<User>, cs: seq<Contact>): (r: Option<nat>)
    ensures r.Some? ==> r.value < |cs| && Resolve(users, cs[r.value]).Some?
    ensures r.Some? ==> forall k :: 0 <= k < r.value ==> Resolve(users, cs[k]).None?
    ensures r.None? <==> forall k :: 0 <= k < |cs| ==> Resolve(users, cs[k]).None?
  {
    FirstIndex(cs, (c: Contact) => Resolve(users, c).Some?)
  }

  /** The emails the handler looks up, in list order: one per contact whose
      email is present and non-empty. Contacts without one are never looked up. */
  function LookupEmails(cs: seq<Contact>): (r: seq<string>)
    ensures |r| <= |cs|
    ensures forall k :: 0 <= k < |r| ==> r[k] != ""
    ensures |cs| == 1 ==> r == (if Truthy(cs[0].email) then [cs[0].email.value] else [])
    decreases |cs|
  {
    if cs == [] then []
    else
      var last := cs[|cs| - 1];
      LookupEmails(cs[..|cs| - 1]) + (if Truthy(last.email) then [last.email.value] else [])
  }

  /** The batch of messages for a list of push destinations. */
  function Batch(caller: User, targets: seq<string>, now: Time): (r: seq<PushMessage>)
    ensures |r| == |targets|
    ensures forall k :: 0 <= k < |r| ==>
      && r[k].to == targets[k]
      && r[k].data.kind == "SOS"
      && r[k].data.userId == caller.id
      && r[k].data.userName == caller.name
    decreases |targets|
  {
    if targets == [] then []
    else Batch(caller, targets[..|targets| - 1], now) + [SosMessage(caller, targets[|targets| - 1], now)]
  }

  /** The destinations of two lists placed one after the other are those of
      the first followed by those of the second. */
  lemma {:induction false} PushTargetsAppend(users: seq<User>, a: seq<Contact>, b: seq<Contact>)
    ensures PushTargets(users, a + b) == PushTargets(users, a) + PushTargets(users, b)
    decreases |b|
  {
    if b != [] {
      var b' := b[..|b| - 1];
      assert (a + b)[..|a + b| - 1] == a + b';
      assert (a + b)[|a + b| - 1] == b[|b| - 1];
      PushTargetsAppend(users, a, b');
    } else {
      assert a + b == a;
    }
  }

  /** The lookups of two lists placed one after the other are those of the
      first followed by those of the second. */
  lemma {:induction false} LookupEmailsAppend(a: seq<Contact>, b: seq<Contact>)
    ensures LookupEmails(a + b) == LookupEmails(a) + LookupEmails(b)
    decreases |b|
  {
    if b != [] {
      var b' := b[..|b| - 1];
      assert (a + b)[..|a + b| - 1] == a + b';
      assert (a + b)[|a + b| - 1] == b[|b| - 1];
      LookupEmailsAppend(a, b');
    } else {
      assert a + b == a;
    }
  }

  /** An email is looked up exactly when some contact of the list carries it
      as its present, non-empty email. */
  lemma {:induction false} LookupEmailsMembership(cs: seq<Contact>, e: string)
    ensures e in LookupEmails(cs) <==>
      exists i :: 0 <= i < |cs| && Truthy(cs[i].email) && cs[i].email.value == e
    decreases |cs|
  {
    if cs != [] {
      var init, last := cs[..|cs| - 1], cs[|cs| - 1];
      LookupEmailsMembership(init, e);
      if exists i :: 0 <= i < |init| && Truthy(init[i].email) && init[i].email.value == e {
        var i :| 0 <= i < |init| && Truthy(init[i].email) && init[i].email.value == e;
        assert cs[i] == init[i];
      }
      if exists i :: 0 <= i < |cs| && Truthy(cs[i].email) && cs[i].email.value == e {
        var i :| 0 <= i < |cs| && Truthy(cs[i].email) && cs[i].email.value == e;
        if i < |init| {
          assert init[i] == cs[i];
        }
      }
    }
  }

  /** Every destination comes from some contact of the list. */
  lemma {:induction false} TargetHasSource(users: seq<User>, cs: seq<Contact>, t: string)
    requires t in PushTargets(users, cs)
    ensures exists i :: 0 <= i < |cs| && Resolve(users, cs[i]) == Some(t)
    decreases |cs|
  {
    var init, last := cs[..|cs| - 1], cs[|cs| - 1];
    if t in PushTargets(users, init) {
      TargetHasSource(users, init, t);
      var i :| 0 <= i < |init| && Resolve(users, init[i]) == Some(t);
      assert cs[i] == init[i];
    } else {
      assert t in Found(Resolve(users, last));
    }
  }

  /** Every contact that resolves contributes its destination. */
  lemma {:induction false} SourceHasTarget(users: seq<User>, cs: seq<Contact>, i: nat)
    requires i < |cs| && Resolve(users, cs[i]).Some?
    ensures Resolve(users, cs[i]).value in PushTargets(users, cs)
    decreases |cs|
  {
    var init, last := cs[..|cs| - 1], cs[|cs| - 1];
    if i < |cs| - 1 {
      assert init[i] == cs[i];
      SourceHasTarget(users, init, i);
    } else {
      assert Resolve(users, last).value in Found(Resolve(users, last));
    }
  }

  /** A token is a destination exactly when some contact of the list
      resolves to it. */
  lemma PushTargetsMembership(users: seq<User>, cs: seq<Contact>, t: string)
    ensures t in PushTargets(users, cs) <==> exists i :: 0 <= i < |cs| && Resolve(users, cs[i]) == Some(t)
  {
    if t in PushTargets(users, cs) {
      TargetHasSource(users, cs, t);
    }
    if exists i :: 0 <= i < |cs| && Resolve(users, cs[i]) == Some(t) {
      var i :| 0 <= i < |cs| && Resolve(users, cs[i]) == Some(t);
      SourceHasTarget(users, cs, i);
    }
  }

  /** A list in which no contact has an email produces no lookup and no
      destination. */
  lemma {:induction false} NoEmailNoLookup(users: seq<User>, cs: seq<Contact>)
    requires forall k :: 0 <= k < |cs| ==> !Truthy(cs[k].email)
    ensures LookupEmails(cs) == [] && PushTargets(users, cs) == []
    decreases |cs|
  {
    if cs != [] {
      NoEmailNoLookup(users, cs[..|cs| - 1]);
    }
  }

  /** One contact whose email is that of a stored user holding a push token
      yields exactly one destination: that token. */
  lemma OneContactOneTarget(users: seq<User>, nextId: ObjectId, c: Contact, j: nat)
    requires StoreInvariant(users, nextId)
    requires j < |users|
    requires c.email == Some(users[j].email)
    requires Truthy(users[j].expoPushToken)
    ensures PushTargets(users, [c]) == [users[j].expoPushToken.value]
  {
    FindByEmailUnique(users, nextId, j);
    assert [c][..0] == [];
  }

  /** `POST /sos`. A caller missing from the store gets 404 and nothing is
      looked up or built. Otherwise each contact with an email is looked up
      in list order, and a message is built for each one that resolves. If a
      message must be built while the caller has no recorded coordinates,
      formatting them throws and the handler answers 500 without sending.
      Otherwise the push endpoint is called once with the whole batch when
      the batch is non-empty and not at all when it is empty; `sendOk`, the
      outcome of that call, is caught and never changes the 200 answer. */
  method TriggerSos(db: UserCollection, callerId: ObjectId, now: Time, sendOk: bool)
    returns (status: Status, lookups: seq<string>, batch: seq<PushMessage>, sent: bool)
    ensures FindById(db.users, callerId).None? ==>
      status == NotFound && lookups == [] && batch == [] && !sent
    ensures FindById(db.users, callerId).Some? ==>
      var caller := db.users[FindById(db.users, callerId).value];
      var targets := PushTargets(db.users, caller.trustedContacts);
      if targets != [] && !HasFix(caller.currentLocation) then
        && status == ServerError && batch == [] && !sent
        && FirstResolving(db.users, caller.trustedContacts).Some?
        && lookups == LookupEmails(caller.trustedContacts[..FirstResolving(db.users, caller.trustedContacts).value + 1])
      else
        && status == OK
        && lookups == LookupEmails(caller.trustedContacts)
        && batch == Batch(caller, targets, now)
        && sent == (targets != [])
    ensures sent ==> status == OK && batch != []
    ensures FindById(db.users, callerId).Some?
            && db.users[FindById(db.users, callerId).value].trustedContacts == [] ==>
      status == OK && lookups == [] && batch == [] && !sent
  {
    var found := FindById(db.users, callerId);
    if found.None? {
      return NotFound, [], [], false;
    }
    var caller := db.users[found.value];
    var contacts := caller.trustedContacts;
    var messages: seq<PushMessage> := [];
    lookups := [];
    var i := 0;
    while i < |contacts|
      invariant 0 <= i <= |contacts|
      invariant lookups == LookupEmails(contacts[..i])
      invariant PushTargets(db.users, contacts[..i]) != [] ==> HasFix(caller.currentLocation)
      invariant messages == Batch(caller, PushTargets(db.users, contacts[..i]), now)
    {
      var c := contacts[i];
      ghost var before := PushTargets(db.users, contacts[..i]);
      SosStep(db.users, contacts, i);
      if Truthy(c.email) {
        lookups := lookups + [c.email.value];
        var owner := FindByEmail(db.users, c.email.value);
        if owner.Some? && Truthy(db.users[owner.value].expoPushToken) {
          var token := db.users[owner.value].expoPushToken.value;
          assert Resolve(db.users, c) == Some(token);
          if !HasFix(caller.currentLocation) {
            SosAbort(db.users, contacts, i);
            return ServerError, lookups, [], false;
          }
          BatchStep(caller, before, token, now);
          messages := messages + [SosMessage(caller, token, now)];
        } else {
          assert Resolve(db.users, c) == None;
        }
      } else {
        assert Resolve(db.users, c) == None;
      }
      i := i + 1;
    }
    assert contacts[..i] == contacts;
    // One call with the whole batch, made only when the batch is non-empty;
    // whatever `sendOk` says, the failure is caught and the answer is 200.
    sent := |messages| > 0;
    status, batch := OK, messages;
  }

  /** An SOS from a caller with a recorded location whose one contact is
      the email of a registered user holding a push token: success, exactly
      one call, carrying exactly one message, addressed to that token. */
  method SosReachesOneAppUser(db: UserCollection, callerId: ObjectId, j: nat, now: Time, sendOk: bool)
    returns (status: Status, batch: seq<PushMessage>, sent: bool)
    requires db.Valid()
    requires FindById(db.users, callerId).Some?
    requires j < |db.users| && Truthy(db.users[j].expoPushToken)
    requires |db.users[FindById(db.users, callerId).value].trustedContacts| == 1
    requires db.users[FindById(db.users, callerId).value].trustedContacts[0].email == Some(db.users[j].email)
    requires HasFix(db.users[FindById(db.users, callerId).value].currentLocation)
    ensures status == OK && sent && |batch| == 1
    ensures batch[0].to == db.users[j].expoPushToken.value && batch[0].data.kind == "SOS"
    ensures batch[0].data.userId == callerId
  {
    var caller := db.users[FindById(db.users, callerId).value];
    OneContactOneTarget(db.users, db.nextId, caller.trustedContacts[0], j);
    assert caller.trustedContacts == [caller.trustedContacts[0]];
    var lookups;
    status, lookups, batch, sent := TriggerSos(db, callerId, now, sendOk);
  }

  /** One more contact adds its lookup and its destination at the end. */
  lemma SosStep(users: seq<User>, cs: seq<Contact>, i: nat)
    requires i < |cs|
    ensures LookupEmails(cs[..i + 1])
         == LookupEmails(cs[..i]) + (if Truthy(cs[i].email) then [cs[i].email.value] else [])
    ensures Resolve(users, cs[i]).None? ==> PushTargets(users, cs[..i + 1]) == PushTargets(users, cs[..i])
    ensures Resolve(users, cs[i]).Some? ==>
      PushTargets(users, cs[..i + 1]) == PushTargets(users, cs[..i]) + [Resolve(users, cs[i]).value]
  {
    assert cs[..i + 1][..i] == cs[..i];
  }

  /** One more destination adds its message at the end of the batch. */
  lemma BatchStep(caller: User, targets: seq<string>, t: string, now: Time)
    ensures Batch(caller, targets + [t], now) == Batch(caller, targets, now) + [SosMessage(caller, t, now)]
  {
    assert (targets + [t])[..|targets|] == targets;
  }

  /** When contact `i` is the first that resolves, the whole list has a
      destination and `i` is the first resolving position. */
  lemma SosAbort(users: seq<User>, cs: seq<Contact>, i: nat)
    requires i < |cs|
    requires Resolve(users, cs[i]).Some?
    requires PushTargets(users, cs[..i]) == []
    ensures PushTargets(users, cs) != []
    ensures FirstResolving(users, cs) == Some(i)
  {
    SosStep(users, cs, i);
    PushTargetsPrefix(users, cs, i + 1);
    FirstResolvingAt(users, cs, i);
  }

  /** A resolving contact preceded by contacts without destinations is the
      first resolving one. */
  lemma FirstResolvingAt(users: seq<User>, cs: seq<Contact>, i: nat)
    requires i < |cs|
    requires Resolve(users, cs[i]).Some?
    requires PushTargets(users, cs[..i]) == []
    ensures FirstResolving(users, cs) == Some(i)
  {
    forall k | 0 <= k < i ensures Resolve(users, cs[k]).None? {
      if Resolve(users, cs[k]).Some? {
        assert cs[..i][k] == cs[k];
        SourceHasTarget(users, cs[..i], k);
      }
    }
  }

  /** The destinations of a prefix of the list are a prefix of all destinations. */
  lemma {:induction false} PushTargetsPrefix(users: seq<User>, cs: seq<Contact>, n: nat)
    requires n <= |cs|
    ensures PushTargets(users, cs[..n]) <= PushTargets(users, cs)
    decreases |cs|
  {
    if n < |cs| {
      var init := cs[..|cs| - 1];
      assert init[..n] == cs[..n];
      PushTargetsPrefix(users, init, n);
    } else {
      assert cs[..n] == cs;
    }
  }

  /** The lookups made on a prefix of the list are a prefix of all lookups. */
  lemma {:induction false} LookupEmailsPrefix(cs: seq<Contact>, n: nat)
    requires n <= |cs|
    ensures LookupEmails(cs[..n]) <= LookupEmails(cs)
    decreases |cs|
  {
    if n < |cs| {
      var init := cs[..|cs| - 1];
      assert init[..n] == cs[..n];
      LookupEmailsPrefix(init, n);
    } else {
      assert cs[..n] == cs;
    }
  }

  // ---------------------------------------------------------------------
  // Trusted contacts

  /** The handlers' validation: a name, and at least one of phone or email. */
  predicate ValidContactRequest(name: Option<string>, phone: Option<string>, email: Option<string>) {
    Truthy(name) && (Truthy(phone) || Truthy(email))
  }

  /** `trustedContacts.id(contactId)`: the position of the contact with that id. */
  function FindContact(cs: seq<Contact>, id: ObjectId): (r: Option<nat>)
    ensures r.Some? ==> r.value < |cs| && cs[r.value].id == id
    ensures r.Some? ==> forall k :: 0 <= k < r.value ==> cs[k].id != id
    ensures r.None? <==> forall k :: 0 <= k < |cs| ==> cs[k].id != id
  {
    FirstIndex(cs, (c: Contact) => c.id == id)
  }

  /** `trustedContacts.pull({ _id: id })`: every entry with that id removed. */
  function RemoveContact(cs: seq<Contact>, id: ObjectId): (r: seq<Contact>)
    ensures |r| <= |cs|
    ensures forall k :: 0 <= k < |r| ==> r[k].id != id
  {
    if cs == [] then []
    else if cs[0].id == id then RemoveContact(cs[1..], id)
    else [cs[0]] + RemoveContact(cs[1..], id)
  }

  /** The contacts left after removal are exactly those of the list whose
      id differs from the removed one. */
  lemma {:induction false} RemoveContactMembers(cs: seq<Contact>, id: ObjectId, c: Contact)
    ensures c in RemoveContact(cs, id) <==> c in cs && c.id != id
  {
    if cs != [] {
      RemoveContactMembers(cs[1..], id, c);
      assert cs == [cs[0]] + cs[1..];
    }
  }

  /** Removing an id that no contact has leaves the list as it was. */
  lemma {:induction false} RemoveAbsentContact(cs: seq<Contact>, id: ObjectId)
    requires forall k :: 0 <= k < |cs| ==> cs[k].id != id
    ensures RemoveContact(cs, id) == cs
  {
    if cs != [] {
      RemoveAbsentContact(cs[1..], id);
      assert [cs[0]] + cs[1..] == cs;
    }
  }

  /** With unique ids, removing the id of entry `k` removes exactly that
      entry and keeps the others in their original order. */
  lemma {:induction false} RemoveContactAt(cs: seq<Contact>, k: nat)
    requires DistinctContactIds(cs)
    requires k < |cs|
    ensures RemoveContact(cs, cs[k].id) == cs[..k] + cs[k + 1..]
  {
    var id, tail := cs[k].id, cs[1..];
    assert DistinctContactIds(tail) by {
      forall a, b | 0 <= a < b < |tail| ensures tail[a].id != tail[b].id {
        assert tail[a] == cs[a + 1] && tail[b] == cs[b + 1];
      }
    }
    if k == 0 {
      forall m | 0 <= m < |tail| ensures tail[m].id != id {
        assert tail[m] == cs[m + 1];
      }
      RemoveAbsentContact(tail, id);
    } else {
      assert cs[0].id != id;
      assert RemoveContact(cs, id) == [cs[0]] + RemoveContact(tail, id);
      RemoveContactAt(tail, k - 1);
      assert tail[k - 1] == cs[k];
      assert tail[..k - 1] + tail[k..] == cs[1..k] + cs[k + 1..];
      assert [cs[0]] + cs[1..k] == cs[..k];
    }
  }

  /** Removal keeps contact ids unique. */
  lemma {:induction false} RemoveKeepsDistinct(cs: seq<Contact>, id: ObjectId)
    requires DistinctContactIds(cs)
    ensures DistinctContactIds(RemoveContact(cs, id))
  {
    if cs != [] {
      var rest := RemoveContact(cs[1..], id);
      RemoveKeepsDistinct(cs[1..], id);
      if cs[0].id != id {
        var r := [cs[0]] + rest;
        forall c | c in cs[1..] ensures c.id != cs[0].id {
          var m :| 0 <= m < |cs[1..]| && cs[1..][m] == c;
          assert cs[m + 1] == c;
        }
        forall a, b | 0 <= a < b < |r| ensures r[a].id != r[b].id {
          if a == 0 {
            assert r[b] == rest[b - 1] && r[b] in rest;
            RemoveContactMembers(cs[1..], id, r[b]);
          } else {
            assert r[a] == rest[a - 1] && r[b] == rest[b - 1];
          }
        }
      }
    }
  }

  /** Appending a contact whose id is `nextId` to a well-formed list keeps it
      well-formed once `nextId` has been issued. */
  lemma AppendFreshContact(cs: seq<Contact>, added: Contact, nextId: ObjectId)
    requires forall c :: c in cs ==> ContactValid(c, nextId)
    requires DistinctContactIds(cs)
    requires added.id == nextId && added.name != ""
    ensures forall c :: c in cs + [added] ==> ContactValid(c, nextId + 1)
    ensures DistinctContactIds(cs + [added])
  {
    var r := cs + [added];
    forall a, b | 0 <= a < b < |r| ensures r[a].id != r[b].id {
      if b == |cs| {
        assert r[a] in cs;
      }
    }
  }

  /** `GET /trusted-contacts`: the caller's contact list, or 404. */
  method ListTrustedContacts(db: UserCollection, callerId: ObjectId)
    returns (status: Status, contacts: seq<Contact>)
    ensures FindById(db.users, callerId).None? ==> status == NotFound && contacts == []
    ensures FindById(db.users, callerId).Some? ==>
      status == OK && contacts == db.users[FindById(db.users, callerId).value].trustedContacts
  {
    var found := FindById(db.users, callerId);
    if found.None? {
      return NotFound, [];
    }
    status, contacts := OK, db.users[found.value].trustedContacts;
  }

  /** `POST /trusted-contacts`. An invalid request is refused with 400
      before any lookup; a missing caller gets 404; otherwise the contact,
      with a fresh id, is appended at the end and the whole list is returned
      with 201. */
  method AddTrustedContact(db: UserCollection, callerId: ObjectId, name: Option<string>,
                           phone: Option<string>, email: Option<string>)
    returns (status: Status, contacts: seq<Contact>)
    requires db.Valid()
    modifies db
    ensures db.Valid()
    ensures !ValidContactRequest(name, phone, email) ==>
      status == BadRequest && contacts == [] && unchanged(db)
    ensures ValidContactRequest(name, phone, email) && FindById(old(db.users), callerId).None? ==>
      status == NotFound && contacts == [] && unchanged(db)
    ensures ValidContactRequest(name, phone, email) && FindById(old(db.users), callerId).Some? ==>
      var i := FindById(old(db.users), callerId).value;
      var added := Contact(old(db.nextId), name.value, phone, email);
      && status == Created
      && contacts == old(db.users)[i].trustedContacts + [added]
      && db.users == old(db.users)[i := old(db.users)[i].(trustedContacts := contacts)]
      && db.nextId == old(db.nextId) + 1
  {
    if !ValidContactRequest(name, phone, email) {
      return BadRequest, [];
    }
    var found := FindById(db.users, callerId);
    if found.None? {
      return NotFound, [];
    }
    var i := found.value;
    var u := db.users[i];
    var added := Contact(db.nextId, name.value, phone, email);
    contacts := u.trustedContacts + [added];
    InvariantGrows(db.users, db.nextId, db.nextId + 1);
    assert UserValid(u, db.nextId);
    AppendFreshContact(u.trustedContacts, added, db.nextId);
    ReplaceUserKeepsInvariant(db.users, db.nextId + 1, i, u.(trustedContacts := contacts));
    db.users := db.users[i := u.(trustedContacts := contacts)];
    db.nextId := db.nextId + 1;
    status := Created;
  }

  /** `PUT /trusted-contacts/:id`. The same validation (400); a missing
      caller or contact id gets 404; otherwise that one contact's name, phone
      and email are overwritten (an omitted field becomes missing) and every
      other contact, and the order, stay as they were. */
  method UpdateTrustedContact(db: UserCollection, callerId: ObjectId, contactId: ObjectId,
                              name: Option<string>, phone: Option<string>, email: Option<string>)
    returns (status: Status, contacts: seq<Contact>)
    requires db.Valid()
    modifies db
    ensures db.Valid()
    ensures !ValidContactRequest(name, phone, email) ==>
      status == BadRequest && contacts == [] && unchanged(db)
    ensures ValidContactRequest(name, phone, email) && FindById(old(db.users), callerId).None? ==>
      status == NotFound && contacts == [] && unchanged(db)
    ensures ValidContactRequest(name, phone, email) && FindById(old(db.users), callerId).Some? ==>
      var i := FindById(old(db.users), callerId).value;
      var cs := old(db.users)[i].trustedContacts;
      && (FindContact(cs, contactId).None? ==> status == NotFound && contacts == [] && unchanged(db))
      && (FindContact(cs, contactId).Some? ==>
            var k := FindContact(cs, contactId).value;
            && status == OK
            && contacts == cs[k := Contact(contactId, name.value, phone, email)]
            && db.users == old(db.users)[i := old(db.users)[i].(trustedContacts := contacts)]
            && db.nextId == old(db.nextId))
  {
    if !ValidContactRequest(name, phone, email) {
      return BadRequest, [];
    }
    var found := FindById(db.users, callerId);
    if found.None? {
      return NotFound, [];
    }
    var i := found.value;
    var u := db.users[i];
    var at := FindContact(u.trustedContacts, contactId);
    if at.None? {
      return NotFound, [];
    }
    var k := at.value;
    contacts := u.trustedContacts[k := Contact(contactId, name.value, phone, email)];
    assert UserValid(u, db.nextId);
    assert u.trustedContacts[k] in u.trustedContacts;
    assert forall c :: c in contacts ==> c in u.trustedContacts || c == contacts[k];
    assert forall c :: c in contacts ==> ContactValid(c, db.nextId);
    ReplaceUserKeepsInvariant(db.users, db.nextId, i, u.(trustedContacts := contacts));
    db.users := db.users[i := u.(trustedContacts := contacts)];
    status := OK;
  }

  /** `DELETE /trusted-contacts/:id`. A missing caller gets 404; otherwise
      the entry with that id is removed, the others keep their order, and an
      id that is not in the list still succeeds with the list unchanged. */
  method DeleteTrustedContact(db: UserCollection, callerId: ObjectId, contactId: ObjectId)
    returns (status: Status, contacts: seq<Contact>)
    requires db.Valid()
    modifies db
    ensures db.Valid()
    ensures FindById(old(db.users), callerId).None? ==>
      status == NotFound && contacts == [] && unchanged(db)
    ensures FindById(old(db.users), callerId).Some? ==>
      var i := FindById(old(db.users), callerId).value;
      var cs := old(db.users)[i].trustedContacts;
      && status == OK
      && contacts == RemoveContact(cs, contactId)
      && (FindContact(cs, contactId).None? ==> contacts == cs)
      && (FindContact(cs, contactId).Some? ==>
            var k := FindContact(cs, contactId).value;
            contacts == cs[..k] + cs[k + 1..])
      && db.users == old(db.users)[i := old(db.users)[i].(trustedContacts := contacts)]
      && db.nextId == old(db.nextId)
  {
    var found := FindById(db.users, callerId);
    if found.None? {
      return NotFound, [];
    }
    var i := found.value;
    var u := db.users[i];
    assert UserValid(u, db.nextId);
    contacts := RemoveContact(u.trustedContacts, contactId);
    var at := FindContact(u.trustedContacts, contactId);
    if at.None? {
      RemoveAbsentContact(u.trustedContacts, contactId);
    } else {
      RemoveContactAt(u.trustedContacts, at.value);
    }
    RemoveKeepsDistinct(u.trustedContacts, contactId);
    forall c | c in contacts ensures ContactValid(c, db.nextId) {
      RemoveContactMembers(u.trustedContacts, contactId, c);
    }
    ReplaceUserKeepsInvariant(db.users, db.nextId, i, u.(trustedContacts := contacts));
    db.users := db.users[i := u.(trustedContacts := contacts)];
    status := OK;
  }
}
