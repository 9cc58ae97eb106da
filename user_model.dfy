/** The `User` document of the users collection: its record shape, the
    validation that `save()` runs on it (required fields, unique email,
    sparse-unique push token), the two queries the handlers use (`findById`
    and `findOne({ email })`) and the collection itself. */
module UserModel {
  import opened Base

  /** A generated document identifier. Identifiers come from a counter kept
      by the collection, so a fresh one differs from every identifier issued
      before it. */
  type ObjectId = nat

  /** A latitude or longitude as received in a request body. Coordinates are
      only stored and compared, never computed with. */
  type Coord = real

  /** One entry of `trustedContacts`: a sub-document with its own generated
      id; `phone` and `email` are optional in the schema. */
  datatype Contact = Contact(id: ObjectId, name: string, phone: Option<string>, email: Option<string>)

  /** `currentLocation`. The schema gives `timestamp` a default, so the object
      exists from the moment the user is created, while `latitude` and
      `longitude` stay missing until the first location update. */
  datatype Location = Location(latitude: Option<Coord>, longitude: Option<Coord>, timestamp: Time)

  /** A stored user. `password` holds the salted hash, never the plain text. */
  datatype User = User(
    id: ObjectId,
    name: string,
    email: string,
    password: string,
    phone: string,
    trustedContacts: seq<Contact>,
    currentLocation: Location,
    expoPushToken: Option<string>,
    date: Time)

  /** Both coordinates are recorded, so they can be formatted. */
  predicate HasFix(l: Location) {
    l.latitude.Some? && l.longitude.Some?
  }

  /** A stored contact has a non-empty name and an id issued before `nextId`. */
  ghost predicate ContactValid(c: Contact, nextId: ObjectId) {
    c.name != "" && c.id < nextId
  }

  /** Contact ids are unique within one user's list. */
  ghost predicate DistinctContactIds(cs: seq<Contact>) {
    forall a, b :: 0 <= a < b < |cs| ==> cs[a].id != cs[b].id
  }

  /** What the schema's `required` validators guarantee of every saved user
      (a required string must also be non-empty), plus well-formed contacts. */
  ghost predicate UserValid(u: User, nextId: ObjectId) {
    && u.id < nextId
    && u.name != "" && u.email != "" && u.password != "" && u.phone != ""
    && (forall c :: c in u.trustedContacts ==> ContactValid(c, nextId))
    && DistinctContactIds(u.trustedContacts)
  }

  /** The collection invariant: every user valid, ids unique, emails unique
      (the `unique` index on `email`) and push tokens unique among the users
      that have one (the `unique`, `sparse` index on `expoPushToken`). */
  ghost predicate StoreInvariant(users: seq<User>, nextId: ObjectId) {
    && (forall i :: 0 <= i < |users| ==> UserValid(users[i], nextId))
    && (forall i, j :: 0 <= i < j < |users| ==> users[i].id != users[j].id)
    && (forall i, j :: 0 <= i < j < |users| ==> users[i].email != users[j].email)
    && (forall i, j :: 0 <= i < j < |users| && users[i].expoPushToken.Some? ==>
          users[i].expoPushToken != users[j].expoPushToken)
  }

  /** `new User({ name, email, password, phone })` followed by the validation
      of `save()`: the document is stored only when every required string is
      present and non-empty. The defaults fill the rest. */
  function CreateUser(id: ObjectId, name: Option<string>, email: string, password: string,
                      phone: Option<string>, now: Time): (r: Option<User>)
    ensures r.Some? <==> Truthy(name) && email != "" && password != "" && Truthy(phone)
    ensures r.Some? ==> UserValid(r.value, id + 1)
    ensures r.Some? ==>
      && r.value.id == id && r.value.name == name.value && r.value.email == email
      && r.value.password == password && r.value.phone == phone.value
    ensures r.Some? ==>
      && r.value.trustedContacts == [] && r.value.expoPushToken == None
      && r.value.currentLocation == Location(None, None, now)
      && r.value.date == now
  {
    if Truthy(name) && email != "" && password != "" && Truthy(phone) then
      Some(User(id, name.value, email, password, phone.value, [], Location(None, None, now), None, now))
    else
      None
  }

  /** `User.findById(id)`: the position of the user with that id. */
  function FindById(users: seq<User>, id: ObjectId): (r: Option<nat>)
    ensures r.Some? ==> r.value < |users| && users[r.value].id == id
    ensures r.Some? ==> forall k :: 0 <= k < r.value ==> users[k].id != id
    ensures r.None? <==> forall k :: 0 <= k < |users| ==> users[k].id != id
  {
    FirstIndex(users, (u: User) => u.id == id)
  }

  /** `User.findOne({ email })`: the first user, in storage order, whose
      email is exactly `email`. */
  function FindByEmail(users: seq<User>, email: string): (r: Option<nat>)
    ensures r.Some? ==> r.value < |users| && users[r.value].email == email
    ensures r.Some? ==> forall k :: 0 <= k < r.value ==> users[k].email != email
    ensures r.None? <==> forall k :: 0 <= k < |users| ==> users[k].email != email
  {
    FirstIndex(users, (u: User) => u.email == email)
  }

  /** Under the unique-email index, looking up a stored user's email finds
      that very user. */
  lemma FindByEmailUnique(users: seq<User>, nextId: ObjectId, j: nat)
    requires StoreInvariant(users, nextId)
    requires j < |users|
    ensures FindByEmail(users, users[j].email) == Some(j)
  {
  }

  /** Issuing more identifiers never invalidates the store. */
  lemma InvariantGrows(users: seq<User>, nextId: ObjectId, later: ObjectId)
    requires StoreInvariant(users, nextId)
    requires nextId <= later
    ensures StoreInvariant(users, later)
  {
    forall i | 0 <= i < |users| ensures UserValid(users[i], later) {
      assert UserValid(users[i], nextId);
    }
  }

  /** Saving a user whose id and email are unchanged, and whose push token is
      either unchanged or held by nobody else, keeps the store invariant. */
  lemma ReplaceUserKeepsInvariant(users: seq<User>, nextId: ObjectId, i: nat, v: User)
    requires StoreInvariant(users, nextId)
    requires i < |users|
    requires v.id == users[i].id && v.email == users[i].email
    requires UserValid(v, nextId)
    requires v.expoPushToken == users[i].expoPushToken
          || forall k :: 0 <= k < |users| && k != i ==> users[k].expoPushToken != v.expoPushToken
    ensures StoreInvariant(users[i := v], nextId)
  {
  }

  /** The users collection. Documents are kept in storage order, which is
      the order the queries above scan; `nextId` is the source of fresh
      object ids. */
  class UserCollection {
    var users: seq<User>
    var nextId: ObjectId

    ghost predicate Valid()
      reads this
    {
      StoreInvariant(users, nextId)
    }

    constructor ()
      ensures Valid() && users == []
    {
      users := [];
      nextId := 0;
    }
  }
}
