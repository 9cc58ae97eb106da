# Raksha backend: route handlers over an in-memory document store

This project models the decision and update logic of the Raksha personal-safety
backend: the Express route handlers for user accounts, location updates,
trusted contacts, the SOS fan-out, push-token registration and danger zones,
taken against an in-memory stand-in for the two MongoDB collections.

- `base.dfy` (`Base`): optional request fields, JavaScript truthiness
  (`!x` on a string is "missing or empty"), status codes, time.
- `user_model.dfy` (`UserModel`): the `User` schema as datatypes, what
  `save()` validation guarantees (required strings non-empty, unique email,
  sparse-unique push token, contacts with a name and a unique generated id)
  as the invariant `StoreInvariant`, the queries `findById` and
  `findOne({ email })`, and the class `UserCollection` holding the users in
  storage order plus the counter that issues fresh object ids.
- `zone_model.dfy` (`ZoneModel`): the `DangerZone` schema, the severity
  enumeration, schema defaults and validation, and `ZoneCollection` with its
  unique-name invariant.
- `user_routes.dfy` (`UserRoutes`): register and login.
- `safety_routes.dfy` (`SafetyRoutes`): location update, the SOS fan-out, and
  the trusted-contact add / update / delete / list handlers.
- `notification_routes.dfy` (`NotificationRoutes`): push-token registration.
- `danger_zone_routes.dfy` (`DangerZoneRoutes`): active-zone listing and the
  test-zone seeding handler.

Each state-changing handler is a method with `modifies db` on its collection.
Its postcondition gives the status it answers and the whole new state in
terms of the old one. Every handler keeps the collection invariant. Read-only
handlers (SOS, list contacts) and the queries are methods or functions that
change nothing. The caller's id, which the auth middleware decodes from the
token, is a parameter. The clock (`Date.now()`) and the random salt are
parameters too. `bcrypt.hash` and `bcrypt.compare` are function-typed
parameters. A signed token is its payload: the user id and the one-hour
lifetime.

The SOS handler is modelled as the source runs it. Each contact with a
present, non-empty email is looked up in list order. A message is built for
each contact that resolves to a user holding a push token. At most one send is
made, with the whole batch, and only when the batch is non-empty. The send's
outcome (`sendOk`) is caught and never changes the 200 answer. A
caller who never recorded a location still has a `currentLocation` object,
because the schema defaults its timestamp, but latitude and longitude are
missing. Formatting them with `toFixed(4)` (routes/safety.js:79) then throws
as soon as one message has to be built, and the handler answers 500 without
sending. `TriggerSos` states this error path explicitly.

Points where the code's behaviour is easy to misread:
- an already registered email and wrong credentials both answer 400;
- `currentLocation` exists from the moment a user is created, with its
  latitude and longitude missing until the first location update;
- nothing checks that a zone boundary is closed (`OpenBoundaryAccepted`);
- Mongoose's `required` rejects an empty string, so a registration with an
  empty name or phone, or a test zone with an empty name, ends in the 500
  branch; it checks the stored hash, not the plain password, so an empty
  password registers whenever the hash is non-empty.

## Model

| member | source | states |
|---|---|---|
| `UserModel.CreateUser` | models/User.js:5-44 | a new user is saved exactly when name, email, password hash and phone are present and non-empty; the saved record satisfies the schema invariant, has no contacts and no push token, its location has latitude and longitude both missing and the creation time as timestamp, and its date is the creation time |
| `UserModel.FindById` | routes/safety.js:18 | the position found holds a user with that id and no earlier one does; no position exactly when no user has the id |
| `UserModel.FindByEmail` | routes/user.js:19 | the first user in storage order with exactly that email; none exactly when no user has it |
| `UserModel.FindByEmailUnique` | models/User.js:10-14 | under the unique-email index, looking up a stored user's email finds that user |
| `UserModel.ReplaceUserKeepsInvariant` | models/User.js:10-39 | saving a user with unchanged id and email, and a push token that is unchanged or held by no one else, keeps every unique index and required field |
| `ZoneModel.ParseSeverity` | models/DangerZone.js:21-25 | a string is accepted as a severity only if it is "low", "medium" or "high", and then names that severity |
| `ZoneModel.SeverityRoundTrip` | models/DangerZone.js:21-25 | parsing the name of a severity gives it back, and an accepted string is the name of its severity |
| `ZoneModel.CreateZone` | models/DangerZone.js:4-34 | a zone is saved exactly when the name is non-empty and the severity, if given, is in the enumeration; missing description, severity and active flag default to the fixed text, medium and true |
| `ZoneModel.OpenBoundaryAccepted` | models/DangerZone.js:10-16 | validation accepts a zone whose boundary is not closed |
| `UserRoutes.Register` | routes/user.js:14-62 | a stored email gives 400 with nothing changed; a missing password or a failed validation gives 500 with nothing changed; otherwise exactly one user is appended, whose stored password is the salted hash of the given one, and the token carries the new id and a one-hour lifetime; success happens exactly when the email is new, the password is present and hashes to a non-empty string, and name, email and phone are non-empty |
| `UserRoutes.Login` | routes/user.js:67-104 | a token is issued exactly when the email finds a user and the password compares equal to that user's hash, and it carries that user's id; every refusal is "Invalid Credentials" except a missing password for a known email, which always gets 500 "Server Error" because the hash comparison throws; the store is only read |
| `UserRoutes.LoginFailuresIndistinguishable` | routes/user.js:72-81 | an unknown email and a wrong password for a known email get the identical reply |
| `UserRoutes.FindByEmailAfterAppend` | routes/user.js:19-37 | after a user with a fresh email is appended, that email finds the new user |
| `UserRoutes.LoginAfterRegister` | routes/user.js:25-98 | if compare accepts every password against its own salted hash, logging in with the registered credentials returns a token naming the registered user |
| `UserRoutes.RegisterThenLogin` | routes/user.js:25-98 | registering and then logging in with the same email and password: if registration succeeds, login issues exactly the token registration returned |
| `UserRoutes.RegisterTwice` | routes/user.js:19-22 | registering the same email twice: if the first succeeds, the second gets 400 and the store has grown by one user only |
| `SafetyRoutes.UpdateLocation` | routes/safety.js:13-38 | a missing caller gives 404 with nothing changed; otherwise the location becomes exactly the given coordinates with the given time, with no range check, and nothing else changes |
| `SafetyRoutes.Resolve` | routes/safety.js:72-91 | a contact without an email resolves to nothing; a contact that resolves gives a non-empty token held by a stored user whose email is the contact's |
| `SafetyRoutes.PushTargets` | routes/safety.js:58-93 | a contact list yields at most one push destination per contact |
| `SafetyRoutes.LookupEmails` | routes/safety.js:72-73 | the lookups made are at most one per contact and never for an empty email; a single contact is looked up by its own email when it has a non-empty one, and not at all otherwise |
| `SafetyRoutes.LookupEmailsAppend` | routes/safety.js:72-73 | the lookups of two lists in sequence are those of the first followed by those of the second, so lookups follow contact-list order |
| `SafetyRoutes.LookupEmailsMembership` | routes/safety.js:72-73 | an email is looked up exactly when some contact carries it as its present, non-empty email |
| `SafetyRoutes.LookupEmailsPrefix` | routes/safety.js:72-73 | the lookups made on a prefix of the contact list are a prefix of all lookups, so a handler that stops early has made the first lookups of the full run |
| `SafetyRoutes.FirstResolving` | routes/safety.js:72-79 | the first contact that yields a destination, and none exactly when no contact does |
| `SafetyRoutes.Batch` | routes/safety.js:75-87 | one message per destination, in order, addressed to it, of type "SOS", carrying the caller's id and name |
| `SafetyRoutes.PushTargetsAppend` | routes/safety.js:58-93 | the destinations of two lists in sequence are those of the first followed by those of the second (contact-list order) |
| `SafetyRoutes.TargetHasSource` | routes/safety.js:72-87 | every destination comes from a contact of the list that resolves to it |
| `SafetyRoutes.SourceHasTarget` | routes/safety.js:72-87 | every contact that resolves contributes its token to the destinations |
| `SafetyRoutes.PushTargetsMembership` | routes/safety.js:72-87 | a token is a destination exactly when some contact of the list resolves to it |
| `SafetyRoutes.NoEmailNoLookup` | routes/safety.js:72 | when no contact has an email, nothing is looked up and nothing is sent |
| `SafetyRoutes.OneContactOneTarget` | routes/safety.js:72-87 | one contact whose email is a stored user's, and that user holds a push token, yields exactly that token |
| `SafetyRoutes.TriggerSos` | routes/safety.js:43-124 | missing caller: 404, no lookup, no message; a message needed while the caller has no coordinates: 500 and no send, with the lookups stopping right after the first contact that yields a destination; otherwise 200, the lookups are the contact emails in order, the batch is one message per resolving contact in order, and a send happens exactly when the batch is non-empty, whatever the send's outcome; no contacts: 200 and no send |
| `SafetyRoutes.SosReachesOneAppUser` | routes/safety.js:57-119 | a caller with a location and one contact that is an app user with a push token: 200, one send, one message addressed to that token |
| `SafetyRoutes.FindContact` | routes/safety.js:176 | the position found holds the contact with that id and no earlier one does; none exactly when no contact has it |
| `SafetyRoutes.RemoveContact` | routes/safety.js:207 | no entry of the result has the removed id, and the list never grows |
| `SafetyRoutes.RemoveContactMembers` | routes/safety.js:207 | a contact remains after removal exactly when it was in the list and its id differs from the removed one |
| `SafetyRoutes.RemoveAbsentContact` | routes/safety.js:199-210 | removing an id no contact has leaves the list unchanged |
| `SafetyRoutes.RemoveContactAt` | routes/safety.js:207 | with unique ids, removing entry k's id drops that entry alone and keeps the others in their order |
| `SafetyRoutes.RemoveKeepsDistinct` | models/User.js:23-29 | removal keeps contact ids unique |
| `SafetyRoutes.ListTrustedContacts` | routes/safety.js:221-232 | a missing caller gives 404; otherwise 200 with the caller's contact list |
| `SafetyRoutes.AddTrustedContact` | routes/safety.js:129-156 | without a name, or without both phone and email, 400 before any lookup; a missing caller gives 404; otherwise the contact, with a fresh id, is appended last and the whole list is returned with 201 |
| `SafetyRoutes.UpdateTrustedContact` | routes/safety.js:161-194 | the same validation (400); a missing caller or contact id gives 404; otherwise only that contact's name, phone and email are overwritten (an omitted field becomes missing), and all others and the order are unchanged |
| `SafetyRoutes.DeleteTrustedContact` | routes/safety.js:199-216 | a missing caller gives 404; otherwise 200, the entry with that id is removed and the rest keep their order; an absent id leaves the list unchanged |
| `NotificationRoutes.RegisterPushToken` | routes/notifications.js:10-35 | a missing or empty token gives 400 before any lookup; a missing caller gives 404; a token held by another user gives 500 with nothing changed; otherwise only the caller's token changes; registering the token already held succeeds and changes nothing |
| `NotificationRoutes.OwnTokenNotHeldByOther` | models/User.js:35-39 | under the sparse unique index, no other user holds the token a user already has |
| `DangerZoneRoutes.ActiveZones` | routes/dangerZones.js:10-18 | the listing holds exactly the zones that are active, never an inactive one |
| `DangerZoneRoutes.ActiveZonesAppend` | routes/dangerZones.js:12 | listing distributes over concatenation, so storage order is kept |
| `DangerZoneRoutes.ActiveZonesAllActive` | routes/dangerZones.js:12 | when every zone is active the listing is the whole collection, in order |
| `DangerZoneRoutes.AddTestZone` | routes/dangerZones.js:24-59 | omitted fields take the defaults (severity high); a taken name gives 400 and nothing is added; an empty name or a severity outside the enumeration gives 500 and nothing is added; otherwise exactly one active zone with the fixed closed five-point boundary is appended |

## Left out

- The auth middleware (middleware/auth.js): its two 401 answers and the token verification. Each handler takes the decoded caller id instead.
- Server start-up and the database connection (server.js, config/db.js): I/O with no logic.
- The request to the push endpoint, and all console output, including the simulated SMS and email lines. The send is the `sent` flag and the batch; its outcome is the `sendOk` parameter, which the handler ignores.
- The text body of a push message (`toFixed(4)` formatting of floating-point coordinates). Coordinates are stored and compared, never computed with.
- bcrypt and JWT internals: hashing, comparison, salt generation, signing, the secret and expiry checking. A `throw` inside the signing callback escapes the handler's try block; that path is not modelled.
- Database and transport failures other than the validation and unique-index failures above. Each handler's catch-all would answer 500 for them.
- Register and login with the email omitted from the body: what `findOne({ email: undefined })` matches depends on the query layer, so the email is taken as present.
- JSON `null`, or a value of the wrong type, in a request field: a field is either a string (or number) or omitted. Type casting by the schema is not modelled.
- A malformed contact id in the URL: contact ids are the generated identifiers themselves.
- Concurrent requests: the read-modify-save races and the non-atomic check-then-insert in register and add-test-zone. The model is sequential.
- Time: one `now` per request, although the source reads the clock separately for each SOS message.
