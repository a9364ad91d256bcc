# Location/view registry API: write-then-broadcast handlers

This project models the route handlers of a small Express + Mongo + socket.io
server. The server keeps three collections: locations, views and users. A
location holds references to views. After a write, the server broadcasts a
socket event to every connected client.

The model is one object, `Server.Api`, with four fields:

- `locations` and `views`: sequences in natural order, each with a unique index on `name`; view `_id`s are unique as well, since the driver generates them;
- `users`: a sequence searched by `eid`;
- `log`: every event emitted, in order.

Each handler is a method. Its postcondition states the new collections, the
events appended to `log`, and the response body for every outcome of the
storage calls it makes.

The main properties:

- a POST that inserts emits exactly one `*:create` event;
- a POST whose name is taken (Mongo error code 11000) leaves the store and the log unchanged. It answers with the stored record, or with `{err}` when the refetch by name itself fails;
- a failed storage call emits nothing and changes nothing, in every handler. Most handlers answer it with `{err}`, with three exceptions:
  - GET /admin answers a failed user create with the raw error (`res.json(user)`).
  - When the fan-out query after a view PATCH fails, the answer is still "View successfully updated!" and only the fan-out events are missing.
  - As written, POST /users and GET /admin report a create error without a `code` as a success (see Findings). The model's handlers use the corrected replies.
- PATCH runs with `upsert: false`, so it never creates a record;
- DELETE emits `*:delete` even when nothing matched, and afterwards no record with that name remains;
- a view PATCH is followed by one `view-location:update` per location that references the view. `FanOut.ReferencingCount` proves that this is exactly as many events as there are such locations.

Storage outcomes are inputs. Each storage call takes a `…Fault: Option<DbError>`
parameter for the failures the driver raises on its own (validation errors,
connection errors). The duplicate-key error of an insert, or of a rename, is
not an input: the model derives it from the unique index. `handleError(res, err)`
is the `Documents.ErrorBody` response constructor.

Modules:

- `Collection` (collection.dfy): `findOne`, `findOneAndRemove` and the unique-index invariant, over sequences.
- `Documents` (documents.dfy): records, patches, errors, response bodies and events.
- `FanOut` (fanout.dfy): the view-to-location query and its events.
- `Users` (users.dfy): the `domain\eid` key, the salt fragment, and how the `createUser` callback value is read.
- `Server` (server.dfy): the handler class, plus a client method for repeated creation.

Where the design description and the code disagree, the model follows the code:

- The design says user roles never change after creation. `PATCH /users/:domain/:eid` passes the request body straight to `findOneAndUpdate`, so a body can replace `roles`. `Server.Api.PatchUser` models this.
- The design describes create-or-reconcile as returning a "was created" flag. The view POST's duplicate path returns the bare stored view, with no conflict marker. Only the location POST answers `{err: 'Location alread exists!', data}`.
- The design says events follow only durable writes. `PATCH /locations/:name` emits `location:update` with a null payload when no location matched. `PATCH /views/:name` emits `view:update` with null and then throws.

## Model

| member | source | states |
|---|---|---|
| Collection.FindIndex | srvr.js:217 | the position `findOneAndUpdate` acts on: the first document with the key; none exactly when no document has it |
| Collection.FindOne | srvr.js:184-187 | `findOne({name})` yields a stored document with that name exactly when one exists, and it is the first such document in natural order |
| Collection.RemoveFirst | srvr.js:227-229 | `findOneAndRemove`: unchanged when nothing matches; otherwise exactly the first document with the key is taken out and the rest keep their order |
| Collection.RemoveFirstUnique | srvr.js:226-231 | under the unique index, after removal no document has the name, every other document remains and the index stays unique |
| Documents.InsertError | srvr.js:181-183 | an insert fails exactly when the driver raises a fault or the name is already taken; a raised fault is the error the save callback sees; a taken name with no other fault gives the duplicate-key error (code 11000) |
| Documents.PatchedLocation | srvr.js:217 | a `name` or `views` the body sets overwrites the stored one; a field it leaves out is kept; an empty body changes nothing |
| Documents.PatchedView | srvr.js:280 | the view keeps its `_id`; a `name` in the body renames it |
| Documents.PatchedUser | srvr.js:338 | every field the body sets overwrites the stored one, `roles`, `eid` and `salt` included; an empty body changes nothing |
| FanOut.Referencing | srvr.js:283 | `Location.find({views: id})` yields exactly the stored locations whose `views` contain the id |
| FanOut.ReferencingMultiplicity | srvr.js:283 | the query keeps every referencing location as many times as it is stored and no other location |
| FanOut.FanOutEvents | srvr.js:286-289 | the `forEach` emits one `view-location:update` per location found, in order, each carrying that location |
| FanOut.ReferencingCount | srvr.js:283-290 | the number of fan-out events equals the number of distinct locations referencing the view |
| Users.EidKey | srvr.js:330 | the user key is the domain, one backslash, then the eid |
| Users.SplitEid | srvr.js:337 | splitting a key at its first backslash inverts EidKey; it fails exactly when the key holds no backslash |
| Users.EidKeyRoundTrip | srvr.js:330 | for a domain without a backslash, splitting the key gives back the domain and the eid |
| Users.EidKeyInjective | srvr.js:337 | two routes whose domains have no backslash name the same user only when both path segments are equal |
| Users.EidKeyAmbiguousWithBackslash | srvr.js:344 | with a backslash in the domain, two different routes build the same key |
| Users.SaltFragment | srvr.js:50 | `slice(-8)` keeps the last eight characters of the salt, or all of it when it is shorter |
| Users.CodeIsTruthy | srvr.js:321 | `if(user.code)` holds only for an error: it holds for the duplicate-key error, and fails for a user document and for an error without a code |
| Users.UserReplyAsWritten | srvr.js:320-323 | as written, POST /users answers `{err}` only when the callback value has a truthy `code`; otherwise it reports success |
| Users.UserReply | srvr.js:320-323 | corrected: success exactly when a user was created, with that user as data; every failure answers `{err}` |
| Users.AdminReplyAsWritten | srvr.js:150-152 | as written, GET /admin answers with the raw error only when it has a truthy `code`; otherwise it reports "Admin successfully added!" |
| Users.AdminReply | srvr.js:150-152 | corrected: "Admin successfully added!" exactly when the admin was created; every failure answers with the raw error |
| Users.CodelessErrorReportedAsSuccess | srvr.js:49-54 | a validation error, which has no `code`, is reported as a successful creation by both handlers as written, and as an error by the corrected replies |
| Users.RepliesAgreeWhenCodeSet | srvr.js:151 | the corrected and as-written replies agree for a created user and for every error that carries a nonzero code |
| Server.Api.Emit | srvr.js:25-27 | one broadcast appends exactly one event (key and payload) to the log |
| Server.Api.CreateUser | srvr.js:49-54 | on success, appends one user that carries the salt fragment and hands it to the callback; on failure, hands over the error and leaves users unchanged |
| Server.Api.GetAdmin | srvr.js:139-159 | a find error answers `{err}`; a user is added only when the collection is empty, and then it is the single user, with roles `['admin','user']` and `enabled` true; otherwise "Admin already created" and no change |
| Server.Api.GetLocations | srvr.js:166-173 | answers `{err}` on a find error, else the stored locations; changes nothing |
| Server.Api.PostLocation | srvr.js:174-202 | on insert: adds exactly the new record and appends exactly one `location:create` carrying it. On a duplicate-key error: store and log unchanged, answers the conflict with the stored record of that name. On any other error: `{err}`, no change, no event |
| Server.Api.GetLocation | srvr.js:206-214 | answers null exactly when no location has the name, else a stored location with that name |
| Server.Api.PatchLocation | srvr.js:215-224 | never changes the number of records (`upsert: false`). On a fault, or a rename onto a taken name: `{err}`, no event. Otherwise emits one `location:update` with the updated record, or with null when nothing matched |
| Server.Api.DeleteLocation | srvr.js:225-234 | a fault answers `{err}` with no event; otherwise emits `location:delete` with `{deleted: name}` even when nothing matched, and afterwards no location has the name while every other location remains |
| Server.Api.GetViews | srvr.js:238-242 | answers `{err}` on a find error, else the stored views; changes nothing |
| Server.Api.PostView | srvr.js:243-269 | the new view's driver-generated `_id` is one no stored view has. On insert: adds exactly the new view and appends exactly one `view:create`. On a duplicate-key error: answers the stored view itself, store and log unchanged. On any other error: `{err}`, no change, no event |
| Server.Api.GetView | srvr.js:273-278 | answers null exactly when no view has the name, else a stored view with that name |
| Server.Api.NotifyLocations | srvr.js:283-291 | appends one `view-location:update` per location referencing the view, in order; appends nothing when the query failed |
| Server.Api.PatchView | srvr.js:279-294 | never changes the number of views; view names and `_id`s stay unique. On success: `view:update` with the updated view, then exactly the fan-out events. No view matched: only `view:update` with null, and no response. On a fault or a rename clash: `{err}`, no event |
| Server.Api.DeleteView | srvr.js:295-303 | a fault answers `{err}` with no event; otherwise emits `view:delete` with `{deleted: name}` even when nothing matched, and afterwards no view has the name |
| Server.Api.GetUsers | srvr.js:307-312 | answers `{err}` on a find error, else the stored users; changes nothing |
| Server.Api.PostUser | srvr.js:313-325 | every user it adds has roles exactly `['user']`; on a fault, users are unchanged and the answer is `{err}` |
| Server.Api.GetUser | srvr.js:329-335 | looks up by `domain\eid`: null exactly when no user has that key, else the first stored user with that key, the one PATCH and DELETE act on |
| Server.Api.PatchUser | srvr.js:336-342 | `upsert: false`: the number of users never changes; it patches the first user with the key, or nothing; it emits no event |
| Server.Api.DeleteUser | srvr.js:343-349 | removes exactly the first user with the key `domain\eid`, or nothing when none has it, and keeps the others in order; it emits no event |
| Server.RepeatedCreates | srvr.js:181-200 | n sequential POSTs of one new name: the first creates the record and emits the only `location:create`, and every later one answers a conflict carrying that same record |

## Left out

- Permission checks and token handling (srvr.js:12-13, 64-129, 162): their logic is in `./libraries/permissions` and `./libraries/tokenAuth`, and libraries/permissions and libraries/tokenAuth are not part of this model. The rule table and the `CURRENT_USER` marker are not recorded, because their meaning is defined in that code.
- GET / (srvr.js:135-137): it only echoes a request header and touches no state.
- Mongo behaviour: the model does not derive query execution, ObjectId generation, or when the driver fails. A new view's id is an input; `Server.Api.PostView` requires that no stored view has it, which is what ObjectId generation guarantees. Every failure other than the unique index's duplicate-key error comes in as a fault parameter.
- `populate('views')` (srvr.js:209, 218): the location in the response and in the `location:update` event carries view ids, not the view documents.
- Copying of request-body fields into documents (srvr.js:177-179, 246-250): only `name`, and a location's `views`, are kept. `monitors`, `urls`, `timings`, `cookies` and `reload` are not modelled.
- bcrypt (srvr.js:50): the generated salt is an opaque string input; only `slice(-8)` is modelled.
- Express, body-parser, CORS headers, socket.io transport, the Mongo connection and `server.listen` (srvr.js:19-47, 352-358): these are I/O; `emit` is an append to `log`.
- Asynchronous timing: the fan-out query runs after the view PATCH response is sent (srvr.js:283-292). The model runs it in sequence, before the response value is produced.
- Concurrency: simultaneous requests are not modelled. A duplicate-key error on a name that is free, as a race would produce, is reachable only through a `saveFault` with code 11000; the refetch then finds nothing and the answer carries null.
- Server.Api.PatchView: when no view matches, the TypeError thrown at srvr.js:283 is modelled only as `NoResponse` with no fan-out; what the uncaught exception does to the process is not modelled.
- Server.Api.PatchUser: the model enforces no unique index on `eid`, because the user schema is not part of this model. A duplicate-`eid` error can only come in as a fault.
- Server.Api.PostUser: the answer uses the corrected `Users.UserReply`, not the as-written reading of `user.code`; see Findings.
- Server.Api.GetAdmin: the answer uses the corrected `Users.AdminReply`; see Findings. `req.headers["auth-user"]` and the query fields are string inputs, and an absent header or field is not modelled.

## Findings

| source | as written | input that shows it | evidently intended | confidence | as-written member | corrected member |
|---|---|---|---|---|---|---|
| srvr.js:320-323 | `createUser` passes the error to the same callback as a user, and POST /users treats it as an error only `if(user.code)` | a `User.create` validation error, which has no `code`: the reply is `{msg: 'User successfully added!', data: <the error>}` and no user was stored | answer `{err}` for every failed create | medium; not executed | Users.UserReplyAsWritten, Users.CodelessErrorReportedAsSuccess | Users.UserReply |
| srvr.js:150-152 | GET /admin tests the same callback value with `if(user.code)` | the same code-less validation error: the reply is `{msg: 'Admin successfully added!', user: <the error>}` and no admin exists | answer with the error for every failed create | medium; not executed | Users.AdminReplyAsWritten, Users.CodelessErrorReportedAsSuccess | Users.AdminReply |
