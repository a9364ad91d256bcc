/** The documents the handlers store, the bodies they answer with and the
    socket events they broadcast. Only the fields the handler logic looks at
    are kept: a location's `name` and the view ids in its `views`, a view's
    id and `name`, and the user fields the user routes write. */
module Documents {
  import opened Collection

  /** A Mongo ObjectId, opaque here: ids are generated by the driver. */
  type ViewId = string

  datatype Location = Location(name: string, views: seq<ViewId>)
  datatype View = View(id: ViewId, name: string)
  datatype User = User(
    eid: string, name: string, email: string,
    roles: seq<string>, enabled: bool, salt: string)

  /** The index keys: `name` for locations and views, `eid` for users. */
  function LocationName(l: Location): string { l.name }
  function ViewName(v: View): string { v.name }
  function UserEid(u: User): string { u.eid }
  /** The `_id` of a view, unique because the driver generates it. */
  function ViewIdOf(v: View): string { v.id }

  /** A storage error as the callbacks receive it; `code` is the driver's
      numeric error code when it has one (validation errors have none). */
  datatype DbError = DbError(code: Option<int>, name: string)

  /** Mongo's duplicate-key error code, tested by `err.code === 11000`. */
  const DuplicateKeyCode: int := 11000
  const DuplicateKeyError: DbError := DbError(Some(DuplicateKeyCode), "MongoError")

  predicate IsDuplicateKey(e: DbError)
  {
    e.code == Some(DuplicateKeyCode)
  }

  /** The error an insert with key `k` reports: a failure the storage raises
      on its own (`fault`, such as a validation error) first, else the unique
      index's duplicate-key error when `k` is taken, else none. */
  function InsertError<T>(s: seq<T>, key: T -> string, k: string, fault: Option<DbError>): (r: Option<DbError>)
    ensures r.None? <==> fault.None? && !Contains(s, key, k)
    ensures fault.Some? ==> r == fault
    ensures fault.None? && Contains(s, key, k) ==> r == Some(DuplicateKeyError)
  {
    if fault.Some? then fault
    else if FindIndex(s, key, k).Some? then Some(DuplicateKeyError)
    else None
  }

  /** The fields a PATCH body may set (`findOneAndUpdate(…, req.body, …)`):
      a present field overwrites the stored one. */
  datatype LocationPatch = LocationPatch(name: Option<string>, views: Option<seq<ViewId>>)
  datatype ViewPatch = ViewPatch(name: Option<string>)
  datatype UserPatch = UserPatch(
    eid: Option<string>, name: Option<string>, email: Option<string>,
    roles: Option<seq<string>>, enabled: Option<bool>, salt: Option<string>)

  function Or<T>(o: Option<T>, d: T): T
  {
    if o.Some? then o.value else d
  }

  /** A field the body sets is overwritten; a field it leaves out is kept. */
  function PatchedLocation(l: Location, p: LocationPatch): (r: Location)
    ensures r.name == (if p.name.Some? then p.name.value else l.name)
    ensures r.views == (if p.views.Some? then p.views.value else l.views)
    ensures p == LocationPatch(None, None) ==> r == l
  {
    Location(Or(p.name, l.name), Or(p.views, l.views))
  }

  /** A view keeps its `_id`; the body may rename it. */
  function PatchedView(v: View, p: ViewPatch): (r: View)
    ensures r.id == v.id
    ensures r.name == (if p.name.Some? then p.name.value else v.name)
  {
    View(v.id, Or(p.name, v.name))
  }

  /** Every user field, `roles` and `salt` included, may be overwritten by
      the body: nothing in the handler filters it. */
  function PatchedUser(u: User, p: UserPatch): (r: User)
    ensures r.name == (if p.name.Some? then p.name.value else u.name)
    ensures r.email == (if p.email.Some? then p.email.value else u.email)
    ensures r.enabled == (if p.enabled.Some? then p.enabled.value else u.enabled)
    ensures r.roles == (if p.roles.Some? then p.roles.value else u.roles)
    ensures r.salt == (if p.salt.Some? then p.salt.value else u.salt)
    ensures r.eid == (if p.eid.Some? then p.eid.value else u.eid)
    ensures p == UserPatch(None, None, None, None, None, None) ==> r == u
  {
    User(Or(p.eid, u.eid), Or(p.name, u.name), Or(p.email, u.email),
         Or(p.roles, u.roles), Or(p.enabled, u.enabled), Or(p.salt, u.salt))
  }

  /** A JSON value the handlers send or emit. `Null` is what a query that
      matched nothing yields. */
  datatype Doc =
    | Null
    | LocationDoc(location: Location)
    | ViewDoc(view: View)
    | UserDoc(user: User)
    | ErrorDoc(error: DbError)
    | DeletedDoc(deleted: string)
    | LocationList(locations: seq<Location>)
    | ViewList(views: seq<View>)
    | UserList(users: seq<User>)

  function LocationOrNull(o: Option<Location>): Doc
  {
    if o.Some? then LocationDoc(o.value) else Null
  }

  function ViewOrNull(o: Option<View>): Doc
  {
    if o.Some? then ViewDoc(o.value) else Null
  }

  function UserOrNull(o: Option<User>): Doc
  {
    if o.Some? then UserDoc(o.value) else Null
  }

  /** A response body passed to `res.json`. */
  datatype Response =
    | ErrorBody(err: DbError)                                  // handleError: {err}
    | Conflict(conflict: string, data: Doc)                    // {err: 'Location alread exists!', data}
    | Message(msg: string)                                     // {msg}
    | MessageData(msg: string, data: Doc)                      // {msg, data}
    | Updated(msg: string, data: Doc, changes: LocationPatch)  // {msg, data, changes}
    | AdminAdded(msg: string, user: Doc)                       // {msg, user}
    | Raw(doc: Doc)                                            // res.json(value)
    | NoResponse                                               // the callback threw before answering

  /** `emit(key, data)`: one socket.io broadcast. */
  datatype Event = Event(key: string, payload: Doc)

  const LocationCreate: string := "location:create"
  const LocationUpdate: string := "location:update"
  const LocationDelete: string := "location:delete"
  const ViewCreate: string := "view:create"
  const ViewUpdate: string := "view:update"
  const ViewDelete: string := "view:delete"
  const ViewLocationUpdate: string := "view-location:update"
}
