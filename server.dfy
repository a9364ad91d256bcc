/** The route handlers of the API server: each one calls the store, and only
    after a call that did not fail does it broadcast an event. The three Mongo
    collections and the socket.io broadcast are fields of one object; `log`
    holds every event emitted, in order. Every storage call's own failure
    (`…Fault`) is an input; the duplicate-key error of an insert is derived
    from the unique index on `name`. */
module Server {
  import opened Collection
  import opened Documents
  import opened Users
  import opened FanOut

  const LocationExists: string := "Location alread exists!"
  const AdminRoles: seq<string> := ["admin", "user"]
  const UserRoles: seq<string> := ["user"]

  class Api {
    var locations: seq<Location>
    var views: seq<View>
    var users: seq<User>
    var log: seq<Event>

    /** The unique indexes on location and view names, and the uniqueness
        of view `_id`s. */
    ghost predicate Valid()
      reads this
    {
      && UniqueKeys(locations, LocationName)
      && UniqueKeys(views, ViewName)
      && UniqueKeys(views, ViewIdOf)
    }

    constructor ()
      ensures Valid()
      ensures locations == [] && views == [] && users == [] && log == []
    {
      locations, views, users, log := [], [], [], [];
    }

    /** `emit(key, data)`: broadcast to every connected socket. */
    method Emit(key: string, data: Doc)
      modifies this`log
      ensures log == old(log) + [Event(key, data)]
    {
      log := log + [Event(key, data)];
    }

    /** `createUser(kwargs, callback)`: `User.create` with the salt fragment
        added; the callback receives the new user or the error. */
    method CreateUser(eid: string, name: string, email: string, roles: seq<string>,
                      enabled: bool, salt: string, fault: Option<DbError>)
      returns (v: CreateResult)
      modifies this`users
      ensures fault.Some? ==> v == Failed(fault.value) && users == old(users)
      ensures fault.None? ==>
        && v == Created(User(eid, name, email, roles, enabled, SaltFragment(salt)))
        && users == old(users) + [v.user]
    {
      if fault.Some? {
        v := Failed(fault.value);
      } else {
        var u := User(eid, name, email, roles, enabled, SaltFragment(salt));
        users := users + [u];
        v := Created(u);
      }
    }

    // ---------------- /admin ----------------

    /** GET /admin: bootstrap the first user as an enabled admin, only while
        the user collection is empty. */
    method GetAdmin(authUser: string, qName: string, qEmail: string,
                    findFault: Option<DbError>, salt: string, createFault: Option<DbError>)
      returns (r: Response)
      modifies this`users
      ensures findFault.Some? ==> r == ErrorBody(findFault.value) && users == old(users)
      ensures findFault.None? && old(users) != [] ==>
        r == Message("Admin already created") && users == old(users)
      ensures findFault.None? && old(users) == [] && createFault.Some? ==>
        r == AdminReply(Failed(createFault.value)) && users == []
      ensures findFault.None? && old(users) == [] && createFault.None? ==>
        && users == [User(authUser, qName, qEmail, AdminRoles, true, SaltFragment(salt))]
        && r == AdminReply(Created(users[0]))
      ensures |users| > |old(users)| ==> old(users) == [] && |users| == 1 && users[0].roles == AdminRoles && users[0].enabled
    {
      if findFault.Some? {
        return ErrorBody(findFault.value);
      }
      if |users| == 0 {
        var v := CreateUser(authUser, qName, qEmail, AdminRoles, true, salt, createFault);
        r := AdminReply(v);
      } else {
        r := Message("Admin already created");
      }
    }

    // ---------------- /locations ----------------

    /** GET /locations. */
    method GetLocations(fault: Option<DbError>) returns (r: Response)
      ensures fault.Some? ==> r == ErrorBody(fault.value)
      ensures fault.None? ==> r == Raw(LocationList(locations))
    {
      if fault.Some? {
        return ErrorBody(fault.value);
      }
      r := Raw(LocationList(locations));
    }

    /** POST /locations: the create-or-reconcile path. */
    method PostLocation(name: string, refs: seq<ViewId>,
                        saveFault: Option<DbError>, refetchFault: Option<DbError>)
      returns (r: Response)
      requires Valid()
      modifies this`locations, this`log
      ensures Valid()
      ensures
        var err := InsertError(old(locations), LocationName, name, saveFault);
        var created := Location(name, refs);
        && (err.None? ==>
              && locations == old(locations) + [created]
              && log == old(log) + [Event(LocationCreate, LocationDoc(created))]
              && r == MessageData("Location successfully created!", LocationDoc(created)))
        && (err.Some? ==> locations == old(locations) && log == old(log))
        && (err.Some? && IsDuplicateKey(err.value) ==>
              r == if refetchFault.Some? then ErrorBody(refetchFault.value)
                   else Conflict(LocationExists, LocationOrNull(FindOne(old(locations), LocationName, name))))
        && (err.Some? && !IsDuplicateKey(err.value) ==> r == ErrorBody(err.value))
      // the name is taken: answer with the stored record, change nothing
      ensures saveFault.None? && refetchFault.None? && Contains(old(locations), LocationName, name) ==>
        && r.Conflict? && r.data.LocationDoc?
        && r.data.location in locations && r.data.location.name == name
    {
      var created := Location(name, refs);
      var err := InsertError(locations, LocationName, name, saveFault);
      if err.Some? {
        if IsDuplicateKey(err.value) {
          if refetchFault.Some? {
            r := ErrorBody(refetchFault.value);
          } else {
            r := Conflict(LocationExists, LocationOrNull(FindOne(locations, LocationName, name)));
          }
        } else {
          r := ErrorBody(err.value);
        }
      } else {
        AppendUnique(locations, LocationName, created);
        locations := locations + [created];
        Emit(LocationCreate, LocationDoc(created));
        r := MessageData("Location successfully created!", LocationDoc(created));
      }
    }

    /** GET /locations/:name. */
    method GetLocation(name: string, fault: Option<DbError>) returns (r: Response)
      ensures fault.Some? ==> r == ErrorBody(fault.value)
      ensures fault.None? ==> r.Raw? && (r.doc == Null <==> !Contains(locations, LocationName, name))
      ensures fault.None? && r.doc != Null ==>
        r.doc.LocationDoc? && r.doc.location in locations && r.doc.location.name == name
    {
      if fault.Some? {
        return ErrorBody(fault.value);
      }
      r := Raw(LocationOrNull(FindOne(locations, LocationName, name)));
    }

    /** PATCH /locations/:name: `findOneAndUpdate` with `upsert: false`. */
    method PatchLocation(name: string, patch: LocationPatch, fault: Option<DbError>)
      returns (r: Response)
      requires Valid()
      modifies this`locations, this`log
      ensures Valid()
      // never creates a record
      ensures |locations| == |old(locations)|
      ensures fault.Some? ==>
        r == ErrorBody(fault.value) && locations == old(locations) && log == old(log)
      ensures fault.None? && !Contains(old(locations), LocationName, name) ==>
        && locations == old(locations)
        && log == old(log) + [Event(LocationUpdate, Null)]
        && r == Updated("Location successfully updated!", Null, patch)
      ensures fault.None? && Contains(old(locations), LocationName, name) ==>
        var i := FindIndex(old(locations), LocationName, name).value;
        var u := PatchedLocation(old(locations)[i], patch);
        if ClashesOutside(old(locations), LocationName, i, u.name) then
          r == ErrorBody(DuplicateKeyError) && locations == old(locations) && log == old(log)
        else
          && locations == old(locations)[i := u]
          && log == old(log) + [Event(LocationUpdate, LocationDoc(u))]
          && r == Updated("Location successfully updated!", LocationDoc(u), patch)
    {
      if fault.Some? {
        return ErrorBody(fault.value);
      }
      match FindIndex(locations, LocationName, name)
      case None =>
        Emit(LocationUpdate, Null);
        r := Updated("Location successfully updated!", Null, patch);
      case Some(i) =>
        var u := PatchedLocation(locations[i], patch);
        if ClashesOutside(locations, LocationName, i, u.name) {
          r := ErrorBody(DuplicateKeyError);
        } else {
          ReplaceUnique(locations, LocationName, i, u);
          locations := locations[i := u];
          Emit(LocationUpdate, LocationDoc(u));
          r := Updated("Location successfully updated!", LocationDoc(u), patch);
        }
    }

    /** DELETE /locations/:name: emits even when nothing matched. */
    method DeleteLocation(name: string, fault: Option<DbError>) returns (r: Response)
      requires Valid()
      modifies this`locations, this`log
      ensures Valid()
      ensures fault.Some? ==>
        r == ErrorBody(fault.value) && locations == old(locations) && log == old(log)
      ensures fault.None? ==>
        && locations == RemoveFirst(old(locations), LocationName, name)
        && log == old(log) + [Event(LocationDelete, DeletedDoc(name))]
        && r == Message("Location successfully deleted!")
        && !Contains(locations, LocationName, name)
      ensures forall l :: l in old(locations) && l.name != name ==> l in locations
    {
      if fault.Some? {
        return ErrorBody(fault.value);
      }
      RemoveFirstUnique(locations, LocationName, name);
      locations := RemoveFirst(locations, LocationName, name);
      Emit(LocationDelete, DeletedDoc(name));
      r := Message("Location successfully deleted!");
    }

    // ---------------- /views ----------------

    /** GET /views. */
    method GetViews(fault: Option<DbError>) returns (r: Response)
      ensures fault.Some? ==> r == ErrorBody(fault.value)
      ensures fault.None? ==> r == Raw(ViewList(views))
    {
      if fault.Some? {
        return ErrorBody(fault.value);
      }
      r := Raw(ViewList(views));
    }

    /** POST /views: create-or-reconcile; a duplicate answers with the
        stored view itself. `id` is the ObjectId the driver assigns to
        `new View()`, so no stored view has it. */
    method PostView(name: string, id: ViewId,
                    saveFault: Option<DbError>, refetchFault: Option<DbError>)
      returns (r: Response)
      requires Valid()
      requires !Contains(views, ViewIdOf, id)
      modifies this`views, this`log
      ensures Valid()
      ensures
        var err := InsertError(old(views), ViewName, name, saveFault);
        var created := View(id, name);
        && (err.None? ==>
              && views == old(views) + [created]
              && log == old(log) + [Event(ViewCreate, ViewDoc(created))]
              && r == MessageData("View successfully created!", ViewDoc(created)))
        && (err.Some? ==> views == old(views) && log == old(log))
        && (err.Some? && IsDuplicateKey(err.value) ==>
              r == if refetchFault.Some? then ErrorBody(refetchFault.value)
                   else Raw(ViewOrNull(FindOne(old(views), ViewName, name))))
        && (err.Some? && !IsDuplicateKey(err.value) ==> r == ErrorBody(err.value))
      ensures saveFault.None? && refetchFault.None? && Contains(old(views), ViewName, name) ==>
        && r.Raw? && r.doc.ViewDoc? && r.doc.view in views && r.doc.view.name == name
    {
      var created := View(id, name);
      var err := InsertError(views, ViewName, name, saveFault);
      if err.Some? {
        if IsDuplicateKey(err.value) {
          if refetchFault.Some? {
            r := ErrorBody(refetchFault.value);
          } else {
            r := Raw(ViewOrNull(FindOne(views, ViewName, name)));
          }
        } else {
          r := ErrorBody(err.value);
        }
      } else {
        AppendUnique(views, ViewName, created);
        AppendUnique(views, ViewIdOf, created);
        views := views + [created];
        Emit(ViewCreate, ViewDoc(created));
        r := MessageData("View successfully created!", ViewDoc(created));
      }
    }

    /** GET /views/:name. */
    method GetView(name: string, fault: Option<DbError>) returns (r: Response)
      ensures fault.Some? ==> r == ErrorBody(fault.value)
      ensures fault.None? ==> r.Raw? && (r.doc == Null <==> !Contains(views, ViewName, name))
      ensures fault.None? && r.doc != Null ==>
        r.doc.ViewDoc? && r.doc.view in views && r.doc.view.name == name
    {
      if fault.Some? {
        return ErrorBody(fault.value);
      }
      r := Raw(ViewOrNull(FindOne(views, ViewName, name)));
    }

    /** The `Location.find({views: v.id})` callback: one
        `view-location:update` per referencing location; nothing when the
        query failed. */
    method NotifyLocations(v: View, fault: Option<DbError>)
      modifies this`log
      ensures log == old(log) + (if fault.Some? then [] else FanOutEvents(Referencing(locations, v.id)))
    {
      if fault.Some? {
        return;
      }
      var found := Referencing(locations, v.id);
      var i := 0;
      while i < |found|
        invariant 0 <= i <= |found|
        invariant log == old(log) + FanOutEvents(found[..i])
      {
        Emit(ViewLocationUpdate, LocationDoc(found[i]));
        i := i + 1;
      }
      assert found[..|found|] == found;
    }

    /** PATCH /views/:name: `view:update`, then the fan-out to the locations
        that reference the view. When no view matched, the source emits
        `view:update` with null and then throws on `view.id`: no fan-out and
        no response. */
    method PatchView(name: string, patch: ViewPatch,
                     updateFault: Option<DbError>, findFault: Option<DbError>)
      returns (r: Response)
      requires Valid()
      modifies this`views, this`log
      ensures Valid()
      ensures |views| == |old(views)|
      ensures updateFault.Some? ==>
        r == ErrorBody(updateFault.value) && views == old(views) && log == old(log)
      ensures updateFault.None? && !Contains(old(views), ViewName, name) ==>
        && views == old(views)
        && log == old(log) + [Event(ViewUpdate, Null)]
        && r == NoResponse
      ensures updateFault.None? && Contains(old(views), ViewName, name) ==>
        var i := FindIndex(old(views), ViewName, name).value;
        var u := PatchedView(old(views)[i], patch);
        if ClashesOutside(old(views), ViewName, i, u.name) then
          r == ErrorBody(DuplicateKeyError) && views == old(views) && log == old(log)
        else
          && views == old(views)[i := u]
          && log == old(log) + [Event(ViewUpdate, ViewDoc(u))]
                  + (if findFault.Some? then [] else FanOutEvents(Referencing(locations, u.id)))
          && r == Message("View successfully updated!")
    {
      if updateFault.Some? {
        return ErrorBody(updateFault.value);
      }
      match FindIndex(views, ViewName, name)
      case None =>
        Emit(ViewUpdate, Null);
        r := NoResponse;
      case Some(i) =>
        var u := PatchedView(views[i], patch);
        if ClashesOutside(views, ViewName, i, u.name) {
          r := ErrorBody(DuplicateKeyError);
        } else {
          ReplaceUnique(views, ViewName, i, u);
          ReplaceUnique(views, ViewIdOf, i, u);
          views := views[i := u];
          Emit(ViewUpdate, ViewDoc(u));
          NotifyLocations(u, findFault);
          r := Message("View successfully updated!");
        }
    }

    /** DELETE /views/:name: emits even when nothing matched. */
    method DeleteView(name: string, fault: Option<DbError>) returns (r: Response)
      requires Valid()
      modifies this`views, this`log
      ensures Valid()
      ensures fault.Some? ==>
        r == ErrorBody(fault.value) && views == old(views) && log == old(log)
      ensures fault.None? ==>
        && views == RemoveFirst(old(views), ViewName, name)
        && log == old(log) + [Event(ViewDelete, DeletedDoc(name))]
        && r == Message("View successfully deleted!")
        && !Contains(views, ViewName, name)
      ensures forall v :: v in old(views) && v.name != name ==> v in views
    {
      if fault.Some? {
        return ErrorBody(fault.value);
      }
      RemoveFirstUnique(views, ViewName, name);
      RemoveFirstKeepsIndex(views, ViewName, name, ViewIdOf);
      views := RemoveFirst(views, ViewName, name);
      Emit(ViewDelete, DeletedDoc(name));
      r := Message("View successfully deleted!");
    }

    // ---------------- /users ----------------

    /** GET /users. */
    method GetUsers(fault: Option<DbError>) returns (r: Response)
      ensures fault.Some? ==> r == ErrorBody(fault.value)
      ensures fault.None? ==> r == Raw(UserList(users))
    {
      if fault.Some? {
        return ErrorBody(fault.value);
      }
      r := Raw(UserList(users));
    }

    /** POST /users: always the single role `user`. */
    method PostUser(eid: string, name: string, email: string, enabled: bool,
                    salt: string, fault: Option<DbError>)
      returns (r: Response)
      modifies this`users
      ensures fault.Some? ==> r == ErrorBody(fault.value) && users == old(users)
      ensures fault.None? ==>
        && users == old(users) + [User(eid, name, email, UserRoles, enabled, SaltFragment(salt))]
        && r == MessageData(UserAddedMsg, UserDoc(users[|users| - 1]))
      ensures forall u :: u in users && u !in old(users) ==> u.roles == UserRoles
    {
      var v := CreateUser(eid, name, email, UserRoles, enabled, salt, fault);
      r := UserReply(v);
    }

    /** GET /users/:domain/:eid. */
    method GetUser(domain: string, eid: string, fault: Option<DbError>) returns (r: Response)
      ensures fault.Some? ==> r == ErrorBody(fault.value)
      ensures fault.None? ==> r.Raw? && (r.doc == Null <==> !Contains(users, UserEid, EidKey(domain, eid)))
      ensures fault.None? && r.doc != Null ==>
        r.doc.UserDoc? && r.doc.user in users && r.doc.user.eid == EidKey(domain, eid)
      // `findOne` answers the first user with the key, the one PATCH and DELETE act on
      ensures fault.None? && r.doc != Null ==>
        exists i :: && 0 <= i < |users| && users[i] == r.doc.user
                    && (forall j :: 0 <= j < i ==> users[j].eid != EidKey(domain, eid))
    {
      if fault.Some? {
        return ErrorBody(fault.value);
      }
      r := Raw(UserOrNull(FindOne(users, UserEid, EidKey(domain, eid))));
    }

    /** PATCH /users/:domain/:eid: `upsert: false`, no broadcast. */
    method PatchUser(domain: string, eid: string, patch: UserPatch, fault: Option<DbError>)
      returns (r: Response)
      modifies this`users
      ensures |users| == |old(users)|
      ensures fault.Some? ==> r == ErrorBody(fault.value) && users == old(users)
      ensures fault.None? ==> r == Message("User successfully updated!")
      ensures fault.None? ==>
        match FindIndex(old(users), UserEid, EidKey(domain, eid))
        case None => users == old(users)
        case Some(i) => users == old(users)[i := PatchedUser(old(users)[i], patch)]
    {
      if fault.Some? {
        return ErrorBody(fault.value);
      }
      match FindIndex(users, UserEid, EidKey(domain, eid)) {
        case None =>
        case Some(i) =>
          users := users[i := PatchedUser(users[i], patch)];
      }
      r := Message("User successfully updated!");
    }

    /** DELETE /users/:domain/:eid: no broadcast. */
    method DeleteUser(domain: string, eid: string, fault: Option<DbError>) returns (r: Response)
      modifies this`users
      ensures fault.Some? ==> r == ErrorBody(fault.value) && users == old(users)
      ensures fault.None? ==>
        users == RemoveFirst(old(users), UserEid, EidKey(domain, eid))
        && r == Message("User successfully deleted!")
    {
      if fault.Some? {
        return ErrorBody(fault.value);
      }
      users := RemoveFirst(users, UserEid, EidKey(domain, eid));
      r := Message("User successfully deleted!");
    }
  }

  /** `n` POSTs of one new location name, one after the other and with no
      storage failure, converge: the first creates the record and emits the
      only `location:create`, every later one answers with that same record
      as a conflict. */
  method RepeatedCreates(api: Api, name: string, refs: seq<ViewId>, n: nat)
    returns (replies: seq<Response>)
    requires api.Valid() && !Contains(api.locations, LocationName, name)
    modifies api
    ensures api.Valid()
    ensures |replies| == n
    ensures n > 0 ==>
      && replies[0] == MessageData("Location successfully created!", LocationDoc(Location(name, refs)))
      && api.locations == old(api.locations) + [Location(name, refs)]
      && api.log == old(api.log) + [Event(LocationCreate, LocationDoc(Location(name, refs)))]
    ensures forall k :: 0 < k < n ==> replies[k] == Conflict(LocationExists, LocationDoc(Location(name, refs)))
    ensures n == 0 ==> api.locations == old(api.locations) && api.log == old(api.log)
    ensures api.views == old(api.views) && api.users == old(api.users)
  {
    var created := Location(name, refs);
    replies := [];
    var k := 0;
    while k < n
      invariant 0 <= k <= n && |replies| == k
      invariant api.Valid()
      invariant api.views == old(api.views) && api.users == old(api.users)
      invariant k == 0 ==> api.locations == old(api.locations) && api.log == old(api.log)
      invariant k > 0 ==>
        && replies[0] == MessageData("Location successfully created!", LocationDoc(created))
        && api.locations == old(api.locations) + [created]
        && api.log == old(api.log) + [Event(LocationCreate, LocationDoc(created))]
      invariant forall j :: 0 < j < k ==> replies[j] == Conflict(LocationExists, LocationDoc(created))
    {
      if k > 0 {
        FindOneAfterAppend(old(api.locations), created);
      }
      var r := api.PostLocation(name, refs, None, None);
      replies := replies + [r];
      k := k + 1;
    }
  }

  /** After appending a location whose name was new, looking that name up
      finds the appended record. */
  lemma FindOneAfterAppend(s: seq<Location>, x: Location)
    requires !Contains(s, LocationName, x.name)
    ensures Contains(s + [x], LocationName, x.name)
    ensures FindOne(s + [x], LocationName, x.name) == Some(x)
  {
    assert (s + [x])[|s|] == x;
  }
}
