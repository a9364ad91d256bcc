/** The pure parts of the user routes: the `domain\eid` key of the
    single-user routes, the salt fragment stored with a new user, and how the
    handlers read the value `createUser` hands to their callback. */
module Users {
  import opened Collection
  import opened Documents

  const Backslash: char := '\\'

  /** The key `${domain}\\${eid}` the single-user routes look users up by. */
  function EidKey(domain: string, eid: string): (r: string)
    ensures |r| == |domain| + 1 + |eid|
    ensures r[..|domain|] == domain && r[|domain|] == Backslash && r[|domain| + 1..] == eid
  {
    domain + [Backslash] + eid
  }

  /** Reads a key back at its first backslash: the inverse of EidKey for
      domains without a backslash. */
  function SplitEid(key: string): (r: Option<(string, string)>)
    ensures r.Some? ==> Backslash !in r.value.0 && EidKey(r.value.0, r.value.1) == key
    ensures r.None? <==> Backslash !in key
  {
    if |key| == 0 then None
    else if key[0] == Backslash then Some(([], key[1..]))
    else
      match SplitEid(key[1..])
      case None => None
      case Some(p) =>
        assert key == [key[0]] + key[1..];
        Some(([key[0]] + p.0, p.1))
  }

  lemma {:induction false} EidKeyRoundTrip(domain: string, eid: string)
    requires Backslash !in domain
    ensures SplitEid(EidKey(domain, eid)) == Some((domain, eid))
  {
    if |domain| > 0 {
      EidKeyRoundTrip(domain[1..], eid);
      assert EidKey(domain, eid)[1..] == EidKey(domain[1..], eid);
    }
  }

  /** Two routes whose domains hold no backslash name the same user only
      when both of their path segments agree. */
  lemma EidKeyInjective(d1: string, e1: string, d2: string, e2: string)
    requires Backslash !in d1 && Backslash !in d2
    requires EidKey(d1, e1) == EidKey(d2, e2)
    ensures d1 == d2 && e1 == e2
  {
    EidKeyRoundTrip(d1, e1);
    EidKeyRoundTrip(d2, e2);
  }

  /** A backslash inside the domain segment makes two different routes
      name the same key. */
  lemma EidKeyAmbiguousWithBackslash()
    ensures EidKey("a\\b", "c") == EidKey("a", "b\\c")
  {
  }

  /** `genSaltSync(4).slice(-8)`: the last eight characters of the salt, or
      all of it when it is shorter. */
  function SaltFragment(salt: string): (r: string)
    ensures |r| == if |salt| < 8 then |salt| else 8
    ensures salt == salt[..|salt| - |r|] + r
  {
    if |salt| <= 8 then salt else salt[|salt| - 8..]
  }

  /** What `createUser` passes to its callback: the new user, or the error
      (`callback(err)` and `callback(user)` share one parameter). */
  datatype CreateResult = Created(user: User) | Failed(err: DbError)

  /** JavaScript truthiness of `user.code`: a user document has no `code`,
      an error has one only when the driver set it, and 0 is falsy. */
  predicate CodeIsTruthy(v: CreateResult)
    ensures CodeIsTruthy(v) ==> v.Failed?
    ensures v.Failed? && IsDuplicateKey(v.err) ==> CodeIsTruthy(v)
    ensures v.Failed? && v.err.code.None? ==> !CodeIsTruthy(v)
  {
    v.Failed? && v.err.code.Some? && v.err.code.value != 0
  }

  function CreatedDoc(v: CreateResult): Doc
  {
    if v.Created? then UserDoc(v.user) else ErrorDoc(v.err)
  }

  const UserAddedMsg: string := "User successfully added!"
  const AdminAddedMsg: string := "Admin successfully added!"

  /** POST /users as written: `if(user.code) return handleError(res, user)`,
      else report success with the callback value as `data`. */
  function UserReplyAsWritten(v: CreateResult): (r: Response)
    ensures r.ErrorBody? <==> CodeIsTruthy(v)
    ensures !CodeIsTruthy(v) ==> r == MessageData(UserAddedMsg, CreatedDoc(v))
  {
    if CodeIsTruthy(v) then ErrorBody(v.err)
    else MessageData(UserAddedMsg, CreatedDoc(v))
  }

  /** POST /users as intended: success exactly when a user was created. */
  function UserReply(v: CreateResult): (r: Response)
    ensures r.MessageData? <==> v.Created?
    ensures r.MessageData? ==> r.msg == UserAddedMsg && r.data == UserDoc(v.user)
    ensures v.Failed? ==> r == ErrorBody(v.err)
  {
    match v
    case Created(u) => MessageData(UserAddedMsg, UserDoc(u))
    case Failed(e) => ErrorBody(e)
  }

  /** GET /admin as written: `if(user.code) return res.json(user)`, else
      report the admin as added with the callback value as `user`. */
  function AdminReplyAsWritten(v: CreateResult): (r: Response)
    ensures r.Raw? <==> CodeIsTruthy(v)
    ensures !CodeIsTruthy(v) ==> r == AdminAdded(AdminAddedMsg, CreatedDoc(v))
  {
    if CodeIsTruthy(v) then Raw(ErrorDoc(v.err))
    else AdminAdded(AdminAddedMsg, CreatedDoc(v))
  }

  /** GET /admin as intended: the admin is reported added exactly when it
      was created; every failure answers with the raw error. */
  function AdminReply(v: CreateResult): (r: Response)
    ensures r.AdminAdded? <==> v.Created?
    ensures r.AdminAdded? ==> r.msg == AdminAddedMsg && r.user == UserDoc(v.user)
    ensures v.Failed? ==> r == Raw(ErrorDoc(v.err))
  {
    match v
    case Created(u) => AdminAdded(AdminAddedMsg, UserDoc(u))
    case Failed(e) => Raw(ErrorDoc(e))
  }

  /** A validation error: mongoose raises it with no `code`. */
  const ValidationFailure: DbError := DbError(None, "ValidationError")

  /** The discrepancy: a create that failed validation is answered with
      "User successfully added!" (and "Admin successfully added!"). */
  lemma CodelessErrorReportedAsSuccess()
    ensures UserReplyAsWritten(Failed(ValidationFailure)) == MessageData(UserAddedMsg, ErrorDoc(ValidationFailure))
    ensures UserReply(Failed(ValidationFailure)) == ErrorBody(ValidationFailure)
    ensures AdminReplyAsWritten(Failed(ValidationFailure)) == AdminAdded(AdminAddedMsg, ErrorDoc(ValidationFailure))
    ensures AdminReply(Failed(ValidationFailure)) == Raw(ErrorDoc(ValidationFailure))
  {
  }

  /** The correction changes nothing for a created user or an error that
      carries a code, such as a duplicate key. */
  lemma RepliesAgreeWhenCodeSet(v: CreateResult)
    requires v.Created? || CodeIsTruthy(v)
    ensures UserReplyAsWritten(v) == UserReply(v)
    ensures AdminReplyAsWritten(v) == AdminReply(v)
  {
  }
}
