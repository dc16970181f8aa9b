/**
 * The HTTP authentication hook of the proxy server (auth/user_auth.py): the
 * server posts `{"auth": "user:password"}` and the hook answers whether the
 * user may connect. `check_user` is a chain of early returns over the user's
 * stored record; `auth_handler` parses the body and maps the verdict to a
 * status code.
 */
module UserAuth {
  import opened Wrappers
  import opened Text
  import opened Json

  const SecondsPerDay := 86400

  /**
   * The user's record as `user.get(...)` reads it, with the source's defaults
   * already applied: `blocked` and `unlimited_user` by their truthiness,
   * `password` None when the field is missing, `account_creation_date`
   * None when missing or empty, the counters 0 when missing.
   */
  datatype UserDoc = UserDoc(
    blocked: bool,
    password: Option<string>,
    unlimited: bool,
    expirationDays: int,
    creationDate: Option<string>,
    maxDownloadBytes: int,
    uploadBytes: int,
    downloadBytes: int)

  datatype Verdict = Verdict(valid: bool, msg: string)

  datatype Response = Response(status: int, body: Json)

  /**
   * The expiry test. `parseDay` stands for `strptime(..., "%Y-%m-%d")`: the
   * day number of a well-formed date, None where strptime raises ValueError.
   * `now` is the current local time in seconds; the account expires at
   * midnight of the creation day plus `expirationDays` days.
   */
  predicate Expired(u: UserDoc, now: int, parseDay: string -> Option<int>) {
    && u.expirationDays > 0
    && u.creationDate.Some?
    && parseDay(u.creationDate.value).Some?
    && now >= (parseDay(u.creationDate.value).value + u.expirationDays) * SecondsPerDay
  }

  /** The traffic test; a limit of 0 (or less) means unlimited. */
  predicate OverQuota(u: UserDoc) {
    u.maxDownloadBytes > 0 && u.uploadBytes + u.downloadBytes >= u.maxDownloadBytes
  }

  /** `check_user`. */
  function CheckUser(user: Option<UserDoc>, password: string, now: int, parseDay: string -> Option<int>): (r: Verdict)
    ensures user.None? ==> r == Verdict(false, "User not found")
    // blocked is checked before the password
    ensures user.Some? && user.value.blocked ==> r == Verdict(false, "User is blocked")
    ensures user.Some? && !user.value.blocked && user.value.password != Some(password) ==>
      r == Verdict(false, "Invalid password")
    // an unlimited user skips both the expiry and the traffic test
    ensures r == Verdict(true, "Unlimited user") <==>
      user.Some? && !user.value.blocked && user.value.password == Some(password) && user.value.unlimited
    // the expiry test comes before the traffic test
    ensures r == Verdict(false, "Account expired") <==>
      && user.Some? && !user.value.blocked && user.value.password == Some(password) && !user.value.unlimited
      && Expired(user.value, now, parseDay)
    ensures r == Verdict(false, "Data limit exceeded") <==>
      && user.Some? && !user.value.blocked && user.value.password == Some(password) && !user.value.unlimited
      && !Expired(user.value, now, parseDay) && OverQuota(user.value)
    ensures r.valid <==>
      && user.Some? && !user.value.blocked && user.value.password == Some(password)
      && (user.value.unlimited || (!Expired(user.value, now, parseDay) && !OverQuota(user.value)))
    ensures r.valid && r.msg != "Unlimited user" ==> r.msg == "OK"
  {
    if user.None? then Verdict(false, "User not found")
    else
      var u := user.value;
      if u.blocked then Verdict(false, "User is blocked")
      else if u.password != Some(password) then Verdict(false, "Invalid password")
      else if u.unlimited then Verdict(true, "Unlimited user")
      else if Expired(u, now, parseDay) then Verdict(false, "Account expired")
      else if OverQuota(u) then Verdict(false, "Data limit exceeded")
      else Verdict(true, "OK")
  }

  function Failure(status: int, msg: string): Response {
    Response(status, JObj(map["ok" := JBool(false), "msg" := JStr(msg)]))
  }

  /**
   * `auth_handler`. `body` is None when the request body is not JSON; the
   * user collection is a map from `_id` to record. Any exception (a body
   * that is not an object, an `auth` that is not a string) answers 500.
   */
  function AuthHandler(body: Option<Json>, users: map<string, UserDoc>, now: int, parseDay: string -> Option<int>)
    : (r: Response)
    ensures body.None? || !body.value.JObj? ==> r == Failure(500, "Internal Error")
    ensures body.Some? && body.value.JObj? && !Truthy(Get(body.value.fields, "auth", JNull)) ==>
      r == Failure(400, "Missing auth")
    ensures body.Some? && body.value.JObj? && Get(body.value.fields, "auth", JNull).JStr? ==>
      var s := Get(body.value.fields, "auth", JNull).s;
      s != "" && ':' !in s ==> r == Failure(400, "Invalid auth format")
    // a truthy `auth` that is not a string has no split method
    ensures body.Some? && body.value.JObj? ==>
      var a := Get(body.value.fields, "auth", JNull);
      Truthy(a) && !a.JStr? ==> r == Failure(500, "Internal Error")
    // otherwise the name before the first ':' and the password after it decide 200 or 401
    ensures body.Some? && body.value.JObj? && Get(body.value.fields, "auth", JNull).JStr? ==>
      var s := Get(body.value.fields, "auth", JNull).s;
      ':' in s ==>
        var username, password := SplitOnce(s, ':').value.0, SplitOnce(s, ':').value.1;
        var v := CheckUser(if username in users then Some(users[username]) else None, password, now, parseDay);
        && (v.valid ==> r == Response(200, JObj(map["ok" := JBool(true), "id" := JStr(username)])))
        && (!v.valid ==> r == Failure(401, v.msg))
    ensures r.status == 200 || r.status == 400 || r.status == 401 || r.status == 500
  {
    if body.None? || !body.value.JObj? then Failure(500, "Internal Error")
    else
      var auth := Get(body.value.fields, "auth", JNull);
      if !Truthy(auth) then Failure(400, "Missing auth")
      else if !auth.JStr? then Failure(500, "Internal Error")
      else match SplitOnce(auth.s, ':')
        case None => Failure(400, "Invalid auth format")
        case Some((username, password)) =>
          var user := if username in users then Some(users[username]) else None;
          var verdict := CheckUser(user, password, now, parseDay);
          if verdict.valid then Response(200, JObj(map["ok" := JBool(true), "id" := JStr(username)]))
          else Failure(401, verdict.msg)
  }

  /** The body the proxy server posts. */
  function AuthBody(username: string, password: string): Json {
    JObj(map["auth" := JStr(username + ":" + password)])
  }

  /**
   * The split is at the first ':', so any password, even one containing ':',
   * reaches `check_user` intact, and the answer is the verdict's.
   */
  lemma AuthRoundTrip(username: string, password: string, users: map<string, UserDoc>, now: int, parseDay: string -> Option<int>)
    requires ':' !in username
    ensures
      var user := if username in users then Some(users[username]) else None;
      var v := CheckUser(user, password, now, parseDay);
      var r := AuthHandler(Some(AuthBody(username, password)), users, now, parseDay);
      && (v.valid ==> r == Response(200, JObj(map["ok" := JBool(true), "id" := JStr(username)])))
      && (!v.valid ==> r == Failure(401, v.msg))
  {
    SplitOnceAt(username, ':', password);
    assert username + ":" + password == username + [':'] + password;
    var auth := JStr(username + ":" + password);
    assert Get(AuthBody(username, password).fields, "auth", JNull) == auth;
    assert Truthy(auth) by { assert |username + ":" + password| > 0; }
  }

  /** Acceptance never comes back with time: a user let in now was let in at any earlier moment. */
  lemma AcceptedEarlier(user: Option<UserDoc>, password: string, earlier: int, later: int, parseDay: string -> Option<int>)
    requires earlier <= later
    requires CheckUser(user, password, later, parseDay).valid
    ensures CheckUser(user, password, earlier, parseDay).valid
  {
  }

  /** More traffic never turns a rejection into an acceptance. */
  lemma MoreTrafficNeverHelps(u: UserDoc, extraUp: nat, extraDown: nat, password: string, now: int, parseDay: string -> Option<int>)
    requires CheckUser(Some(u.(uploadBytes := u.uploadBytes + extraUp, downloadBytes := u.downloadBytes + extraDown)), password, now, parseDay).valid
    ensures CheckUser(Some(u), password, now, parseDay).valid
  {
  }

  /** With no expiry and no quota, the right password is all an unblocked user needs. */
  lemma NoLimitsAccepted(u: UserDoc, now: int, parseDay: string -> Option<int>)
    requires !u.blocked && u.password.Some? && u.expirationDays <= 0 && u.maxDownloadBytes <= 0
    ensures CheckUser(Some(u), u.password.value, now, parseDay).valid
  {
  }
}
