/**
 * The web panel's second-factor login handshake
 * (core/scripts/webpanel/routers/login/login.py) and the bot-side callback that
 * approves or denies a pending login (core/scripts/telegrambot/tbot.py).
 *
 * A verification record lives in one of two stores: the shared document
 * collection `auth_requests` ("db", reachable from the web process when
 * `webHasDb` and from the bot process when `botHasDb`) or the web process's own
 * `pending_verifications` map ("fallback"). Sessions are the session manager's
 * map from session id to username.
 *
 * The values the source draws from libraries are inputs here: the SHA-256
 * digest of the password, the `random.randint` roll, the `uuid4` token, the
 * clock (whole seconds), the outcome of each Telegram send, whether the
 * database accepted the insert, and the fresh session id.
 */
module Handshake {
  import opened Wrappers
  import opened Text
  import opened Json

  /** Age in seconds beyond which a record is reported expired. */
  const TtlSeconds: int := 300
  const CodeLow: int := 100000
  const CodeHigh: int := 999999

  datatype Status = Pending | Approved | Denied

  /** One login attempt awaiting its second factor; stored under `_id = token`. */
  datatype Record = Record(username: string, code: string, timestamp: int, status: Status, token: string)

  datatype State = State(
    webHasDb: bool,
    botHasDb: bool,
    db: map<string, Record>,
    fallback: map<string, Record>,
    sessions: map<string, string>)

  /** The panel settings the login handler reads (`CONFIGS`). */
  datatype Config = Config(
    adminUsername: string,
    adminPasswordHash: string,
    telegramAuthEnabled: bool,
    botToken: string,
    adminIdsText: string)

  /** What one call to the login handler draws from the outside world. */
  datatype LoginDraws = LoginDraws(
    adminIds: Option<Json>,   // json.loads of the admin id setting; None when it raised
    roll: int,                // random.randint(100000, 999999)
    token: string,            // str(uuid.uuid4())
    now: int,                 // datetime.now(), in seconds
    delivered: seq<bool>,     // outcome of the send to the i-th admin; missing entries failed
    insertOk: bool,           // the database was reachable for insert_one
    sid: string)              // the id set_session would return

  datatype LoginOutcome =
    | InvalidCredentials       // "Invalid username or password"
    | SendFailed               // "Failed to send 2FA code. Check bot settings."
    | AwaitSecondFactor(token: string)
    | SessionIssued(sessionId: string)

  datatype PollOutcome = PollInvalid | PollExpired | PollApproved(sessionId: string) | PollDenied | PollPending

  datatype VerifyOutcome =
    | VerifyInvalid            // "Session expired or invalid."
    | VerifyExpired            // "Code expired."
    | WrongCode                // "Invalid code."
    | VerifySession(sessionId: string)

  /** The answer the bot gives to an `auth_...` callback. */
  datatype Answer =
    | NotHandled               // the callback data does not start with "auth_"
    | Unauthorized
    | LoginApproved
    | AlreadyProcessed         // "Request expired or already processed"
    | LoginDenied
    | DatabaseError
    | Crashed                  // the data does not split into exactly two parts at ':'
    | NoAnswer                 // an action other than auth_confirm / auth_deny

  // ---------------------------------------------------------------- helpers

  /** The admin id list after `json.loads`: a parse error gives none, a scalar is wrapped. */
  function AdminList(parsed: Option<Json>): (ids: seq<Json>)
    ensures parsed.None? ==> ids == []
    ensures parsed.Some? && parsed.value.JArr? ==> ids == parsed.value.items
    ensures parsed.Some? && !parsed.value.JArr? ==> ids == [parsed.value]
  {
    match parsed
    case None => []
    case Some(JArr(xs)) => xs
    case Some(v) => [v]
  }

  predicate Delivered(i: nat, delivered: seq<bool>) {
    i < |delivered| && delivered[i]
  }

  /** Some send among the first `n` admins succeeded. */
  predicate AnyDelivered(n: nat, delivered: seq<bool>) {
    exists i :: 0 <= i < n && Delivered(i, delivered)
  }

  predicate SixDigitCode(code: string) {
    |code| == 6 && forall k :: 0 <= k < 6 ==> '0' <= code[k] <= '9'
  }

  /** The confirmation code is the decimal form of the roll: always six digits. */
  function CodeOf(roll: int): (code: string)
    requires CodeLow <= roll <= CodeHigh
    ensures SixDigitCode(code)
    ensures code[0] != '0'
  {
    SixDigits(roll);
    NatToString(roll)
  }

  /** `find_one` on the db when the web process has one, then the fallback map. */
  function Lookup(s: State, token: string): (r: Option<Record>)
    ensures r.None? <==> (!(s.webHasDb && token in s.db) && token !in s.fallback)
    ensures s.webHasDb && token in s.db ==> r == Some(s.db[token])
    ensures !(s.webHasDb && token in s.db) && token in s.fallback ==> r == Some(s.fallback[token])
  {
    if s.webHasDb && token in s.db then Some(s.db[token])
    else if token in s.fallback then Some(s.fallback[token])
    else None
  }

  /** Consumption: `delete_one` on the db when there is one, otherwise `del` from the map. */
  function Consume(s: State, token: string): (r: State)
    ensures s.webHasDb ==> r == s.(db := s.db - {token})
    ensures !s.webHasDb ==> r == s.(fallback := s.fallback - {token})
  {
    if s.webHasDb then s.(db := s.db - {token}) else s.(fallback := s.fallback - {token})
  }

  function Issue(s: State, sid: string, username: string): State {
    s.(sessions := s.sessions[sid := username])
  }

  predicate IsExpired(r: Record, now: int) {
    now - r.timestamp > TtlSeconds
  }

  /** Where a new record goes: the db when the insert succeeds, the fallback map otherwise. */
  function Store(s: State, rec: Record, insertOk: bool): (r: State)
    ensures s.webHasDb && insertOk && rec.token !in s.db ==>
      r == s.(db := s.db[rec.token := rec])
    ensures !(s.webHasDb && insertOk && rec.token !in s.db) ==>
      r == s.(fallback := s.fallback[rec.token := rec])
  {
    // insert_one raises on an unreachable database and on a duplicate _id
    if s.webHasDb && insertOk && rec.token !in s.db then s.(db := s.db[rec.token := rec])
    else s.(fallback := s.fallback[rec.token := rec])
  }

  // ------------------------------------------------------------- operations

  predicate SecondFactorConfigured(cfg: Config) {
    cfg.telegramAuthEnabled && cfg.botToken != "" && cfg.adminIdsText != ""
  }

  /** `login_post`. */
  function Login(s: State, cfg: Config, username: string, passwordHash: string, d: LoginDraws): (r: (State, LoginOutcome))
    requires CodeLow <= d.roll <= CodeHigh
    // wrong credentials: an error, and neither a session nor a record
    ensures r.1 == InvalidCredentials <==> (username != cfg.adminUsername || passwordHash != cfg.adminPasswordHash)
    ensures r.1 == InvalidCredentials ==> r.0 == s
    // with the second factor configured, a record exists iff some send succeeded
    ensures r.1 != InvalidCredentials && SecondFactorConfigured(cfg) ==>
      (r.1 == AwaitSecondFactor(d.token) <==> AnyDelivered(|AdminList(d.adminIds)|, d.delivered))
    ensures r.1 == SendFailed ==> r.0 == s
    ensures r.1.AwaitSecondFactor? ==>
      var rec := Record(username, CodeOf(d.roll), d.now, Pending, d.token);
      && r.1.token == d.token
      && r.0.sessions == s.sessions
      && SixDigitCode(rec.code)
      && (r.0 == s.(db := s.db[d.token := rec]) || r.0 == s.(fallback := s.fallback[d.token := rec]))
      && (!s.webHasDb || !d.insertOk ==> r.0 == s.(fallback := s.fallback[d.token := rec]))
    // without the second factor configured, the right credentials give a session at once
    ensures r.1.SessionIssued? <==> (r.1 != InvalidCredentials && !SecondFactorConfigured(cfg))
    ensures r.1.SessionIssued? ==>
      r.1.sessionId == d.sid && r.0 == s.(sessions := s.sessions[d.sid := username])
  {
    if username != cfg.adminUsername || passwordHash != cfg.adminPasswordHash then
      (s, InvalidCredentials)
    else if SecondFactorConfigured(cfg) then
      if AnyDelivered(|AdminList(d.adminIds)|, d.delivered) then
        var rec := Record(username, CodeOf(d.roll), d.now, Pending, d.token);
        (Store(s, rec, d.insertOk), AwaitSecondFactor(d.token))
      else
        (s, SendFailed)
    else
      (Issue(s, d.sid, username), SessionIssued(d.sid))
  }

  /** `check_2fa_status`. */
  function Poll(s: State, token: string, now: int, sid: string): (r: (State, PollOutcome))
    ensures Lookup(s, token).None? ==> r == (s, PollInvalid)
    // expiry is checked before the status is looked at
    ensures Lookup(s, token).Some? && IsExpired(Lookup(s, token).value, now) ==> r == (s, PollExpired)
    ensures r.1.PollApproved? <==>
      (Lookup(s, token).Some? && !IsExpired(Lookup(s, token).value, now) && Lookup(s, token).value.status == Approved)
    ensures r.1.PollApproved? ==>
      r.1.sessionId == sid && r.0 == Consume(Issue(s, sid, Lookup(s, token).value.username), token)
    // denied and pending polls change nothing
    ensures !r.1.PollApproved? ==> r.0 == s
    ensures r.1 == PollDenied <==>
      (Lookup(s, token).Some? && !IsExpired(Lookup(s, token).value, now) && Lookup(s, token).value.status == Denied)
    ensures r.1 == PollPending <==>
      (Lookup(s, token).Some? && !IsExpired(Lookup(s, token).value, now) && Lookup(s, token).value.status == Pending)
  {
    match Lookup(s, token)
    case None => (s, PollInvalid)
    case Some(rec) =>
      if IsExpired(rec, now) then (s, PollExpired)
      else if rec.status == Approved then (Consume(Issue(s, sid, rec.username), token), PollApproved(sid))
      else if rec.status == Denied then (s, PollDenied)
      else assert rec.status.Pending?; (s, PollPending)
  }

  /** `verify_2fa`: the manual code path; it never looks at the record's status. */
  function Verify(s: State, token: string, code: string, now: int, sid: string): (r: (State, VerifyOutcome))
    ensures Lookup(s, token).None? ==> r == (s, VerifyInvalid)
    ensures Lookup(s, token).Some? && IsExpired(Lookup(s, token).value, now) ==> r == (s, VerifyExpired)
    ensures r.1.VerifySession? <==>
      (Lookup(s, token).Some? && !IsExpired(Lookup(s, token).value, now) && Lookup(s, token).value.code == Strip(code))
    ensures r.1.VerifySession? ==>
      r.1.sessionId == sid && r.0 == Issue(Consume(s, token), sid, Lookup(s, token).value.username)
    ensures r.1 == WrongCode <==>
      (Lookup(s, token).Some? && !IsExpired(Lookup(s, token).value, now) && Lookup(s, token).value.code != Strip(code))
    // a mismatch keeps the record: nothing changes
    ensures !r.1.VerifySession? ==> r.0 == s
  {
    match Lookup(s, token)
    case None => (s, VerifyInvalid)
    case Some(rec) =>
      if IsExpired(rec, now) then (s, VerifyExpired)
      else if rec.code != Strip(code) then (s, WrongCode)
      else (Issue(Consume(s, token), sid, rec.username), VerifySession(sid))
  }

  /** `handle_auth_callback`: approve by compare-and-set on pending, deny unconditionally. */
  function Callback(s: State, fromAdmin: bool, data: string): (r: (State, Answer))
    // only the db is ever written, and only the status of the record under the token
    ensures r.0.webHasDb == s.webHasDb && r.0.botHasDb == s.botHasDb
    ensures r.0.fallback == s.fallback && r.0.sessions == s.sessions && r.0.db.Keys == s.db.Keys
    ensures forall t :: t in s.db && r.0.db[t] != s.db[t] ==>
      Split(data, ':') == ["auth_confirm", t] || Split(data, ':') == ["auth_deny", t]
    ensures forall t :: t in s.db ==> r.0.db[t] == s.db[t] || r.0.db[t] == s.db[t].(status := r.0.db[t].status)
    ensures !fromAdmin && StartsWith(data, "auth_") ==> r == (s, Unauthorized)
    ensures !s.botHasDb ==> r.0 == s
    // an admin's well-formed approve or deny without a bot db is answered "Database Error", and only then
    ensures r.1 == DatabaseError <==>
      && fromAdmin && !s.botHasDb && StartsWith(data, "auth_") && |Split(data, ':')| == 2
      && (Split(data, ':')[0] == "auth_confirm" || Split(data, ':')[0] == "auth_deny")
    ensures r.1 == LoginApproved ==> r.0 != s
    ensures r.1 == AlreadyProcessed ==> r.0 == s
  {
    if !StartsWith(data, "auth_") then (s, NotHandled)
    else if !fromAdmin then (s, Unauthorized)
    else
      var parts := Split(data, ':');
      if |parts| != 2 then (s, Crashed)
      else
        var action, token := parts[0], parts[1];
        if action == "auth_confirm" then
          if !s.botHasDb then (s, DatabaseError)
          else if token in s.db && s.db[token].status == Pending then
            (s.(db := s.db[token := s.db[token].(status := Approved)]), LoginApproved)
          else (s, AlreadyProcessed)
        else if action == "auth_deny" then
          if !s.botHasDb then (s, DatabaseError)
          else if token in s.db then (s.(db := s.db[token := s.db[token].(status := Denied)]), LoginDenied)
          else (s, LoginDenied)
        else (s, NoAnswer)
  }

  /** `logout`: revoke the cookie's session when the cookie is present and non-empty. */
  function Logout(s: State, cookie: Option<string>): (r: State)
    ensures cookie.Some? && cookie.value != "" ==> r.sessions == s.sessions - {cookie.value}
    ensures cookie.Some? && cookie.value != "" ==> cookie.value !in r.sessions
    ensures cookie.None? || cookie.value == "" ==> r == s
    ensures r.db == s.db && r.fallback == s.fallback
  {
    match cookie
    case Some(sid) => if sid != "" then s.(sessions := s.sessions - {sid}) else s
    case None => s
  }

  /** The callback data the login handler attaches to the two buttons. */
  function ConfirmData(token: string): string {
    "auth_confirm:" + token
  }

  function DenyData(token: string): string {
    "auth_deny:" + token
  }
}
