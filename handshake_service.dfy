/**
 * The login handlers and the bot callback as the source runs them: statements
 * that update the db collection, the `pending_verifications` map and the
 * session manager in place. Each method is proved to have exactly the effect
 * of its operation in module Handshake.
 */
module HandshakeService {
  import opened Wrappers
  import opened Text
  import opened Json
  import opened Handshake

  class LoginService {
    const webHasDb: bool
    const botHasDb: bool
    var db: map<string, Record>
    var pendingVerifications: map<string, Record>
    var sessions: map<string, string>

    function Snapshot(): State
      reads this
    {
      State(webHasDb, botHasDb, db, pendingVerifications, sessions)
    }

    constructor (webHasDb: bool, botHasDb: bool, stored: map<string, Record>)
      ensures Snapshot() == State(webHasDb, botHasDb, stored, map[], map[])
    {
      this.webHasDb := webHasDb;
      this.botHasDb := botHasDb;
      db := stored;
      pendingVerifications := map[];
      sessions := map[];
    }

    /** The fan-out to the admins: `sent` becomes true on the first successful send. */
    static method SendToAdmins(admins: seq<Json>, delivered: seq<bool>) returns (sent: bool)
      ensures sent == AnyDelivered(|admins|, delivered)
    {
      sent := false;
      for i := 0 to |admins|
        invariant sent == AnyDelivered(i, delivered)
      {
        if Delivered(i, delivered) {
          sent := true;
        }
      }
    }

    /** `login_post`. */
    method LoginPost(cfg: Config, username: string, passwordHash: string, d: LoginDraws) returns (r: LoginOutcome)
      requires CodeLow <= d.roll <= CodeHigh
      modifies this
      ensures (Snapshot(), r) == Login(old(Snapshot()), cfg, username, passwordHash, d)
    {
      if username != cfg.adminUsername || passwordHash != cfg.adminPasswordHash {
        return InvalidCredentials;
      }
      if cfg.telegramAuthEnabled && cfg.botToken != "" && cfg.adminIdsText != "" {
        var code := CodeOf(d.roll);
        var admins := AdminList(d.adminIds);
        var sent := SendToAdmins(admins, d.delivered);
        if sent {
          var data := Record(username, code, d.now, Pending, d.token);
          if webHasDb && d.insertOk && d.token !in db {
            db := db[d.token := data];
          } else {
            pendingVerifications := pendingVerifications[d.token := data];
          }
          return AwaitSecondFactor(d.token);
        }
        return SendFailed;
      }
      sessions := sessions[d.sid := username];
      return SessionIssued(d.sid);
    }

    /** The lookup shared by both handlers: the db first, then the fallback map. */
    method Find(token: string) returns (data: Option<Record>)
      ensures data == Lookup(Snapshot(), token)
    {
      data := None;
      if webHasDb && token in db {
        data := Some(db[token]);
      }
      if data.None? && token in pendingVerifications {
        data := Some(pendingVerifications[token]);
      }
    }

    method Delete(token: string)
      modifies this
      ensures Snapshot() == Consume(old(Snapshot()), token)
    {
      if webHasDb {
        db := db - {token};
      } else {
        pendingVerifications := pendingVerifications - {token};
      }
    }

    /** `check_2fa_status`. */
    method CheckTwoFactorStatus(token: string, now: int, sid: string) returns (r: PollOutcome)
      modifies this
      ensures (Snapshot(), r) == Poll(old(Snapshot()), token, now, sid)
    {
      var data := Find(token);
      if data.None? {
        return PollInvalid;
      }
      var rec := data.value;
      if now - rec.timestamp > TtlSeconds {
        return PollExpired;
      }
      if rec.status == Approved {
        sessions := sessions[sid := rec.username];
        Delete(token);
        return PollApproved(sid);
      } else if rec.status == Denied {
        return PollDenied;
      }
      return PollPending;
    }

    /** `verify_2fa`. */
    method VerifyTwoFactor(token: string, code: string, now: int, sid: string) returns (r: VerifyOutcome)
      modifies this
      ensures (Snapshot(), r) == Verify(old(Snapshot()), token, code, now, sid)
    {
      var verification := Find(token);
      if verification.None? {
        return VerifyInvalid;
      }
      var rec := verification.value;
      if now - rec.timestamp > TtlSeconds {
        return VerifyExpired;
      }
      if rec.code != Strip(code) {
        return WrongCode;
      }
      Delete(token);
      sessions := sessions[sid := rec.username];
      return VerifySession(sid);
    }

    /** `logout`. */
    method Logout(cookie: Option<string>)
      modifies this
      ensures Snapshot() == Handshake.Logout(old(Snapshot()), cookie)
    {
      if cookie.Some? && cookie.value != "" {
        sessions := sessions - {cookie.value};
      }
    }

    /** `handle_auth_callback`, run by the bot process against the shared db. */
    method HandleAuthCallback(fromAdmin: bool, data: string) returns (answer: Answer)
      modifies this
      ensures (Snapshot(), answer) == Callback(old(Snapshot()), fromAdmin, data)
    {
      if !StartsWith(data, "auth_") {
        return NotHandled;
      }
      if !fromAdmin {
        return Unauthorized;
      }
      var parts := Split(data, ':');
      if |parts| != 2 {
        return Crashed;
      }
      var action, token := parts[0], parts[1];
      if action == "auth_confirm" {
        if !botHasDb {
          return DatabaseError;
        }
        if token in db && db[token].status == Pending {
          db := db[token := db[token].(status := Approved)];
          return LoginApproved;
        }
        return AlreadyProcessed;
      } else if action == "auth_deny" {
        if !botHasDb {
          return DatabaseError;
        }
        if token in db {
          db := db[token := db[token].(status := Denied)];
        }
        return LoginDenied;
      }
      return NoAnswer;
    }
  }
}
