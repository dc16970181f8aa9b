/**
 * What the handshake guarantees, and where its rough edges lie, stated over
 * the operations of module Handshake.
 */
module HandshakeProperties {
  import opened Wrappers
  import opened Text
  import opened Json
  import opened Handshake

  /**
   * The store invariant: every record sits under its own token and carries a
   * six-digit code, the two stores never share a token, and a record in the
   * fallback map is always pending (the bot only ever writes the db).
   */
  ghost predicate Inv(s: State) {
    && (forall t :: t in s.db ==> s.db[t].token == t && SixDigitCode(s.db[t].code))
    && (forall t :: t in s.fallback ==>
          s.fallback[t].token == t && SixDigitCode(s.fallback[t].code) && s.fallback[t].status == Pending)
    && s.db.Keys !! s.fallback.Keys
  }

  /** A fresh state: the db may hold records of an earlier run, the fallback map is empty. */
  lemma InitialInv(webHasDb: bool, botHasDb: bool, db: map<string, Record>)
    requires forall t :: t in db ==> db[t].token == t && SixDigitCode(db[t].code)
    ensures Inv(State(webHasDb, botHasDb, db, map[], map[]))
  {
  }

  /** Login keeps the invariant, given that uuid4 never repeats a token. */
  lemma LoginInv(s: State, cfg: Config, username: string, passwordHash: string, d: LoginDraws)
    requires Inv(s)
    requires CodeLow <= d.roll <= CodeHigh
    requires d.token !in s.db && d.token !in s.fallback
    ensures Inv(Login(s, cfg, username, passwordHash, d).0)
  {
  }

  lemma PollInv(s: State, token: string, now: int, sid: string)
    requires Inv(s)
    ensures Inv(Poll(s, token, now, sid).0)
  {
  }

  lemma VerifyInv(s: State, token: string, code: string, now: int, sid: string)
    requires Inv(s)
    ensures Inv(Verify(s, token, code, now, sid).0)
  {
  }

  lemma CallbackInv(s: State, fromAdmin: bool, data: string)
    requires Inv(s)
    ensures Inv(Callback(s, fromAdmin, data).0)
  {
    var s' := Callback(s, fromAdmin, data).0;
    forall t | t in s'.db ensures s'.db[t].token == t && SixDigitCode(s'.db[t].code) {
      assert s'.db[t] == s.db[t] || s'.db[t] == s.db[t].(status := s'.db[t].status);
    }
  }

  lemma LogoutInv(s: State, cookie: Option<string>)
    requires Inv(s)
    ensures Inv(Logout(s, cookie))
  {
  }

  /** The callback data of the confirm button splits back into the action and the token. */
  lemma {:induction false} ConfirmDataSplits(token: string)
    requires ':' !in token
    ensures Split(ConfirmData(token), ':') == ["auth_confirm", token]
  {
    assert ConfirmData(token) == "auth_confirm" + [':'] + token;
    SplitCons("auth_confirm", ':', token);
  }

  lemma {:induction false} DenyDataSplits(token: string)
    requires ':' !in token
    ensures Split(DenyData(token), ':') == ["auth_deny", token]
  {
    assert DenyData(token) == "auth_deny" + [':'] + token;
    SplitCons("auth_deny", ':', token);
  }

  /**
   * Only a record in the db can be approved, and an approved poll consumes it:
   * the next poll or code entry for the same token finds nothing, so one poll
   * issues one session.
   */
  lemma ApprovedPollConsumes(s: State, token: string, now: int, sid: string, now2: int, sid2: string, code: string)
    requires Inv(s)
    requires Poll(s, token, now, sid).1.PollApproved?
    ensures s.webHasDb && token in s.db
    ensures var s1 := Poll(s, token, now, sid).0;
      && Lookup(s1, token).None?
      && Poll(s1, token, now2, sid2) == (s1, PollInvalid)
      && Verify(s1, token, code, now2, sid2) == (s1, VerifyInvalid)
  {
  }

  /** A correct code consumes the record whenever it was found where deletion looks. */
  lemma CodeConsumes(s: State, token: string, code: string, now: int, sid: string)
    requires Inv(s)
    requires !s.webHasDb || token in s.db
    requires Verify(s, token, code, now, sid).1.VerifySession?
    ensures Lookup(Verify(s, token, code, now, sid).0, token).None?
  {
  }

  /**
   * With a db configured, a record that landed in the fallback map (the insert
   * failed) survives consumption: the same code can be entered again within the
   * time limit and yields a second session.
   */
  lemma FallbackRecordSurvivesCodeEntry(s: State, token: string, code: string, now: int, sid: string, sid2: string)
    requires s.webHasDb && token !in s.db
    requires Verify(s, token, code, now, sid).1.VerifySession?
    ensures var s1 := Verify(s, token, code, now, sid).0;
      && Lookup(s1, token) == Lookup(s, token)
      && Verify(s1, token, code, now, sid2).1 == VerifySession(sid2)
  {
  }

  /** From there, one code mints two sessions: the record's own code is accepted twice. */
  lemma FallbackCodeReplay(s: State, token: string, now: int, sid1: string, sid2: string)
    requires s.webHasDb && token !in s.db && token in s.fallback
    requires !IsExpired(s.fallback[token], now) && SixDigitCode(s.fallback[token].code)
    ensures Verify(s, token, s.fallback[token].code, now, sid1).1 == VerifySession(sid1)
    ensures Verify(Verify(s, token, s.fallback[token].code, now, sid1).0, token, s.fallback[token].code, now, sid2).1
      == VerifySession(sid2)
  {
    StoredCodeAccepted(s, token, now, sid1);
    FallbackRecordSurvivesCodeEntry(s, token, s.fallback[token].code, now, sid1, sid2);
  }

  /** Entering the stored six-digit code, within the time limit, issues a session. */
  lemma StoredCodeAccepted(s: State, token: string, now: int, sid: string)
    requires Lookup(s, token).Some? && !IsExpired(Lookup(s, token).value, now)
    requires SixDigitCode(Lookup(s, token).value.code)
    ensures Verify(s, token, Lookup(s, token).value.code, now, sid).1 == VerifySession(sid)
  {
    var rec := Lookup(s, token).value;
    StripDigits(rec.code);
    CorrectCodeIssues(s, token, rec.code, now, sid);
  }

  /** With a db configured and a failed insert, the new record is served from the fallback map. */
  lemma LoginLandsInFallback(s: State, cfg: Config, d: LoginDraws) returns (s1: State)
    requires s.webHasDb && d.token !in s.db
    requires CodeLow <= d.roll <= CodeHigh
    requires SecondFactorConfigured(cfg)
    requires AnyDelivered(|AdminList(d.adminIds)|, d.delivered) && !d.insertOk
    ensures s1 == Login(s, cfg, cfg.adminUsername, cfg.adminPasswordHash, d).0
    ensures s1.webHasDb && d.token !in s1.db
    ensures Lookup(s1, d.token) == Some(Record(cfg.adminUsername, CodeOf(d.roll), d.now, Pending, d.token))
  {
    s1 := Login(s, cfg, cfg.adminUsername, cfg.adminPasswordHash, d).0;
  }

  /** A code typed with surrounding whitespace is still accepted. */
  lemma StripDigits(code: string)
    requires SixDigitCode(code)
    ensures Strip(code) == code
  {
    assert code == [] + code + [];
    StripPadded([], code, []);
  }

  lemma PaddedCodeAccepted(s: State, token: string, pre: string, post: string, now: int, sid: string)
    requires Lookup(s, token).Some? && !IsExpired(Lookup(s, token).value, now)
    requires SixDigitCode(Lookup(s, token).value.code)
    requires forall i :: 0 <= i < |pre| ==> IsSpace(pre[i])
    requires forall i :: 0 <= i < |post| ==> IsSpace(post[i])
    ensures Verify(s, token, pre + Lookup(s, token).value.code + post, now, sid).1 == VerifySession(sid)
  {
    var code := Lookup(s, token).value.code;
    StripPadded(pre, code, post);
  }

  /** The code path ignores the status: a denied login can still be completed with its code. */
  lemma CodeOverridesDenial(s: State, token: string, now: int, sid: string)
    requires Lookup(s, token).Some? && Lookup(s, token).value.status == Denied
    requires !IsExpired(Lookup(s, token).value, now)
    requires SixDigitCode(Lookup(s, token).value.code)
    ensures Poll(s, token, now, sid) == (s, PollDenied)
    ensures Verify(s, token, Lookup(s, token).value.code, now, sid).1 == VerifySession(sid)
  {
    DeniedPollReportsDenied(s, token, now, sid);
    StoredCodeAccepted(s, token, now, sid);
  }

  lemma DeniedPollReportsDenied(s: State, token: string, now: int, sid: string)
    requires Lookup(s, token).Some? && Lookup(s, token).value.status == Denied
    requires !IsExpired(Lookup(s, token).value, now)
    ensures Poll(s, token, now, sid) == (s, PollDenied)
  {
  }

  lemma CorrectCodeIssues(s: State, token: string, code: string, now: int, sid: string)
    requires Lookup(s, token).Some? && !IsExpired(Lookup(s, token).value, now)
    requires Strip(code) == Lookup(s, token).value.code
    ensures Verify(s, token, code, now, sid).1 == VerifySession(sid)
  {
  }

  /** Confirm approves exactly a pending db record, whatever its age. */
  lemma {:induction false} ConfirmApprovesPending(s: State, token: string)
    requires s.botHasDb && ':' !in token
    ensures var r := Callback(s, true, ConfirmData(token));
      && (r.1 == LoginApproved <==> (token in s.db && s.db[token].status == Pending))
      && (r.1 == LoginApproved ==> r.0.db == s.db[token := s.db[token].(status := Approved)])
      && (r.1 != LoginApproved ==> r == (s, AlreadyProcessed))
  {
    ConfirmDataSplits(token);
  }

  /** A second confirm of the same token changes nothing and reports it already processed. */
  lemma {:induction false} ConfirmIdempotent(s: State, token: string)
    requires ':' !in token
    ensures var s1 := Callback(s, true, ConfirmData(token)).0;
      && Callback(s1, true, ConfirmData(token)).0 == s1
      && (s.botHasDb ==> Callback(s1, true, ConfirmData(token)).1 == AlreadyProcessed)
  {
    ConfirmDataSplits(token);
  }

  /** Deny overwrites any status, an approved one included, and answers "Login Denied" even for an unknown token. */
  lemma {:induction false} DenyOverwrites(s: State, token: string)
    requires s.botHasDb && ':' !in token
    ensures var r := Callback(s, true, DenyData(token));
      && r.1 == LoginDenied
      && (token in s.db ==> r.0.db == s.db[token := s.db[token].(status := Denied)])
      && (token !in s.db ==> r.0 == s)
  {
    DenyDataSplits(token);
  }

  /** A deny that arrives after an approval, before the poll, stops the session. */
  lemma {:induction false} DenyAfterApproveBlocksSession(s: State, token: string, now: int, sid: string)
    requires s.webHasDb && s.botHasDb && ':' !in token
    requires token in s.db && s.db[token].status == Pending && !IsExpired(s.db[token], now)
    ensures var s1 := Callback(s, true, ConfirmData(token)).0;
      var s2 := Callback(s1, true, DenyData(token)).0;
      Poll(s2, token, now, sid) == (s2, PollDenied)
  {
    ConfirmApprovesPending(s, token);
    var s1 := Callback(s, true, ConfirmData(token)).0;
    DenyOverwrites(s1, token);
  }

  /** The bot does not look at age: an expired pending record is approved, yet polling it reports expiry. */
  lemma {:induction false} ExpiredStillApproved(s: State, token: string, now: int, sid: string)
    requires s.webHasDb && s.botHasDb && ':' !in token
    requires token in s.db && s.db[token].status == Pending && IsExpired(s.db[token], now)
    ensures var s1 := Callback(s, true, ConfirmData(token)).0;
      && s1.db[token].status == Approved
      && Poll(s1, token, now, sid) == (s1, PollExpired)
  {
    ConfirmApprovesPending(s, token);
  }

  /**
   * The intended run: a login whose record reaches the db, approval from the
   * bot, one poll that issues the session, and a later poll that finds nothing.
   */
  lemma {:induction false} ApprovedLoginScenario(s: State, cfg: Config, d: LoginDraws, later: int, sid2: string)
    requires Inv(s) && s.webHasDb && s.botHasDb
    requires CodeLow <= d.roll <= CodeHigh && ':' !in d.token
    requires d.token !in s.db && d.token !in s.fallback
    requires SecondFactorConfigured(cfg) && d.insertOk
    requires AnyDelivered(|AdminList(d.adminIds)|, d.delivered)
    ensures var (s1, out) := Login(s, cfg, cfg.adminUsername, cfg.adminPasswordHash, d);
      var s2 := Callback(s1, true, ConfirmData(d.token)).0;
      var (s3, polled) := Poll(s2, d.token, d.now, d.sid);
      && out == AwaitSecondFactor(d.token)
      && polled == PollApproved(d.sid)
      && s3.sessions == s.sessions[d.sid := cfg.adminUsername]
      && Poll(s3, d.token, later, sid2) == (s3, PollInvalid)
  {
    var (s1, out) := Login(s, cfg, cfg.adminUsername, cfg.adminPasswordHash, d);
    LoginInv(s, cfg, cfg.adminUsername, cfg.adminPasswordHash, d);
    ConfirmApprovesPending(s1, d.token);
    var s2 := Callback(s1, true, ConfirmData(d.token)).0;
    CallbackInv(s1, true, ConfirmData(d.token));
    ApprovedPollConsumes(s2, d.token, d.now, d.sid, later, sid2, "");
  }
}
