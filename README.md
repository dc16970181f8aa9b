# A verified model of the Hysteria2 panel's core logic

This project models, in Dafny, the decision logic of the Hysteria2 management
panel: what each piece does with its inputs, and what it changes. The panel is
made of a web panel, two Telegram bots, an authentication server for the proxy,
and a few command-line scripts. The pieces modelled are:

- **The second-factor login handshake** (`login.py` and `tbot.py`). A login
  with the right credentials creates a verification record under a fresh
  token. The record holds the username, a six-digit code, a timestamp and a
  status (pending, approved or denied). It is stored in the shared
  `auth_requests` collection, or in the web process's own
  `pending_verifications` map when there is no database or the insert fails.
  The Telegram bot approves it (only while it is pending) or denies it (always).
  The browser polls it, or enters the code. Either path consumes the record
  and issues one session.
- **The extra proxy configuration registry** (`hysteria2/extra_config.py`) and
  the request bodies the web API validates for it
  (`schema/config/extra_config.py`). The registry is a list of
  `{name, uri, enabled}` entries with unique names, URIs that must start with
  a known protocol, and stripped URIs that are unique on add.
- **The proxy's authentication decision** (`auth/user_auth.py`). It is an
  ordered chain of checks on the user document: existence, blocked,
  password, unlimited, expiry, traffic quota. It also covers how the
  `user:pass` string is parsed and which HTTP answer is given.
- **The reseller bot's configuration.** `reseller.py` loads the
  configuration with defaults and migrates the legacy `keyboard` into menus.
  `reselbot.py` covers:
  - menu lookup;
  - `{user}`/`{username}`/`{id}` substitution;
  - keyboards and their `a|action|param` callback data;
  - the inline and reply handlers;
  - the per-chat `user_states`.
- **The admin bot's launcher** (`runbot.py`): the env file it writes, the
  backup-interval rewrite, the `info` token lookup and the argument rules.
- **The Hysteria2 stats client** (`hysteria2_api.py`): base-URL
  normalisation and how `/traffic` and `/online` answers are normalised.
- **The OpenAPI post-processing** (`openapi.py`): the servers entry, the API
  key security scheme, and the security requirement appended to every
  operation under `/api/v1/`.

Pure decisions are Dafny functions over datatypes, each with a contract that
states what it decides. Code that changes state step by step is a method or a
class proved equal to those functions. These are the session and record
stores, the registry list, the reseller bot's `user_states`, and the loops of
`set_backup_interval`, `info`, `build_keyboard`, the reply-button search,
`load_config`, the stats client and the OpenAPI set-up. Lemmas then prove the
promised properties of the functions:
- the handshake's store invariant;
- one session per approved record;
- round trips of callback data and env-file lines;
- idempotence of the interval rewrite and of loading;
- the places where the code departs from what one would expect.

The values the source draws from libraries or the outside world are inputs to
the model:
- the SHA-256 digest and the `random.randint` roll;
- the `uuid4` token and the session id;
- the clock, in whole seconds for the handshake and as day numbers for account expiry;
- `strptime`, as a function from a date string to a day number;
- the outcome of each Telegram send, of the database insert and of each HTTP request;
- file contents, as text or as parsed JSON.

Four behaviours of the code that a reader might not expect, all modelled as
written:
- approve updates a record only while it is pending (core/scripts/telegrambot/tbot.py:30-33), but deny
  sets the status to denied whatever it was (core/scripts/telegrambot/tbot.py:44-47).
- `verify_2fa` never looks at the status (core/scripts/webpanel/routers/login/login.py:148-180), so a denied record
  can still be completed with its code.
- `login_post` stores a record only when at least one send succeeded
  (core/scripts/webpanel/routers/login/login.py:80-99); otherwise it shows "Failed to send 2FA code".
- the bot approves a pending record whatever its age; only the web side
  applies the 300-second limit (core/scripts/webpanel/routers/login/login.py:128 and :164).

## Model

| member | source | states |
|---|---|---|
| Handshake.AdminList | core/scripts/webpanel/routers/login/login.py:55-61 | a parse failure gives no admin ids; a list is taken as it is; a single value is wrapped in a list |
| Handshake.CodeOf | core/scripts/webpanel/routers/login/login.py:50 | for every roll in 100000..999999 the code is six decimal digits with no leading zero |
| Handshake.Lookup | core/scripts/webpanel/routers/login/login.py:118-123 | the db record when the web process has a db holding the token, else the fallback record; None exactly when neither store holds it |
| Handshake.Consume | core/scripts/webpanel/routers/login/login.py:133-136 | with a db only the db entry is removed, without one only the fallback entry |
| Handshake.Store | core/scripts/webpanel/routers/login/login.py:80-99 | a record goes into the db only when the web process has one and the insert succeeds; otherwise it lands in the fallback map |
| Handshake.Login | core/scripts/webpanel/routers/login/login.py:37-110 | wrong username or hash is InvalidCredentials with the state unchanged; with the second factor configured, no successful send is SendFailed with nothing stored, and a successful one stores a pending record under the token; without it a session is issued at once |
| Handshake.Poll | core/scripts/webpanel/routers/login/login.py:112-145 | an unknown token is invalid, and a record older than 300 s is expired before its status is looked at; approved exactly when the live record is approved, which consumes it and issues one session; denied exactly when it is denied and pending exactly when it is pending; every other answer leaves the state unchanged |
| Handshake.Verify | core/scripts/webpanel/routers/login/login.py:147-180 | an unknown token is invalid, an old record expired; a session is issued exactly when the stripped input equals the code, whatever the status, consuming the record; a live record whose code differs is answered "Invalid code.", and a mismatch keeps it |
| Handshake.Callback | core/scripts/telegrambot/tbot.py:20-51 | a non-admin is answered Unauthorized and nothing changes; without a db nothing changes; only the status of the record under the token can change; an approval always changes the state, "already processed" never does; "Database Error" is the answer exactly to an admin's well-formed approve or deny without a db |
| Handshake.Logout | core/scripts/webpanel/routers/login/login.py:185-193 | a present, non-empty cookie's session is revoked and no other; the record stores are untouched |
| HandshakeProperties.InitialInv | core/scripts/webpanel/routers/login/login.py:14-30 | a fresh process, with an empty fallback map, satisfies the store invariant |
| HandshakeProperties.LoginInv | core/scripts/webpanel/routers/login/login.py:37-110 | login keeps the invariant: records under their own token, six-digit codes, disjoint stores, fallback records pending |
| HandshakeProperties.PollInv | core/scripts/webpanel/routers/login/login.py:112-145 | polling keeps the store invariant |
| HandshakeProperties.VerifyInv | core/scripts/webpanel/routers/login/login.py:147-180 | entering a code keeps the store invariant |
| HandshakeProperties.CallbackInv | core/scripts/telegrambot/tbot.py:28-51 | approving or denying keeps the store invariant |
| HandshakeProperties.LogoutInv | core/scripts/webpanel/routers/login/login.py:185-193 | logout keeps the store invariant |
| HandshakeProperties.ConfirmDataSplits | core/scripts/telegrambot/tbot.py:26 | the confirm button's data splits on ':' into "auth_confirm" and the token |
| HandshakeProperties.DenyDataSplits | core/scripts/telegrambot/tbot.py:26 | the deny button's data splits on ':' into "auth_deny" and the token |
| HandshakeProperties.ApprovedPollConsumes | core/scripts/webpanel/routers/login/login.py:131-140 | an approved poll needs a db record, and after it both the next poll and a code entry find nothing: one poll, one session |
| HandshakeProperties.CodeConsumes | core/scripts/webpanel/routers/login/login.py:170-176 | a correct code removes the record when it was found in the store that deletion targets |
| HandshakeProperties.FallbackRecordSurvivesCodeEntry | core/scripts/webpanel/routers/login/login.py:171-174 | with a db configured, a record served from the fallback map survives a correct code entry |
| HandshakeProperties.FallbackCodeReplay | core/scripts/webpanel/routers/login/login.py:154-176 | in that situation one code mints two sessions |
| HandshakeProperties.StoredCodeAccepted | core/scripts/webpanel/routers/login/login.py:167-176 | within 300 s, entering the stored code issues a session |
| HandshakeProperties.LoginLandsInFallback | core/scripts/webpanel/routers/login/login.py:90-97 | a failed db insert puts the new record in the fallback map, where the lookup finds it |
| HandshakeProperties.StripDigits | core/scripts/webpanel/routers/login/login.py:167 | a six-digit code padded with whitespace strips back to the code |
| HandshakeProperties.PaddedCodeAccepted | core/scripts/webpanel/routers/login/login.py:167-176 | a code typed with surrounding whitespace is still accepted |
| HandshakeProperties.CodeOverridesDenial | core/scripts/webpanel/routers/login/login.py:142-176 | a denied record is reported denied to the poll, yet its code still issues a session |
| HandshakeProperties.DeniedPollReportsDenied | core/scripts/webpanel/routers/login/login.py:142-143 | a live denied record polls as denied and stays |
| HandshakeProperties.CorrectCodeIssues | core/scripts/webpanel/routers/login/login.py:167-176 | a live record and a matching stripped code give a session |
| HandshakeProperties.ConfirmApprovesPending | core/scripts/telegrambot/tbot.py:28-38 | confirm by an admin approves exactly a pending db record and answers "Login Approved"; otherwise nothing changes |
| HandshakeProperties.ConfirmIdempotent | core/scripts/telegrambot/tbot.py:30-38 | a second confirm changes nothing and answers "expired or already processed" |
| HandshakeProperties.DenyOverwrites | core/scripts/telegrambot/tbot.py:42-49 | deny sets denied over any status, approved included, and answers "Login Denied" even for an unknown token |
| HandshakeProperties.DenyAfterApproveBlocksSession | core/scripts/telegrambot/tbot.py:42-49 | a deny after an approval, before the poll, makes the poll report denied |
| HandshakeProperties.ExpiredStillApproved | core/scripts/telegrambot/tbot.py:30-33 | an expired pending record is still approved by the bot, yet polling it reports expiry |
| HandshakeProperties.ApprovedLoginScenario | core/scripts/webpanel/routers/login/login.py:37-145 | login, approval and one poll issue exactly one session; a later poll is invalid |
| HandshakeService.LoginService.constructor | core/scripts/webpanel/routers/login/login.py:14-30 | starts with the given db, an empty fallback map and no sessions |
| HandshakeService.LoginService.SendToAdmins | core/scripts/webpanel/routers/login/login.py:67-78 | the `sent` flag is true exactly when some admin's send succeeded |
| HandshakeService.LoginService.LoginPost | core/scripts/webpanel/routers/login/login.py:37-110 | changes the stores and sessions exactly as Handshake.Login |
| HandshakeService.LoginService.Find | core/scripts/webpanel/routers/login/login.py:118-123 | returns Handshake.Lookup of the current state |
| HandshakeService.LoginService.Delete | core/scripts/webpanel/routers/login/login.py:133-136 | removes the record exactly as Handshake.Consume |
| HandshakeService.LoginService.CheckTwoFactorStatus | core/scripts/webpanel/routers/login/login.py:112-145 | changes state and answers exactly as Handshake.Poll |
| HandshakeService.LoginService.VerifyTwoFactor | core/scripts/webpanel/routers/login/login.py:147-180 | changes state and answers exactly as Handshake.Verify |
| HandshakeService.LoginService.Logout | core/scripts/webpanel/routers/login/login.py:185-193 | revokes the session exactly as Handshake.Logout |
| HandshakeService.LoginService.HandleAuthCallback | core/scripts/telegrambot/tbot.py:20-51 | updates the db and answers exactly as Handshake.Callback |
| ExtraConfig.ReadConfigs | core/scripts/hysteria2/extra_config.py:9-19 | a missing, empty or unparseable file reads as the empty list |
| ExtraConfig.ValidProtocolCases | core/scripts/hysteria2/extra_config.py:7 | a URI is valid exactly when it starts with one of vmess://, vless://, ss://, trojan:// |
| ExtraConfig.ValidUriNonEmpty | core/scripts/hysteria2/extra_config.py:7 | a valid URI has at least five characters, so it is never empty |
| ExtraConfig.Add | core/scripts/hysteria2/extra_config.py:30-51 | an invalid protocol, then a taken name, then a taken stripped URI, are rejected in that order; success, exactly when all three checks pass, appends exactly `{name, uri, enabled: true}` |
| ExtraConfig.AddKeepsUnique | core/scripts/hysteria2/extra_config.py:36-49 | the duplicate checks make a successful add keep names and stripped URIs unique |
| ExtraConfig.FirstIndex | core/scripts/hysteria2/extra_config.py:57 | the index of the first entry with the name, None exactly when there is none |
| ExtraConfig.Get | core/scripts/hysteria2/extra_config.py:102-110 | the first entry of the list with that name, None exactly when there is none |
| ExtraConfig.NewEnabled | core/scripts/hysteria2/extra_config.py:76-80 | no argument keeps the flag; a string gives `lower() == "true"`; any other value gives its truthiness |
| ExtraConfig.Edit | core/scripts/hysteria2/extra_config.py:55-82 | NotFound exactly when the name is missing, then an invalid given URI, then a rename onto another existing name; every other case succeeds (no URI duplicate check), changes only the first match and keeps length and order |
| ExtraConfig.WithoutName | core/scripts/hysteria2/extra_config.py:89 | keeps exactly the entries with another name, no longer than the input, the same length exactly when the name is absent |
| ExtraConfig.Delete | core/scripts/hysteria2/extra_config.py:85-96 | fails with NotFound exactly when no entry has the name; success removes every entry with it |
| ExtraConfig.EditKeepsUniqueNames | core/scripts/hysteria2/extra_config.py:67-71 | a successful edit keeps names unique |
| ExtraConfig.EditSecondUri | core/scripts/hysteria2/extra_config.py:73-74 | editing the second entry's URI changes just that entry |
| ExtraConfig.EditCanDuplicateUri | core/scripts/hysteria2/extra_config.py:63-74 | edit does not re-check URI uniqueness, so it can make two entries share a URI |
| ExtraConfig.SharedUri | core/scripts/hysteria2/extra_config.py:41-42 | two entries are URI-unique exactly when their stripped URIs differ |
| ExtraConfig.WithoutNameAppend | core/scripts/hysteria2/extra_config.py:89 | the filter distributes over concatenation, so order is kept |
| ExtraConfig.WithoutAbsentName | core/scripts/hysteria2/extra_config.py:89-91 | filtering out an absent name returns the list unchanged |
| ExtraConfig.WithoutNameKeepsUnique | core/scripts/hysteria2/extra_config.py:89 | filtering keeps names unique |
| ExtraConfig.DeleteKeepsUniqueNames | core/scripts/hysteria2/extra_config.py:85-96 | the stored list after a delete, failed or not, keeps names unique |
| ExtraConfig.AddThenDelete | core/scripts/hysteria2/extra_config.py:30-96 | deleting the name just added restores the list |
| ExtraConfig.AddThenGet | core/scripts/hysteria2/extra_config.py:30-110 | `get` of the name just added returns the new, enabled entry |
| ExtraConfigStore.Store.constructor | core/scripts/hysteria2/extra_config.py:9-19 | the list is what `read_configs` reads from the file |
| ExtraConfigStore.Store.AddConfig | core/scripts/hysteria2/extra_config.py:30-51 | the list becomes ExtraConfig.Add's result, or stays when it fails, and the error is reported |
| ExtraConfigStore.Store.EditConfig | core/scripts/hysteria2/extra_config.py:55-83 | field-by-field assignment to the found entry gives exactly ExtraConfig.Edit's list, or none on error |
| ExtraConfigStore.Store.DeleteConfig | core/scripts/hysteria2/extra_config.py:85-96 | the list becomes ExtraConfig.Delete's result, or stays when it fails |
| ExtraConfigSchema.ProtocolListsAgree | core/scripts/webpanel/routers/api/v1/schema/config/extra_config.py:4 | the schema's protocol list accepts the same URIs as the registry's |
| ExtraConfigSchema.ValidateUriProtocol | core/scripts/webpanel/routers/api/v1/schema/config/extra_config.py:10-14 | accepts exactly the URIs with a known protocol, returning them unchanged |
| ExtraConfigSchema.ValidateEditUri | core/scripts/webpanel/routers/api/v1/schema/config/extra_config.py:25-29 | accepts exactly the empty URI or one with a known protocol, unchanged |
| ExtraConfigSchema.RequiredStr | core/scripts/webpanel/routers/api/v1/schema/config/extra_config.py:7-8 | a required field must be a string |
| ExtraConfigSchema.OptionalStr | core/scripts/webpanel/routers/api/v1/schema/config/extra_config.py:21-22 | a field left out is None; an explicit null is rejected; a string is taken |
| ExtraConfigSchema.ParseConfigBody | core/scripts/webpanel/routers/api/v1/schema/config/extra_config.py:6-17 | accepts exactly a non-empty string name with a string URI of known protocol |
| ExtraConfigSchema.ParseEditBody | core/scripts/webpanel/routers/api/v1/schema/config/extra_config.py:19-29 | a given new name must be non-empty and a given URI empty or of known protocol; defaults are not validated |
| ExtraConfigSchema.AcceptedBodyPassesAdd | core/scripts/webpanel/routers/api/v1/schema/config/extra_config.py:10-17 | a body the API accepts never fails the registry's own protocol check on add |
| ExtraConfigSchema.AcceptedEditPassesUriCheck | core/scripts/webpanel/routers/api/v1/schema/config/extra_config.py:25-29 | an edit body the API accepts never fails the registry's URI check on edit |
| UserAuth.CheckUser | core/scripts/auth/user_auth.py:25-66 | not found, then blocked, then wrong password reject in that order; unlimited accepts before expiry and quota; expired exactly when the date parses and now is at or after creation plus the days; over quota exactly when a positive limit is reached; anything else is "OK" |
| UserAuth.AuthHandler | core/scripts/auth/user_auth.py:68-90 | a body that is not a JSON object is 500; a falsy `auth` is 400 "Missing auth"; a string with no ':' is 400 "Invalid auth format"; otherwise the name before the first ':' and the password after it decide 200 with the id or 401 with CheckUser's message |
| UserAuth.AuthRoundTrip | core/scripts/auth/user_auth.py:77-86 | the body `user:pass` posts reaches check_user with that user and password, even when the password contains ':' |
| UserAuth.AcceptedEarlier | core/scripts/auth/user_auth.py:46-56 | a user accepted now was accepted at any earlier time |
| UserAuth.MoreTrafficNeverHelps | core/scripts/auth/user_auth.py:59-64 | more upload or download never turns a rejection into an acceptance |
| UserAuth.NoLimitsAccepted | core/scripts/auth/user_auth.py:35-66 | with no expiry and no quota an unblocked user with the right password is accepted |
| Reseller.DefaultConfig | core/scripts/webpanel/routers/reseller/reseller.py:32-61 | the default configuration has menus and prices |
| Reseller.Iterate | core/scripts/webpanel/routers/reseller/reseller.py:73-77 | a list iterates as its items; an empty dict or string as nothing; anything else raises |
| Reseller.MigrateButton | core/scripts/webpanel/routers/reseller/reseller.py:78-81 | a button migrates exactly when it is a dict with `action` and, for a support button, "messages" is a dict; otherwise it raises |
| Reseller.MigratedButton | core/scripts/webpanel/routers/reseller/reseller.py:78-81 | a support button becomes a text button whose param is `messages.support_text`, default "Contact @admin", its other keys kept; other buttons are unchanged |
| Reseller.MigrateButtons | core/scripts/webpanel/routers/reseller/reseller.py:77-81 | one migrated button per legacy button |
| Reseller.MigrateButtonsAll | core/scripts/webpanel/routers/reseller/reseller.py:77-81 | a row migrates exactly when all its buttons do, each to its own migration, in order |
| Reseller.MigrateRows | core/scripts/webpanel/routers/reseller/reseller.py:75-82 | one new row per legacy row |
| Reseller.MigrateRowsAll | core/scripts/webpanel/routers/reseller/reseller.py:75-82 | the rows migrate exactly when every row does, each to its own migration, in order |
| Reseller.RewriteRows | core/scripts/webpanel/routers/reseller/reseller.py:77-81 | a legacy row whose "buttons" is a list holds the rewritten buttons in that list, since the buttons are changed in place; any other row is left as it was |
| Reseller.Migrate | core/scripts/webpanel/routers/reseller/reseller.py:72-89 | adds `menus` and keeps every other key; a stored `keyboard` list is left with its rows rewritten in place, and a `keyboard` of any other kind is kept |
| Reseller.WithPrices | core/scripts/webpanel/routers/reseller/reseller.py:91-92 | missing prices become the defaults, present ones are kept |
| Reseller.Load | core/scripts/webpanel/routers/reseller/reseller.py:31-96 | always has menus and prices; a missing, unreadable or non-dict file gives the defaults; existing menus are kept untouched |
| Reseller.LoadIdempotent | core/scripts/webpanel/routers/reseller/reseller.py:63-94 | loading a loaded configuration again changes nothing |
| Reseller.LegacyMigration | core/scripts/webpanel/routers/reseller/reseller.py:72-94 | a legacy file becomes a main menu with the welcome text (default "Welcome! Choose an option:") and the migrated rows; the stored `keyboard` stays, rewritten in place |
| Reseller.LegacyKeyboardShared | core/scripts/webpanel/routers/reseller/reseller.py:72-89 | after a legacy load, row i of the stored keyboard shares its buttons with row i of the new main menu: a row whose "buttons" is a list holds exactly that row's migrated buttons, any other row is unchanged |
| Reseller.LegacyFailure | core/scripts/webpanel/routers/reseller/reseller.py:73-96 | a migration step that raises yields the default configuration |
| Reseller.MigrateButtonInPlace | core/scripts/webpanel/routers/reseller/reseller.py:78-81 | the in-place rewrite of one button equals Reseller.MigrateButton |
| Reseller.MigrateRowInPlace | core/scripts/webpanel/routers/reseller/reseller.py:76-81 | the inner loop builds exactly Reseller.MigrateRow |
| Reseller.MigrateInPlace | core/scripts/webpanel/routers/reseller/reseller.py:72-89 | the row loop and the new main menu compute exactly Reseller.Migrate |
| Reseller.LoadConfig | core/scripts/webpanel/routers/reseller/reseller.py:31-96 | the whole load computes exactly Reseller.Load |
| Reselbot.Render | core/scripts/telegrambot/reselbot.py:40 | how a missing, null or string field prints in an f-string |
| Reselbot.GetMenu | core/scripts/telegrambot/reselbot.py:68-74 | with `menus`, the entry for the id; without it, "main" is a reply menu built from `keyboard` and any other id is None |
| Reselbot.ProcessText | core/scripts/telegrambot/reselbot.py:76-82 | no text in, no text out |
| Reselbot.ReplaceBraceFree | core/scripts/telegrambot/reselbot.py:78-80 | a placeholder is never found in text without '{' |
| Reselbot.ProcessUser | core/scripts/telegrambot/reselbot.py:78 | `{user}` in any brace-free context becomes the first name, or "User" without one |
| Reselbot.ProcessUsername | core/scripts/telegrambot/reselbot.py:78-79 | `{username}` in any brace-free context becomes "@" and the username, or nothing without one; the earlier `{user}` pass leaves it alone |
| Reselbot.ProcessId | core/scripts/telegrambot/reselbot.py:78-80 | `{id}` in any brace-free context becomes the decimal user id; the earlier passes leave it alone |
| Text.ReplaceSkip | core/scripts/telegrambot/reselbot.py:78 | `replace` copies a prefix that does not contain the pattern's first character |
| Text.ReplaceAt | core/scripts/telegrambot/reselbot.py:78 | `replace` substitutes an occurrence at the start and goes on after it |
| Text.ReplaceMiss | core/scripts/telegrambot/reselbot.py:79 | `replace` copies a piece that starts like the pattern but does not match |
| Reselbot.Decode | core/scripts/telegrambot/reselbot.py:111-115 | data with fewer than three '\|'-separated parts is ignored, and only then; the action and param it yields contain no '\|' |
| Reselbot.InlineButtonOf | core/scripts/telegrambot/reselbot.py:31-43 | a url button links only when its param starts with "http", else calls back "error:url"; any other button calls back `a\|action\|param` |
| Reselbot.InlineRowAll | core/scripts/telegrambot/reselbot.py:29-43 | a row is built exactly when every button is; one inline button per button of the row, in order |
| Reselbot.InlineRowsAll | core/scripts/telegrambot/reselbot.py:26-47 | the keyboard is built exactly when every row is; it has no empty row |
| Reselbot.InlineRowsOne | core/scripts/telegrambot/reselbot.py:29-46 | one menu row gives its buttons as one keyboard row, or no row when it has none |
| Reselbot.AddRowAfter | core/scripts/telegrambot/reselbot.py:45-46 | adding a row after two joined blocks is adding it to the second block |
| Reselbot.InlineRowsAppend | core/scripts/telegrambot/reselbot.py:26-47 | the keyboard rows of two blocks of menu rows are those of the first, then those of the second, so the order is kept |
| Reselbot.Texts | core/scripts/telegrambot/reselbot.py:51 | a reply row is the texts of its buttons |
| Reselbot.ReplyRows | core/scripts/telegrambot/reselbot.py:49-54 | every non-empty row appears and no empty one |
| Reselbot.ReplyRowsOne | core/scripts/telegrambot/reselbot.py:51-53 | one menu row gives its texts as one keyboard row, or no row when it has no button |
| Reselbot.ReplyRowsAppend | core/scripts/telegrambot/reselbot.py:49-54 | the reply rows of two blocks of menu rows are those of the first, then those of the second, so the order is kept |
| Reselbot.KeyboardOf | core/scripts/telegrambot/reselbot.py:20-54 | no menu or no buttons gives the "Wait for config..." placeholder; an inline menu gives inline rows, any other a reply keyboard |
| Reselbot.FirstMatch | core/scripts/telegrambot/reselbot.py:216-220 | the first button of the row whose text matches |
| Reselbot.Pressed | core/scripts/telegrambot/reselbot.py:215-221 | the search stops at the first row whose first matching button has a truthy action; None exactly when no row does |
| Reselbot.CurrentMenu | core/scripts/telegrambot/reselbot.py:210-211 | the chat's stored menu when it exists, else the main menu; a chat with no state starts at "main" |
| Reselbot.ReplyLookup | core/scripts/telegrambot/reselbot.py:210-232 | a found button always has a truthy action; a match in the current menu wins, otherwise the main menu is searched |
| Reselbot.ReplyNoMatch | core/scripts/telegrambot/reselbot.py:210-234 | a text that neither menu answers gets no reply and changes no state |
| Reselbot.ReplyTextGreets | core/scripts/telegrambot/reselbot.py:236-238 | a reply text button whose param holds `{user}` in brace-free text answers with the first name in its place |
| Reselbot.TextOf | core/scripts/telegrambot/reselbot.py:93 | a menu's text, the default when it is missing, None when it is null |
| Reselbot.SendMenuSpec | core/scripts/telegrambot/reselbot.py:84-103 | a missing menu answers "Menu not found." and leaves the states alone; an existing one sets the chat's state to its id and is sent with its keyboard and its text ("Menu" when it has none) with the placeholders filled in; no other chat changes |
| Reselbot.InlineSpec | core/scripts/telegrambot/reselbot.py:109-202 | data not starting with "a\|" or with fewer than three parts is ignored; only submenu and profile move the chat; a submenu shows the target as `send_menu` would, or "Menu not found"; text sends the processed param; payment the "💳 Invoice: param - $price" line; profile the profile menu (an inline one with no default text) or the "👤 Profile:" line with the first name and chat id; my_key the no-subscription notice; any other action nothing; no other chat changes |
| Reselbot.ReplySpec | core/scripts/telegrambot/reselbot.py:204-255 | no matching button means no reply and no change; for the button found, text sends its processed param; submenu does what `send_menu` does for its param; payment sends "Invoice: param ($price)" with "0" for an unknown plan; profile shows the profile menu or "Profile: " and the chat id; my_key the no-subscription notice; any other action nothing; no other chat changes |
| Reselbot.DecodeAction | core/scripts/telegrambot/reselbot.py:111-115 | encoded data decodes to its action and to the param up to its first '\|' |
| Reselbot.DecodeEncode | core/scripts/telegrambot/reselbot.py:109-115 | callback data round-trips when neither the action nor the param contains '\|' |
| Reselbot.DecodeTruncatesParam | core/scripts/telegrambot/reselbot.py:111-115 | a param containing '\|' comes back cut at its first '\|' |
| Reselbot.ButtonCallbackRoundTrip | core/scripts/telegrambot/reselbot.py:34-43 | a non-url inline button sends back its own action and param |
| Reselbot.BraceFree | core/scripts/telegrambot/reselbot.py:78-80 | a placeholder cannot occur in a text without '{' |
| Reselbot.PlainTextUnchanged | core/scripts/telegrambot/reselbot.py:76-82 | a text without '{' is sent as written |
| Reselbot.GreetingByName | core/scripts/telegrambot/reselbot.py:78 | "{user}" becomes the first name, or "User" |
| Reselbot.NameIsRewritten | core/scripts/telegrambot/reselbot.py:78-80 | substitutions run in sequence, so a first name "{id}" is replaced by the id |
| Reselbot.SubmenuMovesChat | core/scripts/telegrambot/reselbot.py:119-126 | a submenu callback to an existing menu sets the chat's state to it and shows it |
| Reselbot.BuildInlineRow | core/scripts/telegrambot/reselbot.py:29-43 | the inner loop builds exactly Reselbot.InlineRow |
| Reselbot.BuildInlineRows | core/scripts/telegrambot/reselbot.py:27-47 | the row loop of an inline menu builds exactly Reselbot.InlineRows |
| Reselbot.BuildReplyRows | core/scripts/telegrambot/reselbot.py:49-54 | the row loop of a reply menu builds exactly Reselbot.ReplyRows |
| Reselbot.BuildKeyboard | core/scripts/telegrambot/reselbot.py:20-54 | builds exactly Reselbot.KeyboardOf |
| Reselbot.FindButton | core/scripts/telegrambot/reselbot.py:215-221 | the loops with break flags find exactly Reselbot.Pressed |
| ReselbotService.ResellerBot.constructor | core/scripts/telegrambot/reselbot.py:66 | `user_states` starts empty |
| ReselbotService.ResellerBot.SendMenu | core/scripts/telegrambot/reselbot.py:84-103 | updates `user_states` and sends exactly as Reselbot.SendMenuSpec |
| ReselbotService.ResellerBot.HandleInlineAction | core/scripts/telegrambot/reselbot.py:109-202 | updates `user_states` and sends exactly as Reselbot.InlineSpec |
| ReselbotService.ResellerBot.HandleReplyText | core/scripts/telegrambot/reselbot.py:204-255 | updates `user_states` and sends exactly as Reselbot.ReplySpec |
| Runbot.ReadLines | core/scripts/telegrambot/runbot.py:61-62 | `readlines` gives no empty line |
| Runbot.ReadLinesConcat | core/scripts/telegrambot/runbot.py:61-73 | the lines joined again are the file's text |
| Runbot.ReadLinesWellFormed | core/scripts/telegrambot/runbot.py:61-62 | a text ending in a newline reads as lines that each end in their only newline |
| Runbot.ConcatReadLines | core/scripts/telegrambot/runbot.py:61-73 | well-formed lines, written and read again, are the same lines |
| Runbot.Rewritten | core/scripts/telegrambot/runbot.py:66-71 | every line is rewritten in place, same count and order |
| Runbot.Found | core/scripts/telegrambot/runbot.py:65-69 | the flag is set exactly when some line strips to a start of BACKUP_INTERVAL_HOUR |
| Runbot.WrittenLines | core/scripts/telegrambot/runbot.py:64-73 | interval lines are replaced and others kept in order; exactly one interval line is appended when there was none |
| Runbot.SetInterval | core/scripts/telegrambot/runbot.py:56-73 | a missing env file is an error and nothing is written; otherwise the file becomes the rewritten lines |
| Runbot.SetBackupInterval | core/scripts/telegrambot/runbot.py:56-73 | the loop with its `found` flag writes exactly Runbot.SetInterval |
| Runbot.TokenOf | core/scripts/telegrambot/runbot.py:98-103 | None exactly when no line starts with "API_TOKEN=" |
| Runbot.TokenOfIsFirst | core/scripts/telegrambot/runbot.py:100-103 | the token is the text after the prefix of the first token line |
| Runbot.Info | core/scripts/telegrambot/runbot.py:93-107 | a missing file is "Bot not configured"; "Token not found" exactly when there is no token line or its value strips to nothing; otherwise the token reported is the stripped value of the first `API_TOKEN=` line, non-empty and without surrounding whitespace |
| Runbot.TokenLineSplit | core/scripts/telegrambot/runbot.py:102 | a token line splits at the '=' of its prefix |
| Runbot.ReadInfo | core/scripts/telegrambot/runbot.py:93-107 | the loop that breaks at the first token line computes exactly Runbot.Info |
| Runbot.Dispatch | core/scripts/telegrambot/runbot.py:87-151 | fewer than two arguments is usage; start needs 4 to 5 entries and takes the token from argv[2], the admin ids from argv[3] and the interval from argv[4], defaulting to 12; set_backup_interval needs exactly 3 and takes the interval from argv[2] |
| Runbot.IntervalLineIsInterval | core/scripts/telegrambot/runbot.py:68 | the written interval line is itself an interval line and not a token line |
| Runbot.IntervalLineStrip | core/scripts/telegrambot/runbot.py:67 | Runbot.IsIntervalLine agrees with stripping the line and testing for the BACKUP_INTERVAL_HOUR prefix |
| Runbot.OtherKeyNotInterval | core/scripts/telegrambot/runbot.py:67 | a line whose key starts with another letter is not an interval line |
| Runbot.TokenLineNotInterval | core/scripts/telegrambot/runbot.py:67 | a token line is never rewritten |
| Runbot.WellFormedIntervalLine | core/scripts/telegrambot/runbot.py:68 | the interval line ends in its only newline |
| Runbot.TokenOfAgree | core/scripts/telegrambot/runbot.py:98-103 | line lists with the same token lines at the same places and no extra ones give the same token |
| Runbot.WrittenWellFormed | core/scripts/telegrambot/runbot.py:64-73 | the rewrite writes well-formed lines from well-formed lines |
| Runbot.WrittenKeepsToken | core/scripts/telegrambot/runbot.py:64-73 | the rewrite leaves the token `info` finds alone |
| Runbot.IntervalKeepsToken | core/scripts/telegrambot/runbot.py:56-107 | `info` gives the same answer before and after `set_backup_interval` on a newline-terminated file |
| Runbot.WrittenHasInterval | core/scripts/telegrambot/runbot.py:64-73 | after the rewrite there is always an interval line |
| Runbot.WrittenLineFixed | core/scripts/telegrambot/runbot.py:66-71 | a second rewrite leaves every written line as it is |
| Runbot.WrittenIdempotent | core/scripts/telegrambot/runbot.py:64-73 | rewriting rewritten lines changes nothing |
| Runbot.SetIntervalIdempotent | core/scripts/telegrambot/runbot.py:56-73 | on a newline-terminated file, setting the same interval twice is setting it once |
| Runbot.GluedAppend | core/scripts/telegrambot/runbot.py:72-73 | a last line without a newline gets the appended interval line glued to its end |
| Runbot.EnvFileLines | core/scripts/telegrambot/runbot.py:13-17 | the file `start` writes reads back as exactly its three lines |
| Runbot.TokenLineParts | core/scripts/telegrambot/runbot.py:14 | the first line starts with "API_TOKEN=" followed by the token |
| Runbot.StartThenInfo | core/scripts/telegrambot/runbot.py:93-107 | after `start`, `info` finds the stripped token, or none if it is blank |
| Runbot.AdminLineNotInterval | core/scripts/telegrambot/runbot.py:15 | the admin line is not an interval line |
| Runbot.WrittenThree | core/scripts/telegrambot/runbot.py:64-73 | of three lines with only the last an interval line, only the last is replaced |
| Runbot.RewriteThird | core/scripts/telegrambot/runbot.py:64-73 | that rewrite writes the first two lines and the new interval line |
| Runbot.StartThenSetInterval | core/scripts/telegrambot/runbot.py:56-73 | on the file `start` writes, setting the interval gives the file `start` would write with the new interval |
| Hysteria2Api.BaseUrl | core/scripts/hysteria2_api.py:7 | no trailing '/', and the url with only slashes removed from its end |
| Hysteria2Api.TrailingSlashes | core/scripts/hysteria2_api.py:7 | any number of trailing slashes gives the same base URL |
| Hysteria2Api.TrafficParams | core/scripts/hysteria2_api.py:13 | `clear` adds `{clear: "1"}`, otherwise no query |
| Hysteria2Api.TrafficOf | core/scripts/hysteria2_api.py:19-23 | an entry must be a dict; upload is `tx` and download is `rx`, each defaulting to 0 |
| Hysteria2Api.TrafficResult | core/scripts/hysteria2_api.py:11-27 | None exactly on a raised request, a non-JSON or non-dict body, or a non-dict entry; a non-200 status is `{}`; the users are the response's keys |
| Hysteria2Api.PresenceOf | core/scripts/hysteria2_api.py:36-52 | a list is online when non-empty, a count when positive; any other value is online when truthy with no connections; online implies truthy |
| Hysteria2Api.OnlineResult | core/scripts/hysteria2_api.py:29-56 | None exactly on a raised request or a non-dict body; a non-200 status is `{}`; each user's presence is Hysteria2Api.PresenceOf of its entry |
| Hysteria2Api.Hysteria2Client.constructor | core/scripts/hysteria2_api.py:6-9 | keeps the normalised base URL and sends the secret as the Authorization header |
| Hysteria2Api.Hysteria2Client.GetTrafficStats | core/scripts/hysteria2_api.py:11-27 | requests `/traffic` with the query, and its loop returns exactly Hysteria2Api.TrafficResult |
| Hysteria2Api.Hysteria2Client.GetOnlineClients | core/scripts/hysteria2_api.py:29-56 | requests `/online`, and its loop returns exactly Hysteria2Api.OnlineResult |
| OpenApi.Secure | core/scripts/webpanel/openapi/openapi.py:28-30 | an operation that is not a dict, or whose security is not a list, fails; otherwise one `{ApiKeyAuth: []}` is appended after the existing entries and other fields are kept |
| OpenApi.SecureAll | core/scripts/webpanel/openapi/openapi.py:27-30 | succeeds exactly when every operation does; the possible errors are those of the failing operations |
| OpenApi.SecurePath | core/scripts/webpanel/openapi/openapi.py:25-30 | a path outside `/api/v1/` is unchanged; a path item that is not a dict fails |
| OpenApi.SecurePaths | core/scripts/webpanel/openapi/openapi.py:25-30 | every path is secured, or one of the failures is raised |
| OpenApi.Setup | core/scripts/webpanel/openapi/openapi.py:6-30 | missing or non-dict components or paths fail with that error, a failing path with its errors; it succeeds exactly when both are objects and every path can be secured, and success adds the servers entry, sets the security scheme, secures the paths and keeps every other key |
| OpenApi.OtherPathsUnchanged | core/scripts/webpanel/openapi/openapi.py:26 | paths outside `/api/v1/` come out unchanged |
| OpenApi.ApiOperationsSecured | core/scripts/webpanel/openapi/openapi.py:26-30 | every operation under `/api/v1/` ends with the API key requirement |
| OpenApi.NewSecurityIsSingle | core/scripts/webpanel/openapi/openapi.py:28-30 | an operation without security ends with exactly one entry |
| OpenApi.SecureTwice | core/scripts/webpanel/openapi/openapi.py:28-30 | securing twice appends the requirement twice: the set-up is not idempotent |
| OpenApi.SecureOperations | core/scripts/webpanel/openapi/openapi.py:27-30 | the inner loop succeeds exactly as OpenApi.SecureAll, with its value and one of its errors |
| OpenApi.SecurePathsLoop | core/scripts/webpanel/openapi/openapi.py:25-30 | the outer loop succeeds exactly as OpenApi.SecurePaths, with its value and one of its errors |
| OpenApi.SetupOpenapiSchema | core/scripts/webpanel/openapi/openapi.py:6-30 | computes exactly OpenApi.Setup, with one of its errors |

## Left out

- File, database, process and network I/O are not modelled. This covers `write_configs`, reading and writing the env and JSON files, MongoDB, systemd and `subprocess`, the Telegram sends, edits and deletes, and the HTTP calls. Their contents and outcomes are inputs, and their effects are values the model returns.
- The threads and cross-process races are not modelled: the monitoring threads of `tbot.py`, and the web and bot processes sharing the database. Each database call is one atomic step.
- The retry and restart loops of `reselbot.py` (`main` waiting for a token, and restarting after a crash) are not modelled, because they only re-run the handlers.
- `runbot.py`'s `info` request to Telegram's `getMe` is left out because it is network I/O. The model stops at the token it would use.
- `start_service` checking whether the unit is already running is left out because it is systemd state. So are `stop_service` and `create_service_file`, which are only files and systemd calls.
- `print_usage`, `list_configs` and the root check in `extra_config.py`'s `main` are left out because they are printing and process exits.
- `reseller.py`'s `save_config` and the `BotConfig` body, and its start, stop, restart and status endpoints, are left out because they are file and systemd plumbing.
- Images in `send_menu` and the inline handlers, and the choice between editing and re-sending a message, are left out. The model records which menu is shown with what text and keyboard, not how Telegram is asked to show it.
- `session.py` is not part of this model. Sessions are a map from session id to username.
- Time is whole seconds for the handshake. The source compares the float `total_seconds()` with 300, so fractions of a second are not modelled.
- Account expiry uses day numbers. `strptime` is a parameter that yields a day number or fails, and `timedelta` overflow on huge day counts is not modelled.
- Reselbot.GetMenu and the rest of `reselbot.py` use typed menus. They assume stored menus are dicts and legacy keyboard rows are lists of buttons; the source would raise on other shapes. A stored empty menu `{}` is modelled as missing, like `null`: it is falsy, and every caller tests the menu for truth (reselbot.py:87, :121, :174, :211, :225 and :249).
- Handshake.Login does not model the `except` branch of `login_post` that answers "2FA Error" (login.py:102-104). That branch catches exceptions the bot library raises while building or sending, such as a malformed token, which are outside the model.
- ExtraConfig.ReadConfigs yields typed entries. A file that parses to something other than a list, an entry without "name", or a "uri" that is not a string would make the source raise (extra_config.py:37 and :41). These cases are not modelled.
- UserAuth.CheckUser reads a typed user document, so fields of the wrong JSON type are not modelled.
- ExtraConfig.NewEnabled uses ASCII lower-casing instead of Python's full Unicode `str.lower`. The two agree on whether the result equals "true".
- Newline translation of text-mode files is not modelled: lines end in '\n' only.
- OpenApi.Setup works on a copy and returns the new schema. The in-place mutation, and the partly secured schema left behind when it raises part-way, are not modelled.
- OpenApi.SetupOpenapiSchema: which error is raised out of several depends on dict order. The model states only that the error is one of the possible ones.
- Hysteria2Api.PresenceOf treats a JSON bool as an int, as Python's `isinstance(x, int)` does.
