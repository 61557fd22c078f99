# kudos-go in Dafny

kudos-go is a chat bot for giving a colleague "kudos" from Slack or Google
Chat with `/kudos @user description`. The bot records each kudos in a
relational database and replies with the user's running total. This project
models the core of kudos-go and proves properties of that model:

- **The two command parsers.** The Google Chat parser accepts `<users/ID>` or
  `@name`. The Slack parser requires a literal `/kudos` first and accepts
  `<@ID>` or `@name`. The model includes the decisions each platform's handler
  makes before it calls the service.
- **The Google Chat helpers.** These are the `/kudos` message predicate, the
  required-configuration check and the per-client sliding-window rate limiter.
- **The request guards.**
  - The one-shot, expiring OAuth `state` store. This is the anti-CSRF value
    of section 10.12 of RFC 6749.
  - The Google Chat webhook bearer-token check, in the header form of
    section 2.1 of RFC 6750.
  - The Slack signature check. HMAC-SHA256 (RFC 2104) and hex encoding are an
    uninterpreted parameter.
  - Both middlewares.
- **The kudos store.** This covers:
  - five tables with serial keys and their unique columns;
  - the inserts and the lookup-or-create of a user;
  - the transactional grant;
  - the join that counts kudos.
- **The service.** It records one kudos, then reads back a total.

The files:

| file | module | models |
|---|---|---|
| `wrappers.dfy` | `Wrappers` | `Option` and `Result` |
| `go_strings.dfy` | `GoStrings` | `strings.Fields`, `Join`, `TrimSpace`, `TrimPrefix`, `HasPrefix` and `unicode.IsSpace` |
| `go_time.dfy` | `GoTime` | durations as integer nanoseconds |
| `middleware.dfy` | `Middleware` | the two outcomes of a gin middleware: next, or abort with a status |
| `data_kudos.dfy` | `KudosData` | `data/kudos.go`: records, tables, invariants, and the `Database` class |
| `services_kudos.dfy` | `KudosService` | `services/kudos.go` |
| `googlechat_slashcommand.dfy` | `GoogleChatCommand` | `googlechat/slashcommand.go` |
| `slack_slashcommand.dfy` | `SlackCommand` | `slack/slashcommand.go` |
| `googlechat_main.dfy` | `GoogleChatMain` | `googlechat/main.go` |
| `googlechat_auth.dfy` | `GoogleChatAuth` | `googlechat/auth.go` |
| `slack_auth.dfy` | `SlackAuth` | `slack/auth.go` |

## Modelling decisions

- **Strings** are sequences of code points, so `Fields` splits where Go's
  does. `IsSpace` is Go's `unicode.IsSpace`.
- **Database faults.** A database statement can fail for reasons outside the
  program, such as a lost connection. Each store operation therefore takes
  `faults`: the set of statement kinds that fail during the call. A fault
  gives the error `Unavailable(statement)`. Unique-column clashes are modelled
  as the database enforces them and give `UniqueViolation(column)`.
- **Primary keys** are serial. The row at index `i` has key `i + 1`.
- **How gorm's `First` reports "no row"** is the constant
  `Database.missIsError`.
  - When it is true, as gorm documents, no row is the error
    `ErrRecordNotFound`. `createUserIfNotExists` then returns that error at
    data/kudos.go:127 before it reaches the `RowsAffected == 0` branch. Its
    create path is unreachable, and `Resolve` proves this:
    `missIsError ==> r.tables == t`.
  - When it is false, no row is zero rows with no error. The create path
    runs.
- **`CreateKudos`**
  - It ignores the result of `Transaction`. It therefore never reports an
    error; `Database.CreateKudos` ensures `err == None`.
  - A grant that was not committed still returns a kudos value. It is the
    zero value when BEGIN fails or the sender cannot be resolved, the unsaved
    row with key 0 when the insert fails, and the saved row with its key when
    only COMMIT fails.
  - `HandleKudos` then answers with the unchanged total.
- **What the count counts.** `GetKudusCountForUser` joins on
  `kudos.from_user_id`, so it counts kudos a user has **given**.
  `KudosData.KudusCountIsSent` states this outright, and
  `KudosData.TotalAfterGrant` proves the consequence: after a committed grant
  from `from` to `to`, the total reported for `to` grows by one only when
  `from == to`.
- **Unique columns.** `users.username` and `installation_users.external_id`
  are unique across all installations. An external ID bound in one
  installation therefore cannot be resolved in another
  (`KudosData.BoundElsewhere`).
- **Environment and foreign calls become parameters:**
  - the clock (`now`);
  - the installation lookup `GetInstallationByTeamID` (`installed`);
  - Slack's `GetUserInfo` (`userInfo`) and `PostMessage` (`post`);
  - the request body (`body`);
  - the HMAC (`mac`);
  - the configuration values;
  - the order in which Go visits a map (`order`).
- **Code over the test.** The test at googlechat/slashcommand_test.go:86
  expects "command format" in every parse error. The mention error of
  googlechat/slashcommand.go:97 does not contain it. The model follows the
  code: `GoogleChatCommand.ParseError.Message`.
- **Empty `@` mention.** The Slack handler accepts an empty username from a
  bare `@`. The Google Chat handler rejects it at
  googlechat/slashcommand.go:154-156. Both are modelled as written.

## Model

| member | source | states |
|---|---|---|
| GoStrings.HasPrefix | googlechat/slashcommand.go:93 | True exactly when the text is the prefix followed by the rest of the text. |
| GoStrings.TrimSpace | googlechat/slashcommand.go:72 | The result is a slice of the input with only white space before and after it, and neither end of the result is white space; a text that already neither starts nor ends with white space is unchanged. |
| GoStrings.TrimSpaceExample | googlechat/slashcommand.go:72 | White space inside the text is kept: `" a b "` trims to `"a b"`. |
| GoStrings.Join | googlechat/slashcommand.go:81 | No words give the empty string and one word gives that word; otherwise the result is at least as long as the first word. |
| GoStrings.JoinLength | googlechat/slashcommand.go:81 | The joined length is the words' total plus one separator between each pair of neighbours. |
| GoStrings.TrimPrefix | googlechat/slashcommand.go:71 | The prefix is removed once when present; otherwise the text is unchanged. |
| GoStrings.Fields | slack/slashcommand.go:35 | Every field is non-empty and contains no white space. |
| GoStrings.FieldsOfSpaces | slack/slashcommand.go:35 | A text of white space only has no fields. |
| GoStrings.FieldsSkipsLeadingSpace | slack/slashcommand.go:35 | Leading white space does not change the fields. |
| GoStrings.FieldsOfWordThen | slack/slashcommand.go:35 | A word followed by white space or by nothing is the first field, and the fields of the rest follow it. |
| GoStrings.FieldsSplitAtSpace | slack/slashcommand.go:35 | Every non-empty run of white space is a split point: the fields of x, the run, then y are the fields of x followed by those of y. |
| GoStrings.FieldsKeepContent | googlechat/slashcommand.go:74 | The fields, concatenated, are the input with all white space removed. |
| GoStrings.FieldsOfTrimSpace | googlechat/slashcommand.go:72-74 | Trimming surrounding white space before splitting does not change the fields. |
| GoStrings.FieldsOfJoin | googlechat/slashcommand.go:81 | Words joined with single spaces split back into exactly those words, so a description joined from fields is its own normal form. |
| GoogleChatCommand.MentionId | googlechat/slashcommand.go:89-91 | A match means the token is `<users/` + ID + `>`, and the ID is one field free of `>`. |
| GoogleChatCommand.MentionIdOfMention | googlechat/slashcommand.go:89-92 | Every non-empty ID free of `>` is matched back from its mention. |
| GoogleChatCommand.ParseCommandText | googlechat/slashcommand.go:69-101 | There are three outcomes, each stated as if and only if. Fewer than two fields after stripping "/kudos" is the usage error. A first field that is neither a `<users/ID>` mention nor `@`-prefixed is the mention error. Otherwise the result is well formed, its mention is the first field, and the description's fields are the remaining fields. |
| GoogleChatCommand.MentionParses | googlechat/slashcommand.go:189-194 | The mention of a parsed command is one field, and the parser classifies it back to the same user ID or username. |
| GoogleChatCommand.CommandTextFields | googlechat/slashcommand.go:71-74 | A command's text splits into its mention followed by the description's words. |
| GoogleChatCommand.ParseCommandTextRoundTrip | googlechat/slashcommand.go:69-101 | Every result the parser can return is parsed back from its own text. |
| GoogleChatCommand.SenderName | googlechat/slashcommand.go:162-165 | The display name, else the sender name; the result is empty exactly when both are. |
| GoogleChatCommand.ResolveRecipient | googlechat/slashcommand.go:127-152 | After resolution the username is the user ID when one was given. Everything else, including the mention, is unchanged. |
| GoogleChatCommand.PrepareKudos | googlechat/slashcommand.go:105-180 | The checks in order: space, installation, parse, empty username, sender. Each error, and success, holds if and only if the checks before it pass and its own fails (or, for success, all pass). On success the payload is built from the space, the resolved username, the description and the sender name, all non-empty. |
| GoogleChatCommand.HandleGoogleChatCommand | googlechat/slashcommand.go:103-205 | A failed check leaves the store unchanged. Otherwise the store follows the grant transaction, the call fails if and only if the count fails, and the reply carries the mention, the description and the new count. |
| SlackCommand.MentionId | slack/slashcommand.go:54-56 | A match means the token is `<@` + ID + `>`, with a non-empty ID of A-Z and 0-9. |
| SlackCommand.MentionIdOfMention | slack/slashcommand.go:54-57 | Every such ID is matched back from its mention. |
| SlackCommand.ParseCommandText | slack/slashcommand.go:33-66 | Each error holds if and only if its condition does: fewer than three fields; first field not "/kudos"; a mention that is neither `<@ID>` nor `@`-prefixed. On success the result is well formed, its mention is the second field, and the description's fields are the rest. |
| SlackCommand.MentionParses | slack/slashcommand.go:111-116 | The mention of a parsed command is one field that the parser classifies back. |
| SlackCommand.ParseCommandTextRoundTrip | slack/slashcommand.go:33-66 | Every result the parser can return is parsed back from its own text. |
| SlackCommand.OrgId | slack/slashcommand.go:92-95 | The enterprise ID when it is non-empty, else the team ID. |
| SlackCommand.PrepareKudos | slack/slashcommand.go:68-103 | The checks in order: installation, parse, then user lookup for a mentioned ID. Each error, and success, holds if and only if the checks before it pass and its own fails (or, for success, all pass); a lookup failure carries the lookup's reply. On success the payload carries the organization, the resolved username, the description, the app ID as installation and the command's user name as sender. |
| SlackCommand.HandleSlashCommand | slack/slashcommand.go:68-133 | A failed check leaves the store unchanged. Otherwise the store follows the grant transaction. A count failure is reported. Otherwise the result is the announcement, or the post's error, and the kudos stays saved either way. |
| GoogleChatMain.IsKudosCommand | googlechat/main.go:200-207 | A text shorter than "/kudos" is never a command, and a command starts with "/kudos". |
| GoogleChatMain.IsKudosCommandIff | googlechat/main.go:200-207 | A text is a command exactly when it is "/kudos", or "/kudos" followed by a space. |
| GoogleChatMain.KudosCommandFirstField | googlechat/main.go:205-206 | A text the predicate accepts splits into "/kudos" followed by the fields of the rest. |
| GoogleChatMain.Required | googlechat/main.go:18-22 | The required map has exactly the three variable names as keys. |
| GoogleChatMain.ValidateConfiguration | googlechat/main.go:17-31 | The map is visited in any order of its keys. There is no error exactly when all three values are non-empty. An error names the first empty value in visiting order. |
| GoogleChatMain.Recent | googlechat/main.go:43-51 | Every kept timestamp is less than a minute old and comes from the stored list, every stored timestamp less than a minute old is kept, and there are never more than before. |
| GoogleChatMain.RecentCounts | googlechat/main.go:43-51 | Every timestamp less than a minute old is kept as many times as it is stored, and no other timestamp is kept. |
| GoogleChatMain.PrunedIsIdempotent | googlechat/main.go:43-51 | Cleaning up a client's entry twice leaves the map as cleaning it once. |
| GoogleChatMain.RecentIsIdempotent | googlechat/main.go:43-51 | Filtering twice keeps the same timestamps as filtering once. |
| GoogleChatMain.Throttle | googlechat/main.go:38-64 | The request is rejected with 429 exactly when 30 or more recent entries remain. An accepted request appends now to the pruned list; a rejected one is not recorded. Other clients' entries are unchanged, and no client ever holds more than 30. |
| GoogleChatMain.AcceptedWithinLimit | googlechat/main.go:54-63 | After an accepted request the client's list holds at most 30 timestamps, all from the last minute, ending with now. |
| GoogleChatMain.RejectionIsStable | googlechat/main.go:54-59 | Repeating a rejected request at the same instant is rejected again and changes nothing. |
| GoogleChatMain.RateLimiter.constructor | googlechat/main.go:36 | The limiter starts with an empty map. |
| GoogleChatMain.RateLimiter.Handle | googlechat/main.go:38-64 | The loop that rebuilds `recent` and the update of the map give exactly `Throttle`'s verdict and map, and the limit invariant holds. |
| GoogleChatAuth.Stored | googlechat/auth.go:39-41 | The state expires ten minutes from now, overwriting any earlier entry. Other entries are unchanged. |
| GoogleChatAuth.Validated | googlechat/auth.go:44-50 | The result is true exactly when the state is present and now is strictly before its expiry. A present state is removed whatever the outcome. An absent one leaves the map unchanged. |
| GoogleChatAuth.StateIsOneShot | googlechat/auth_test.go:276-280 | Store then validate before expiry gives true; validating again gives false. |
| GoogleChatAuth.ExpiredStateRefused | googlechat/auth.go:47 | A state validated at or after its expiry is refused, and removed. |
| GoogleChatAuth.OtherStatesIndependent | googlechat/auth.go:39-50 | Storing or validating another state does not change a stored state's outcome. |
| GoogleChatAuth.StateStore.constructor | googlechat/auth.go:25-27 | The store starts empty. |
| GoogleChatAuth.StateStore.StoreState | googlechat/auth.go:39-41 | The map becomes `Stored` of the old map. |
| GoogleChatAuth.StateStore.ValidateState | googlechat/auth.go:44-50 | The result and the new map are `Validated` of the old map. |
| GoogleChatAuth.StateStoreScenario | googlechat/auth_test.go:273-289 | On a fresh store the test's sequence yields true, false, false, false. |
| GoogleChatAuth.VerifyGoogleChatRequest | googlechat/auth.go:180-198 | With no token configured every request fails; a passing header starts with "Bearer " and is exactly one token's length longer. |
| GoogleChatAuth.VerifyIsBearerMatch | googlechat/auth.go:180-198 | A request passes exactly when a token is configured and the header is "Bearer " followed by exactly that token. |
| GoogleChatAuth.AuthMiddleware | googlechat/auth.go:201-223 | The OAuth and health paths always pass. The only abort is 401, and it happens exactly for POST to the webhook when verification fails. |
| SlackAuth.Wrap64 | slack/auth.go:178 | The result is a 64-bit integer congruent to the input modulo 2^64, and equal to it when the input is in range. |
| SlackAuth.ParseInt64 | slack/auth.go:173-176 | A string parses exactly when it is an optional sign followed by at least one decimal digit and the signed value it denotes is in the int64 range; the result is that value. |
| SlackAuth.ParseInt64Examples | slack/auth.go:173 | A leading plus sign and leading zeros are accepted; the empty string, a bare sign and a trailing letter are not. |
| SlackAuth.Digits | slack/auth.go:173 | The decimal digits of a number are non-empty, all digits, and denote that number. |
| SlackAuth.ParseFormatInt | slack/auth.go:173 | Every int64 is parsed back from its decimal form. |
| SlackAuth.VerifySlackRequest | slack/auth.go:163-197 | As written: true exactly when both headers are non-empty, the timestamp parses, the int64-wrapped age is at most 300, the body is read, and the signature equals "v0=" + mac(secret, "v0:" + timestamp + ":" + body). |
| SlackAuth.StaleTimestampAccepted | slack/auth.go:178-180 | A timestamp of -2^63 is accepted by the check as written for any clock past the epoch, although its true age exceeds 300 s; the corrected check refuses it. |
| SlackAuth.WrappedAgeAccepted | slack/auth.go:178 | Any timestamp whose age overflows to a value of at most 300 passes the as-written age check and fails the corrected one. |
| SlackAuth.VerifySlackRequestChecked | slack/auth.go:163-197 | The same chain with the age computed without overflow. An accepted timestamp is at least now - 300. |
| SlackAuth.ChecksAgreeWithoutOverflow | slack/auth.go:178 | The two checks agree whenever now - ts does not overflow. |
| SlackAuth.FutureTimestampAccepted | slack/auth.go:178-180 | A correctly signed request with a timestamp in the future passes both checks. |
| SlackAuth.AuthMiddleware | slack/auth.go:200-219 | Every path and method proceeds. |
| KudosData.InstallationWithId | data/kudos.go:92 | The installation found has that key; none found means no row has it. |
| KudosData.UserWithId | data/kudos.go:93 | The user found has that key; none found means no row has it. |
| KudosData.First | data/kudos.go:125-131 | No error and a row count exactly when a row was found. No row gives zero rows and the zero value, and an error exactly under gorm's semantics. An error is the statement's own, or record-not-found. |
| KudosData.FirstBinding | data/kudos.go:124-125 | The binding found has that external ID under an installation with that InstallationID; none found means no binding does. |
| KudosData.FirstInstallation | data/kudos.go:134 | The installation found has that InstallationID; none found means the value is free. |
| KudosData.CreateOrganizationRow | data/kudos.go:72-86 | The insert succeeds exactly when the statement works and the name is unused. It appends one row with the next key and that name, and keeps both invariants. A failure names its cause. |
| KudosData.CreateInstallationRow | data/kudos.go:106-120 | The same, for an installation and its unique InstallationID. |
| KudosData.CreateUserRow | data/kudos.go:140-150 | The same, for a user and its unique username. |
| KudosData.CreateInstallationUserRow | data/kudos.go:153-163 | The same, for a binding and its unique external ID, except that the binding invariant is kept only when the binding names an existing user whose username is the external ID. |
| KudosData.CreateKudosRow | data/kudos.go:196-199 | The kudos row is appended with the next key exactly when the statement works. Well-formedness is kept, and the binding invariant too when the sender is an existing user. |
| KudosData.Enrol | data/kudos.go:139-163 | It succeeds exactly when both inserts work and the username and external ID are free. On success it adds exactly one user named after the external ID and one binding to it and to the installation found. On failure the tables are unchanged, except that a user inserted before a refused binding stays until the transaction rolls back. It keeps both invariants and only extends the tables. |
| KudosData.Resolve | data/kudos.go:122-168 | A found binding is returned with nothing added. A failed lookup returns its error. Under gorm's semantics a missing binding is record-not-found and nothing is ever created. Otherwise the installation lookup's error is returned, or the user is enrolled. The result is a binding with that external ID, and the invariants hold. |
| KudosData.EnrolAgainBound | data/kudos.go:122-168 | A user just enrolled under the installation found is bound to it, and resolving it again returns the same binding and tables. |
| KudosData.EnrolAgainUnbound | data/kudos.go:122-168 | A user enrolled while the installation was missing is not bound to it, and resolving it again fails. |
| KudosData.ResolveAgain | data/kudos.go:122-168 | Resolving again finds a binding made under the installation and changes nothing. A binding made while the installation was missing is never found, and the second attempt fails. |
| KudosData.BoundElsewhere | data/kudos.go:140-163 | An external ID already bound elsewhere cannot be resolved where it has no binding, because the username and external ID columns are globally unique. |
| KudosData.Award | data/kudos.go:187-199 | The row takes sender and recipient user IDs and the sender's installation from the bindings, and the description verbatim. It is appended with the next key exactly when the insert works. |
| KudosData.GrantTx | data/kudos.go:175-202 | The transaction body keeps both invariants. A body without error appends exactly one kudos row, with the next key and the description given, and otherwise only adds users and their bindings. The row's sender and recipient are the users bound to the two external IDs, and its installation is the sender's. An error leaves the kudos zero, or unsaved after an insert failure. |
| KudosData.Transact | data/kudos.go:175 | The grant is committed exactly when BEGIN, the body and COMMIT all succeed, and then it is the body's outcome. Otherwise the tables are unchanged. The kudos is zero when BEGIN fails and the body's otherwise, saved key included when only COMMIT fails. Both invariants are kept. |
| KudosData.CountJoinAppend | data/kudos.go:90-95 | Appending a kudos row adds exactly the joined rows it contributes. |
| KudosData.CountJoinExtends | data/kudos.go:90-95 | Users and bindings created by a resolution do not change what existing kudos rows count. |
| KudosData.SenderJoinsOnce | data/kudos.go:91-94 | A kudos row sent by a bound user joins once, and only when the installation and username asked for are that binding's. |
| KudosData.AwardCount | data/kudos.go:187-196 | Saving a kudos row adds one to a count exactly when the sender's binding matches the count's installation and username. |
| KudosData.KudusCountIsSent | data/kudos.go:88-102 | Under the invariants the count is the number of kudos rows sent by the user bound to that username in that installation, and zero when there is no such binding. |
| KudosData.TotalAfterGrant | data/kudos.go:88-102 | After a committed grant, the count for the recipient grows by one exactly when sender and recipient are the same user, because the join is on `from_user_id`. |
| KudosData.Database.constructor | data/init.go:8-22 | A new store is empty and satisfies the invariants. |
| KudosData.Database.Restore | data/kudos.go:175 | A rollback leaves the tables exactly as in the snapshot, and the invariants hold. |
| KudosData.Database.CreateOrganization | data/kudos.go:72-86 | It returns the inserted row and the new tables, or the error with the tables unchanged. |
| KudosData.Database.CreateInstallation | data/kudos.go:106-120 | The same, with InstallationID left as the empty string because the code never sets it. |
| KudosData.Database.CreateUserIfNotExists | data/kudos.go:122-168 | The step-by-step lookups and inserts give exactly `Resolve`'s result and tables. |
| KudosData.Database.SaveKudos | data/kudos.go:196-199 | On success the row with its new key is written back and appended; on failure the tables are unchanged. |
| KudosData.Database.GrantBody | data/kudos.go:175-202 | The closure gives exactly `GrantTx`'s kudos, error and tables. |
| KudosData.Database.CreateKudos | data/kudos.go:170-205 | It never reports an error. The kudos and the tables are exactly `Transact`'s: the body's on commit, the old tables when BEGIN, the body or COMMIT fails. |
| KudosData.Database.GetKudusCountForUser | data/kudos.go:88-102 | It returns the join count, or the statement's failure, and changes nothing. |
| KudosService.HandleKudos | services/kudos.go:41-71 | The store follows `Transact`, and a commit adds exactly one kudos row. The call fails exactly when the count fails. The total is the old count plus one only for a committed self-grant, and the description is the payload's on commit. Username, From and Platform are empty. |

## Left out

- OAuth flows (login, callback, token exchange) are network and library I/O.
  `generateSecureState` uses randomness, so a state is an arbitrary string.
- HMAC-SHA256 and hex encoding are the parameter `mac`. `hmac.Equal` is
  modelled as plain equality; its constant timing is not modelled.
- Reading the request body and the clock are parameters.
- `GetInstallationByTeamID`, and the seven-argument `CreateInstallation` the
  callbacks use, are not part of this model. The lookup is the `installed`
  parameter.
- Slack `GetUserInfo` and `PostMessage` and Google `chat.NewService` are
  foreign calls. The first two are parameters. The last always falls back to
  the user ID on both branches, as the code does.
- Response and error texts are left out: the emoji strings, `%d`, and the
  wrapping of a parse error in the Google Chat usage message. They are
  formatting. Handlers return an `Announcement` or an error constructor
  instead.
- gin plumbing, config packages, `main` functions and the health endpoint are
  left out.
- The `StateStore` map and the rate limiter's map are touched by concurrent
  handlers without a lock. The model is sequential.
- Time is integer nanoseconds for `googlechat/`. In `slack/auth.go` it is Unix
  seconds as `int64`. Neither the saturation of `time.Duration` nor the
  monotonic clock reading is modelled.
- Row timestamps (`CreatedAt`, `UpdatedAt`) and the response's `CreatedAt` are
  left out.
- Foreign-key constraints are not modelled, because no migration in the code
  declares them. Only the `unique` columns are enforced.
- PostgreSQL sequences can leave gaps after a rollback. The model gives each
  new row the next dense key.
- Query-builder chaining is left out. At data/kudos.go:134 the installation
  query is built on the statement of the first lookup, so gorm carries that
  lookup's table, join and conditions into it. The model treats it as a fresh
  lookup of the installation by InstallationID.
- `KudosData.Database.CreateKudos`: real transaction isolation is not
  modelled. The rollback restores a snapshot of the tables.
- Test files are cited for expected behaviour only.

## Findings

| source | as written | input that shows it | evidently intended | confidence | as-written member | corrected member |
|---|---|---|---|---|---|---|
| slack/auth.go:178 | The age `time.Now().Unix()-ts` is computed in int64 and wraps round on overflow | The header `X-Slack-Request-Timestamp: -9223372036854775808` (-2^63) with any clock at or after the epoch: `now - ts` wraps to `now - 2^63`, which is negative, so the replay check passes | Refuse any timestamp more than 300 s in the past | not executed | SlackAuth.StaleTimestampAccepted | SlackAuth.VerifySlackRequestChecked |
