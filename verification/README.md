# Verified model of the login service's stateful core

The login service keeps everything it must remember in one DynamoDB table: machine credentials
(`CLIENT#`), their rate counters (`RATE#`) and refresh tokens (`REFRESH_TOKEN#`).  Every table
call is atomic, every operation is a handful of such calls, and any number of operations
interleave.  This project models that core and proves what holds in every run.

It has three layers.

* **Machines.**  `RateLimiter`, `Credentials` and `Sessions` are state machines whose steps are
  single table calls.  Any process may take any step at any time; a call can fail with its write
  applied or not; clock readings of rate windows are the caller's own; a read may return any
  version the record ever had; the table's clean-up may remove an item whose stored time is past.
  `Admission`, `Sweeps`, `Lifecycle`, `Exchanges`, `Budgets` and `SessionTheorems` prove the
  theorems about all their runs.
* **The code.**  `Table` is the one table object, under string keys, with everybody else's calls,
  faults and read lag taken from a list of turns.  `M2MStore`, `Services`, `RefreshTokens`,
  `Listing` and `Jwks` hold the stores, services and handlers as the step-by-step methods they
  are; each method's contract gives its answer and the table's whole history afterwards.
  `CredentialAnswers` and `SessionAnswers` draw from those contracts what callers see, in the terms
  of the request, the wire and the stored items alone.
* **The bridge.**  `CredentialTable`, `ServiceRuns` and `SessionRuns` prove that the code refines
  the machines: for whatever the others do between its calls, one call of an operation is a
  stretch of a machine run that ends with the same answer and the same table.  So the theorems
  about the machines are theorems about what the code returns.  `EndToEnd` draws conclusions for
  tables that the service has filled from nothing, and `Secrecy` compares two tables.

`Base64`, `BasicAuth`, `Validation`, `Records` and `Ordering` are the codecs, formats and orders
the rest needs, and `Rfc4648` holds the codec against its standard.  `dafny verify dfyconfig.toml` checks everything.

## Assumptions

* A password hash is ideal: hashes of different operations differ (the operation's own name is
  the salt) and a hash matches exactly the secret it was made from.  Generated secrets and token
  ids never repeat, and nobody can present a token id before its token has been stored.
* Credential records come from the API, not from hand-made items.
* The table may sweep a client's `RATE#` item in the credential machine and in everything proved
  from it.  Only the theorems of `RateLimiter` and `Admission` are about runs without such sweeps;
  `Sweeps` says exactly which sweeps the limiter's callers cannot notice, carries the admission
  bounds to runs with those and, with one more bound for each of the others, to all runs, and
  shows a run where a bound fails.  `Budgets` does the same for tokens and comparisons.
* The refresh-token machine has one clock that does not run backwards.  Its reads may be stale;
  the theorems that need reads no older than a Delete say so.
* Counters and times are unbounded integers; the source's `int64` is never near its limits.

## Where code and documentation differ

The model follows the code.

* dynamo/m2m.go:64-68 and dynamo/m2m.go:134-137 say that `ttl` does not matter for correctness.
  It is set only when missing, so after the first rollover it lies in the past while the window
  is open, and a sweep may then reset a live window.  `RateLimiter.TtlOutlived` reaches that
  state.  `Sweeps.SweepHarmlessIff` says for every run that callers notice nothing if and only if
  each removed window had ended for the next call to complete, and
  `Sweeps.SweepBreaksTwoWindows` is a run that admits more than `2 * limit` in one window length.
* m2m/provision.go:59-60 says that scopes cannot be granted later and that revoking and
  recreating is the way.  `UpdateClient` does grant them later (`Services.ScopesGrantedLater`),
  and an id that exists, revoked or not, can never be created again (`Services.NeverRecreated`).
* api/m2m.go:112 can never be true (`BasicAuth.DecodedLengthCheckNeverFires`).
* The refresh handler deletes without a condition and after reading, so a token is not
  single-use: two refreshes that both read it first both answer 200
  (`SessionTheorems.RacingRefreshesDuplicate`).  `SessionTheorems.AcceptedIff` says exactly when a
  token is accepted.
* The README's hand-made client item (README.md:98-115) has a single `audience` and `scopes`,
  which the code does not read.

## Model

| member | source | states |
|---|---|---|
| RateLimiter.Linearizable | dynamo/m2m.go:138-186 | For any callers, interleaving and clock readings, the item and every returned count are those of indivisible bumps in the order of the successful updates; each completed call is in that order once. |
| RateLimiter.NextKeepsInv | dynamo/m2m.go:168-185 | A late ADD, whose condition failed in an earlier window, still has the effect of one whole bump. |
| RateLimiter.LiveStaysLive | dynamo/m2m.go:142-151 | windowEnd never decreases. |
| M2MStore.WindowLasts | dynamo/m2m.go:139-151 | A window that a call opened can be opened anew exactly from 60 seconds after that call's reading. |
| RateLimiter.RealTimeOrder | dynamo/m2m.go:138-186 | A call that returned before another began comes before it in the order. |
| Sweeps.SweepHarmlessIff | dynamo/m2m.go:64-68 | For every run with any sweeps that the stored ttl allows, every caller stands where it stands without sweeps, with the same count, if and only if each removed window had ended for the next call to complete. |
| Sweeps.SweptAdmissionBound | dynamo/m2m.go:138-186 | The admission bound holds in every run whose sweeps are of that kind. |
| Sweeps.SweptTwoWindows | dynamo/m2m.go:138-186 | So does the bound of 2 * limit on any D consecutive seconds. |
| Sweeps.AnySweepsBound | dynamo/m2m.go:138-186 | In every run, whatever is swept, each removal of a window that had not ended for the next call to complete costs at most one more limit * ceil(t / D). |
| Sweeps.SweepBreaksTwoWindows | dynamo/m2m.go:134-151 | A run with one permitted sweep of a live window, readings in order, that admits five calls within 60 seconds at limit 2. |
| Sweeps.SweptOnTable | dynamo/m2m.go:143-181 | Updates and sweeps change the counter as their table calls do. |
| RateLimiter.TtlOutlived | dynamo/m2m.go:134-151 | A run in which the stored ttl is past while the window is open. |
| Admission.DenseCounts | dynamo/m2m.go:145-185 | Between two rollovers the counts are exactly 1..n, so exactly min(n, limit) calls are admitted. |
| Admission.AdmissionBound | dynamo/m2m.go:138-186 | With all readings within t seconds, at most limit * ceil(t / D) calls are admitted, clocks unordered. |
| Admission.TwoWindows | dynamo/m2m.go:138-186 | With ordered readings any D consecutive seconds admit at most 2 * limit. |
| Admission.WindowEndBounded | dynamo/m2m.go:139-151 | windowEnd never exceeds the largest reading plus D, nor ttl windowEnd. |
| Admission.NoLockout | m2m/service.go:63-65 | From every reachable state, a call D after all earlier readings completes with count 1. |
| Admission.WindowAdmits | m2m/service.go:109-111 | At most limit calls of one window are admitted. |
| Lifecycle.RotationHistory | m2m/provision_service.go:145-176 | Every version holds the newest min(2, n) of the n committed hashes, newest first, under any interleaving, fault or stale read. |
| Lifecycle.OneRotationPerVersion | dynamo/m2m.go:312-355 | Of the rotations that read one version at most one commits. |
| Lifecycle.FieldsIndependent | dynamo/m2m.go:285-391 | rounds, audiences and active are each the fold of that field's own committed writes. |
| Lifecycle.GraceWindow | m2m/service.go:134-141 | The record accepts exactly the secrets of the last two committed creates and rotations. |
| Lifecycle.SurvivesOneRotation | m2m/provision_service.go:140-176 | A committed secret is accepted until two further hashes commit, and not after. |
| Lifecycle.ReturnedMeansCommitted | m2m/provision_service.go:145-176 | A returned secret was committed; a refused operation committed nothing. |
| Lifecycle.RevocationIsPermanent | m2m/provision_service.go:120-138 | From a committed revocation on, every version is inactive whatever is attempted. |
| Exchanges.TokenProvenance | m2m/service.go:92-131 | Every token is one audience entry of one version that was active and verified the secret; its audience is 1 to 64 letters, digits and hyphens, and each scope "m2m:" and one or more of them. |
| Exchanges.RevokedExchangeFails | m2m/service.go:98-102 | An exchange that reads a version after a revocation fails without counting or minting. |
| Budgets.IssuanceBudget | m2m/service.go:104-131 | At most limit tokens per rate window, in every run whose sweeps are harmless. |
| Budgets.WorkBudget | m2m/service.go:104-122 | At most limit * MaxSecretRounds hash comparisons per rate window, in every run whose sweeps are harmless. |
| Budgets.IssuanceRate | m2m/service.go:104-131 | Whatever is swept: with all readings within t seconds, at most limit * ceil(t / D) tokens, and as many again for each removal of a live window. |
| Budgets.LimiterIsSwept | dynamo/m2m.go:138-186 | In every run of exchanges, provisioning and sweeps, the counter is that of the swept limiter over the exchanges' updates and the sweeps. |
| Budgets.DefaultMinute | dynamo/m2m.go:32-35 | By default, at most 30 tokens when all readings fall within one minute, and 30 more for each removal of a live window. |
| Budgets.DefaultWindow | dynamo/m2m.go:32-35 | And no less: of n calls counted in one window min(n, 30) are admitted. |
| Records.VerifySecret | m2m/service.go:134-141 | True if and only if some round matches, after comparing no further than the first match. |
| Validation.ValidateScopes | m2m/provision.go:62-69 | Accepts exactly the lists each of whose entries is "m2m:" and one or more lower-case letters, digits and hyphens. |
| Validation.ValidateAudiences | m2m/provision.go:73-83 | Accepts exactly the well-formed maps, however they are walked; each error names a real offence. |
| Table.KeysApart | dynamo/m2m.go:200-206 | Keys are injective and the prefixes never meet. |
| Table.RecordsIndependent | dynamo/m2m.go:18-23 | Any sequence of calls acts on each record as the calls on its own key alone. |
| M2MStore.M2MStore.GetClient | dynamo/m2m.go:112-129 | Returns the record of the version that was read, or nothing. |
| M2MStore.M2MStore.BumpWindow | dynamo/m2m.go:138-186 | The table afterwards in every case; a counted, unswept call is one indivisible bump of the table it met. |
| M2MStore.M2MStore.CreateClient | dynamo/m2m.go:211-242 | Writes exactly when the id is absent; otherwise reports it and changes nothing. |
| M2MStore.M2MStore.DeactivateClient | dynamo/m2m.go:285-310 | Clears active and nothing else; idempotent; a missing id is reported. |
| M2MStore.M2MStore.UpdateRounds | dynamo/m2m.go:316-355 | Swaps the rounds exactly when they still equal the expected ones; one read tells missing from changed. |
| M2MStore.M2MStore.UpdateAudiences | dynamo/m2m.go:361-391 | Replaces the audiences and nothing else. |
| Services.ProvisionService.CreateClient | m2m/provision_service.go:63-90 | Answer and table afterwards: a malformed request writes nothing and gets the error of a real offence, the id first; success stores one hash of the returned secret. |
| Services.ProvisionService.UpdateClient | m2m/provision_service.go:101-118 | Answer and table afterwards for every case, each format error naming a real offence. |
| Services.ProvisionService.RevokeClient | m2m/provision_service.go:126-138 | Answer and table afterwards for every case. |
| Services.ProvisionService.RotateClient | m2m/provision_service.go:145-176 | Answer and table afterwards: commits exactly on the rounds of the active version read; refusals write nothing. |
| Services.Service.Exchange | m2m/service.go:92-131 | Answer and table afterwards: an unusable client never counts, any other attempt counts before its secret is looked at, and only the counter is written. |
| Services.ScopesGrantedLater | m2m/provision.go:56-60 | Against the comment: after a successful UpdateClient, short of another one, a token of any exchange whose read is not older carries exactly the scopes given there. |
| Services.NeverRecreated | m2m/provision.go:56-60 | Against the comment: an id that exists, revoked or not, can never be created again, whatever happens in between. |
| Services.API.PostLoginV1M2mTokens | api/m2m.go:34-95 | 400 exactly for malformed requests, which never reach the table; any other answer is that of one exchange, 200 with the token, its type and its lifetime in whole seconds; a bad secret and an unprovisioned audience look the same. |
| CredentialAnswers.CreatedAnswer | m2m/provision_service.go:63-90 | A returned secret is the 32 random bytes in 43 characters of unpadded base64url, which Basic credentials carry unchanged, and the one item added is an active record with the given audiences and that secret's hash alone. |
| CredentialAnswers.RotatedAnswer | m2m/provision_service.go:145-176 | The same of a rotated secret; its hash stands in front of the newest round of the active version read, and the rest of the record is untouched. |
| CredentialAnswers.CreateFormats | m2m/provision.go:42-83 | CreateClient answers a format error exactly when the id, an audience or a scope does not match its pattern, names one that does not, and then writes nothing. |
| CredentialAnswers.UpdatedAnswer | m2m/provision_service.go:101-118 | The same of UpdateClient, whose success changes the record's audiences to the given map and nothing else. |
| CredentialAnswers.RevokedAnswer | m2m/provision_service.go:126-138 | RevokeClient clears active and nothing else. |
| CredentialAnswers.PostedAnswer | api/m2m.go:34-95 | Which of 200, 400, 401, 429 and 500 a request gets, as one check follows the other, and that a 200 is a "Bearer" token for the client, the audience and the version's scopes, with the lifetime in whole seconds. |
| Secrecy.NoAudienceOracle | api/m2m.go:55-57 | Two tables that differ, histories included, only in the audiences and scopes of a client: a request whose secret the version read does not verify gets the same response on both and leaves them differing in no more. |
| CredentialTable.CredentialStep | dynamo/m2m.go:112-391 | Each machine step changes record and counter as its table call does. |
| CredentialTable.CredentialsOnTable | dynamo/m2m.go:200-206 | In every run, next to any other traffic, the table holds the machine's record and counter, and every stale read sees one of its versions. |
| ServiceRuns.CreateRefines | m2m/provision_service.go:63-90 | CreateClient amid any traffic, malformed or with a failing random source too, is a machine run with the same answer and table. |
| ServiceRuns.RotateRefines | m2m/provision_service.go:145-176 | RotateClient amid any traffic, malformed or with a failing random source too, is a machine run with the same answer and table. |
| ServiceRuns.RevokeRefines | m2m/provision_service.go:126-138 | RevokeClient amid any traffic, malformed too, is a machine run with the same answer and table. |
| ServiceRuns.UpdateRefines | m2m/provision_service.go:101-118 | UpdateClient amid any traffic, malformed too, is a machine run with the same answer and table. |
| ServiceRuns.ExchangeRefines | m2m/service.go:92-131 | Exchange amid any traffic and at any window limit is a machine run with the same verdict, token and table. |
| ServiceRuns.SomeVersionIsRead | dynamo/m2m.go:112-116 | A read at any lag returns one of the record's versions. |
| ServiceRuns.ReturnedSecretWorks | m2m/provision_service.go:140-176 | A returned secret is accepted by the stored record, after any later traffic, exactly until two more hashes commit. |
| ServiceRuns.InactiveForever | m2m/provision_service.go:120-126 | No table call of any kind reactivates or removes an inactive record. |
| ServiceRuns.RevokedClientIsRefused | m2m/service.go:98-102 | Once inactive, an exchange whose read is not older gets no token and does not count. |
| Sessions.LoadedSaved | dynamo/refresh_token.go:52-68 | Saving and loading gives back the session, role for role. |
| SessionTheorems.Lineage | api/refresh.go:72-73 | Every token, stored now or ever, holds the email, picture and roles of one login, stale reads included. |
| SessionTheorems.AnswersComeFromLogins | api/refresh.go:123-133 | So does every 200 answer. |
| SessionTheorems.NoReuseAfterDelete | api/refresh.go:31-48 | Once a Delete of an id is applied, a refresh whose Get comes later and sees no older version answers 401, in every interleaving. |
| SessionTheorems.AcceptedIff | dynamo/refresh_token.go:87-112 | In every run a Get is accepted if and only if the token was saved, the clock has not passed its expiresAt, and the read sees it as saved, or is current with no Delete of it applied. |
| SessionTheorems.SweepableIsExpired | dynamo/refresh_token.go:64-65 | A ttl in floored seconds, strictly past, only ever covers expired records. |
| SessionTheorems.TtlTransparency | dynamo/refresh_token.go:109-112 | With and without sweeps every request gets the same answer and the stores agree on unexpired records, stale reads included. |
| SessionTheorems.LiveRecordsBounded | api/refresh.go:42-81 | In every interleaving, records plus refreshes in flight never exceed login saves plus failed or empty deletes. |
| SessionTheorems.SequentialAccounting | api/refresh.go:42-81 | In sequential runs, swept or not, whose reads are not older than a Delete, records never exceed login saves plus failed deletes. |
| SessionTheorems.StaleRefreshAddsRecord | dynamo/refresh_token.go:87-97 | Every refresh of a deleted token by a stale read answers 200 and adds a record, so that bound needs fresh reads. |
| SessionTheorems.FaultFreeRefresh | api/refresh.go:31-81 | A fault-free refresh replaces the record by one with the same data and keeps the number of records. |
| SessionTheorems.RacingRefreshesDuplicate | api/refresh.go:31-81 | Two refreshes that both read first both answer 200 with the session of the token, and leave one record more. |
| RefreshTokens.RefreshTokenStore.Save | dynamo/refresh_token.go:49-84 | Stores exactly the session, role for role in order, the expiry, and its whole second as ttl. |
| RefreshTokens.RefreshTokenStore.Get | dynamo/refresh_token.go:87-125 | Succeeds if and only if the read works, finds the token, and the clock has not passed its expiresAt; then returns the stored session. |
| RefreshTokens.RefreshTokenStore.Delete | dynamo/refresh_token.go:128-141 | Removes the token, stored or not. |
| RefreshTokens.RolesToUserInfoRoles | api/google.go:156-165 | The same roles in the same order. |
| RefreshTokens.LoginAPI.PostLoginGoogle | api/google.go:31-137 | Answer, with both expiries, and table afterwards; a 200 means that the session was stored. |
| RefreshTokens.LoginAPI.PostLoginRefresh | api/refresh.go:21-133 | Answer, with both expiries, and table afterwards, through the tolerated Delete failure. |
| RefreshTokens.LoginAPI.DeleteLoginSession | api/session.go:22-40 | The Delete is attempted for a logged-in caller with a token id, and for nobody else. |
| SessionAnswers.LoginAnswer | api/google.go:31-153 | A login answers 200 exactly when nothing it needs fails; reply and stored item carry the account's email and picture, and the role ADMIN if and only if the account is an administrator's. |
| SessionAnswers.RefreshAnswer | api/refresh.go:21-134 | A refresh answers 200 exactly when nothing it needs fails and the token read expires no earlier than now; reply and new item carry the email, picture and roles of the item read. |
| SessionAnswers.RefreshDrops | api/refresh.go:42-48 | Unless the Delete fails, some version of the table on the way lacks the old token. |
| RefreshTokens.ReuseNeedsStaleRead | dynamo/refresh_token.go:87-97 | After a Delete, a Get fails at every lag within the versions since, and succeeds at the next one. |
| SessionRuns.SessionsOnTable | dynamo/refresh_token.go:16-19 | In every run, next to any other traffic, the table's token items are the machine's store, and every version shows a token as saved or not at all. |
| SessionRuns.SomeViewIsRead | dynamo/refresh_token.go:87-97 | A read at any lag is one of the machine's views. |
| SessionRuns.LoginRefines | api/google.go:60-84 | PostLoginGoogle amid any traffic is a machine run with the same answer and tokens. |
| SessionRuns.RefreshRefines | api/refresh.go:31-134 | PostLoginRefresh amid any traffic, its read as stale as may be, is a machine run with the same answer and tokens. |
| SessionRuns.LogoutRefines | api/session.go:30-40 | The logout's Delete is a machine step with the same effect. |
| SessionRuns.RepliesComeFromLogins | api/refresh.go:123-133 | A 200 reply describes a user who logged in with exactly this data. |
| Listing.ListClients | dynamo/m2m.go:247-279 | However the index cuts its pages and whatever rows it gains between them, the loop ends and lists every row there was at the start, once and in order, or fails if some query fails; of an index that stands still the listing is exact. |
| Listing.ListsEveryClient | dynamo/m2m.go:244-246 | The listing has exactly the table's client records, once each, in id order, prefix stripped. |
| Listing.ListsEveryEarlyClient | dynamo/m2m.go:244-246 | A listing over an index that gains rows meanwhile still has every client of the table it began with, once, in id order. |
| Listing.TrimUndoesKey | dynamo/m2m.go:270 | Stripping the prefix undoes adding it. |
| Listing.CallsKeepTyped | dynamo/m2m.go:211-223 | In every reachable table each item stands under a key of its own kind. |
| Base64.EncodeToString | m2m/provision.go:92 | The encoding loop computes the RFC 4648 encoding. |
| Base64.DecodeString | api/m2m.go:106-109 | The decoding loop computes the tolerant decoding. |
| Base64.RoundTrip | m2m/provision.go:92 | Decoding undoes encoding, for both encodings and all byte sequences. |
| Base64.DecodedLength | api/m2m.go:111-114 | Four characters decode to at most three bytes. |
| Base64.LineBreaksIgnored | api/m2m.go:106 | Line breaks anywhere are skipped, so decoding is not injective. |
| Rfc4648.EncodesBits | m2m/provision.go:92 | Position by position, the characters of an encoding are those that RFC 4648 gives for the bits of the input taken six at a time, then the padding. |
| Rfc4648.DecodesIff | api/m2m.go:106-109 | A text decodes if and only if, line breaks aside, it is characters of the alphabet, not one more than a multiple of four, and exactly the padding due. |
| Rfc4648.DecodedReEncodes | api/m2m.go:106-109 | Encoding what was decoded gives the text back, but for line breaks and the last character's unused bits. |
| BasicAuth.ParseHeader | api/m2m.go:101-121 | The parser over the decoding loop computes the parse that the next rows are about. |
| BasicAuth.ParsesIff | api/m2m.go:101-121 | Parsing gives (id, secret) if and only if the header has at most 4096 characters, starts with "Basic " and decodes to id, colon, secret, with 1 to 64 bytes of colon-free id and a non-empty secret. |
| BasicAuth.DecodedLengthCheckNeverFires | api/m2m.go:111-114 | The header cap makes the decoded-length check redundant. |
| BasicAuth.CredentialsRoundTrip | api/m2m.go:97-121 | Every valid id with every non-empty secret up to 1024 bytes survives encoding and parsing. |
| BasicAuth.GenerateClientSecret | m2m/provision.go:87-93 | 43 characters that encode the random bytes, or a failure of the random source. |
| BasicAuth.GeneratedSecretArrives | m2m/provision.go:12-15 | A generated secret has no colon and reaches the exchange unchanged. |
| Jwks.BigBytes | cmd/jwks.go:54-55 | The loop computes the big-endian octets. |
| Jwks.UIntRoundTrip | cmd/jwks.go:54-55 | n and e decode to the original integers, with at least one octet and no leading zero exactly when positive. |
| Jwks.SortedKids | cmd/jwks.go:35-42 | Every key id once, strictly ascending, whatever order the map yields. |
| Ordering.BelowIff | cmd/jwks.go:40 | Of two ids the smaller is a proper prefix of the other, or has the smaller character where they first differ. |
| Jwks.KeypairJwks | cmd/jwks.go:24-33 | Machine keys first, then user keys, each half complete and sorted. |
| Jwks.ListingUnique | cmd/jwks.go:24-42 | The published list does not depend on map iteration order. |
| Jwks.PublishedOnce | cmd/jwks.go:24-60 | A key id is published exactly once, as an RSA signature key for RS256 with readable n and e, if and only if the two maps do not share it. |
| Jwks.CurrentKeysPublished | cmd/config.go:208-210 | Both current keys are published. |
| Jwks.ParseSigningKeys | cmd/config.go:193-213 | Succeeds if and only if every key parses and the current one is among them, and then keeps every key. |
| EndToEnd.TableRounds | m2m/provision_service.go:145-176 | On every table filled from nothing, next to any traffic, a client's rounds are the newest one or two committed hashes. |
| EndToEnd.TableTokens | dynamo/refresh_token.go:49-84 | On every table filled from nothing, each refresh token holds what some login saved. |
| EndToEnd.OldSecretStillExchanges | m2m/provision_service.go:140-144 | From the empty table: create, rotate, and the first secret still buys a token with the provisioned scopes. |

## Left out

- The index during a listing: it may gain rows and change records, as no call removes a client; that it may lag behind the table is not modelled.
- How long an answer takes: `Secrecy` compares responses and tables only.
- Jwks.SortedKids: the library sort is modelled as an insertion sort, since only its result matters.
- RefreshTokens.LoginAPI.PostLoginGoogle: the cookies' names, paths, domains and flags, and the signed tokens themselves; their expiries are in the reply.
- RefreshTokens.LoginAPI.PostLoginRefresh: the same as for PostLoginGoogle.
- SessionTheorems.NoReuseAfterDelete: false for a Get that sees a version from before the Delete, which the source's read allows; `SessionTheorems.AcceptedIff` is the exact condition.
- SessionTheorems.SequentialAccounting: false with such a Get, as `SessionTheorems.StaleRefreshAddsRecord` shows.
- createdAt and updatedAt, the SK copy of each key, the logger, the tracer and cookies carry no behaviour of this core.
- JSON, PEM, RSA, the signing and validation of JWTs, Google's validator and the real password hash are library code, taken as parameters or ideal functions.
- The AWS SDK: marshalling, retries of a call whose answer was lost, and throttling beyond a call that fails.
- The dummy hash comparison for unknown clients has no effect but time.
- api/m2m_provision.go maps provisioning errors to statuses; the OpenAPI middleware and generated routing are not modelled.
- The admin email list, `GetLoginSession`, SSM parameters, CORS, server startup and deployment.
