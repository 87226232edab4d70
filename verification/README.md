# PatchPilot protocols, verified

A Dafny model of the parts of PatchPilot whose behaviour depends on interleaving, timing or round trips,
and proofs about every run of them:

- **Sessions.** `Turnstile` is the per-key FIFO mutex the read-session use case builds from chained
  promises, at the level of promises settling. `ReadSession` puts the CSRF replacement behind it.
  `SessionStore` is the in-memory repository, `SessionLifecycle` interleaves logins, resolves, reads,
  organization switches and logouts at every await, `SessionRaces` is about requests a logout or a
  rotation overtakes, `SessionUse` runs each use case alone and is about throttled last-seen writes,
  `SessionAlone` shows that a lifecycle request nothing interleaves with does the same.
- **Remediation queue.** `Csv` and `QueueExport` are the CSV writer, checked against a parser written from
  section 2 of RFC 4180 with LF between records, and against the JSON writer. `FormEncoding` and
  `ListQuery` are the client's query printer (the `application/x-www-form-urlencoded` serializer of the
  WHATWG URL Standard) and the three hand-written server parsers.
- **Rate limits.** `RateLimit` has the saturating organization limiters and the counting login limiter.
- **Lists and stores.** `KeysetPaging` is keyset pagination under concurrent change, `AssetStore` the
  in-memory asset store with transactions, `Idempotency` the upload idempotency records.
- **KEV worker.** `LeaseBudget` is the timing configuration, `WorkerLoops` the scheduler, reconciler and
  relay loops, `Redispatch` and `ConcurrentRedispatch` the queue redispatch alone and interleaved,
  `JobOwnership` the leases of one job across workers and deliveries.

`Text`, `Numbers`, `QueueSection` and `Wrappers` hold what the others share. `dafny verify dfyconfig.toml` checks everything.

Protocols are transition systems: a step is what runs without yielding, and the theorems quantify over
every legal sequence of steps. Code that changes objects in place is also given as classes, each method
proved to perform the corresponding step of the specification.

What turned out differently from what one might expect:

- Once a session is revoked or a token rotated away, a request still resolves it if and only if it has
  passed its guards on a copy of it, or holds a copy that passes them (`SessionRaces.ResolvesWhenGoneIff`);
  from any state with a usable session a logout or an organization switch can overtake such a request.
- The last-seen time of a session goes back, and its idle expiry with it, if and only if a rotation takes
  effect that read its clock before the session was last seen (`SessionRaces.LastSeenGoesBackIff`).
- The digest of the last CSRF token answered is the stored one if and only if no later replacement threw
  after taking effect (`ReadSession.StoredDigestIsLastAnswered`).
- A window-long interval admits up to 2 * max - 1 requests, not max, unless windows last one millisecond
  (`RateLimit.SlidingBoundIsReached`); the organization limiters and the login counter decide alike if and
  only if max is at least 1.
- Neutralised CSV cells collide exactly when one is the other with an apostrophe before a formula
  (`Csv.CellsCollide`); CSV and JSON carry the same values if and only if every row carries only what its
  section shows and no text of a row starts a formula (`QueueExport.CsvAgreesWithJson`).
- The in-memory asset listing sorts with one comparison and filters cursors with another. Its pages are
  exact if and only if the two agree on the rows (`KeysetPaging.AssetPagesExactIff`). Otherwise a row is
  never reached: z behind e-acute (`AccentedNameHidesRow`), or one of two spellings of a-acute that the
  locale calls equal (`EqualNamesHideRow`).
- Redispatch reports an entry in an unrecognised state as a duplicate although it may not be live; with
  Redis reachable this is the only way a due candidate is left without a live entry
  (`Redispatch.ReachableCandidateIsLive`). Two redispatches of one finished entry can overtake each other so
  that the second removes the live entry of the first (`ConcurrentRedispatch.SecondCallRemovesLive`).
- A job row knows its owner by a per-process identifier only. When a claim succeeds, one lease at most stays
  unexpired if and only if no other delivery of its identifier is executing
  (`JobOwnership.LeasesSafeIffClean`), and only the last claimant changes the row if and only if none is
  executing, refetching or marking (`ActsSafeIffClean`). `UncleanClaimHappens` and `LateMarkHappens` reach
  both failures with two deliveries in one process.

## Model

| member | source | states |
|---|---|---|
| Turnstile.MutualExclusion | packages/auth/src/read-session.ts:83-107 | in every interleaving, two works in progress on one key are the same call |
| Turnstile.ServedInCallOrder | packages/auth/src/read-session.ts:83-107 | on every key the begin and end marks are those of serving its calls one at a time in call order, also when works throw |
| Turnstile.MapHoldsUnfinishedKeys | packages/auth/src/read-session.ts:84-106 | the map holds a key if and only if a call on it is unfinished |
| Turnstile.OldestCallCanRun | packages/auth/src/read-session.ts:83-107 | the oldest unfinished call on a key reaches its work in at most two steps on that key alone, whatever other keys do |
| Turnstile.OtherKeysUntouched | packages/auth/src/read-session.ts:83-107 | a step on one key changes nothing a call on another key can see |
| Turnstile.StepsRunOut | packages/auth/src/read-session.ts:83-107 | without new callers every step brings the turnstile one step closer to idle |
| Turnstile.QuiescentMeansDrained | packages/auth/src/read-session.ts:83-107 | when nothing but a new caller can move, all calls have finished and the map is empty |
| Turnstile.SessionTurnstile.Run | packages/auth/src/read-session.ts:86-96 | entering appends the call behind the key's last one and makes it the tail |
| Turnstile.SessionTurnstile.SettleTail | packages/auth/src/read-session.ts:92-95 | settling a tail promise performs exactly that step |
| Turnstile.SessionTurnstile.StartWork | packages/auth/src/read-session.ts:97-99 | the work starts only once the previous tail has settled |
| Turnstile.SessionTurnstile.WorkSettled | packages/auth/src/read-session.ts:99-106 | finishing releases the call and deletes the map entry only if it is still its own |
| ReadSession.StoredDigestIsLastAnswered | packages/auth/src/read-session.ts:52-80 | once the reads of a session have drained, the stored CSRF digest is that of the token the last successful read returned unless a later replacement threw after taking effect, and with fresh tokens only then |
| ReadSession.LateThrowLoses | packages/auth/src/read-session.ts:57-80 | from any state of any run, any read about to replace the digest of a live session can throw after the replacement and leave a digest stored that nobody was answered |
| ReadSession.ReplacementIsAnswered | packages/auth/src/read-session.ts:63-79 | from any state of any run, a read with its new token ready is answered with that token exactly when its session is live, and then the digest of the token is stored; otherwise nothing is answered or changed |
| ReadSession.RefusedReadChangesNothing | packages/auth/src/read-session.ts:57-72 | a read whose resolve fails, or that throws before the replacement, answers and changes nothing |
| ReadSession.ReadAloneIsReadOnce | packages/auth/src/read-session.ts:52-80 | from any state of any run with the session idle and usable, a read that nothing interleaves with is answered and leaves what `readOnce` leaves on its own |
| ReadSession.AnswersInCallOrder | packages/auth/src/read-session.ts:52-80 | reads of one session are answered in the order they were called |
| SessionStore.MemorySessionRepository.Create | packages/auth/src/test-helper.ts:225-245 | the record is built from the input, created when last seen and not revoked, and stored under its digest; nothing else changes |
| SessionStore.MemorySessionRepository.UpdateThrottledLastSeen | packages/auth/src/test-helper.ts:249-264 | last-seen and idle expiry move together, and only when the stored last-seen is old enough and the session is not revoked |
| SessionStore.MemorySessionRepository.RotateSession | packages/auth/src/test-helper.ts:265-285 | a live session moves to its new digest and the old one is gone |
| SessionStore.MemorySessionRepository.ReplaceCsrfToken | packages/auth/src/test-helper.ts:286-298 | the CSRF digest of a live session is replaced, others stay |
| SessionStore.MemorySessionRepository.RevokeCurrent | packages/auth/src/test-helper.ts:299-311 | a live session is revoked once, others stay |
| SessionStore.MemorySessionRepository.ClearActiveOrganization | packages/auth/src/test-helper.ts:327-340 | the loop clears the organization of exactly the user's sessions on it and counts them |
| SessionStore.ClearChanges | packages/auth/src/test-helper.ts:327-340 | clearing sets the organization of exactly the user's sessions on it to none and changes no other field of any session |
| SessionLifecycle.NeverResolvesPastAbsoluteExpiry | packages/auth/src/resolve-session.ts:50-99 | over every run, no session passes the guards of a resolve at or after its login time plus the absolute TTL, through any rotations |
| SessionLifecycle.RevokedSessionIsDead | packages/auth/src/logout.ts:29-47 | after its revocation a session is never rotated, refreshed or revoked again, and resolves only for a request that had looked it up before |
| SessionLifecycle.RotatedTokenIsDead | packages/auth/src/select-organization.ts:65-92 | a rotated-away token resolves only for a request that had looked it up before the rotation |
| SessionLifecycle.StoredExpiryFollowsTimes | packages/auth/src/login.ts:124-177 | every stored session keeps idle expiry at last-seen plus the idle TTL and absolute expiry at login plus the absolute TTL |
| SessionAlone.ResolveAlone | packages/auth/src/resolve-session.ts:50-154 | from any state of any run, a resolve of a usable session that nothing interleaves with leaves the cleared organization and the throttled write, and nothing else |
| SessionAlone.RefusedAlone | packages/auth/src/resolve-session.ts:54-74 | a request on a session that cannot be used leaves the whole state as it was |
| SessionAlone.RefusedForUserAlone | packages/auth/src/resolve-session.ts:76-84 | nor does one refused for its user or credential after the guards |
| SessionAlone.ReadAlone | packages/auth/src/read-session.ts:57-80 | such a read leaves that and the digest of the new CSRF token |
| SessionAlone.SwitchAlone | packages/auth/src/select-organization.ts:65-94 | such a switch leaves the session under the new token alone, on the organization, seen now, with its absolute expiry |
| SessionAlone.LogoutAlone | packages/auth/src/logout.ts:29-47 | such a logout revokes the session now if it is live, and changes nothing otherwise |
| SessionAlone.LoginAlone | packages/auth/src/login.ts:124-177 | such a login adds exactly the new session, with every time from the clock it read |
| SessionRaces.ResolvesWhenGoneIff | packages/auth/src/resolve-session.ts:54-99 | after a revocation or rotation, in every run, the remaining steps of a request resolve the session or token if and only if it has passed its guards on a copy or holds one that passes; a request still looking never does |
| SessionRaces.LogoutOvertakes | packages/auth/src/logout.ts:29-47 | from any state with a usable session a run reaches a revocation with such a request in flight |
| SessionRaces.RotationOvertakes | packages/auth/src/select-organization.ts:65-92 | the same for an organization switch and the rotated-away token |
| SessionRaces.LastSeenGoesBackIff | packages/auth/src/test-helper.ts:249-285 | over every run, a step puts the last-seen time and the idle expiry of a session back if and only if it is a rotation that read its clock before the session was last seen |
| SessionRaces.RotationTurnsBack | packages/auth/src/select-organization.ts:65-92 | from any state with a usable session a switch and one other request reach that |
| SessionRaces.LoginOpens | packages/auth/src/login.ts:124-177 | from any state a login opens a session that can be used at once |
| SessionUse.RegularUseNeverIdlesOut | packages/auth/src/resolve-session.ts:142-154 | use at gaps of at most idleTtl minus lastSeenMinInterval never idles out before absolute expiry, although writes are throttled |
| SessionUse.LongGapAlwaysIdlesOut | packages/auth/src/resolve-session.ts:54-99 | after a gap of at least idleTtl no use succeeds any more |
| SessionUse.BoundIsSharp | packages/config/src/server.ts:450-464 | whenever a session was last seen, one millisecond more than that gap can end it |
| SessionUse.ExecuteResolveSession | packages/auth/src/resolve-session.ts:50-154 | resolving succeeds exactly when token, session, user and credential pass; the store then holds exactly the cleared organization and the throttled write, and nothing changes otherwise |
| SessionUse.UsableUntilExpiry | packages/auth/src/session-view.ts:27-31 | a session passes the guards of resolve exactly while it is live and before the expiry the client is told |
| SessionUse.IssueSession | packages/auth/src/login.ts:124-177 | exactly the new session is added, created and last seen now, on the only organization of the user if there is exactly one, usable exactly until the returned expiry |
| SessionUse.ReadOnce | packages/auth/src/read-session.ts:57-80 | a read succeeds exactly when the resolve does; the store is then the resolved one with the digest of the CSRF token it returns, and otherwise unchanged |
| SessionUse.RotateOntoOrganization | packages/auth/src/select-organization.ts:65-94 | the session moves to the new token and CSRF digest and no other session changes; it is usable exactly until the new idle expiry or its old absolute expiry |
| SessionUse.ExecuteLogout | packages/auth/src/logout.ts:29-51 | the session the token names can never be used again, and no other session changes |
| Csv.ParseUndoesLines | apps/api/src/remediation-queue-http.ts:359-374 | the parser reads any records of any text back from their written lines |
| Csv.TextCellIsSafe | apps/api/src/remediation-queue-http.ts:441-461 | a text cell reads back as its neutralised value, which is no formula, and is the value itself exactly when that is no formula |
| Csv.CellsCollide | apps/api/src/remediation-queue-http.ts:441-447 | different cells are written alike exactly when one is the other with an apostrophe before a formula |
| QueueExport.CheckInputsChanged | packages/contracts/src/remediation-queue.ts:22-42 | the loop accepts exactly strictly catalog-ordered signals whose status says whether there are any |
| QueueExport.SerializeExportCsv | apps/api/src/remediation-queue-http.ts:359-374 | the loops produce the header and the records of the three sections in order, or throw exactly when the schema does not accept the document or a number of a not-calculated row is not finite |
| QueueExport.LineHoldsRecord | apps/api/src/remediation-queue-http.ts:396-461 | a written line is the quoted record of its row's fields |
| QueueExport.RecordHoldsProperties | apps/api/src/remediation-queue-http.ts:396-439 | each of the 22 fields of a record is the row's property of that column: text neutralised, numbers as they are |
| QueueExport.HeadingsInOrder | apps/api/src/remediation-queue-http.ts:62-85 | the header names the columns in that order |
| QueueExport.FileHoldsProperties | apps/api/src/remediation-queue-http.ts:359-439 | reading the export back gives, for every entry, under each heading the property of that name |
| QueueExport.ExportParsesBack | apps/api/src/remediation-queue-http.ts:359-461 | an accepted document parses back to the header and rowCount records of 22 fields in section order, 150 at most |
| QueueExport.CsvAgreesWithJson | apps/api/src/remediation-queue-http.ts:329-439 | the CSV records carry the values of the JSON rows if and only if every row carries only what its section shows and no text of a row starts a formula |
| QueueExport.RecordsAgreeIff | apps/api/src/remediation-queue-http.ts:229-260 | the same for one row |
| QueueExport.ExportIsSafe | apps/api/src/remediation-queue-http.ts:396-447 | no text field of a record is a formula, and exactly non-formulas are unchanged |
| QueueExport.SignalsRecoverable | apps/api/src/remediation-queue-http.ts:424-439 | splitting the signals field on commas gives the signal names back |
| FormEncoding.ScalarUndoesUtf8 | apps/api/src/remediation-queue-http.ts:155-214 | decoding UTF-8 undoes encoding it, for every character |
| FormEncoding.DecodeUndoesEncode | apps/web/lib/auth-api.ts:715-728 | percent-decoding after plus-to-space undoes the form serializer on every string |
| FormEncoding.EncodesOthers | apps/web/lib/auth-api.ts:715-728 | exactly letters, digits and four marks are printed as they are, a space as a plus, everything else in percent signs |
| ListQuery.ParseQuery | apps/api/src/finding-discovery-http.ts:71-121 | the loop over the parts accepts and returns exactly what the fold over them specifies |
| ListQuery.RemediationQueryRoundTrip | apps/api/src/remediation-queue-http.ts:155-214 | the server reads section, limit and cursor back exactly as the client printed them, and rejects exactly out-of-range limits and cursors |
| ListQuery.PageQueryRoundTrip | apps/api/src/product-match-candidate-http.ts:108-158 | the same for the two paged endpoints |
| ListQuery.ServerSeesPrinted | apps/web/lib/auth-api.ts:715-728 | splitting the printed URL gives back the printed pairs |
| ListQuery.LimitUndoesDecimal | apps/api/src/remediation-queue-http.ts:155-214 | a printed number is accepted exactly within the range and read back |
| ListQuery.ReorderedQueryParsesAlike | apps/api/src/finding-discovery-http.ts:71-121 | any reordering of the parts gives the same result |
| ListQuery.RepeatedKeyRejected | apps/api/src/product-match-candidate-http.ts:108-158 | two parts decoding to the same key are always rejected |
| ListQuery.AcceptedIff | apps/api/src/finding-discovery-http.ts:71-121 | a query is accepted exactly when every part is an acceptable parameter, none is given twice and a needed section is there; it carries what was given and the default limit |
| ListQuery.ItemsAreNamed | apps/api/src/remediation-queue-http.ts:155-214 | a part is accepted only under the exact name of a parameter of the endpoint, and its value is what it decodes to |
| ListQuery.LimitHasOneSpelling | apps/api/src/remediation-queue-http.ts:155-214 | a limit is accepted in one spelling only, the decimal digits of a number in range |
| ListQuery.MissingParameters | apps/api/src/remediation-queue-http.ts:155-214 | without a section a remediation-queue query is rejected; without a limit the paged endpoints answer ten rows |
| ListQuery.BareUrl | apps/api/src/product-match-candidate-http.ts:108-158 | a URL without a query is rejected by the remediation queue and means the first ten rows for the other two |
| ListQuery.BarePartRejected | apps/api/src/finding-discovery-http.ts:71-121 | a part without an equals sign is rejected |
| ListQuery.FragmentIsIgnored | apps/api/src/finding-discovery-http.ts:71-121 | what follows a hash does not count |
| RateLimit.SlidingBound | apps/api/src/finding-rate-limit.ts:83-101 | any window-long interval holds at most 2 * max - 1 admitted requests, and at most max when windows last one millisecond |
| RateLimit.SlidingBoundIsReached | apps/api/src/finding-rate-limit.ts:83-101 | for every max and window some trace in time order reaches that bound |
| RateLimit.WindowBound | apps/api/src/finding-rate-limit.ts:83-101 | one window admits at most max |
| RateLimit.SameDecisionsIffPositive | packages/auth/src/fake-login-rate-limiter.ts:34-54 | limiter and counter decide alike on every trace if and only if max is at least 1 |
| RateLimit.CounterSimulatesLimiter | apps/api/src/sbom-rate-limit.ts:25-40 | the limiter's count is the counter's cut off at max, from any related states |
| RateLimit.OrganizationsAreIndependent | apps/api/src/finding-rate-limit.ts:83-101 | an organization's answers are those of its own requests alone |
| RateLimit.OrganizationsAreBounded | apps/api/src/finding-rate-limit.ts:83-101 | in every trace of requests by all organizations, each one is admitted at most that often in a window-long interval |
| RateLimit.LoginsAreBounded | packages/auth/src/login-rate-limiter.ts:65-117 | in every interleaving of the two increments of any logins, those let through satisfy the address bound and the account bound across all pairings |
| RateLimit.FewAttemptsLetThrough | packages/auth/src/login-rate-limiter.ts:65-117 | in every interleaving, a login whose address and account were counted fewer times than allowed within the last window's length is let through |
| RateLimit.CountersFollowAttempts | packages/auth/src/login-rate-limiter.ts:93-117 | a counter is what the attempts on its own address or account make of it |
| RateLimit.OrganizationRateLimiter.Consume | apps/api/src/finding-rate-limit.ts:88-101 | a request is answered and counted as specified, on its own window only |
| RateLimit.LoginRateLimiter.BeginConsume | packages/auth/src/login-rate-limiter.ts:73-92 | an acceptable attempt counts its address, another one nothing |
| RateLimit.LoginRateLimiter.FinishConsume | packages/auth/src/login-rate-limiter.ts:93-117 | the account is counted unless the counter throws, and the login is admitted exactly when both counts were within their limits |
| KeysetPaging.TraversalUnderChange | packages/database/src/asset-list-query.ts:42-165 | while rows come, go and change between pages, what is handed out is strictly ascending, was in the table, and includes every key shown throughout |
| KeysetPaging.ExactIffOrdersAgree | apps/api/src/asset-test-harness.ts:390-446 | on an unchanging table whose rows the sort order tells apart, every page size hands out exactly the sorted rows and ends, if and only if the cursor order agrees with the sort order on them |
| KeysetPaging.AssetPagesExactIff | apps/api/src/asset-test-harness.ts:390-446 | the same for assets by name and identifier, with any locale, also one that calls different names equal |
| KeysetPaging.NameThenIdSorts | apps/api/src/asset-test-harness.ts:423-426 | name then identifier orders the rows of any table whose identifiers differ, whatever names the locale ties |
| KeysetPaging.DisagreementHidesRow | apps/api/src/asset-test-harness.ts:428-446 | wherever the sort puts one row before another and the cursor does not, the second is never reached |
| KeysetPaging.AccentedNameHidesRow | apps/api/src/asset-test-harness.ts:423-434 | two names on which the orders differ, and the row that is never reached |
| KeysetPaging.EqualNamesHideRow | apps/api/src/asset-test-harness.ts:423-434 | two names the locale calls equal, ordered by identifier one way and by code unit the other, and the row that is never reached |
| KeysetPaging.QueryPageIsListPage | packages/database/src/asset-repository.ts:211-229 | the SQL page, cut from limit + 1 rows, is the in-memory page |
| KeysetPaging.PageIsFull | apps/api/src/asset-test-harness.ts:436-446 | a page holds the first rows behind its cursor, as many as asked for if there are that many, and a next cursor exactly when there are more |
| KeysetPaging.SortSorts | apps/api/src/asset-test-harness.ts:423-426 | sorting permutes rows that the order tells apart into strictly ascending key order |
| KeysetPaging.ListAssets | apps/api/src/asset-test-harness.ts:390-446 | the listing that rebinds its rows returns the specified page, twenty rows by default |
| KeysetPaging.BoundAssetListLimit | packages/database/src/asset-list-query.ts:26-40 | the page size is always from 1 to 100 and is the requested one within that range |
| KeysetPaging.CodeUnitTotal | apps/api/src/asset-test-harness.ts:428-434 | comparison by UTF-16 code unit is a total order |
| KeysetPaging.LexicographicTotal | packages/database/src/asset-list-query.ts:122-163 | ordering by name, then identifier, is total when both parts are |
| KeysetPaging.ReversedTotal | apps/api/src/sbom-test-harness.ts:337-363 | newest-first order is total as well |
| AssetStore.NamesStayUnique | apps/api/src/asset-test-harness.ts:313-387 | over every run with transactions, no two active assets of an organization share a lowercased name, assets stay in their organization, and archived ones never change |
| AssetStore.OneWinPerVersion | apps/api/src/asset-test-harness.ts:331-387 | the expected versions of an asset's committed successes are exactly the consecutive versions it went through, so one success at most per expected version |
| AssetStore.ArchivedIff | apps/api/src/asset-test-harness.ts:370-386 | over every run from the empty store, an asset is archived with a time if and only if a committed archive of it with that time succeeded |
| AssetStore.ArchiveTimesFit | apps/api/src/asset-test-harness.ts:370-386 | archived assets have an archive time, and only they |
| AssetStore.RunIsItsCommittedCalls | apps/api/src/asset-test-harness.ts:125-142 | a run leaves exactly what the calls no transaction undid leave one after the other |
| AssetStore.AuditIsCommitted | apps/api/src/asset-test-harness.ts:125-142 | the audit log holds exactly the events of the committed calls, in order |
| AssetStore.RefusedIffHeld | apps/api/src/asset-test-harness.ts:448-462 | a create or rename is refused exactly when another active asset of the organization holds the name up to case |
| AssetStore.ArchiveFreesName | apps/api/src/asset-test-harness.ts:370-386 | once its asset is archived a name is held by nobody |
| AssetStore.AssetStore.HasActiveNameConflict | apps/api/src/asset-test-harness.ts:448-462 | the search finds a clash exactly when there is one |
| AssetStore.AssetStore.CreateAggregate | apps/api/src/asset-test-harness.ts:313-320 | a row is added unless its name is taken, and what is returned is a clone no row shares |
| AssetStore.AssetStore.CompareAndSetUpdate | apps/api/src/asset-test-harness.ts:331-369 | the row is changed in place exactly when it exists, is active, has the expected version and the name is free; clones are returned |
| AssetStore.AssetStore.CompareAndSetArchive | apps/api/src/asset-test-harness.ts:370-386 | the row is archived in place exactly when it exists, is active and has the expected version; clones are returned |
| AssetStore.CloneAsset | apps/api/src/asset-test-harness.ts:627-636 | a clone shows the same values and is a new object |
| AssetStore.AssetStore.RunInTransaction | apps/api/src/asset-test-harness.ts:125-142 | when the work throws, assets and audit log are exactly what they were although rows were changed in place; otherwise its calls took effect |
| Idempotency.FinalizedOnce | apps/api/src/sbom-test-harness.ts:255-273 | over every run, a finalize that succeeded is the key's last, and its response and fingerprint never change |
| Idempotency.FinalizesIffHolder | apps/api/src/sbom-test-harness.ts:242-273 | a finalize succeeds if and only if the last claim of the key carried its fingerprint and is still open, so a reclaim with another fingerprint fences the earlier holder |
| Idempotency.ReplayIffFinalized | apps/api/src/sbom-test-harness.ts:274-287 | a replay hands out a response if and only if an earlier finalize stored it under the same final fingerprint |
| Idempotency.MismatchIffFinalizedOtherwise | apps/api/src/sbom-test-harness.ts:274-287 | a mismatch is reported exactly when the key was finalized under another final fingerprint |
| Idempotency.ReclaimsIffExpired | apps/api/src/sbom-test-harness.ts:242-254 | over every run, a reservation changes hands exactly when its last claim is open and had run out by then |
| Idempotency.FindsIffUnexpired | apps/api/src/sbom-test-harness.ts:235-241 | over every run, find sees a reservation exactly while its last claim is open and has not run out |
| Idempotency.ReserveAnswers | apps/api/src/sbom-test-harness.ts:202-234 | over every run, what each reserve is answered, by who claimed and finalized the key before, expiry and fingerprint |
| Idempotency.KeysDoNotCollide | apps/api/src/sbom-test-harness.ts:203 | keys are equal exactly when organization, scope and hash are, although scopes hold colons |
| Idempotency.MemoryIdempotency.ReserveStarted | apps/api/src/sbom-test-harness.ts:202-234 | the specified answer and records; the record returned is the stored object itself |
| Idempotency.MemoryIdempotency.FindUnexpiredStarted | apps/api/src/sbom-test-harness.ts:235-241 | the stored object of a running, unexpired reservation, or nothing |
| Idempotency.MemoryIdempotency.ReclaimExpiredStarted | apps/api/src/sbom-test-harness.ts:242-254 | an expired reservation changes hands in place, others are refused |
| Idempotency.MemoryIdempotency.FinalizeCompleted | apps/api/src/sbom-test-harness.ts:255-273 | the holder's record is completed in place, others are refused |
| Idempotency.MemoryIdempotency.ResolveCompletedReplay | apps/api/src/sbom-test-harness.ts:274-287 | the specified replay answer, changing nothing |
| LeaseBudget.NothingOverflows | packages/config/src/intelligence.ts:340-358 | within the numeric bounds every checked operation gives the unbounded result |
| LeaseBudget.RelationshipIssues | packages/config/src/intelligence.ts:360-525 | the issues reported are exactly the broken rules, in unbounded arithmetic |
| LeaseBudget.SoundMeans | packages/config/src/intelligence.ts:360-525 | a configuration without issues is exactly one within the bounds the rules promise |
| LeaseBudget.JobFitsLeaseIffRule | packages/config/src/intelligence.ts:485-518 | every schedule of attempts, backoffs, parsing and storing within their limits ends strictly inside the lease if and only if the lease rule holds |
| LeaseBudget.TwoMissedRenewalsAreSafe | packages/config/src/intelligence.ts:420-427 | after at most two missed renewals in a row the next attempt still comes before the lease runs out: three fit in a lease |
| LeaseBudget.LockRenewsAtTheInterval | apps/worker/src/worker-lock.ts:3-17 | the queue lock is renewed at the configured interval, for any SBOM lease |
| LeaseBudget.LockRenewsBeforeHalf | apps/worker/src/worker-lock.ts:10-17 | a lock is renewed before half of it has run, whatever the interval, and at the interval if that is short enough |
| WorkerLoops.OneCallInFlight | apps/worker/src/intelligence-scheduler.ts:33-110 | in every interleaving of starts and stops there is one loop instance, so one tick, pass or batch in flight |
| WorkerLoops.NoCallAfterStop | apps/worker/src/intelligence-retry-reconciler.ts:37-137 | no evaluate, listDue, redispatch or relay call begins after stop was called |
| WorkerLoops.ResolvedStopMeansExited | apps/worker/src/outbox-relay-runtime.ts:30-46 | a stop that has resolved, or has begun closing the queue, left no loop behind |
| WorkerLoops.NeverRevived | apps/worker/src/intelligence-scheduler.ts:33-48 | from the first stop on no loop comes up and none comes back |
| WorkerLoops.StoppedLoopRunsOut | apps/worker/src/intelligence-scheduler.ts:40-110 | after stop, in every run, a loop resumes twice at most and has ended when it has used up its resumptions; nothing gives it more |
| WorkerLoops.StopCompletes | apps/worker/src/intelligence-scheduler.ts:40-48 | from any state of any run a waiting stop can get past its loop in at most three steps |
| WorkerLoops.StopResolves | apps/worker/src/outbox-relay-runtime.ts:30-46 | and resolves in at most one step more, a relay being stopped then |
| WorkerLoops.StopIsNoted | apps/worker/src/outbox-relay-runtime.ts:30-46 | a stop is noted at once; it waits exactly for a loop that is up, and closes the queue exactly when there is one |
| WorkerLoops.ResolvedStopClosedQueue | apps/worker/src/outbox-relay-runtime.ts:30-46 | in every run of a relay with a queue, a stop that has resolved was preceded by closing the queue |
| WorkerLoops.StartBringsUpLoop | apps/worker/src/intelligence-scheduler.ts:33-70 | started before stop, the scheduler and the relay call at once unless there is a startup delay, and the reconciler waits first |
| WorkerLoops.RunningLoopCalls | apps/worker/src/intelligence-scheduler.ts:50-110 | from any state of any run before stop, a loop between its calls makes its round's first call after one or two resumptions |
| WorkerLoops.RoundFollowsRound | apps/worker/src/outbox-relay-runtime.ts:48-68 | a tick or batch that ends before stop leaves the loop up for the next round |
| WorkerLoops.PassCallsEachValid | apps/worker/src/intelligence-retry-reconciler.ts:66-137 | when a listing reports n candidates of which k are invalid and no stop follows, exactly n - k redispatch calls begin before the round is over |
| WorkerLoops.WorkerLoop.StartOnce | apps/worker/src/intelligence-scheduler.ts:34-39 | starting brings up a loop only when none is running and stop was not called |
| WorkerLoops.WorkerLoop.BeginStop | apps/worker/src/outbox-relay-runtime.ts:30-46 | a stop of a stopped relay resolves; another is noted and waits for the running loop, or without one closes the queue if there is a queue to close and resolves otherwise |
| WorkerLoops.WorkerLoop.ContinueStop | apps/worker/src/outbox-relay-runtime.ts:36-43 | a stop whose loop has ended forgets it and goes on to close the queue, or resolves when there is none to close |
| WorkerLoops.WorkerLoop.WakeLoop | apps/worker/src/intelligence-retry-reconciler.ts:60-137 | a loop runs from where it was resumed to its next await as specified, for all three loops |
| Redispatch.JobIdsAreDistinct | packages/domain/src/intelligence/retry-redelivery.ts:28-76 | two candidates share a queue identifier only when event and attempt are equal |
| Redispatch.ValidCandidatesHaveIds | packages/domain/src/intelligence/retry-redelivery.ts:28-76 | a candidate has an identifier exactly when its event is a UUID and its attempt a safe integer, in the spelling of the queue; the length bound is never reached |
| Redispatch.AddTouches | apps/worker/src/intelligence-job-redispatch.ts:65-97 | an uninterrupted add touches its own identifier only, and neither a live nor an unrecognised entry, whatever fails |
| Redispatch.AddMakesLive | apps/worker/src/intelligence-job-redispatch.ts:65-118 | with Redis reachable the entry is live afterwards exactly unless its state was unrecognised |
| Redispatch.AddLeaves | apps/worker/src/intelligence-job-redispatch.ts:65-118 | with Redis reachable, an add is a duplicate and changes nothing exactly on an unfinished entry; otherwise its entry is delayed or waiting, as asked for |
| Redispatch.FailedAddLeaves | apps/worker/src/intelligence-job-redispatch.ts:65-118 | whatever fails, an add leaves the queue alone, loses the finished entry or leaves its own, and its report names the failure it met |
| Redispatch.ReachableCandidateIsLive | apps/worker/src/intelligence-retry-reconciler.ts:70-137 | after a pass, whatever happens to the others, a candidate whose calls succeed is live if and only if its entry was not unrecognised before |
| Redispatch.PassLeaves | apps/worker/src/intelligence-retry-reconciler.ts:70-137 | a pass leaves live entries, unrecognised entries and entries of no candidate as they were |
| Redispatch.RedispatchQueue.AddJob | apps/worker/src/intelligence-job-redispatch.ts:65-118 | inspecting, removing and adding, with every failure before or after its effect, does what is specified |
| Redispatch.RedispatchQueue.RunPass | apps/worker/src/intelligence-retry-reconciler.ts:70-137 | every candidate up to the stop gets its own outcome, failures stop none, and the count is that of the redispatched |
| ConcurrentRedispatch.SettledMeansSeenLive | apps/worker/src/intelligence-job-redispatch.ts:65-118 | in every interleaving, a redispatch that reports its job enqueued or found live had a live entry for it during the call, also when the add was suppressed |
| ConcurrentRedispatch.LiveEntryGoneIff | apps/worker/src/intelligence-job-redispatch.ts:100-118 | a live entry disappears exactly when the queue loses it or a call of its identifier removes it |
| ConcurrentRedispatch.EntryAppearsOrChangesIff | apps/worker/src/intelligence-job-redispatch.ts:65-118 | an entry appears exactly when it is added or published, and changes its state only in the queue's hands |
| ConcurrentRedispatch.InspectionFinds | apps/worker/src/intelligence-job-redispatch.ts:100-118 | an inspection ends the call on a live or unrecognised entry and goes on to remove exactly a finished one |
| ConcurrentRedispatch.RemovesLiveOnlyIfRevived | apps/worker/src/intelligence-job-redispatch.ts:100-118 | in every interleaving, a call removes a live entry only if the identifier got one again after the call had inspected a finished one |
| ConcurrentRedispatch.SecondCallRemovesLive | apps/worker/src/intelligence-job-redispatch.ts:65-118 | on any queue with a finished entry two calls reach that |
| ConcurrentRedispatch.AloneIsAdd | apps/worker/src/intelligence-job-redispatch.ts:65-118 | a call that nothing interleaves with leaves the queue and reports exactly as the uninterrupted add does, whatever fails |
| JobOwnership.OneUnexpiredClaimant | packages/database/src/background-job-execution.ts:77-110 | in every run without a claim beside an executing delivery of its identifier, at most one delivery executes under an unexpired lease |
| JobOwnership.LeasesSafeIffClean | packages/database/src/background-job-execution.ts:77-132 | when a claim succeeds, one lease at most stays unexpired in every continuation without another claim if and only if no other delivery of its identifier is executing |
| JobOwnership.UncleanClaimBreaks | packages/database/src/background-job-execution.ts:112-132 | a claim beside an executing delivery of its identifier leads to two unexpired leases by two renewals |
| JobOwnership.UncleanClaimHappens | apps/worker/src/worker-lock.ts:1 | such a claim is reached when one process is delivered the job twice |
| JobOwnership.OnlyTheLastClaimantActs | apps/worker/src/intelligence-sync-processor.ts:150-197 | in every run without a claim beside an engaged delivery of its identifier, only the last claimant renews, retries, fails or completes the job |
| JobOwnership.ActsSafeIffClean | apps/worker/src/intelligence-sync-processor.ts:150-197 | when a claim succeeds, only the last claimant acts in every continuation without another claim if and only if no other delivery of its identifier is executing, refetching or marking |
| JobOwnership.UncleanClaimActs | packages/database/src/background-job-execution.ts:162-236 | a claim beside an engaged delivery of its identifier lets that delivery change the row |
| JobOwnership.LateMarkHappens | apps/worker/src/intelligence-sync-processor.ts:181-197 | a run in which an earlier delivery marks the job succeeded while the one that holds it executes |
| JobOwnership.TerminalForever | apps/worker/src/intelligence-sync-processor.ts:111-119 | from any state, a terminal row never changes and no delivery starts executing any more |
| JobOwnership.StatusIsLastMade | packages/database/src/background-job-execution.ts:77-236 | over every run, the row has a status if and only if that is the one last left in it by a claim, by an outcome of a delivery whose identifier owned it, or by the operator |
| JobOwnership.TerminalIffMade | packages/database/src/background-job-execution.ts:162-236 | over every run of a job, it is succeeded (failed) if and only if an owner marked it so, or the operator did, at some point |
| JobOwnership.AttemptCountsClaims | packages/database/src/background-job-execution.ts:77-110 | the attempt of a job is the number of its successful claims |
| JobOwnership.RowRecords | packages/database/src/background-job-execution.ts:77-236 | each outcome by an owner leaves its own status, no other step changes the status, and only claims and retries change the worker |
| JobOwnership.RowIsLeased | packages/database/src/background-job-execution.ts:77-132 | claims and renewals lease the row for leaseMs from the clock they read, and a row with another status has no lease |
| JobOwnership.DeliveryAdvances | apps/worker/src/intelligence-sync-processor.ts:111-197 | the steps of a delivery take it further and end after six, and no other step moves it |
| JobOwnership.DistinctIdentifiersAreClean | apps/worker/src/worker-identifier.ts:5-14 | runs whose deliveries all came under different identifiers are free of such claims |
| JobOwnership.SyncProcessor.ReadJob | apps/worker/src/intelligence-sync-processor.ts:111-119 | a delivery that reads a terminal row ends, another goes on |
| JobOwnership.SyncProcessor.ClaimExecution | packages/database/src/background-job-execution.ts:77-110 | the claim succeeds exactly on a queued row or one whose lease ran out, and then the row is the delivery's |
| JobOwnership.SyncProcessor.RenewLease | packages/database/src/background-job-execution.ts:112-132 | the lease is extended exactly while the row runs under the identifier |
| JobOwnership.SyncProcessor.MarkRetryJob | packages/database/src/background-job-execution.ts:134-160 | the row is queued again exactly while it runs under the identifier |
| JobOwnership.SyncProcessor.MarkTerminalFailure | packages/database/src/background-job-execution.ts:200-236 | the row fails exactly while it runs under the identifier |
| JobOwnership.SyncProcessor.MapCompleted | apps/worker/src/intelligence-sync-processor.ts:169-197 | a completed delivery goes on to mark success only if the row it read again still runs under its identifier |
| JobOwnership.SyncProcessor.MarkJobSucceeded | packages/database/src/background-job-execution.ts:162-198 | the row succeeds exactly while it runs under the identifier |

## Left out

- Fastify routes, cookies, headers, logging, error translation tables and the web interface: plumbing.
- Redis, BullMQ, PostgreSQL, S3, Argon2, SHA-256 and HTTP themselves: digests are injective, generated
  tokens and identifiers fresh, single SQL statements atomic, and the queue suppresses an add of an
  identifier it holds.
- Domain use cases, the policy engine and the SBOM and KEV parsers are not part of this model; the work a
  KEV delivery executes is a sequence of renewals followed by one outcome.
- Clocks do not run backwards within a process and all workers read one clock; in `Idempotency` the clock
  may do anything.
- Callbacks that call start or stop synchronously, and overlapping in-memory transactions.
- Users, credentials and memberships answer arbitrarily in `SessionLifecycle`; password checks are not modelled.
- `revokeAllForUser` and the rehash of credentials at login.
- Lone surrogates: strings are sequences of Unicode scalar values, except that lengths of cursors count
  UTF-16 code units. Limits in queries are integers.
- The CSV parser reads TEXTDATA as any character but comma, quote and line ends, wider than RFC 4180, so
  the round trip covers all text. Cell-level schema patterns are omitted, so results hold for more documents.
- The filters of the asset and SBOM listings are one arbitrary predicate on rows; organization scoping and
  validation of cursors and identifiers are part of it. Non-integer page sizes are not modelled.
- Lowercasing, environments, teams, owner views and the archive time of assets are parameters or field values; update fields
  are a map, which gives undefined fields their "unchanged" meaning.
- AssetStore.CloneAsset: the source also copies an asset's nested lists; here they are values, which nothing
  can change in place.
- LeaseBudget.RelationshipIssues: says nothing outside the numeric bounds, states which issues are reported
  but not in which order, and leaves out the checks on the KEV source address; bounds on fields no rule
  mentions are not listed.
- JobOwnership.OneUnexpiredClaimant: holds for runs without a claim beside an executing delivery of its
  identifier, because the row cannot tell deliveries of one process apart.
- Records returned by reference show later changes to their holders; only that they are the stored objects
  is stated (`Idempotency.MemoryIdempotency.ReserveStarted`).
- A second stop of the relay that overlaps the first closes the queue again; how often the queue is closed
  is not stated.
