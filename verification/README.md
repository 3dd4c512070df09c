# Incident Desk, verified

A Dafny model of the protocols Incident Desk runs over its database, Redis and the clock,
with proofs of what they promise. `dafny verify dfyconfig.toml` checks all of it.

Each protocol is a state machine (`State`, `Step`, `Enabled`, `Next`) whose theorems hold
for every run, next to a class that carries the program's own statements in the program's
own order and is proved to take exactly those steps.

| protocol | modules |
|---|---|
| Incident creation as interleaved transactions | `Creation`, `CreationSafety`, `CreationResults`, `CreationTiming`, `CreationServer` |
| Sliding-window rate limiter | `RateLimit`, `RateLimitSequential` |
| Refresh-token families and the browser client | `Sessions`, `SessionServer`, `BrowserClient` |
| Keyset pagination and its cursors | `Keyset`, `TextPages`, `Listing`, `Cursor`, `Base64Url`, `JsonString`, `Text`, `Sequences` |
| Incident lifecycle, timeline, ETags | `Lifecycle`, `Etag` |
| Escalation | `Escalation` |
| Realtime broker | `Broker`, `BrokerServer` |
| Membership and invitations | `Members` |
| One-time codes | `Mfa` |

## What is assumed

- Incident creation is the only part where transactions interleave. Reads see committed
  rows, writes stay pending until the commit, a second insert of an uncommitted key waits,
  and the counter row is the one explicit lock. `created_at` is the inserting
  transaction's start, as `now()` is in Postgres.
- Every other request is one serial transaction whose error exit discards its writes,
  except refresh-token reuse, which commits the revocation and then fails.
- Random tokens and ids are fresh, hashing is injective, signed tokens are unforgeable.
- Limiter stamps do not decrease in pipeline order. Window safety also needs a check that
  finds the key expired to be stamped a whole window after the last one
  (`RateLimit.Punctual`); `RateLimit.SafeExactlyWhen` says which delays guarantee that.
- The browser has one tab. Lost refresh replies are part of the model.
- An escalation check never runs before it is due, and settings and users stay fixed
  during one escalation. Whoever is on call exists, as the query joins the users table.
- Whether objects a session loaded before a rollback can be read after it is a parameter
  (`CreationTiming.Host`). The handler reads such objects on the way to every answer that
  follows a key conflict (`api/v1/incidents.py:129-149`): the winner's row or the
  organisation's slug. SQLAlchemy expires loaded objects on rollback whatever
  `expire_on_commit` says (`db/engine.py:24`); if reading one then raises, the losing
  request ends in a 500. All other results hold in both cases, since that failure is the
  step `Abort`.
- Broker calls are not cancelled midway and Redis does not fail inside them.
- `datetime.fromisoformat` inverts `isoformat`, whose text is ASCII (`Listing.ClockOk`),
  and a row's sort column never changes.

## What the proofs found

Each comes with a lemma that gives a concrete input or run, or a whole family of them, and
with the exact condition under which the promise does hold.

- `store` returns None both on success and when the winner's key row has been pruned before
  it is read again. The handler then goes on to a 201 with the body of an incident it has
  rolled back. It cannot happen iff two request durations fit in the retention window, or
  the handler's reads after the rollback raise (`CreationTiming.HonestExactlyWhen`).
- The limiter's key TTL is measured by Redis and its stamps by the caller. A stamp delayed
  past the TTL admits more than the limit (`RateLimit.LateStampOverruns`). The TTL is
  harmless at one check iff every member it drops had left the window
  (`RateLimit.ExpiryIsUnobservable`), the answer of a check run alone is the log's iff the
  key has not expired under a full window (`RateLimitSequential.AllowedExactlyWhen`), and
  all runs with delays in a range are safe iff the range is one point
  (`RateLimit.SafeExactlyWhen`).
- A refused attempt is visible until it removes itself, so concurrent checks can refuse a
  caller whose window is empty (`RateLimit.TwoRefused`; exactly when:
  `RateLimit.RefusedExactlyWhen`) and can report a retry-after above W + 1
  (`RateLimit.InterleavingOverstates`; exactly when: `RateLimit.RetryAfterExactly`).
  Attempts let through while Redis is unreachable are not counted against the limit.
- A cursor does not return its pair when a text holds a high surrogate directly before a
  low one; `json.loads` joins them (`Cursor.FailingPair`, `Cursor.RoundTripExactlyWhen`).
  The program's own cursors never do.
- `str.isdigit` accepts superscript digits, and digits without end; `int` rejects the one
  and, by CPython's default limit, more than 4300 of the other. Such an If-Match header
  raises out of the handler instead of answering 400 (`Etag.SuperscriptCrashes`,
  `Etag.ManyDigitsCrash`, `Etag.CrashesExactlyWhen`).
- `hmac.compare_digest` raises on text that is not ASCII and the request schema bounds only
  the length, so a code in full-width digits ends in an exception instead of a refusal
  (`Mfa.FullWidthCrashes`, `Mfa.CrashesExactlyWhen`).
- A lost refresh reply, or a second tab, is taken for theft and revokes the family
  (`BrowserClient.LostReplyIsTakenForTheft`, `BrowserClient.PresentingTwiceIsReuse`); with
  one tab, exactly the tokens whose reply was lost are
  (`BrowserClient.ReuseFiresExactlyWhen`).
- `jobs/tasks.py:3-7` and `docs/runbook.md:72-73` call the jobs idempotent and rerunning a
  partly run one safe. A `check_escalation` that runs again reads the clock again, tells
  its target again and queues its follow-up again; even an early check, which tells nobody,
  leaves two follow-ups that each tell somebody (`Escalation.EarlyRetryTellsTwice`). It is
  harmless exactly in the cases `Escalation.RetryIsHarmlessExactlyWhen` and
  `Escalation.PartialRunIsHarmlessExactlyWhen` name.
- The `incident.created` event does not carry the assignee, so the timeline alone does not
  always replay to the row (`Lifecycle.LogAloneReplaysExactlyWhen`).

## Model

| member | source | states |
|---|---|---|
| CreationResults.GaplessNumbers | backend/src/incident_desk/services/incidents.py:56-73 | In every state any interleaving reaches, an organisation with counter n has exactly n incidents, numbered 1..n in commit order; a number is taken iff it is in 1..n; the timeline has one created event per incident; the rows are exactly the fresh answers clients received |
| CreationResults.OneIncidentPerKey | backend/src/incident_desk/services/idempotency.py:1-6 | While the retention job keeps a key, every answer for it after the first (fresh or replayed) is a replay with the same status and body, so at most one incident commits for it |
| CreationResults.LosersLeaveNothing | backend/src/incident_desk/api/v1/incidents.py:128-134 | A request that lost, failed or replayed owns no incident and no timeline event |
| CreationResults.OnlyCommitWrites | backend/src/incident_desk/api/v1/incidents.py:94-134 | No step of a request before its commit changes a committed row, counter included |
| CreationResults.NeverWedged | backend/src/incident_desk/services/incidents.py:59-62 | A live request can always step or waits for a lock whose holder can step; the key insert never waits |
| CreationResults.RequestsTerminate | backend/src/incident_desk/api/v1/incidents.py:85-134 | A request is over after at most ten steps of its own under any schedule |
| CreationSafety.InvRun | backend/src/incident_desk/services/incidents.py:56-73 | Rows, locks, pending writes and incident ownership agree after any run of steps |
| CreationSafety.NumberIsFree | backend/src/incident_desk/services/incidents.py:71-73 | The number a lock holder is about to insert is taken by no committed incident, so the unique constraint never fires |
| CreationSafety.AloneAtKeyInsert | backend/src/incident_desk/services/idempotency.py:31-36 | While one request holds the counter lock, no other request of the organisation has an uncommitted key |
| CreationTiming.HonestExactlyWhen | backend/src/incident_desk/services/idempotency.py:25-40 | Every run of requests lasting at most d answers 201 only for committed incidents, if and only if 2d is within the retention window or objects loaded before a rollback cannot be read after it |
| CreationTiming.LongRequestsCanLie | backend/src/incident_desk/services/idempotency.py:37-40 | When 2d exceeds the window and such objects stay readable, there is a run in which store returns None after its rollback and the handler answers 201 for an incident that does not exist |
| CreationTiming.LosersFail | backend/src/incident_desk/api/v1/incidents.py:129-136 | Where they do not stay readable, a request that lost its key fails without an answer |
| CreationTiming.PhantomIsHollow | backend/src/incident_desk/api/v1/incidents.py:129-134 | The incident named by such an answer is in no organisation |
| CreationServer.Server.CreateIncident | backend/src/incident_desk/api/v1/incidents.py:85-149 | Run alone, the handler replays a retained key and writes nothing, fails without a trace when validation fails, and otherwise commits the next number, its event and its key row and releases the lock |
| CreationServer.Server.StoredResponse | backend/src/incident_desk/services/idempotency.py:16-19 | The committed row of an (organisation, key), if any |
| CreationServer.Server.Check | backend/src/incident_desk/api/v1/incidents.py:94-97 | Replays the retained response or goes on; nothing is written |
| CreationServer.Server.ValidateRequest | backend/src/incident_desk/services/incidents.py:109-117 | An unknown service or a non-member assignee ends the request before the lock is taken |
| CreationServer.Server.LockCounter | backend/src/incident_desk/services/incidents.py:64-70 | Takes the counter row lock and reads the committed counter; a missing row fails the request |
| CreationServer.Server.IncrementCounter | backend/src/incident_desk/services/incidents.py:71-73 | The new counter value is pending, the committed one unchanged |
| CreationServer.Server.InsertIncident | backend/src/incident_desk/services/incidents.py:119-134 | Inserts the numbered incident as a pending write after scanning the committed rows for the number |
| CreationServer.Server.Store | backend/src/incident_desk/services/idempotency.py:22-40 | Writes the key row as a pending write, or on conflict rolls everything back and releases the lock |
| CreationServer.Server.ReplayWinner | backend/src/incident_desk/services/idempotency.py:37-40 | After a conflict, where objects stay readable, answers with the winner's row, or with its own rolled-back body if that row is gone |
| CreationServer.Server.CommitRequest | backend/src/incident_desk/api/v1/incidents.py:134 | Counter, incident, event and key row become visible together and the lock is released |
| CreationServer.Server.PruneKeys | backend/src/incident_desk/jobs/tasks.py:121-126 | Deletes exactly the key rows created before now minus the retention window |
| RateLimit.WindowSafety | backend/src/incident_desk/ratelimit.py:50-77 | However checks of one key interleave, if a check that finds the key expired is stamped a whole window after the last one, every window (t - W, t] holds at most limit attempts admitted by count |
| RateLimit.SafeExactlyWhen | backend/src/incident_desk/ratelimit.py:48-56 | For limit and window of at least 1, every run whose stamps are between lo and hi on their way to Redis keeps the limit in every window, if and only if the delays cannot differ |
| RateLimit.ExpiryIsUnobservable | backend/src/incident_desk/ratelimit.py:51-56 | With and without the TTL trimming leaves the same members, if and only if the key is alive or all its members have left the caller's window; a punctual check is such a case |
| RateLimit.LateStampOverruns | backend/src/incident_desk/ratelimit.py:48-56 | A concrete run in which a check arrives a second after the TTL has run out, with a member still in its window, and the limit is exceeded |
| RateLimit.RefusedExactlyWhen | backend/src/incident_desk/ratelimit.py:56-77 | Under any interleaving an attempt is refused if and only if the admissions of its window and the members that were never admitted but are still in the key together reach the limit; otherwise it is told the room left and the window |
| RateLimit.UnreachableFailsOpen | backend/src/incident_desk/ratelimit.py:78-86 | When Redis fails at any round trip the attempt is let in with the whole limit reported as left, and is not counted |
| RateLimit.RetryAfterExactly | backend/src/incident_desk/ratelimit.py:61-70 | After any run and under any interleaving a refused attempt is told the first whole second by which the oldest member it reads has left the window, or W + 1 if it reads none; that is at most W + 1 if and only if the key is empty or holds a member less than a second newer than the attempt |
| RateLimit.TwoRefused | backend/src/incident_desk/ratelimit.py:56-60 | A reachable state in which an attempt is refused although its window holds no admission |
| RateLimit.InterleavingOverstates | backend/src/incident_desk/ratelimit.py:58-63 | A reachable state in which a refused caller with W = 60 is told to wait 63 seconds |
| RateLimitSequential.CheckRefinesLog | backend/src/incident_desk/ratelimit.py:44-77 | One punctual check at a time: allowed iff fewer than limit admissions lie in (now - W, now]; remaining is exact; a refusal leaves no trace; 1 <= retry-after <= W + 1 |
| RateLimitSequential.AllowedExactlyWhen | backend/src/incident_desk/ratelimit.py:44-77 | One check at a time, punctual or not: its answer is the log's if and only if the key has not expired while the window was full |
| RateLimitSequential.WaitingWorks | backend/src/incident_desk/ratelimit.py:58-70 | A refused caller that waits retry-after with no other admission is allowed, for any limit >= 1 and any delays |
| RateLimitSequential.NoShorterWait | backend/src/incident_desk/ratelimit.py:61-63 | With no other admission a punctual caller that comes back a second or more before its retry-after is refused again |
| RateLimitSequential.SlidingWindowLimiter.CheckOne | backend/src/incident_desk/ratelimit.py:44-77 | The method refines the two-round-trip check; run alone it is allowed iff what it counts leaves room, and a punctual one answers as the log of admissions does |
| RateLimitSequential.SlidingWindowLimiter.RunPipeline | backend/src/incident_desk/ratelimit.py:51-56 | Trim, add, count and TTL refresh as one atomic step on the key Redis still holds |
| RateLimitSequential.SlidingWindowLimiter.RemoveMember | backend/src/incident_desk/ratelimit.py:60 | The refused member is removed in a separate step |
| RateLimitSequential.SlidingWindowLimiter.First | backend/src/incident_desk/ratelimit.py:61-62 | Finds the smallest score by a loop over the members |
| RateLimitSequential.SlidingWindowLimiter.WholeWait | backend/src/incident_desk/ratelimit.py:61-63 | The first whole second by which the oldest member leaves the window, or W + 1 |
| RateLimitSequential.SlidingWindowLimiter.Refuse | backend/src/incident_desk/ratelimit.py:61-70 | Answers the refusal with that wait as both retry-after and reset, and nothing remaining |
| Sessions.FamiliesAreLinear | backend/src/incident_desk/services/sessions.py:105-140 | In every reachable state two tokens of a family have one user, are revoked together, and are not both live; a revoked family has no live token |
| Sessions.ExchangedAtMostOnce | backend/src/incident_desk/services/sessions.py:127-140 | No refresh token is exchanged twice in any run |
| Sessions.ExchangedInTime | backend/src/incident_desk/services/sessions.py:125-140 | In any run a refresh token is exchanged only before its thirty days have passed since it was issued, while its family is unrevoked and its owner exists and is active |
| Sessions.DeadStaysDead | backend/src/incident_desk/services/sessions.py:105-113 | A revoked family stays revoked and gains no live token whatever follows |
| Sessions.ReuseKillsTheFamily | backend/src/incident_desk/services/sessions.py:127-131 | Presenting a consumed token is detected as reuse, and in no later state is any token ever issued in its family accepted |
| Sessions.LogoutKillsTheFamily | backend/src/incident_desk/services/sessions.py:143-152 | After a logout no token ever issued in the family is accepted in any later state |
| Sessions.ResetKillsForGood | backend/src/incident_desk/services/auth_service.py:93-117 | After a reset commits, no access token, MFA token or refresh token issued to that user before is accepted in any later state |
| Sessions.ResetSparesOthers | backend/src/incident_desk/services/sessions.py:155-166 | A reset changes no other user's tokens, rotations or signed-token acceptance |
| Sessions.ResetTokensWorkOnce | backend/src/incident_desk/services/auth_service.py:82-117 | A reset token works for thirty minutes and once; using it sets the password and verifies the account |
| Sessions.NewSessionsWork | backend/src/incident_desk/services/sessions.py:73-102 | A session opened now has an accepted access token and a rotatable refresh token until it expires |
| Sessions.SessionsAreIsolated | backend/src/incident_desk/services/sessions.py:105-166 | Over any run, a working session stops working only by its own user's reset or deactivation, a rotation or logout within its family, expiry or pruning |
| SessionServer.SessionService.IssueSession | backend/src/incident_desk/services/sessions.py:73-81 | Opens a family with one live token and returns its pair |
| SessionServer.SessionService.Mint | backend/src/incident_desk/services/sessions.py:84-102 | Adds one unexpired token to the family and signs an access token at the user's current version |
| SessionServer.SessionService.RevokeFamily | backend/src/incident_desk/services/sessions.py:105-113 | Stamps every unrevoked token of the family and no other |
| SessionServer.SessionService.RotateRefresh | backend/src/incident_desk/services/sessions.py:116-140 | Succeeds iff the token is known, unrevoked, unconsumed, unexpired and of an active user; then consumes it and adds its successor with thirty days; a consumed unrevoked one is reuse, any other refusal is invalid |
| SessionServer.SessionService.Refresh | backend/src/incident_desk/api/v1/auth.py:155-169 | The same, written over the tables: success and reuse commit, any other error leaves the tables as they were; after reuse the whole family is revoked |
| SessionServer.SessionService.RevokeSession | backend/src/incident_desk/services/sessions.py:143-152 | Revokes the presented token's family; an unknown token changes nothing |
| SessionServer.SessionService.RevokeAllSessions | backend/src/incident_desk/services/sessions.py:155-166 | Stamps every unrevoked token of the user and bumps the version |
| SessionServer.SessionService.ResetPassword | backend/src/incident_desk/services/auth_service.py:93-117 | Succeeds iff the reset token is unconsumed, unexpired and of an active user; then consumes it, sets the password, verifies the account and severs its sessions |
| SessionServer.SessionService.ResolveUser | backend/src/incident_desk/api/deps.py:41-50 | Accepts exactly access tokens of active users at the current version |
| SessionServer.SessionService.CompleteChallenge | backend/src/incident_desk/services/mfa.py:117-130 | Opens a session iff the MFA token is current, MFA is enabled and the code is good; otherwise nothing changes |
| SessionServer.SessionService.PruneTokens | backend/src/incident_desk/jobs/tasks.py:132-139 | Deletes exactly the tokens that expired before the grace period |
| BrowserClient.NeverAccusedOfReuse | frontend/src/api/client.ts:72-126 | With one tab and no lost reply, no run of concurrent 401s makes the server detect reuse, and whenever no refresh is in flight the stored token is unconsumed |
| BrowserClient.ReuseFiresExactlyWhen | backend/src/incident_desk/services/sessions.py:123-133 | Over any run, lost replies included, the server detects reuse if and only if the presented token was exchanged for a pair whose reply was lost and is still kept unrevoked |
| BrowserClient.LostReplyIsTakenForTheft | frontend/src/api/client.ts:79-96 | After any run, if the reply to a successful rotation is lost while the client keeps the old token, its next 401 is detected as reuse and revokes the family |
| BrowserClient.PresentingTwiceIsReuse | backend/src/incident_desk/services/sessions.py:127-131 | A second tab that presents an exchanged token is taken for a thief and kills the family |
| BrowserClient.OneFlightAtATime | frontend/src/api/client.ts:72-100 | Over any run all refreshes sent but at most one have landed, and nobody waits when none is in flight |
| BrowserClient.ReplyMovesTheWaiting | frontend/src/api/client.ts:85-99 | A successful reply stores its pair and sends every waiting call out again; a failed or lost one ends every waiting call in its 401; no other call moves |
| BrowserClient.RefreshHeals | frontend/src/api/client.ts:102-126 | A 401 with a good stored token heals itself: the call goes out again with an access token the server accepts, and the new refresh token rotates |
| BrowserClient.EndsIn401ExactlyWhen | frontend/src/api/client.ts:121-125 | In any run a call ends in a 401 if and only if its first attempt found no stored token, the refresh it waited for failed or was lost, or its second attempt got a 401 |
| BrowserClient.RetriedAtMostOnce | frontend/src/api/client.ts:102-126 | Over any run a call reaches the server at most twice |
| BrowserClient.ApiClient.RefreshAccessToken | frontend/src/api/client.ts:74-100 | False at once without a token; otherwise joins the flight or starts the one flight with the stored token |
| BrowserClient.ApiClient.Raw401 | frontend/src/api/client.ts:121-125 | A first 401 waits for the flight, a second one is final |
| BrowserClient.ApiClient.FlightEnds | frontend/src/api/client.ts:85-96 | A success stores both tokens and wakes every waiter to retry; a failure fails them |
| BrowserClient.ApiClient.FlightFails | frontend/src/api/client.ts:92-96 | When the fetch throws every waiter fails and the stored token stays |
| Listing.IncidentWalkIsTheList | backend/src/incident_desk/services/incidents.py:318-325 | Sending next_cursor back until it is null over a fixed table meets no invalid cursor and returns exactly the rows of the table that match the filter, strictly by (sort DESC, id DESC), for any page size and any ties |
| Listing.IncidentWalkUnderChange | backend/src/incident_desk/services/incidents.py:301-325 | With arbitrary inserts, deletes and edits between pages: no cursor is refused, rows are strictly descending, no id repeats, every returned row was there and matched at some page, and a finished walk returns every row that was there and matched throughout |
| Listing.EventWalkIsTheTimeline | backend/src/incident_desk/services/timeline.py:33-56 | The same walk over a fixed timeline returns all events in ascending seq |
| Listing.EventWalkUnderAppend | backend/src/incident_desk/services/timeline.py:33-56 | While events are appended between pages, a finished walk returns every event that was there from the start, in order |
| Listing.ListIncidents | backend/src/incident_desk/services/incidents.py:284-325 | A 400 iff the cursor stands for no instant and id; otherwise the first limit rows that match and come after them, in order, with a next cursor naming the last row iff others are left |
| Listing.ReadCursor | backend/src/incident_desk/services/incidents.py:301-308 | The instant and id a cursor stands for, or the 400 |
| Listing.ListEvents | backend/src/incident_desk/services/timeline.py:41-56 | A 400 iff the cursor holds no integer; otherwise the first limit events past it, ascending, with a next cursor iff others are left |
| Listing.FetchPage | backend/src/incident_desk/services/incidents.py:318-324 | Fetching limit + 1 rows, trimming, and pointing the cursor at the last row kept is the keyset page |
| Listing.OrderByLimit | backend/src/incident_desk/services/incidents.py:318-319 | ORDER BY and LIMIT as repeated selection: a prefix of the sorted list |
| Keyset.FixedWalkIsSorted | backend/src/incident_desk/pagination.py:3-12 | Over any strict total order, pages of any size concatenate to the sorted list |
| Keyset.PageIsFirst | backend/src/incident_desk/pagination.py:3-12 | A page is the first limit of the remaining keys in order, with a next cursor iff some key remains |
| Keyset.WalkUnderChange | backend/src/incident_desk/pagination.py:3-10 | Over any strict total order and any sequence of tables a walk repeats nothing, stays in order and misses nothing that was there throughout |
| TextPages.TextWalkIsWalk | backend/src/incident_desk/pagination.py:28-40 | Walking with the printed cursors is walking with the keys they were printed from |
| Cursor.DecodeEncode | backend/src/incident_desk/pagination.py:28-40 | Decoding an encoded pair never fails and yields the pair with surrogate pairs joined |
| Cursor.RoundTripExactlyWhen | backend/src/incident_desk/pagination.py:28-40 | Decode after encode returns the very pair iff neither text holds a high surrogate directly before a low one |
| Cursor.FailingPair | backend/src/incident_desk/pagination.py:28-40 | A concrete pair that comes back different: two surrogates become one code point |
| Cursor.IncidentCursorCarriesKey | backend/src/incident_desk/pagination.py:43-48 | An incident cursor gives back its ISO time stamp and its UUID |
| Cursor.EventCursorCarriesSeq | backend/src/incident_desk/services/timeline.py:43-55 | A timeline cursor gives back its seq, for any integer |
| Cursor.UuidRoundTrip | backend/src/incident_desk/pagination.py:29-46 | The dashed text of a UUID parses back to its 32 digits |
| Base64Url.RoundTrip | backend/src/incident_desk/pagination.py:30-36 | The URL-safe encoding of any bytes decodes to them |
| Base64Url.StripThenRepad | backend/src/incident_desk/pagination.py:30-35 | Stripping the padding and adding -len % 4 of it restores the encoding exactly |
| JsonString.EscapeScans | backend/src/incident_desk/pagination.py:29-36 | The escaped form of any text is read up to its closing quote as that text with surrogate pairs joined |
| JsonString.SurvivesExactlyWhen | backend/src/incident_desk/pagination.py:29-36 | Printing and reading a text is the identity iff it holds no surrogate pair |
| Lifecycle.LogReplaysToRow | backend/src/incident_desk/services/incidents.py:119-188 | After any run of requests the timeline replays to the row's status, severity and assignee; every from is the value just before; statuses follow legal edges; acknowledged_at, resolved_at and a non-blank summary are set exactly in the statuses past them |
| Lifecycle.LogAloneReplaysExactlyWhen | backend/src/incident_desk/services/incidents.py:135-145 | Without the assignee named at creation, which the created event does not carry, the timeline replays to the row if and only if the incident was created unassigned or has been reassigned |
| Lifecycle.TableIsTheDiagram | backend/src/incident_desk/state_machine.py:3-28 | The transition table holds exactly the five edges the documentation draws |
| Lifecycle.TimelineOnlyGrows | backend/src/incident_desk/services/timeline.py:13-30 | The timeline after m requests is a prefix of the timeline after n >= m |
| Lifecycle.VersionCounts | backend/src/incident_desk/services/incidents.py:174-254 | The version is the first version plus the number of committed mutations |
| Lifecycle.NoLostUpdate | backend/src/incident_desk/services/incidents.py:211-216 | Of two PATCHes carrying one version at most one commits; it applies to the state that had that version and the other gets a conflict with the current row |
| Lifecycle.PatchSetsWhatWasAsked | backend/src/incident_desk/services/incidents.py:217-256 | A committed PATCH leaves exactly the requested values and moves nothing else but the version; the timeline gains a severity and an assignment event iff they changed and one event naming exactly the other fields that changed, once each and in order |
| Lifecycle.FreshEtagNeverConflicts | backend/src/incident_desk/api/v1/incidents.py:52-61 | At any version the column can hold, sending back the ETag just received conflicts never, and fails iff a new assignee is not a member |
| Lifecycle.IncidentService.TransitionStatus | backend/src/incident_desk/services/incidents.py:149-188 | Succeeds iff the edge is drawn and a resolution has a non-blank summary; then status, version, milestones, trimmed summary and event are set; a refusal names the allowed targets and changes nothing |
| Lifecycle.IncidentService.UpdateIncident | backend/src/incident_desk/services/incidents.py:191-256 | A conflict iff the version differs, a bad assignee iff a new assignee is not a member, and otherwise exactly the requested change and its events |
| Lifecycle.IncidentService.EditFields | backend/src/incident_desk/services/incidents.py:242-253 | Sets the edited fields and records one event naming exactly those that differ, in order, or none |
| Lifecycle.IncidentService.RecordEvent | backend/src/incident_desk/services/timeline.py:13-30 | Appends one event |
| Lifecycle.IncidentService.Serve | backend/src/incident_desk/api/v1/incidents.py:269-295 | Every error of a request, even one raised after a write, leaves row and timeline unchanged |
| Etag.EtagRoundTrip | backend/src/incident_desk/api/v1/incidents.py:52-61 | The printed ETag, the bare number and the weak form parse to the version if and only if it has at most 4300 digits, as every version the 32-bit column can hold does |
| Etag.CrashesExactlyWhen | backend/src/incident_desk/api/v1/incidents.py:52-57 | int() raises past the guard iff the cleaned header is digits and superscript digits, and holds a superscript or more than 4300 of them |
| Etag.SuperscriptCrashes | backend/src/incident_desk/api/v1/incidents.py:54-57 | A concrete header that crashes the handler instead of answering 400 |
| Etag.ManyDigitsCrash | backend/src/incident_desk/api/v1/incidents.py:54-57 | A header of 4301 decimal digits crashes the handler too |
| Escalation.EscalationRun | backend/src/incident_desk/jobs/tasks.py:34-100 | With fixed settings and users and a scheduler never early: at most |chain| + 2 checks, one early at most; no level acts before start + timeout * (level + 1); at the end the worker has told exactly those that exist among the primary target followed by the whole chain, in order |
| Escalation.OnlyLevelZeroWaits | backend/src/incident_desk/jobs/escalation.py:70-72 | No level above 0 ever finds itself early |
| Escalation.LevelsActInTime | backend/src/incident_desk/jobs/tasks.py:94-100 | When no check runs more than a slack late, level n is told between n + 1 timeouts after the start and n + 1 timeouts and slacks after the later of start and creation |
| Escalation.SilencedForGood | backend/src/incident_desk/jobs/escalation.py:67-68 | Once a run of requests has moved the incident past open, no later check tells anyone or asks for another |
| Escalation.RetryIsHarmlessExactlyWhen | backend/src/incident_desk/jobs/tasks.py:34-100 | Running a finished check again, at any later time and with anyone on call, leaves e-mails, timeline and queue as one run left them, if and only if the incident is not escalating, or the check was due on the last level and nobody is left to tell |
| Escalation.PartialRunIsHarmlessExactlyWhen | backend/src/incident_desk/jobs/tasks.py:72-100 | A check that failed after some e-mails, after its commit or at its end, and is run again with everything read afresh, leaves what one run leaves if and only if the part that ran queued no e-mail, recorded nothing and asked for no follow-up |
| Escalation.EarlyRetryTellsTwice | backend/src/incident_desk/jobs/tasks.py:94-100 | A concrete early check run twice queues two follow-ups, and both tell the person on call |
| Escalation.Plan | backend/src/incident_desk/jobs/escalation.py:53-83 | Tells one person or asks for another check only for an open, unacknowledged sev1, and tells nobody before the level is due |
| Escalation.ParseConfig | backend/src/incident_desk/jobs/escalation.py:37-50 | Minutes clamped at 0, defaulted to 15 when missing or unreadable; the chain keeps the readable entries in order |
| Escalation.EntriesInOrder | backend/src/incident_desk/jobs/escalation.py:44-49 | The chain keeps exactly the readable entries, in order |
| Escalation.FirstOnCall | backend/src/incident_desk/jobs/tasks.py:48-52 | The first schedule with somebody on shift |
| Escalation.Worker.CheckEscalation | backend/src/incident_desk/jobs/tasks.py:72-100 | Nothing unless the incident is an open unacknowledged sev1; one check at the due time if early; otherwise one e-mail and one event for the level's target if it exists, and the next level's check one timeout later if there is one |
| Broker.SubscriptionsAgree | backend/src/incident_desk/services/realtime.py:63-94 | In every interleaving, while the lock is free Redis is subscribed to exactly the control channel and the channels with a listener, and no channel has an empty listener set |
| Broker.IndexAgrees | backend/src/incident_desk/api/realtime_ws.py:84-195 | A socket between messages is listed under exactly its subscribed channels, a closed one under none, and its queue holds exactly the messages relayed while it was listed, in order, once each |
| Broker.RelayReachesHolders | backend/src/incident_desk/services/realtime.py:96-108 | In every reachable state a relayed message reaches, once and last, exactly the sockets between messages that hold its channel, and no closed one |
| Broker.HeldChannelsAreHeard | backend/src/incident_desk/services/realtime.py:79-84 | A channel that a socket between messages holds is subscribed in Redis |
| Broker.NobodyListensUnasked | backend/src/incident_desk/api/realtime_ws.py:113-128 | In every run a socket is listed only under an allowed channel it asked for as a member |
| Broker.SubscribeWorks | backend/src/incident_desk/services/realtime.py:79-84 | A member that asks for an allowed channel while the lock is free gets it, and is listed, after one or two steps |
| Broker.UnsubscribeWorks | backend/src/incident_desk/services/realtime.py:86-94 | Dropping a held channel ends the listing, and the Redis subscription with the last one |
| Broker.AskableExactly | backend/src/incident_desk/api/realtime_ws.py:45-70 | The channels that may be asked for are exactly the two shapes |
| Broker.LockIsReleasable | backend/src/incident_desk/services/realtime.py:79-94 | A held lock always belongs to a socket whose next step releases it |
| Broker.ControlIsNotAskable | backend/src/incident_desk/api/realtime_ws.py:41-70 | No client can subscribe to the control channel |
| BrokerServer.RealtimeBroker.AddSubscriber | backend/src/incident_desk/services/realtime.py:79-84 | Adds exactly one listing and keeps the subscriptions equal to the listed channels |
| BrokerServer.RealtimeBroker.RemoveSubscriber | backend/src/incident_desk/services/realtime.py:86-94 | Removes exactly one listing, with the channel and its subscription when it was the last |
| BrokerServer.RealtimeBroker.Relay | backend/src/incident_desk/services/realtime.py:107-108 | Appends the payload once to every listed queue |
| BrokerServer.Connection.OnSubscribe | backend/src/incident_desk/api/realtime_ws.py:113-128 | Answers subscribed iff already held or allowed; the connection and the broker stay in agreement and no other queue moves |
| BrokerServer.Connection.OnUnsubscribe | backend/src/incident_desk/api/realtime_ws.py:140-155 | Drops exactly that channel on both sides |
| BrokerServer.Connection.Cleanup | backend/src/incident_desk/api/realtime_ws.py:172-195 | Afterwards the queue is listed nowhere and no other listing has moved |
| Members.AlwaysAnOwner | backend/src/incident_desk/services/members.py:72-112 | In every reachable state every organisation has an owner |
| Members.OwnersChangeOnlyByOwners | backend/src/incident_desk/services/members.py:72-76 | The owner set changes only by a current owner's step or by accepting an invitation issued by someone who was an owner then |
| Members.InvitationsAreSingleUse | backend/src/incident_desk/services/members.py:184-209 | No invitation is accepted twice in any run, and no address has two pending invitations to one organisation |
| Members.MemberService.CreateOrganization | backend/src/incident_desk/services/orgs.py:16-37 | The founder is the only member and an owner |
| Members.MemberService.OwnerCount | backend/src/incident_desk/services/members.py:56-62 | Counts the owners |
| Members.MemberService.ChangeRoleOf | backend/src/incident_desk/services/members.py:79-97 | Each refusal by its exact condition, the last owner included; otherwise sets that one role |
| Members.MemberService.RemoveMember | backend/src/incident_desk/services/members.py:100-112 | Each refusal by its exact condition; otherwise removes that one membership |
| Members.MemberService.CreateInvitation | backend/src/incident_desk/services/members.py:115-151 | Succeeds iff an owner invites an owner, nobody with the address is a member and none is pending; then one pending invitation that lasts seven days |
| Members.MemberService.RevokeInvitation | backend/src/incident_desk/services/members.py:168-181 | Deletes a pending invitation of the organisation, and nothing else |
| Members.MemberService.AcceptInvitation | backend/src/incident_desk/services/members.py:184-209 | Succeeds iff the invitation is pending, unexpired and addressed to the user; then consumes it and adds the invited role unless there is a membership |
| Mfa.CodesAreUsedOnce | backend/src/incident_desk/services/mfa.py:84-110 | Over any run the accepted timesteps strictly increase and no recovery code succeeds twice |
| Mfa.ChallengeAcceptsExactly | backend/src/incident_desk/services/mfa.py:113-130 | In every reachable state a challenge is accepted iff MFA is enabled, the code is ASCII, and it is that of a step within the skew newer than every accepted one, or an unused recovery code; the step is preferred, and what was accepted is consumed |
| Mfa.CrashesExactlyWhen | backend/src/incident_desk/security/totp.py:39-42 | In every reachable state confirming or logging in ends in an uncaught exception iff the code is not ASCII and there is a pending or an enabled secret to compare it with |
| Mfa.RecoveryCodesWork | backend/src/incident_desk/services/mfa.py:76-81 | Every recovery code handed out at confirmation logs in, after any requests in which it has not been used |
| Mfa.FullWidthCrashes | backend/src/incident_desk/security/totp.py:39-42 | A concrete such request |
| Mfa.SecretIsFixed | backend/src/incident_desk/services/mfa.py:48-58 | Once enabled the secret never changes |
| Mfa.ReplayIsRefused | backend/src/incident_desk/services/mfa.py:90-93 | Over any run, whatever step is accepted later is newer than every step accepted before |
| Mfa.MatchCode | backend/src/incident_desk/security/totp.py:30-43 | The loop raises iff the code is not ASCII; otherwise it returns the highest matching step within plus or minus one, or None iff none matches |
| Mfa.MfaService.Start | backend/src/incident_desk/services/mfa.py:48-58 | Sets a pending secret, refused once enabled |
| Mfa.MfaService.Confirm | backend/src/incident_desk/services/mfa.py:61-81 | Enables at the matched step and issues unused recovery codes, or refuses unchanged |
| Mfa.MfaService.TryTotp | backend/src/incident_desk/services/mfa.py:84-95 | Accepts exactly a step newer than the last and records it; raises on a code that is not ASCII |
| Mfa.MfaService.TryRecoveryCode | backend/src/incident_desk/services/mfa.py:98-110 | Accepts exactly an unused code and marks it used |
| Mfa.MfaService.CompleteChallenge | backend/src/incident_desk/services/mfa.py:126-129 | Tries the timestep first and the recovery code only then, and consumes exactly what was accepted |

Paths are relative to the repository's root.

## Left out

- Cursor.DecodeCursor: reads JSON arrays of two strings; other documents of two elements (numbers, nested values, objects, a two-character string), which `json.loads` and tuple unpacking also accept, are refused here. So is a document nested deeper than the interpreter's recursion limit, on which `json.loads` raises an error that `pagination.py:39` does not catch, so that the promised 400 becomes a 500.
- Cursor.ParseUuid: removes dashes only; the `urn:uuid:` prefix, braces and the looser digit forms `UUID()` also strips or accepts are refused here.
- Cursor.EventCursorCarriesSeq: `int()` is modelled with white space and a sign, not with underscores, non-ASCII digits or the limit of 4300 digits, which no 64-bit seq reaches; a pivot outside 64 bits, which the database driver refuses, is compared like any other.
- Lifecycle.VersionCounts: the version grows without bound; the column's overflow after 2^31 - 2 changes of one incident is not modelled.
- Escalation.ParseConfig: settings of the wrong shape (a null chain, a non-object section) and timeouts too large for `timedelta` raise in the program and are not modelled.
- Escalation.EscalationRun: the incident stays an open sev1 and settings and users stay fixed; a change of severity midway ends the chain by `Escalation.Plan`.
- Mfa.MfaService.Confirm: recovery codes are distinct random values; the program does not check that two of the ten differ.
- Broker.IndexAgrees: cancellation inside a subscribe or unsubscribe call, and Redis errors there, are not modelled; messages Redis drops are not either.
- RateLimit: a window of zero seconds, which no caller asks for and for which EXPIRE deletes the key at once.
- Creation: audit rows, the e-mail and broker notices after the commit, and the deletion of an organisation.
- Sessions: JWT expiry, e-mail verification tokens, password checking and the deletion of users; users are deactivated but never deleted.
- Members: slug uniqueness is a precondition of creating an organisation.
- Races on rows taken without a lock (two refreshes, two PATCHes, two demotions of an owner at once) lie outside the serial-transaction assumption.
- List filters are an arbitrary predicate; full-text search, metrics and the daily rollup run inside Postgres.
- Audit and comment listing: the same keyset shape as incidents and events, covered by `Keyset`.
- On-call overlap is a Postgres exclusion constraint; who is on call is an input.
- HTTP routing, schemas, error envelopes, middleware, UI components, presence sets, WebSocket tickets, attachments, e-mail delivery, seeding and migrations.
