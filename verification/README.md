# Verification of yasaku's stateful and parsing core

This project models the parts of yasaku whose correctness depends on interleavings, on state that is
changed step by step, or on text that has to survive a round trip, and proves what they promise. Check it
with `dafny verify dfyconfig.toml` (Dafny 4.11).

A component that several callers drive at once is modelled twice. A class carries the source's fields and
methods, each proved against a function of the old state. A state machine (`Enabled`, `Next`, `Trace`,
`After`) interleaves the same steps for any number of callers, and the results about it hold for every
trace. Everything the code does not decide (clocks, random draws, what an issuer, a database, a transport
or a locker answers) is a parameter of the step that meets it, so the results hold for all of its values.

| file | models |
|---|---|
| `SessionFile.dfy`, `SessionProtocol.dfy` | the CLI session file, its locked edits, and refresh-token rotation by an issuer (section 6 of RFC 6749, section 4.14.2 of RFC 9700, section 2 of RFC 7009) shared by any number of processes |
| `BlogStore.dfy`, `BlogProtocol.dfy`, `BlogEdits.dfy`, `BlogRaces.dfy`, `BlogService.dfy` | the versioned post row, the entity tag made from its version (sections 8.8.3 and 13.1.1 of RFC 9110), publish, unpublish, update and delete calls interleaved at load, save, enqueue and commit, what they write field by field, and the races that break their promises |
| `IdempotencyStore.dfy`, `IdempotencyProtocol.dfy` | the idempotency map and list, and the create requests that share it |
| `Scheduler.dfy` | the runner: drain flag, wait-group count, in-flight flags and the cross-process lock |
| `Retry.dfy`, `RetryWaits.dfy`, `LimitReader.dfy` | the retrying transport with its backoff, its waits in plain numbers, and the response body limiter |
| `Money.dfy`, `MoneyTexts.dfy`, `PgArray.dfy` | printing and parsing money, the texts currency by currency, and Postgres text arrays |
| `CategorySeed.dfy`, `CategoryRows.dfy` | seeding default categories, the rows it adds field by field, the preview that counts it, and the mirror's unit of work |
| `Usage.dfy` | the last-used batcher |
| `Basics.dfy`, `Text.dfy`, `Decimal.dfy`, `Doubles.dfy` | options and results, the string helpers, decimal numerals, 64-bit wrap-around, and conversions between int64 and double |

## Where the code keeps its promise only under a condition

Each of these is a theorem with the exact condition, or a run that breaks the promise without it.

- A failed save of the session file is harmless exactly when the edit did not make the issuer void the
  token the file still holds; after any other one a later run presents a token that was spent or revoked,
  unless the profile a failed logout or sign-in leaves has no url, which sign-in never stores
  beside a token
  (`SessionProtocol.FailedSaveIsHarmlessIff`, `SparingTheFileIsExact`, `FailedSaveLeadsToASpentToken`).
- The blog's promises hold for runs in which no save goes through over a deleted row, nor an update's over a
  row whose status or first publication is not the loaded one. That is exact, step by step: every step that
  breaks it is followed by a commit that breaks the row's history (`BlogRaces.DisciplineIsExact`). An update
  that names a version its load had cannot break it but by a delete (`BlogProtocol.ToldUpdatesHeed`). One that
  names none, as the console's edit form always does (internal/web/handlers/blog.go:510-511), or guesses the
  next, takes an unseen publication back without an event; a publish racing a delete brings the post back, and
  can tell its publication twice; a delete that guesses the next version tells an old row
  (`BlogRaces.UnseenPublicationIsTakenBack`, `DeleteRaceBringsThePostBack`, `DeleteRaceRepeatsAnEvent`,
  `GuessedDeleteTellsAnOldRow`).
- The early-stopping sweep is exact exactly when the list is in expiry order, and storing a response keeps
  it so exactly when its expiry is not before the others'. The code reads that clock before it takes the
  mutex, so it can fail (`IdempotencyStore.EarlyClockReadOutlivesItsTime`).
- A key makes at most one post exactly as long as no step evicts or expires its entry and no request leaves
  the post it made unstored, as one does whose answer cannot be encoded
  (internal/dataplane/blog.go:241-245, `IdempotencyProtocol.AtMostOneCreate`, `AtMostOneCreateIff`).
- `ParseMajor` undoes `Major` exactly for non-negative amounts the shown decimals can express: 1.50 rupiah
  prints as `1.50` and reads back as 150 rupiah (`Money.ParseUndoesMajorIff`, `PrintedReadsBack`).
- The seed preview says it mirrors seeding (internal/controlplane/category_service.go:226), but only seeding
  checks a name's length: they agree exactly when no missing default's name is over a hundred characters.
  New sort orders are fresh exactly while there is room under the column's top
  (`CategorySeed.PreviewOfTheTableAgreesIff`, `OrdersWillBeFreshIff`).
- The times the usage batcher hands over for a key never go back, however it is interleaved, exactly when
  the recorded ones never do (`Usage.StoreNeverGoesBackIff`).
- A body limit of the largest 64-bit number makes every read panic, and no other limit does
  (`LimitReader.PanicsIff`). A `Retry-After` in seconds is honoured exactly up to 9223372036
  (`Retry.SecondsAreHonouredIff`).
- No backoff is longer than the worst case told exactly when the base delay is positive and the maximum lies
  below the last 512 nanoseconds of the range, or the base delay leaves it no room: otherwise a double of 2^63
  is converted, whose result the language leaves open. The worst case never shrinks, and no wait is zero, under
  like conditions (`Retry.NoWaitPassesTheWorstIff`, `WorstNeverShrinksIff`, `NoWaitIsZeroIff`).
- The array parser reads every mix of quoted and bare elements back, except one bare empty element alone,
  which is the empty array (`PgArray.ParseReadsBackIff`). Postgres quotes empty elements.

## Model

| member | source | states |
|---|---|---|
| SessionFile.ProfileStore.Load | internal/cli/session_file.go:117-128 | an unlocked read returns the named profile of the file as it stands, nothing for a missing name or file, and the file's own error otherwise |
| SessionFile.ProfileStore.EditWith | internal/cli/session_file.go:130-148 | one locked edit: the file afterwards is the callback's table if it reports a change and the save works, and untouched otherwise, also when the lock is never got; the error is the lock's, the file's, the callback's, or the last two joined; the lock is free again on every path |
| SessionFile.ProfileStore.AccessToken | internal/cli/refresh.go:25-58 | a fresh token or an unusable profile is answered without touching the file; every other call is exactly one locked refresh edit; a token answered is the stored one with more than a minute left, or of a kind that can neither expire nor be refreshed, or the one the issuer just answered, and then the file holds that answer in the one profile |
| SessionFile.RefreshEditTells | internal/cli/refresh.go:37-108 | every outcome of a refresh edit in plain fields: the refusals, the stored token answered, and for each of the issuer's answers what is stored in the one profile, what is answered and what is asked of the issuer |
| SessionFile.OtherEditsTell | internal/cli/auth_remote.go:96-104 | logout, sign-in and setting the principal change exactly the entry they name, and how; the first two revoke the refresh token it held |
| SessionFile.SameURLIff | internal/cli/url.go:19-21 | two urls are one host's if and only if they differ in slashes at their end alone |
| SessionFile.EditOnDisk | internal/cli/session_file.go:50-81 | what an edit finds and leaves on disk for every file version, and the error it reports |
| SessionProtocol.NeverPresentsASpentToken | internal/cli/refresh.go:81-108 | in every interleaving of refreshes, logouts, sign-ins and identity updates, no refresh token is presented that was spent by an exchange or revoked |
| SessionProtocol.NoTokenIsSpentTwice | internal/cli/refresh.go:25-58 | once a presentation spent a token, no later presentation by any process is of that token |
| SessionProtocol.StoredTokensAreCurrent | internal/cli/auth_remote.go:96-104 | whenever no change waits to be saved, in particular when the lock is free, every stored refresh token is one the issuer neither spent nor revoked, and no two profiles share one |
| SessionProtocol.FileStepKeeps | internal/cli/session_file.go:130-148 | every step of any process, a failed save included, keeps one lock holder, the table each holder works on, and the log of edits in step with the file |
| SessionProtocol.EditsAreSerialisable | internal/cli/session_file.go:83-148 | in every run, whatever saves fail, the file equals the saved changes replayed in lock order on what it first held, so a reader without the lock sees a whole number of edits, and an edit that reported no change is never among them |
| SessionProtocol.UnreadableFileIsKept | internal/cli/session_file.go:50-81 | whenever in a run the file cannot be read, or is of a newer format, nothing ever replaces it afterwards |
| SessionProtocol.FailedSaveIsHarmlessIff | internal/cli/session_file.go:142-147 | a failed save leaves a well-stored file if and only if its edit voided no token at the issuer |
| SessionProtocol.SparingTheFileIsExact | internal/cli/session_file.go:142-147 | in every state the protocol keeps, a step's failed save spares the file if and only if every later run whose failed saves do presents only tokens neither spent nor revoked; for a failed logout or sign-in, if the profile it leaves has a url |
| SessionProtocol.FailedSaveLeadsToASpentToken | internal/cli/refresh.go:38-56 | from every such state, a failed save that voided the token the file holds has a continuation whose refresh presents a token that is not current; after a failed logout or sign-in, if the profile it leaves has a url |
| SessionProtocol.FailedSavePresentsASpentToken | internal/cli/refresh.go:38-56 | such a run from a first sign-in on: an exchange rotates, its save fails, and the next refresh presents the spent token |
| SessionProtocol.CallbackKeeps | internal/cli/auth_remote.go:225-250 | each edit's callback, answered by any lawful issuer, leaves a table whose tokens are current at the issuer it leaves behind |
| SessionProtocol.SoloEditIsTheStoresEdit | internal/cli/session_lock.go:16-46 | left alone, the small steps of one process (lock, read, callback, save, unlock) leave on disk what the store's edit leaves |
| SessionProtocol.LeavingChangesNothingElse | internal/cli/session_lock.go:16-46 | a process that gives up waiting, lets go of the lock or drops a sign-in is idle again and has changed nothing else but, for the last, the token it revoked |
| BlogStore.Deduplicate | internal/blog/blog.go:103-115 | the loop over tags keeps the first of each, in order |
| BlogStore.FirstSeenIsASet | internal/blog/blog.go:103-115 | a deduplicated list names the same tags and none twice |
| BlogStore.PostTable.Save | internal/blog/postgres.go:129-168 | the upsert: a missing row is inserted as given, a present one takes the fields and its own version plus one when the guard lets it; a refusal leaves the row and says why, the guard's before a taken slug |
| BlogStore.PostTable.Delete | internal/blog/postgres.go:299-346 | a guarded delete happens exactly when the row is there at the guarded version; a refused one changes nothing and names the cause |
| BlogStore.VersionCountsSaves | internal/blog/postgres.go:129-168 | over any sequence of saves of a present row, under any guards, its version counts the saves that succeeded |
| BlogStore.OneOfTwoSavesFails | internal/blog/postgres.go:426-436 | among any saves one after the other, at most one of those naming the same version succeeds |
| BlogStore.ReportedVersionIsStoredIff | internal/blog/service.go:406-416 | the version a caller is told after a save is the stored one if and only if the row was still there at the loaded version |
| BlogStore.IfMatchInvertsEtag | internal/dataplane/blog.go:167-169 | parsing a printed entity tag gives its version exactly for versions 1 to 2147483647 and is a bad request for every other number |
| BlogStore.IfMatchReadsEveryForm | internal/dataplane/blog.go:382-393 | a tag, weak or not, quoted or not, with any space around it, is read as the version it shows |
| BlogStore.IfMatchIsRequired | internal/dataplane/blog.go:382-393 | a header is missing exactly when it is nothing but space |
| BlogStore.AcceptedIfMatchIsHonouredOnce | internal/dataplane/blog.go:382-393 | over any sequence of saves, one under an accepted If-Match writes over exactly the version the header names, and of all the saves under headers naming that version at most one succeeds: an accepted header is never an unconditional write |
| BlogService.Service.Attempt | internal/blog/service.go:305-336 | one unit of work: on success the post has the status asked for, is the stored row, and the log grew by exactly its event if the status flipped; on failure the log is unchanged, the row is the rival's if the attempt got as far as its save and the loaded one otherwise, and the error is that of the first thing that went wrong |
| BlogService.Service.Transition | internal/blog/service.go:338-361 | an unconditional call that lost a race is tried once more; at most one event, only on success; it stays stale only after two rivals |
| BlogProtocol.StepKeeps | internal/blog/service.go:305-361 | every step of any caller that heeds the discipline keeps the version history, the alternating log and what each caller holds |
| BlogProtocol.EventsAlternate | internal/blog/service.go:363-385 | over every disciplined interleaving, unconditional updates included, the committed events strictly alternate published and unpublished, and the last one tells the row's status |
| BlogProtocol.EventsShowTheirRow | internal/blog/service.go:387-404 | each event is the snapshot of the very row committed with it, version included, and that row's status differs from the one before |
| BlogEdits.EventsTellTheirRow | internal/blog/service.go:387-404 | the same in plain fields: kind, content, tags, version, and the times cut to whole seconds, of the row committed with the event |
| BlogProtocol.RowsFollowEachOther | internal/blog/blog.go:87-101 | versions rise by one a commit, a flip and an event come together or not at all, and a first publication time never changes once set |
| BlogProtocol.AnswersAreCommitted | internal/blog/service.go:305-336 | a caller told that its publish, unpublish or delete went through holds a row that was committed, with the status it asked for; so does an update that named a version its load had, and any other holds one but for the version |
| BlogEdits.AnswersEditTheirLoad | internal/blog/service.go:83-116 | in every run, disciplined or not: the post an update is told is a committed row, but for the version, with the content and tags the call gave, deduplicated, where it gave them, and the rest of a committed row it loaded, at the save's time and the next version; a transition's flips the status, sets a missing first publication and keeps the rest |
| BlogEdits.CommitsEditAnEarlierRow | internal/blog/blog.go:72-115 | every row committed in any run is, field by field, some call's edit of a row committed before it |
| BlogEdits.SaveTells | internal/blog/postgres.go:129-168 | how a save ends: the version named, the column's range and the slug are checked in that order, a stale unconditional transition starts over once, and a save that goes through raises the row's version and the caller's by one |
| BlogEdits.OtherStepsTell | internal/blog/service.go:208-232 | how loads, deletes and transitions that need no statement end, errors and the deletion's data included |
| BlogProtocol.OneWinnerPerVersion | internal/blog/postgres.go:129-168 | no two commits of a run were guarded by the same version, even among updates that name none |
| BlogProtocol.UpdateWritesOverItsLoadIff | internal/blog/service.go:83-116 | an update past its guard writes over the row it loaded if and only if the version it names is not ahead of that load or, when it names none, no one has saved since |
| BlogProtocol.ToldUpdatesHeed | internal/dataplane/blog.go:382-393 | an update that names a version its load already had never breaks the discipline while the row is there |
| BlogProtocol.DeletionTellsTheRow | internal/blog/service.go:208-232 | at most one delete commits, under the row's last version; its event tells the version its caller loaded, which is that row unless the delete named a version ahead of its load |
| BlogProtocol.DeleteAndSaveExclude | internal/blog/postgres.go:299-327 | a delete and a save that named one version never both commit |
| BlogProtocol.NothingFollowsADelete | internal/blog/postgres.go:299-327 | once a delete has committed, no run commits another version, event or delete |
| BlogRaces.DisciplineIsExact | internal/blog/service.go:305-361 | in every state the protocol keeps, a step heeds the discipline if and only if every disciplined run after it commits a lawful history: versions that rise by one, a flip and an event together, a first publication that stays |
| BlogRaces.DeleteRaceBringsThePostBack | internal/blog/postgres.go:129-168 | for every draft, a run in which a publish that loaded before a delete re-inserts the post after it, at the loaded version, while its event tells the next |
| BlogRaces.DeleteRaceRepeatsAnEvent | internal/blog/postgres.go:129-168 | for every draft, a run in which two publishes around a delete leave two published events in a row |
| BlogRaces.UnseenPublicationIsTakenBack | internal/blog/service.go:83-116 | for every draft and every update of content or tags that names no version or the next one, a run in which it turns the post just published back into a draft, first publication time included, without an event |
| BlogRaces.GuessedDeleteTellsAnOldRow | internal/blog/service.go:208-232 | for every draft, a run in which a delete that names the next version deletes the published post and tells that a draft was deleted |
| IdempotencyStore.Store.Remove | internal/dataplane/idempotency.go:122-125 | map and list lose the same one entry |
| IdempotencyStore.Store.Sweep | internal/dataplane/idempotency.go:127-135 | drops entries from the front up to the first live one, from map and list alike |
| IdempotencyStore.Store.Insert | internal/dataplane/idempotency.go:115-120 | the entry goes to the back and the oldest go until the limit holds |
| IdempotencyStore.Store.Reserve | internal/dataplane/idempotency.go:63-85 | the answer and the entries afterwards are those of a sequence searched linearly after the sweep |
| IdempotencyStore.Store.MoveToBack | internal/dataplane/idempotency.go:95-99 | the element moves to the back of the list and nothing else changes |
| IdempotencyStore.Store.StoreResponse | internal/dataplane/idempotency.go:87-103 | the key's record becomes the response, finished, at the back, or is inserted if the entry is gone |
| IdempotencyStore.Store.Release | internal/dataplane/idempotency.go:105-113 | a pending entry of the key goes, a finished one stays |
| IdempotencyStore.SweepIsExactIffSorted | internal/dataplane/idempotency.go:127-135 | the early stop removes exactly the expired entries at every instant if and only if the list is in expiry order |
| IdempotencyStore.StoreStaysSortedIff | internal/dataplane/idempotency.go:87-103 | storing keeps the order if and only if the new record expires no earlier than the others |
| IdempotencyStore.EarlyClockReadOutlivesItsTime | internal/dataplane/idempotency.go:92-99 | a run from the empty table in which a clock read before the mutex leaves an expired entry behind a live one, where the sweep keeps it |
| IdempotencyStore.UseStaysInOrder | internal/dataplane/idempotency.go:63-135 | each use with a clock that does not run backwards does what the reference does and leaves the list in order, one entry a key, within the limit |
| IdempotencyStore.StoreRefinesReference | internal/dataplane/idempotency.go:63-135 | over any sequence of uses the store answers and holds what a plain expiring sequence would |
| IdempotencyStore.ReservationTells | internal/dataplane/idempotency.go:63-85 | reserving a key leaves every other key's record as it was in the swept table exactly unless the key is new, the table full and the other its oldest; its own is kept, or pending with the body given |
| IdempotencyStore.StoringTells | internal/dataplane/idempotency.go:87-103 | storing does the same to the other keys, and leaves its own record as stored, last |
| IdempotencyStore.ReleaseTells | internal/dataplane/idempotency.go:105-113 | releasing drops the key's own pending entry and nothing else |
| IdempotencyStore.ReservationAnswers | internal/dataplane/idempotency.go:69-85 | claim, conflict, in progress or replay, told from the entries |
| IdempotencyStore.EvictedIff | internal/dataplane/idempotency.go:115-120 | a reservation or a store of a new key drops another key exactly when the table is full and that key's entry is the oldest |
| IdempotencyStore.ExpiredIff | internal/dataplane/idempotency.go:127-135 | a sweep drops a key exactly when its entry has expired |
| IdempotencyProtocol.StepKeeps | internal/dataplane/blog.go:224-259 | every step of any request keeps the one-owner, one-post invariant of a key whose entry is left alone |
| IdempotencyProtocol.AtMostOneCreate | internal/dataplane/blog.go:224-259 | while the key's entry is neither evicted nor expired and no request leaves its post unstored, the key's requests make at most one post |
| IdempotencyProtocol.ReplaysAreExact | internal/dataplane/blog.go:224-259 | every replayed answer is that of the post the key really made, for the same body |
| IdempotencyProtocol.NextRequestIsTold | internal/dataplane/idempotency.go:63-85 | what the next request is told at any moment: a claim exactly when no post was made and none is under way, the exact replay or "in progress" for the same body, a conflict for another |
| IdempotencyProtocol.AtMostOneCreateIff | internal/dataplane/idempotency.go:115-135 | the hypothesis is exact, step by step: in every state the protocol keeps, a step spares the key (drops no entry of it, leaves no post of it unstored) if and only if every later run that does makes at most one post for it |
| IdempotencyProtocol.SparesIff | internal/dataplane/idempotency.go:115-135 | told from the table: a step spares a key exactly if its sweep, if any, meets a live entry no later than the key's, its insertion, if any, does not push the key out of a full table as the oldest, and it is not the abandoning of the key's post |
| IdempotencyProtocol.TableStaysWithin | internal/dataplane/idempotency.go:115-120 | every step keeps the table within its limit, one entry a key |
| IdempotencyProtocol.EvictionAllowsASecondCreate | internal/dataplane/idempotency.go:115-120 | a run from an empty table of one that makes two posts for one key |
| Scheduler.Runner.Reserve | scheduler/scheduler.go:270-278 | succeeds and counts exactly when not draining |
| Scheduler.Runner.FanOut | scheduler/scheduler.go:348-373 | the body is called for every tenant reached whatever the others come to; the run succeeds exactly when all do and the enumeration ended well, and a failed enumeration is the error even so |
| Scheduler.InvokeErrorTells | scheduler/scheduler.go:306-346 | each error of a run that has its count and its flag has one cause: a broken lock, for a manual run a lock held elsewhere, a failed enumeration, a failed body; a lock held elsewhere is no error to a tick |
| Scheduler.Runner.Invoke | scheduler/scheduler.go:306-346 | the bodies run exactly when no lock is needed or it was acquired; an acquired lock is released once; the error is the path's |
| Scheduler.Runner.RunEntry | scheduler/scheduler.go:280-304 | on every path the count and the flags are as they were and the lock taken is given back; bodies run, for every tenant reached, exactly when reserved, flagged and not locked out; it ends without error exactly if they ran and all succeeded, or a tick was dropped, draining or not the leader |
| Scheduler.Runner.RunOnce | scheduler/scheduler.go:245-253 | a manual run succeeds exactly if its bodies were called, every tenant was enumerated and every call succeeded; unknown job, draining, busy, not the leader, a broken lock and a failed enumeration are each reported exactly in their own case |
| Scheduler.StepKeeps | scheduler/scheduler.go:280-346 | every step of any thread, shutdown or other process keeps count, flags, leases and drain state consistent |
| Scheduler.CountIsExact | scheduler/scheduler.go:270-304 | in every reachable state the wait-group count is the number of threads between reserve and Done |
| Scheduler.NoReservationWhileDraining | scheduler/scheduler.go:270-278 | once draining is set it stays set and no further thread is ever counted |
| Scheduler.ShutdownMeansQuiet | scheduler/scheduler.go:224-242 | when Shutdown has returned nil no thread is counted and no job body runs then or later |
| Scheduler.OneRunAJob | scheduler/scheduler.go:286-300 | at most one thread is inside a job's invoke, and the flag is up exactly when one is |
| Scheduler.SingletonsRunUnderTheirLock | scheduler/scheduler.go:306-328 | in every reachable state a singleton job's running body belongs to one thread, which holds the job's lock, so no other process does |
| Scheduler.SystemBodyRunsOnce | scheduler/scheduler.go:330-346 | a system job's body runs once in a run, neither less nor more often |
| Scheduler.FlagStaysUntilItsOwnerClearsIt | scheduler/scheduler.go:286-300 | over any run from a reachable state a raised flag stays up and with its thread until that thread clears it, whatever ticks are dropped in between |
| Scheduler.EveryLockIsReleasedOnce | scheduler/scheduler.go:306-346 | every lock ever acquired is released at most once, and is unreleased only while a counted thread holds it |
| Retry.NoWaitPassesTheWorstIff | httpclient/retry.go:44-65 | over every attempt, Retry-After, draw and open conversion, no wait passes the worst case told if and only if base and maximum delay are equal, or the base is positive and the maximum under 2^63-512 or the base at least 2^63-1024 |
| Retry.WorstNeverShrinksIff | httpclient/retry.go:48-65 | the worst case never falls with the attempt number if and only if base and maximum are equal, or the base is positive and the maximum under 2^63-512 or the base at least 2^62-256 |
| Retry.NoWaitIsZeroIff | httpclient/retry.go:52-71 | no wait is ever zero if and only if the base delay is positive or the maximum negative |
| Retry.WaitIsBounded | httpclient/retry.go:44-71 | after defaults every wait lies between base and maximum delay, and under the worst case and off zero for the policies above |
| RetryWaits.WaitsFollowTheResponses | httpclient/retry.go:44-57 | every wait of a run, slept or told: after a response that asks for one, that long, raised to the base delay and cut to the maximum; otherwise between the base doubled with each attempt and twice that, and from half the maximum on between that and the maximum |
| RetryWaits.WaitsDoubleFromTheBase | httpclient/retry.go:44-57 | the same in the delays themselves, up to a maximum of 104 days |
| RetryWaits.WorstCaseTells | httpclient/retry.go:60-65 | the worst case told is what the response asks for, likewise cut, or the ladder's upper end |
| RetryWaits.RetryAfterTells | httpclient/retry.go:224-236 | what a response asks for: whole seconds, the time until a date, or nothing |
| RetryWaits.DefaultsAreHalfASecondAndFive | httpclient/retry.go:67-71 | the delays a policy without its own gets, and a maximum never under the base |
| RetryWaits.RunsAreOrdered | httpclient/retry.go:87-116 | attempt after attempt, the call comes first, then the notice, the draining and the sleep |
| RetryWaits.RetryableIff | httpclient/retry.go:153-173 | transient failures and the statuses 408, 429 and 500 and up but 501 are tried again, and nothing else |
| RetryWaits.ReplayableIff | httpclient/retry.go:118-132 | a request is replayed exactly if its body can be read again and its method, or the policy, allows it |
| Retry.SecondsAreHonouredIff | httpclient/retry.go:224-236 | a Retry-After in seconds is honoured as such if and only if it is from 0 to 9223372036 |
| Retry.RoundTrip | httpclient/retry.go:78-116 | a request that cannot be replayed is sent once and passed through; any other run is the ladder below; no attempts allowed means no call |
| Retry.RunAttempts | httpclient/retry.go:85-116 | the loop's log and answer are those of the attempts up to the first that does not climb, or whose sleep is cut, or after which the body cannot be read again |
| Retry.EachAttemptIsCalledOnce | httpclient/retry.go:87-97 | attempts 0 to the last are called once each and nothing else, fewer than or as many as the policy's maximum |
| Retry.EachResponseIsSpentOnce | httpclient/retry.go:109-116 | every response obtained is either drained or handed back, exactly one of the two |
| Retry.EachRetryableResultIsNoticedOnce | httpclient/retry.go:98-109 | OnRetry fires once for every retryable result and for nothing else |
| Retry.ZeroWaitMeansTheLast | httpclient/retry.go:98-108 | the last attempt's notice has a zero wait if its outcome is handed back, and for every policy whose waits are never zero no other notice has one |
| Retry.SleepsLeaveTimeToTry | httpclient/retry.go:103-113 | a sleep started leaves more than the last attempt's duration before the deadline if and only if the wait and that duration fit in 64 bits together; attempts are left |
| Retry.StopsOnlyWhenItMust | httpclient/retry.go:94-108 | a retryable result is handed back only when attempts or time have run out |
| LimitReader.Reader.Read | httpclient/httpclient.go:95-108 | one read moves the allowance, the body and the answer as the step function says, for every 64-bit allowance |
| LimitReader.StepTells | httpclient/httpclient.go:95-108 | one read in plain: the next bytes, as many as are ready, fit and go one past the allowance at most, with the limit's error or the body's own |
| LimitReader.ReadsInOrder | httpclient/httpclient.go:95-108 | what was handed out is the start of the body, what is left is the rest, and never more than the limit plus one byte is out |
| LimitReader.TooLargeExactlyPastTheLimit | httpclient/httpclient.go:95-108 | a call reports the body too large if and only if more than the limit has been handed out with it |
| LimitReader.ShortBodyIsUntouched | httpclient/httpclient.go:95-108 | a body within the limit is read, call by call, exactly as without the limiter |
| LimitReader.LongBodyIsReported | httpclient/httpclient.go:95-108 | a longer body is never read to its end without the error |
| LimitReader.PanicsIff | httpclient/httpclient.go:99-101 | a read panics if and only if the limit is the largest 64-bit number |
| Money.PowerOfTen | money/amount.go:90-96 | the loop computes the power of ten a 64-bit register keeps |
| Money.Major | money/amount.go:64-85 | the printed text, for every 64-bit amount, the least one included |
| MoneyTexts.AmountsPrintTheirSize | money/amount.go:64-85 | every amount but the least prints the digits of its size, hundredths as its currency shows them, with a minus sign before them if it is negative |
| MoneyTexts.TheLeastPrintsThreeSigns | money/amount.go:64-85 | the least amount has no size in 64 bits: both halves of its text carry a sign of their own |
| Money.DecimalsArePositional | money/parse.go:24-40 | a whole part with any grouping marks, a mark and up to the shown decimals are worth their positional value in minor units, or overflow exactly past 64 bits |
| Money.WholeNumbersArePositional | money/parse.go:43-60 | without a decimal part every mark is grouping and the digits are worth their value times the currency's scale |
| Money.StrayPointIsAmbiguous | money/parse.go:50-59 | a last point with the wrong number of digits after it is refused |
| Money.DecorationIsIgnored | money/parse.go:13-16 | spaces, the symbol and the code in any case do not change how a plain text is read |
| MoneyTexts.SymbolAndCodeAreRead | money/parse.go:13-16 | with each currency's own symbol or code before it a text reads as without |
| MoneyTexts.RefusalsTell | money/parse.go:10-40 | each refusal has its own cause in the text left over: nothing, a leading minus, a stray point, or no digits around the decimal mark |
| Money.PrintedReadsBack | money/amount.go:64-85 | what reading a printed amount gives for every 64-bit amount: itself, a refusal of negatives and unlisted currencies, or the rupiah's cents scaled up |
| Money.ParseUndoesMajorIff | money/parse.go:9-41 | with or without symbol, code and spaces, parsing gives the printed amount back if and only if the currency is listed, the amount not negative, and the shown decimals can express it |
| Money.AcceptedSurvivesPrinting | money/parse.go:9-41 | every accepted text, inner spaces included, is digits and marks once spaces, symbol and code are off; its amount is the positional value of those digits around its decimal mark, within 64 bits, and prints and reads back as itself |
| Money.DecimalsAlwaysFit | money/currency.go:18-25 | with this table the "too many decimals" refusal never happens |
| PgArray.PgTextArrayLiteral | internal/apikey/postgres.go:418-428 | the loop prints the braces around the joined, quoted and escaped elements |
| PgArray.EscapeTells | internal/apikey/postgres.go:418-428 | a backslash goes before each quote and backslash and before nothing else |
| PgArray.LiteralTells | internal/apikey/postgres.go:418-428 | a literal is its elements in quotes, with commas between them, in braces |
| PgArray.ParsePgTextArray | internal/apikey/postgres.go:438-471 | the flag-and-builder loop is the scan of the body, with the same refusals |
| PgArray.ParseReadsBackIff | internal/apikey/postgres.go:438-471 | any mix of quoted elements, bare ones without specials and escaped characters reads back to the same list, if and only if it is not one bare empty element |
| PgArray.PiecesAreOneElement | internal/apikey/postgres.go:438-471 | quoted, bare and escaped pieces run together are one element, their texts joined |
| PgArray.OpenQuoteRunsToTheEnd | internal/apikey/postgres.go:438-471 | a quote never closed takes the rest of the body |
| PgArray.RefusedIff | internal/apikey/postgres.go:438-446 | a text is refused exactly if it is more than space and not in braces |
| PgArray.ParseUndoesLiteral | internal/apikey/postgres.go:418-471 | parsing undoes printing for every list of strings |
| PgArray.LiteralIsInjective | internal/apikey/postgres.go:418-428 | two different lists never share a literal |
| CategorySeed.Survey | internal/category/service.go:288-304 | the first loop finds each kind's folded names and next sort order |
| CategorySeed.Service.Commit | internal/category/mirror.go:56-75 | row and mark are committed together when nothing fails and neither is when anything does; the references to kick come back only after the commit |
| CategorySeed.Service.SeedDefaults | internal/category/service.go:267-349 | whatever fails, the rows committed, the marks and the one kick name the same rows in order, the count is theirs, and they are what visiting the defaults one by one gives |
| CategoryRows.RowsAreTheirDefaults | internal/category/service.go:311-332 | whatever fails, every row added holds its default's identity, kind, trimmed name and icon, lower-cased colour and place within the column |
| CategoryRows.NewTells | internal/category/category.go:73-102 | a row is built exactly for a name of 1 to 100 characters, an icon of the list or none, and a chart colour, six hex digits or none; each refusal is the first that is wrong |
| CategoryRows.DefaultNameTells | internal/category/service.go:351-360 | the name is what the namer says, trimmed, or the key in title case, one pass over its characters |
| CategoryRows.SeedingStopsFor | internal/category/service.go:316-342 | a seed that stops does so at a default with a new name whose row cannot be built, or whose unit of work failed for another reason than its name |
| CategoryRows.PlaceTells | internal/category/service.go:292-309 | a default asks for one past the largest order of its kind, plus the defaults of its kind before it |
| CategorySeed.PendingDefaults | internal/controlplane/category_service.go:227-252 | the preview counts exactly the defaults whose folded name no row and no earlier default of the kind has |
| CategorySeed.CalmSeeding | internal/category/service.go:306-346 | with no failures seeding adds exactly the missing defaults, in order, up to the first that cannot be built |
| CategoryRows.CalmSeedingAddsTheMissing | internal/category/service.go:306-346 | and those are exactly the defaults whose trimmed, lower-cased name no row and no earlier default of the kind has |
| CategorySeed.PreviewAgreesIff | internal/controlplane/category_service.go:226-252 | for every table of defaults, preview and seed agree if and only if every missing default can be built |
| CategorySeed.PreviewOfTheTableAgreesIff | internal/category/defaults.go:22-43 | for the shipped table that is: no missing default's name is over a hundred characters |
| CategorySeed.SecondSeedAddsNothing | internal/category/service.go:284-286 | after an undisturbed seed that went through, another one adds nothing, whatever fails around it |
| CategorySeed.NoNameIsAddedTwice | internal/category/service.go:311-342 | whatever fails, no folded name is added twice to a kind, nor one it already had |
| CategoryRows.AddedNamesAreNew | internal/category/service.go:311-315 | whatever fails, no row added has the trimmed, lower-cased name of an older one of its kind |
| CategorySeed.OrdersAreFreshIff | internal/category/service.go:307-315 | whatever fails, the new sort orders of each kind lie above all old ones and rise, if and only if the first new one and all but the last fit under the column's top |
| CategorySeed.OrdersWillBeFreshIff | internal/category/service.go:307-315 | told before seeding: with no failures and every missing default fit, that holds if and only if the missing defaults' places fit |
| Usage.Worker.Record | internal/apikey/usage.go:45-51 | the key's pending entry becomes the new one exactly if it has none or an earlier one, and no other key's changes |
| Usage.Worker.Flush | internal/apikey/usage.go:78-93 | pending is emptied and the store is given each of its entries exactly once |
| Usage.FlushIsARun | internal/apikey/usage.go:78-93 | that loop is a run of the interleaved steps that ends with the batch written |
| Usage.NewestIsNeverLost | internal/apikey/usage.go:45-93 | over every interleaving, each recorded time or a later one for its key is pending, in the batch being written, or handed to the store |
| Usage.QuietMeansHandedOver | internal/apikey/usage.go:72-76 | once nothing is pending or half written, the store has been given every recorded time or a later one |
| Usage.OnlyRecordedIsHandedOver | internal/apikey/usage.go:45-51 | the store is only given pairs of key, tenant and time that some request recorded |
| Usage.StoreNeverGoesBackIff | internal/apikey/usage.go:78-93 | for every list of entries recorded for a key, every interleaving hands them over in time order if and only if the list never goes back |

## Left out

- SessionProtocol.NeverPresentsASpentToken: assumes that no save fails right after the issuer voided the
  stored token, since the promise is false without it; a process killed between exchange and save is such a
  failed save. The issuer answers only as section 6 of RFC 6749 allows, and an exchange without a usable
  answer did not rotate.
- BlogProtocol.EventsAlternate: holds for the disciplined runs, since the promise is false without the
  discipline, which is exact; a status change between an update's load and its save is outside it.
- IdempotencyProtocol.AtMostOneCreate: holds for runs that neither evict nor expire the key's entry nor leave
  its post unstored, which is exact; each store method is one step.
- BlogEdits.AnswersEditTheirLoad: a post's fields are validated and trimmed before the call; that step, and
  the errors it gives, are not modelled.
- RetryWaits.WaitsFollowTheResponses: for a positive base delay; under a negative one a wait is the base delay
  itself while the conversion is in range (`NegativeBackoff`).
- CategorySeed.SecondSeedAddsNothing: rows that other writers insert in between are not modelled, only the
  unique violation they cause; the unique index is taken to fold names as the service does.
- CategorySeed.Service.Commit: a unit of work is one row's; renames, archives and deletes use the same
  `commit` and add no new case.
- Money.ParseUndoesMajorIff: strings are sequences of Unicode characters, so invalid UTF-8 is not modelled,
  and upper-casing is exact only for the characters that can matter to the outcome; lengths are in bytes.
- Retry.NoWaitPassesTheWorstIff: below 2^53 nanoseconds, 104 days, a drawn sum may be any real number between
  the step and its double, where the code's is a double; only its whole part matters.
- BlogService.Service.Transition: its rival commits between load and save; rivals elsewhere are in the
  interleaved runs.
- Usage.StoreNeverGoesBackIff: a failed store call is only logged by the code and counts as handed over.
- The file system and the advisory lock: the session file is one cell that a rename replaces, the lock a
  holder; the polling wait for it is one step that may also give up.
- Row-level security, organisation checks, link rows, SQL text and migrations: only each statement's effect
  on the row is kept.
- Time-outs of `Shutdown` are a step that may happen at any moment; cron schedules, telemetry and logging
  are not modelled.
- `Amount` arithmetic and `Format`, currency codes typed by users, and the key store's grant rows: single
  expressions or library calls.
- HTTP handlers beyond `createPost` and `ifMatchVersion`, MCP, Connect and cobra wiring, mail, OIDC discovery
  and the browser sign-in: their results enter as parameters.
- The wallet, transaction, period and report services are not part of this model.
