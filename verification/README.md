# PauseMesh: a verified model

PauseMesh pauses a workflow behind a *continuation* and promises that it is resumed at most once, by an
authorised caller, whatever concurrent callers, replicas, crashes and retries do. This Dafny project models
the parts of the repository that carry that promise and proves it, over every input, every interleaving and
every reachable state. `dafny verify dfyconfig.toml` checks all of it.

| Part | Files |
|---|---|
| Canonical JSON, its inverse, and what it decides | `Text16`, `JsonText`, `JsonWriting`, `JsonParser`, `JsonEquality` |
| Events, envelopes, the reducer, the event-store contract | `Domain`, `EventLog` |
| The continuation service as a state machine over a shared log | `Service`, `ServiceInvariants`, `ServiceProofs`, `ServiceRuns`, `ServiceTheorems`, `ServiceAlone`, `ServiceWitnesses` |
| The PostgreSQL store: append transactions, loads, migrations | `PostgresCheck`, `PostgresText`, `PostgresAppend`, `PostgresRuns`, `PostgresConflicts`, `PostgresLoad`, `PostgresAlone`, `Migration`, `MigrationRuns`, `MigrationAlone` |
| The service over PostgreSQL, statement by statement, refines the service over the contract | `PostgresService`, `PostgresServiceProofs`, `PostgresServiceTheorems`, `PostgresProgress`, `PostgresAgui` |
| The in-memory and SQLite stores, and the equivalence of all three | `Stores`, `StoresAgree` |
| The bounded traversal in front of the AG-UI adapter | `Preflight`, `PreflightMeaning` |
| AG-UI interrupts, receipts and resume batches | `Protocol`, `AguiReceipt`, `AguiIssue`, `AguiHashes`, `AguiResume`, `AguiTheorems`, `AguiMeaning`, `AguiRaw`, `AguiService` |
| MCP elicitation | `McpForms`, `McpElicitation`, `McpTheorems`, `McpMeaning` |
| Counting distinct elements (shared helper) | `Finite` |

**Concurrency.** The service, the PostgreSQL appends and the migrations are state machines: every `await`
or SQL statement is one program counter, a run is any sequence of arrivals, steps, failures and crashes of
any number of operations, and a theorem about a run holds for every such sequence. A store call may fail
before or after its effect, and a COMMIT may fail with either outcome, which may come about long after the
caller was told of the failure. Append transactions run at READ COMMITTED: a statement sees what is
committed when it starts and its own writes, row locks last until the transaction ends, and a blocked
update reads its row again (section 13.2.1 of the PostgreSQL documentation). The service is stated twice:
over the atomic contract, and over those transactions, where its process may die while the server goes on
with what it sent. The second is proved to be the first (`PostgresServiceProofs.RunRefines`).

**Assumptions.** SHA-256 and the resume-token hash are uninterpreted functions; where a theorem needs that
SHA-256 does not collide, it says so (`Injective`). An instant is an integer number of milliseconds with
an uninterpreted text. A string is a sequence of 16-bit code units. An id reaches a database as it is:
what a driver makes of code unit 0 or of half a surrogate pair in an id is not modelled. A JSON number is
the token that `JSON.stringify` prints. Writing an event that fits the stored-event schema and reading it
back is the identity, and nothing else is ever read (`Stores.Sound`). The schema reads instants of the
years 0 to 9999. Clocks are arbitrary and need not advance. A failing observer changes nothing.

## Where the code and its documentation differ

- The repository's `README.md:67` and `docs/delivery-contract.md:58` say that an exact retry returns the
  first outcome. The code returns it only if the retry finds the resumption already stored, or loses the
  append of its own resumption. A retry that loaded the pending continuation, then read its clock at or
  past the deadline, and then lost the race to append the expiry, is told that the token is already used
  (`src/application/continuation-service.ts:395-396`). `ServiceWitnesses.ExactRetryMayBeRefused` builds
  such a run out of every run with a pending continuation;
  `ServiceTheorems.ExactRetryIsRefusedExactlyWhenDue` shows that a finished exact retry that no failing
  call stopped is refused exactly if its reading was due.
- `resume` reads its clock twice (`src/application/continuation-service.ts:170-172`). Only the first
  reading is compared with the deadline, so a stored resumption can be stamped past it
  (`ServiceWitnesses.ResumeMayBeStampedLate`): the stamp is the second reading
  (`ServiceTheorems.CommitsRespectTheDeadline`).
- The version in a PostgreSQL conflict is read after the fence is lost. A caller that guessed ahead of the
  head can be told that the version it expected is the actual one. A call can be told so exactly if it
  passes the checks made before its first statement, has events, expects a version past the committed
  head, and its id is one that the CHECK below lets a stream have:
  `PostgresConflicts.ConflictNamesTheExpectedVersionExactly`. The service never makes such a call:
  `PostgresServiceTheorems.ConflictsNameAGreaterVersion`.
- The repository's `README.md:26` calls the stores replaceable, and the in-memory and SQLite stores keep
  what the stored-event schema accepts. PostgreSQL does not: its event column casts the text to jsonb
  (`src/adapters/storage/postgres-event-store.ts:125`), which has no place for the escaped code unit 0 or
  for half a surrogate pair (section 8.14 of the PostgreSQL documentation), so the INSERT fails and the
  transaction rolls back. An append that is left alone does what the contract says exactly if it is
  refused before, or no string and no key of its events has either (`PostgresAlone.LoneAppendBehaves`).
  SQLite checks its texts with `json_valid` (`src/adapters/storage/sqlite-event-store.ts:15`). The stores
  agree on a sequence of commands exactly if every batch that the contract takes passes both CHECKs
  (`StoresAgree.CompareStores`); a creation with the payload `"\u0000"` parts them
  (`StoresAgree.NulPayloadPartsTheStores`).
- The stores promise one contract, but PostgreSQL checks a batch before it looks at the stream, and
  refuses one that would pass its event bound. `StoresAgree.RefusalsDifferExactly` says when it names
  another error than the local stores: if the version is stale, exactly if the batch fails those first
  checks; if the version is right, exactly if the batch would pass the bound.
- The MCP adapter accepts selection and integer fields that no value can fill;
  `McpForms.SelectionFillableExactly` and `McpForms.IntegerFillableExactly` give the exact condition, and
  `McpForms.SomeAcceptedFieldsCannotBeFilled` such fields.

## Model

| member | source | states |
|---|---|---|
| Text16.LessIsStrict | src/domain/canonical-json.ts:3-7 | The key comparator never puts two keys before each other. |
| Text16.LessIsTransitive | src/domain/canonical-json.ts:3-7 | The key comparator is transitive. |
| Text16.CompareIsTotal | src/domain/canonical-json.ts:3-7 | The comparator returns 0 for equal strings only, so the sorted key order is unique. |
| Text16.LessIsUtf16Order | src/domain/canonical-json.ts:3-7 | The order is that of section 3.2.3 of RFC 8785: one key comes before another exactly if it is a proper prefix of it, or has the smaller code unit at the first place where they differ. |
| Text16.CompareFollowsUtf16Order | src/domain/canonical-json.ts:3-7 | The comparator answers -1, 1 or 0 by that order, and 0 for equal strings only. |
| JsonWriting.StringsAreWrittenByTheTable | src/domain/canonical-json.ts:14 | The body of a written string is that of section 25.5.2.3 of ECMA-262: cut anywhere but inside a surrogate pair it is written part by part, a pair as it is, and any other code unit by the table of escapes, lone surrogates and controls in lower-case hexadecimal, or as it is. |
| JsonWriting.PrintedNumbersAreTokens | src/domain/canonical-json.ts:14 | Whatever JavaScript prints for a finite number, sign, digits, fraction and exponent, is a number token of the model. |
| JsonWriting.PunctuationIs | src/domain/canonical-json.ts:13-21 | The literals and the punctuation are those of JSON, by their characters. |
| JsonParser.CanonicalTextReads | src/domain/canonical-json.ts:13-21 | A JSON parser reads the canonical text of any value, followed by any rest that a delimiter starts, as that value with its keys in UTF-16 order, and leaves exactly the rest: canonical text is injective and self-delimiting. |
| JsonEquality.SortAscends | src/domain/canonical-json.ts:17 | Sorting members with distinct keys leaves every key before all later ones in UTF-16 order: as a proper prefix, or by the smaller code unit at the first difference. |
| JsonEquality.CanonicalTextDecidesEquality | src/domain/canonical-json.ts:9-21 | Two values have one canonical text exactly when they are equal JSON values up to key order at every depth. |
| JsonEquality.MemberOrderIsInvisible | src/domain/canonical-json.ts:17-20 | Permuting the members of an object does not change its canonical text. |
| Domain.ReplayAcceptsLegalStreams | src/domain/reducer.ts:60-128 | Replay succeeds exactly on the empty stream, a creation, or a creation and one terminal event of the same continuation with versions 1 and 2, and yields the envelope with the fields of those events. |
| Domain.TerminalIsFinal | src/domain/reducer.ts:47-54 | A resumed, cancelled or expired continuation accepts no event. |
| Domain.TransitionKeepsBase | src/domain/reducer.ts:15-29 | A transition closes a pending continuation and keeps its base, the version growing by one. |
| Domain.RefusalsSayWhatIsWrong | src/domain/reducer.ts:60-128 | Every refusal of the reducer names what is wrong: the schema version, both ids, the expected and the actual version, or the state and the event type that do not go together. |
| EventLog.StorableMeansFitting | src/adapters/storage/event-serialization.ts:10-50 | An event is stored exactly if its schema version is 1, its id is not empty, its version is positive and safe, its instants have four-digit years, and a creation has a correlation and a hash of 64 hexadecimal digits, a resumption a key. |
| EventLog.BatchErrorIsTheFirst | src/adapters/storage/event-serialization.ts:64-81 | The error of a batch is the complaint about its first event that does not continue the stream: its id, else its version, else its schema. |
| EventLog.BatchPassesExactly | src/adapters/storage/event-serialization.ts:64-81 | Batch validation passes exactly when every event has the stream's id, continues its numbering and fits the stored schema. |
| EventLog.AppendKeepsNumbering | src/ports/event-store.ts:4-10 | Compare-and-append keeps every stream numbered from one under its own id, and only extends the log. |
| Service.HashesMatchUpToCase | src/application/continuation-service.ts:69-77 | Two token hashes match exactly if both are 64 hexadecimal digits and they are equal up to the case of the letters. |
| ServiceRuns.RunKeepsInv | src/application/continuation-service.ts:103-330 | The invariant of streams, operations at every program counter, authorship and observed facts holds in every reachable state. |
| ServiceTheorems.StreamsAreAlwaysLegal | src/application/continuation-service.ts:103-330 | In every reachable state each stream is empty, created, or created and closed once, replays without error, was created before its deadline, was cancelled before it or expired at or after it. |
| ServiceTheorems.LogOnlyGrows | src/application/continuation-service.ts:103-330 | No run shortens or rewrites a stream, and a closed stream never changes again. |
| ServiceTheorems.OneOperationCloses | src/application/continuation-service.ts:157-330 | At most one operation of a run closes a continuation, and a closed one was closed by an operation. |
| ServiceTheorems.TransitionsAreObservedOnce | src/application/continuation-service.ts:126-322 | A stored event is announced at most once, and only as what is stored. |
| ServiceTheorems.SuccessfulResumesAgree | src/application/continuation-service.ts:157-211 | All successful resumes of a continuation return one envelope, the replay of the final stream, and had matching token, key and canonical payload. |
| ServiceTheorems.LateArrivalsSawTheLog | src/application/continuation-service.ts:340-352 | An operation that arrived after a state of the run has seen at least the stream of that state. |
| ServiceTheorems.RetryAfterCommit | src/application/continuation-service.ts:144-330 | In every later state an inspect, resume or cancel that arrived after the continuation was closed has committed nothing, and its answer is a function of the stored events: a resume gets the stored envelope exactly if token, key and payload match, a cancel the stored cancellation exactly if reason and version do, else the error for what does not; it reports a failure of the store only if one of its own calls failed. |
| ServiceTheorems.FailuresHaveCauses | src/application/continuation-service.ts:103-330 | An operation ends with a failure of the store only if one of its own awaited calls failed during the run, with a bad event only if the event that it offered does not fit the stored schema, and with a stream too large only if one of its own appends met the bound. |
| ServiceTheorems.LateArrivalsCommitNothing | src/application/continuation-service.ts:144-330 | An operation that arrived after its continuation was closed commits nothing, in every later state. |
| ServiceTheorems.RetryIsAnswered | src/application/continuation-service.ts:157-168 | Such a retry, without faults, is decided at its second step and leaves the log as it is. |
| ServiceTheorems.ConflictsMeanClosed | src/application/continuation-service.ts:183-200 | A version conflict on a resume, cancel or expiry append means that the stream is closed, so the reload never finds it pending. |
| ServiceTheorems.LostRacesAreClassified | src/application/continuation-service.ts:250-295 | A resume reports a version conflict only when a cancellation or expiry won, a cancel its own lost append only when a resumption won; an invalid transition of a cancel is lost to a resumption or to a cancellation with another reason, and every other refusal of a closed continuation says what closed it. |
| ServiceTheorems.LostRacesAreAnswered | src/application/continuation-service.ts:183-330 | From any conflict on, whatever else runs, the operation ends with the answer that is a function of its request and the final stream, unless one of its own calls failed. |
| ServiceTheorems.ExactRetryIsRefusedExactlyWhenDue | src/application/continuation-service.ts:384-398 | A finished request identical to the winning resume that did not meet, itself, a failing call, a missing continuation, a bound or an event that nobody could store is refused as already used exactly if its clock reading was at or past the deadline, which needs an arrival before the commit, and gets the stored envelope exactly if it was not. |
| ServiceTheorems.CommitsRespectTheDeadline | src/application/continuation-service.ts:170-178 | A committed resume was preceded by its operation's clock reading before the deadline and a matching token, and is stamped with its second reading, whatever that is; a cancellation is stamped before the deadline, an expiry at or after it, each with its own reading. |
| ServiceTheorems.SuccessfulCreateOwnsItsStream | src/application/continuation-service.ts:103-142 | A successful create wrote the first event of its stream, dated with its reading, and returns what was asked for, with a deadline after that reading and a token whose hash is stored. |
| ServiceTheorems.CreateIsRefusedExactlyWhenTooLate | src/application/continuation-service.ts:104-110 | A finished create was refused for its deadline exactly if the deadline it asked for, or its clock reading and the lifetime of a token if it asked for none, is not after that reading. |
| ServiceTheorems.InspectTellsTheTruth | src/application/continuation-service.ts:144-147 | A finished inspect returns the final envelope, or the pending one with a clock reading before the deadline; it fails only on a continuation that was missing, an expiry that the schema or the bound refused, or a call of its own that failed, each of which it met. |
| ServiceTheorems.SuccessfulCancelsAgree | src/application/continuation-service.ts:213-295 | All successful cancels return the one stored cancellation, with the reason and version they asked for. |
| ServiceTheorems.EveryStepProgresses | src/application/continuation-service.ts:103-330 | Each step of an operation brings it nearer to its outcome, in at most nine steps, whatever the others do; no step crashes it. |
| ServiceAlone.LeftAlone | src/application/continuation-service.ts:144-330 | From every reachable state, an inspect, resume or cancel that runs by itself without a failing call ends within five steps as its stream, its readings and its request settle it, missing, pending, due and closed streams, wrong tokens, wrong versions and events that fit no schema included: that outcome, that one event if any, that one announcement, and nothing else changed. |
| ServiceAlone.CancelCancels | src/application/continuation-service.ts:213-274 | In particular a cancel of a pending continuation, read before the deadline with a fitting expectedVersion or none, stores exactly one cancellation with its reason, stamped with its reading, and returns the replay of the new stream. |
| ServiceAlone.CreateLeftAlone | src/application/continuation-service.ts:103-142 | From every reachable state, a create that runs by itself ends as its deadline, its id and its event settle it; with a deadline after its reading, a free id and an event that fits, it stores exactly that event, with each asked or defaulted id, correlation and deadline, and returns its envelope and its token. |
| ServiceAlone.CreatedTokenResumes | src/adapters/crypto/sha256-token-issuer.ts:19-26 | The token that any create of any run returned resumes its continuation: while that is pending, a resume with it that runs by itself and reads its clock in time stores its key and payload and returns the created envelope, resumed. |
| ServiceWitnesses.ResumeMayBeStampedLate | src/application/continuation-service.ts:170-178 | Every run with a resumable continuation goes on, by given actions, to one that stores a resumption stamped with any given instant at or past the deadline. |
| ServiceWitnesses.ExactRetryMayBeRefused | src/application/continuation-service.ts:395-396 | Every such run goes on to one in which an exact retry of the winning resume ends with the answer that the token is already used. |
| ServiceWitnesses.ResumableIsReached | src/application/continuation-service.ts:103-142 | Such states are reached: one create operation leads to one. |
| PostgresCheck.ClearStringsCast | src/adapters/storage/postgres-event-store.ts:125 | The body that JSON.stringify writes for a string can be cast to jsonb, read escape by escape, exactly if the string has no code unit 0 and no surrogate outside a pair. |
| PostgresText.ClearValuesCast | src/adapters/storage/postgres-event-store.ts:125 | The canonical text of any JSON value, read whole and escape by escape, can be cast to jsonb exactly if none of its strings and keys, at any depth, has a code unit 0 or half a surrogate pair. |
| PostgresText.CheckIsTheCast | src/adapters/storage/postgres-event-store.ts:122-127 | An event passes the CHECK exactly if every text and value of its caller's that is written for it can be cast. |
| PostgresAppend.FirstChecksRefuseExactly | src/adapters/storage/postgres-event-store.ts:511-523 | Before its first statement an append is refused for its version exactly if that is negative or its last version unsafe, for size exactly if its last version passes the bound, and else exactly if the batch does not continue a stream at that version. |
| PostgresRuns.CommitIsOneAppend | src/adapters/storage/postgres-event-store.ts:555-589 | Committing the new head and event rows is exactly one compare-and-append on the log the tables stand for. |
| PostgresRuns.RunKeepsInv | src/adapters/storage/postgres-event-store.ts:511-596 | Tables, row locks and every transaction at every statement keep their invariant under all interleavings and failures. |
| PostgresRuns.ActionsRefineTheContract | src/ports/event-store.ts:4-10 | Every action of every run leaves the abstract log alone or is the atomic compare-and-append of the one transaction it commits; rollbacks and failures change nothing. |
| PostgresRuns.AppliedOnce | src/adapters/storage/postgres-event-store.ts:589-595 | A call never changes, a commit that took effect stays in effect, and an answer is final. |
| PostgresRuns.AnswersAreTrue | src/adapters/storage/postgres-event-store.ts:562-573 | A successful append has its batch in the stream where it aimed; a conflicting one changed nothing, and if its expected version was committed before the call the reported version is greater. |
| PostgresRuns.FenceIsLostToAnotherVersion | src/adapters/storage/postgres-event-store.ts:555-562 | The fence is lost only while the committed version differs from the expected one. |
| PostgresRuns.HeadsMatchRows | src/adapters/storage/postgres-event-store.ts:546-589 | Every committed head is at least one and has event rows exactly one to that head. |
| PostgresRuns.HeadsStayWithinBound | src/adapters/storage/postgres-event-store.ts:517-522 | No reachable head passes the configured event bound. |
| PostgresRuns.HeadRowsAreExclusive | src/adapters/storage/postgres-event-store.ts:546-561 | Two open transactions never hold the head row of one stream. |
| PostgresRuns.CommitsAreApart | src/adapters/storage/postgres-event-store.ts:546-595 | The batches of any two commits that took effect on one stream lie apart: each place was written once, by one transaction. |
| PostgresRuns.CommittedRowsPassTheCheck | src/adapters/storage/postgres-event-store.ts:122-127 | In every reachable state every event row passes the CHECK of its column. |
| PostgresRuns.TransactionsProgress | src/adapters/storage/postgres-event-store.ts:540-595 | No deadlock: the next statement of an unfinished transaction, one of at most six, or its being given up if it is in doubt, brings it nearer to its end, or it waits for a row whose holder is not waiting. |
| PostgresConflicts.ConflictNamesTheExpectedVersionExactly | src/adapters/storage/postgres-event-store.ts:515-573 | After any run, a new call goes on, in some interleaving, to a conflict that names the version it expected exactly if it passes the first checks, has events, expects a version past the committed head, and its id passes the CHECK. |
| PostgresAlone.LoneAppendBehaves | src/adapters/storage/postgres-event-store.ts:511-596 | An append left alone ends within five statements. It has the log and the answer of one validated compare-and-append exactly if that refuses the batch or every event passes the CHECK of the event column; otherwise it fails and changes nothing. |
| PostgresLoad.LoadsExactly | src/adapters/storage/postgres-event-store.ts:450-508 | A load accepts exactly no rows, or as many as their head says, within the bound and each the text of the event in its place; it complains of size exactly if a readable head or the number of rows passes the bound, and of corruption otherwise. |
| PostgresLoad.LoadedStreamIsNumbered | src/adapters/storage/postgres-event-store.ts:450-508 | For arbitrary rows a load fails or returns events numbered from one under the requested id, as many as the head says, and those its rows hold. |
| PostgresLoad.ReplayOfLoadedFailsOnlyOnTransition | src/adapters/storage/postgres-event-store.ts:469-508 | Replaying what a load returned can fail only on a transition that is not allowed. |
| PostgresLoad.LoadReturnsTheStream | src/adapters/storage/postgres-event-store.ts:431-509 | On tables that appends wrote within the bound, a load reports neither corruption nor size and returns the stream of the abstract log. |
| PostgresLoad.LoadAfterAnyRun | src/adapters/storage/postgres-event-store.ts:431-509 | So it is after every run of concurrent appends with one bound. |
| PostgresServiceProofs.ApplyKeepsInv | src/application/continuation-service.ts:103-330 | Every action on the composed system, a statement, a lost or late COMMIT, a dying process, a failure reported in doubt, the rows of a load or a received answer, keeps its invariant and is at most one step of the service over the contract. |
| PostgresServiceProofs.RunRefines | src/ports/event-store.ts:4-10 | Every run of the service whose appends are PostgreSQL transactions and whose loads are the rows returned is a run of the service over the contract, with the log the tables stand for, the same facts, and the same operations up to answers still under way. |
| PostgresServiceProofs.DatabaseDecides | src/adapters/storage/postgres-event-store.ts:540-595 | Whichever statement or failure decides a transaction, its answer is the one of the contract's append at that moment, and no other statement changes the log. |
| PostgresServiceTheorems.ConflictsNameAGreaterVersion | src/adapters/storage/postgres-event-store.ts:562-573 | Every conflict that an append of the service is told of over PostgreSQL names a version past the one it expected. |
| PostgresServiceTheorems.LoadsAlwaysReplay | src/application/continuation-service.ts:340-352 | In every reachable state whatever rows a load may return decode without complaint and replay as a legal stream. |
| PostgresServiceTheorems.LoadsAlwaysReturn | src/adapters/storage/postgres-event-store.ts:431-450 | In every reachable state there are rows that the statement of a load may return. |
| PostgresServiceTheorems.ResumesAgreeWithLoads | src/application/continuation-service.ts:157-211 | All resumes told of success over PostgreSQL were told one envelope, and the rows of every load replay to it. |
| PostgresServiceTheorems.RetryAfterCommit | src/application/continuation-service.ts:144-330 | Over PostgreSQL too, a request that arrives once the tables show its continuation closed commits nothing and is answered by the stored rows, unless a call of its own failed. |
| PostgresServiceTheorems.HeardAlike | src/application/continuation-service.ts:103-330 | What a caller is told, the contract's run comes to as well: at once, or, if its COMMIT is in doubt, as the failure it was told of, when the server has decided. |
| PostgresServiceTheorems.NoDoubtOnceClosed | src/adapters/storage/postgres-event-store.ts:555-595 | No append to a continuation whose rows show it closed is in doubt. |
| PostgresServiceTheorems.LostRacesAreAnswered | src/application/continuation-service.ts:183-330 | Over PostgreSQL, an operation told of a conflict is told in the end what is a function of its request and the final rows, unless a call of its own failed. |
| PostgresProgress.OperationsProgress | src/application/continuation-service.ts:103-330 | Over PostgreSQL nothing gets stuck: in every reachable state an unfinished operation has a next action, a step with any rows its load may return, the start of its append, a statement of its transaction or the answer to it, that brings it nearer to its outcome, at most 79 actions away, or its transaction waits for a head row held by one that is not waiting. |
| PostgresProgress.CallersHear | src/application/continuation-service.ts:103-330 | A caller whose COMMIT is in doubt can be told of a failure and hears just that from then on; any other hears its operation's outcome once there is one, and nothing before. |
| PostgresProgress.TheDeadDoNothing | src/application/continuation-service.ts:103-330 | An operation whose process is gone moves no more, sends nothing and is told nothing, whatever happens. |
| PostgresAgui.ReexecutionAppendsNothing | src/application/continuation-service.ts:276-295 | Over PostgreSQL, a command executed again after the rows show its effect writes nothing and its caller is told the stored envelope, unless a call of its own failed. |
| PostgresAgui.BatchIsCrashSafe | src/adapters/agui/interrupt.ts:549-757 | If the transactions that took effect on members that were open are inspections' or the batch's own, with processes dying and COMMITs lost or late, validating again against the rows returns exactly the batch if no member expired, and is refused otherwise. |
| Stores.InMemoryEventStore.Load | src/adapters/storage/in-memory-event-store.ts:15-17 | Parsing the stored texts of a stream never fails and gives back the events that were appended, in order. |
| Stores.InMemoryEventStore.Append | src/adapters/storage/in-memory-event-store.ts:19-34 | Append to the texts held is compare-and-append on the log they stand for; a refused or empty batch changes nothing. |
| Stores.SqliteEventStore.Append | src/adapters/storage/sqlite-event-store.ts:99-135 | Append over the row table is compare-and-append on the log, row by row in one transaction; any refusal, a text that json_valid refuses, and a failing BEGIN, SELECT, INSERT or COMMIT roll everything back. |
| Stores.SqliteEventStore.Load | src/adapters/storage/sqlite-event-store.ts:71-97 | On tables the store wrote, the rows in ascending order pass every check and give back the stream. |
| Stores.ReadRows | src/adapters/storage/sqlite-event-store.ts:81-96 | For arbitrary rows, load returns their events exactly if each has its position, its schema, its stream and its own number, else the complaint about the first that has not. |
| Stores.MaxVersionIsLength | src/adapters/storage/sqlite-event-store.ts:106-113 | The maximum version over the rows of a stream is its length. |
| Stores.SelectedRows | src/adapters/storage/sqlite-event-store.ts:75-80 | Selecting the rows of a stream by ascending version returns version k + 1 in place k. |
| StoresAgree.CompareLocalStores | src/ports/event-store.ts:11-19 | A new in-memory store object follows the contract on every sequence of loads, appends and failing appends, and a new SQLite store object given the same gives the same answers, and then holds the same log, exactly if every batch that the contract takes passes json_valid. |
| StoresAgree.PostgresFollowsTheContract | src/ports/event-store.ts:11-19 | PostgreSQL transactions, one after another, hold the log and give the answers of the contract on every such sequence within the bound, up to which error a refusal names and whichever statement a failing append fails at, exactly if every batch that the contract takes passes the CHECK. |
| StoresAgree.CompareStores | src/ports/event-store.ts:4-19 | The two store objects and the PostgreSQL state machine, given one sequence of commands, give the same answers, up to which error a refusal names, exactly if every batch that the contract takes passes both CHECKs, and then end with one log. |
| StoresAgree.NulPayloadPartsTheStores | src/adapters/storage/postgres-event-store.ts:125 | A creation whose payload is the string of code unit 0 is taken by the contract and rolled back by PostgreSQL. |
| StoresAgree.RefusalsDifferExactly | src/adapters/storage/postgres-event-store.ts:516-523 | Refusals differ exactly if the version is stale and PostgreSQL turns the batch away before it looks at the stream, or the version is right and the batch would pass the event bound. |
| Migration.RequireRowsExactly | src/adapters/storage/postgres-event-store.ts:225-255 | For arbitrary ledger rows, exactly when the check passes, and which of its complaints it makes: the first unreadable or newer row counts, then the first row of its own version. |
| Migration.BuiltIsReady | src/adapters/storage/postgres-event-store.ts:598-601 | A catalog with everything built and one ledger row is ready. |
| MigrationRuns.RunKeepsInv | src/adapters/storage/postgres-event-store.ts:349-410 | The invariant of catalog, advisory lock and every run at every statement holds under all interleavings and failures. |
| MigrationRuns.SchemaIsAllOrNothing | src/adapters/storage/postgres-event-store.ts:349-410 | Concurrent runs that fail anywhere leave the committed catalog as it was, or, if it was unmigrated, fully built with exactly one ledger row. |
| MigrationRuns.SuccessMeansReady | src/adapters/storage/postgres-event-store.ts:399-403 | After any successful run the readiness check succeeds, in that and every later state. |
| MigrationRuns.FoundRowReplaysNothing | src/adapters/storage/postgres-event-store.ts:384-398 | While the ledger holds the row no run is at, or holds the effect of, a migration statement. |
| MigrationRuns.OneBuilderAtATime | src/adapters/storage/postgres-event-store.ts:360-363 | At most one run is past the advisory lock with something to commit. |
| MigrationRuns.RefusalsAreTrue | src/adapters/storage/postgres-event-store.ts:374-401 | A refused run is refused for the reason it gives, and the catalog is the one it started from. |
| MigrationRuns.OnlyFailuresStopARun | src/adapters/storage/postgres-event-store.ts:349-410 | On an unmigrated or ready catalog each statement brings a run with the lock nearer to success; only outside failures send it into rollback. |
| MigrationAlone.MigratesAlone | src/adapters/storage/postgres-event-store.ts:349-410 | From every reachable state in which no run holds the lock, a run that nothing outside makes fail ends within twenty statements: it migrates an unmigrated catalog, succeeds on a recorded one exactly if every checked object is there, is refused otherwise for what is wrong, by the database only if something it creates is in the way, and then changes nothing. |
| Preflight.PassesInputPreflight | src/adapters/agui/interrupt.ts:207-250 | The explicit-stack traversal accepts exactly what the recursive specification accepts on every graph, cyclic ones included, in at most 2 * maxNodes + 1 iterations and with at most max(roots, maxNodes) + maxDepth + 1 frames. |
| Preflight.PushChildren | src/adapters/agui/interrupt.ts:236-246 | Pushing the values of an object adds one visit frame each and owes exactly their unfoldings. |
| Preflight.EnterObject | src/adapters/agui/interrupt.ts:234-246 | Trading the visit frame of an object for its leave frame and its values' visit frames keeps the owed count, and adds it to the active path. |
| Preflight.EarlyRejectionIsRight | src/adapters/agui/interrupt.ts:220-232 | The pending-count rejection refuses nothing that the full count would accept. |
| Preflight.RevisitIsTooDeep | src/adapters/agui/interrupt.ts:230 | An object met again on the active path lies on a cycle and fits no depth bound. |
| PreflightMeaning.AcceptsMeasuresTheUnfolding | src/adapters/agui/interrupt.ts:203-250 | Inputs are accepted exactly if they unfold to trees, shared objects counted once per path, of at most the allowed depth and together at most the allowed number of nodes. |
| PreflightMeaning.BoundedMeansAcyclic | src/adapters/agui/interrupt.ts:230 | A value fits some depth bound exactly if it reaches no cycle, and then the number of objects is bound enough. |
| PreflightMeaning.CyclicInputsAreRefused | src/adapters/agui/interrupt.ts:203-206 | An input that reaches a cycle is refused under every limit. |
| PreflightMeaning.SelfReferencesAreRefused | src/adapters/agui/interrupt.ts:230 | An object that holds itself is refused under every limit. |
| PreflightMeaning.AcceptsInAnyOrder | src/adapters/agui/interrupt.ts:236-246 | Reordering the values of any objects of the input changes no verdict. |
| Protocol.OpaqueMeansTrimmed | src/adapters/agui/interrupt.ts:15-20 | An identifier is accepted exactly if it is not empty and trimming white space off both ends changes nothing. |
| Protocol.BlanksAre | src/adapters/agui/interrupt.ts:15-20 | The white space that trimming removes is, code unit by code unit, that of ECMA-262. |
| Protocol.MemberIsFound | src/adapters/agui/interrupt.ts:7-13 | Looking a member up by name finds exactly what the object has under that name. |
| Protocol.DecimalReadsBack | src/adapters/agui/interrupt.ts:265-277 | The text of an integer is its digits, which read back as the number and start with no zero, after a minus if it is negative. |
| Protocol.DecimalIsInjective | src/adapters/agui/interrupt.ts:265-277 | Two version numbers with one decimal text are equal. |
| Protocol.HashDecidesEquality | src/adapters/agui/interrupt.ts:261-263 | With an injective hash, two values have one content hash exactly when they are equal up to key order. |
| AguiIssue.NoProblemMeans | src/adapters/agui/interrupt.ts:340-357 | The checks of the projection pass exactly for cohorts of pending continuations on the bound thread with usable, distinct ids and projectable payloads. |
| AguiIssue.ProjectCohort | src/adapters/agui/interrupt.ts:339-357 | The projection loop returns the first problem in order, or one interrupt per continuation carrying its id, message, deadline and schema. |
| AguiIssue.IssueAguiInterrupts | src/adapters/agui/interrupt.ts:326-409 | Issuing succeeds exactly for issuable cohorts, whose versions and deadlines fit the receipt schema, with a receipt over exactly them, and fails with the first problem otherwise. |
| AguiIssue.CohortErrorExactly | src/adapters/agui/interrupt.ts:461-505 | The cohort check passes exactly when issued and current ids pair off without repetition and each continuation is as issued or one transition on. |
| AguiIssue.IssuedReceiptPasses | src/adapters/agui/interrupt.ts:439-505 | An issued receipt passes the receipt check and the cohort check, for the same cohort and for any cohort reached from it by transitions, in any order. |
| AguiIssue.ReachesInOneStep | src/domain/reducer.ts:60-122 | Any number of transitions is at most one, and keeps everything but the version. |
| AguiHashes.CohortIdPinsTheReceipt | src/adapters/agui/interrupt.ts:265-281 | Without collisions, two receipts whose cohort ids are their own hashes and coincide are one receipt. |
| AguiMeaning.AlteredReceiptIsRefused | src/adapters/agui/interrupt.ts:439-459 | Without collisions, a receipt that keeps the cohort id of an issued one and is not that receipt, in thread, run, any member, or which members in which order, is refused as invalid input; so one that yields commands is the issued one. |
| AguiMeaning.ReceiptIsValidExactly | src/adapters/agui/interrupt.ts:439-459 | A receipt passes its check exactly if its ids are trimmed, its members are distinct and at least one, each with a readable deadline, a positive safe version and a digest, and its cohort id is the hash of all the rest. |
| AguiMeaning.ProjectableExactly | src/adapters/agui/interrupt.ts:7-13 | A payload can be projected exactly if it is an object with a message that is not empty, of kind input, authorization or none, whose response schema, if any, is an object. |
| AguiMeaning.InterruptsSayWhatPayloadsSay | src/adapters/agui/interrupt.ts:382-398 | Each issued interrupt has its continuation's id and deadline and its payload's message and schema, and asks for authorization exactly if the payload's kind does. |
| AguiMeaning.ProblemsAreTrue | src/adapters/agui/interrupt.ts:340-357 | The problem that a cohort is refused with is that of its first continuation that has one: not pending, on another thread, with an id that is not trimmed or was there before, or with a payload that cannot be projected. |
| AguiMeaning.AdmissibleByPayload | src/adapters/agui/interrupt.ts:634-752 | By the payload's members: an authorization is never resolved in band, an input only with a payload; a pending continuation is answered in time and, under a response schema, with the host's approval of an answer left unchanged; a closed one only with the decision that closed it. |
| AguiMeaning.SafeInputExactly | src/adapters/agui/interrupt.ts:189-250 | Input is looked at exactly if the caller's limits, or a depth of 64 and 50,000 nodes where there are none, are positive and safe, and it unfolds to trees that keep to them. |
| AguiMeaning.RejectionsAreTrue | src/adapters/agui/interrupt.ts:549-757 | Every refusal of a batch is true: what its code says holds of the input, the receipt, the cohort or the entries, or of one continuation and its entry. |
| AguiMeaning.HashesAreOfWhatTheyName | src/adapters/agui/interrupt.ts:261-291 | A cohort id is the tagged hash of its receipt, each field under its name, and a resume key that of thread, interrupt and answer. |
| AguiHashes.KeyPinsTheDecision | src/adapters/agui/interrupt.ts:283-291 | Without collisions, two resume keys coincide exactly for equal thread, interrupt and payload up to key order. |
| AguiHashes.PayloadHashPinsThePayload | src/adapters/agui/interrupt.ts:488-503 | Without collisions, a continuation that passes the cohort check carries the issued payload. |
| AguiResume.DecidesExactly | src/adapters/agui/interrupt.ts:630-752 | A member is granted exactly if its entry is well put and its continuation is open to it or already has the same outcome; the command does not depend on which. |
| AguiResume.NobodyIsMissing | src/adapters/agui/interrupt.ts:622-629 | After both set checks no issued interrupt lacks a continuation or an entry: the missing-entry branch is dead. |
| AguiResume.CollectEntries | src/adapters/agui/interrupt.ts:588-597 | The filing loop returns the entries by id, or nothing if an id repeats. |
| AguiResume.DecideInOrder | src/adapters/agui/interrupt.ts:619-754 | The command loop returns one command per interrupt in order, or the first refusal and no commands. |
| AguiResume.FromAguiRunAgentInput | src/adapters/agui/interrupt.ts:549-757 | Validation, the traversal of the raw input included, returns what the specification decides, for every input and all limits. |
| AguiResume.SetsDifferWhen | src/adapters/agui/interrupt.ts:598-607 | Comparing sizes and looking for a stranger decides whether answered and issued ids are one set. |
| AguiTheorems.AcceptedExactly | src/adapters/agui/interrupt.ts:549-757 | A batch is accepted exactly when everything is present, issued, current and answered ids pair off, and every pair is admissible. |
| AguiTheorems.OneCommandPerInterrupt | src/adapters/agui/interrupt.ts:618-754 | An accepted batch has exactly one command per issued interrupt, in receipt order, made from the one entry with its id. |
| AguiTheorems.OrderIsIrrelevant | src/adapters/agui/interrupt.ts:588-621 | Permuting entries or continuations changes nothing, error codes included. |
| AguiRaw.RawEntriesInAnyOrder | src/adapters/agui/interrupt.ts:549-597 | For one input graph: putting the members of its list of resume entries, each with its payload, in another order is reading the entries in that order, and changes neither the preflight's verdict nor the answer. |
| AguiRaw.RawCohortInAnyOrder | src/adapters/agui/interrupt.ts:461-505 | And so for the list of continuations. |
| AguiRaw.CyclesHoldNothing | src/adapters/agui/interrupt.ts:207-230 | An object on a cycle unfolds to no JSON value, so no payload leads back to the list that its entry is in. |
| AguiTheorems.RepetitionReturnsTheBatch | src/adapters/agui/interrupt.ts:549-757 | After any transitions of the cohort, with pending members unexpired, validating again returns the same commands exactly if every finished member was settled by its own command, and none otherwise. |
| AguiService.RunsReach | src/domain/reducer.ts:60-128 | Between two loads, whatever the service did, the later cohort is reached from the earlier by the reducer. |
| AguiService.BatchIsCrashSafe | src/adapters/agui/interrupt.ts:549-757 | If, on members that were open, only inspections and the batch's own commands commit anything, with crashes and refused foreign requests anywhere, validating again returns exactly the batch if no member expired, and is refused otherwise. |
| AguiService.ReexecutionAppendsNothing | src/application/continuation-service.ts:276-295 | A command, resume or cancel, executed again after it took effect, in any interleaving, appends nothing and returns the stored envelope, unless a call of its own failed. |
| AguiService.ReexecutionIsAnswered | src/application/continuation-service.ts:368-382 | Left alone, a command executed again has its answer after two steps. |
| McpForms.CheckersAgree | src/adapters/mcp/elicitation.ts:77-383 | For all eight field kinds, a schema is accepted exactly if it would be without its default and the value check accepts that default. |
| McpForms.FieldAcceptedExactly | src/adapters/mcp/elicitation.ts:77-383 | A field schema is accepted exactly if its bounds are in order, its options there, none twice and as many as their names, and the value check takes its default. |
| McpForms.EverySchemaFieldCounts | src/adapters/mcp/elicitation.ts:358-383 | In an accepted form schema any one field can be replaced exactly by one that is accepted, and the required names by any that are distinct and declared. |
| McpForms.EveryValueCounts | src/adapters/mcp/elicitation.ts:972-1003 | In accepted content a value can be put in exactly if its property is declared and takes it, and left out exactly if it is not required. |
| McpForms.LengthIsInCodePoints | src/adapters/mcp/elicitation.ts:43-45 | Lengths are counted in code points: they add up over any cut but one inside a surrogate pair, which counts one as any other unit does. |
| McpForms.DefaultsAreAccepted | src/adapters/mcp/elicitation.ts:972-1003 | An accepted form schema accepts the form of its defaults exactly when every required property has one. |
| McpForms.SelectionFillableExactly | src/adapters/mcp/elicitation.ts:940-949 | An accepted selection field, titled or not, can be filled exactly if it asks for no more items than it offers. |
| McpForms.IntegerFillableExactly | src/adapters/mcp/elicitation.ts:934-939 | An accepted integer field can be filled exactly if an integer lies within its bounds. |
| McpForms.SomeAcceptedFieldsCannotBeFilled | src/adapters/mcp/elicitation.ts:77-383 | One option with a minimum of two items, and integer bounds with no integer between them, are accepted, and nothing fills them. |
| McpTheorems.IssuedExactly | src/adapters/mcp/elicitation.ts:794-915 | Issuing succeeds exactly for pending continuations with a projectable payload, a context and capabilities that fit its mode, and what is issued passes every check made of it later. |
| McpMeaning.IssuedCarriesItsContext | src/adapters/mcp/elicitation.ts:775-915 | Whatever is issued has the request id of its context and the message of its payload; a URL request, issued exactly for authorizations, the elicitation id and the url of its binding; a form request the payload's response schema or the empty object form; metadata and receipt the continuation's id and correlation, its deadline, the request id and the related task. |
| McpMeaning.ProjectableExactly | src/adapters/mcp/elicitation.ts:385-404 | A payload can be projected exactly if it has a message that is not empty and is an authorization without a response schema, or an input, by kind or by default, whose response schema, if any, is accepted. |
| McpMeaning.FirstFailedCheckRefuses | src/adapters/mcp/elicitation.ts:671-860 | Issuing is refused by the first check that fails of the continuation's state, its payload, the context, the client's capabilities, the URL binding and the ids, with that check's problem, and by none exactly if it succeeds; a client that declares elicitation and nothing else takes forms. |
| McpMeaning.TakesBackExactly | src/adapters/mcp/elicitation.ts:1005-1126 | A result counts exactly if the continuation is pending and issuing again for it would give the request it comes with, up to key order in the form, and its receipt; then its answer is the one the request allows, and otherwise the problem says which part is amiss. |
| McpMeaning.CompletesExactly | src/adapters/mcp/elicitation.ts:1128-1155 | A request completes exactly if its continuation was resumed and issuing again for it would give that URL request and receipt. |
| McpMeaning.RequestIsWritten | src/adapters/mcp/elicitation.ts:449-500 | What is hashed for a request is the JSON-RPC request that carries it, each field under its protocol name. |
| McpTheorems.IssuedRequestsParse | src/adapters/mcp/elicitation.ts:1005-1061 | Every issued request parses with its own receipt: for each result, exactly which outcome comes back, declines and cancels included. |
| McpTheorems.DefaultsComeBackAccepted | src/adapters/mcp/elicitation.ts:1050-1060 | A form that was issued and comes back with all its defaults is accepted whenever every required property has one. |
| McpTheorems.CompletesAfterResume | src/adapters/mcp/elicitation.ts:1128-1155 | In URL mode an issued request completes, with the elicitation id that was issued, after exactly those transitions that resume the continuation; no result is taken after any. |
| McpTheorems.ReceiptPinsTheRequest | src/adapters/mcp/elicitation.ts:1103-1126 | Without collisions, any request that parses or completes with a receipt is the one it was issued for, up to key order in the form schema. |

## Left out

- `history` on the service: one load and a check for emptiness.
- The HTTP application, the command line, configuration, the pino observer and the A2A adapter.
- Zod, `@ag-ui/core` and `URL` as libraries: what their schemas accept is modelled where the adapters rely on it, and email, URI and date formats are one uninterpreted predicate.
- The URL policy of MCP (HTTPS, loopback, credential-like query names and the host's own validator): one uninterpreted predicate.
- SHA-256, token generation and constant-time comparison: an uninterpreted function, any text, and equality of the decoded bytes. The token issuer is the repository's own, which stores the hash of the token that it returns.
- PostgresAlone.LoneAppendBehaves: limits of the server, such as its stack depth, memory and the sizes that jsonb can hold, are failing statements and not part of the CHECK; an append that meets one is not left alone.
- StoresAgree.CompareLocalStores: json_valid is an uninterpreted predicate on the written text.
- SQL text, identifier quoting, catalogue queries, pool and client handling, and the decoration of rollback errors: only what each statement does to tables, locks and ledger.
- Error messages: a refusal is modelled by its error class or code.
- JavaScript getters, proxies and prototype keys: objects are plain data, so the preflight and the payload policy see what a later read sees.
- ISO texts: two texts of one instant are one instant here, so a comparison of such texts is a comparison of instants.
- Payloads that are not JSON values: an envelope carries a JSON value, so re-parsing a continuation payload cannot fail.
- Titles and descriptions of MCP fields, which no check reads.
- Version numbers of the migration other than 1: the theorems about runs are about the one version the repository has.
- AguiResume.FromAguiRunAgentInput: the raw input is an object graph for the preflight and a typed run input for the checks after it; that the protocol schema parses the one into the other is not modelled, so both are parameters.
- AguiService.BatchIsCrashSafe: takes the two loads of the cohort as replays of the log; that a host loads through `inspect`, which may itself expire a member, is covered by allowing inspections and excluding expired members.
- PostgresServiceTheorems.RetryAfterCommit: the failing call it allows is one of the run's visible steps, that is a load, a token check or an append that failed, and not which SQL statement of the append it was.
- Migrations and readiness while the service runs: the composed system starts on a migrated schema.
- ServiceTheorems.EveryStepProgresses: says nothing about how often the scheduler lets an operation step.
