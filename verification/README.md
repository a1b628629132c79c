# Revaulter, verified

This project models the parts of Revaulter where the behaviour is hardest to see from any one
function, and proves what holds of them over every input, every interleaving or every run.

- **Requests and the long poll.** A request row leaves `pending` through one atomic statement;
  pollers subscribe, read again and park on a one-slot channel; confirm, cancel and expiry commit
  first and notify later. `Requests` holds the table and its statements, `Notifications` the
  channel registry behind the server lock, `LongPoll` the state machine in which every statement,
  transaction and locked section is one step, `LongPollSafety` its invariants,
  `LongPollTheorems` the results over whole runs, `LongPollProgress` that a notified poller gets
  through and `LongPollOutcomes` whom a poll answers and what, from one end to the other.
- **The list stream.** `Broker` is the publish/subscribe broker, `ListStream` the stream that
  merges a snapshot with live messages, and exactly when the list on the screen is right.
- **Accounts.** `Auth` and `AuthTheorems`: users, passkeys, challenges and the wrapped-key epoch;
  `AuthOutcomes` what each transaction needs and all that it changes.
  `SigningKeys`: signing-key slots and their publication proofs.
- **Streams and buffers.** `ChecksumReader` withholds a backup's trailer, `Cells` says what a
  database column, its driver, a backup and an insert make of one value, `Backup` dumps and
  restores tables across engines, `Pipe` is the in-memory ring buffer, `Ndjson` the record
  splitter.
- **Parsers and printers.** `Cbor` and `CoseExtract` find a public key in a WebAuthn attestation
  object, `Canonical` prints and parses the bodies the anchor signs, `Manifest` the integrity
  manifest, `Base64Url` and `JweFile` the encrypted file, `EditSession` the loop that keeps it up
  to date.
- **The audit log.** `AuditLog`: cursor paging while rows come and go.

Each file that updates state in place is modelled by a class whose methods are proved equal to
functions on values; the state machines and the lemmas are about those same functions. A
transaction is one step that commits its whole effect or leaves no trace. The clock never goes
back. Cryptography, JSON and the Go CBOR library appear as function parameters of which only the
named laws are used (parsing inverts printing, opening inverts sealing, a hash tells the contents
of one session apart). `Cells.LawfulCodecsExist` and `JweFile.LawfulLibraryExists` show, by way of
the prefix-free codes in `Codes`, that these laws can be met, and `Backup.SomeTableIsCarried` that
the round trip has something to carry.

Places where the code does less than its comments or its name suggest, each kept as it is, with a
concrete input or run and the exact condition:

- Expiry found while reading (`GetRequest`, `ListPending`, `GetAndDeleteTerminalRequest`) and a
  failing `Dequeue` finish a request without notifying its poller: `LazyExpiryStrands`,
  `DequeueErrorStrands`, and the condition in `NoLostWakeup`.
- A request's list item is published after its creation is answered, so a quick cancellation can
  overtake it, and a full queue drops messages: `OvertakenItemIsAPhantom`, `DroppedItemIsMissed`,
  and the condition in `Convergence`.
- A jsonb document that is a string, a null, a flag or a number reaches the backup unwrapped by
  the Postgres driver, and numbers inside documents go through a double: `UnwrappedTextIsLost`,
  and the condition in `CellSurvivesIff` and `BackupSurvivesIff`. The only jsonb column in the
  schema holds objects.
- Integers such as `+5` and `007` parse but print differently: `SignedNumberIsNotPrintedBack`, and
  the condition in `PrintUndoesParseIff`.
- A row created unpublished may hold an incomplete proof that nobody verified and that locks its
  slot: `PartialProofLocksUnverified`, and the condition in `PublishedIsProven`.

To verify: `dafny verify dfyconfig.toml`.

## Model

| member | source | states |
|---|---|---|
| Requests.StatementsAreLegal | internal/db/requests.go:90-347 | every statement leaves a finished row alone or deletes it, and moves a pending row only to a legal successor |
| Requests.TerminalIsFinal | internal/db/requests.go:90-347 | over any script of statements a finished row never changes: it is kept as it is or deleted |
| Requests.ScriptsRunInOrder | internal/db/requests.go:90-347 | a script runs its statements one after another |
| Requests.AbsentStaysAbsent | internal/db/requests.go:90-347 | no statement but the insert makes a row appear |
| Requests.StatementsActOnRows | internal/db/requests.go:90-347 | every statement acts on each row by itself: exactly when it completes, cancels, expires, takes or drops one, and what the row then is |
| Requests.DeadlineTestsAgree | internal/db/requests.go:102-121 | the full-precision deadline test and the whole-second one disagree in exactly the second that starts at the deadline |
| Requests.RequestStore.CreateRequest | internal/db/requests.go:90-100 | inserts a pending row, or fails on a taken key and changes nothing |
| Requests.RequestStore.GetRequest | internal/db/requests.go:102-121 | expires an overdue row and returns what the table then holds |
| Requests.RequestStore.CompleteRequest | internal/db/requests.go:247-268 | completes the owner's pending row that is not past its deadline, and nothing else |
| Requests.RequestStore.CancelRequest | internal/db/requests.go:272-288 | cancels the owner's pending row, and nothing else |
| Requests.RequestStore.GetAndDeleteTerminalRequest | internal/db/requests.go:123-186 | takes a finished or overdue row out of the table in one statement |
| Requests.RequestStore.ListPending | internal/db/requests.go:205-242 | expires every overdue row of every user, then lists the pending ones, the caller's or without a caller everybody's, none of them altered; none is overdue unless the sweep failed, which is ignored |
| Requests.RequestStore.DeleteTerminalRequest | internal/db/requests.go:332-347 | deletes a finished row, if a cutoff is given only one older than it |
| Notifications.SubscribeIsDisciplined | internal/server/util-notifications.go:18-29 | registering evicts the previous channel by closing it once, and keeps every registered channel open, empty and registered for one request |
| Notifications.UnsubscribeIsDisciplined | internal/server/util-notifications.go:32-38 | unregistering closes only the caller's own registered channel |
| Notifications.NotifyIsDisciplined | internal/server/util-notifications.go:41-58 | notifying fills and closes the registered channel, never blocks, and unregisters it |
| Notifications.MisusePanics | internal/server/util-notifications.go:18-58 | closing a channel or sending on it panics exactly when it is not open |
| Notifications.Server.SubscribeState | internal/server/util-notifications.go:18-29 | the method on channel objects refines the registry function |
| Notifications.Server.UnsubscribeState | internal/server/util-notifications.go:32-38 | likewise, leaving another poller's channel alone |
| Notifications.Server.NotifySubscriber | internal/server/util-notifications.go:41-58 | likewise for the non-blocking send and close |
| LongPollTheorems.InvHolds | internal/server/routes-request.go:242-374 | the invariant holds after every run of pollers, handlers, expiry and housekeeping |
| LongPollTheorems.NoLostWakeup | internal/server/routes-request.go:279-373 | a poller blocked on a finished or deleted request is still owed a notification if and only if the request did not finish on a silent path |
| LongPollTheorems.QuietWorldStrandsNobody | internal/server/routes-api.go:192-203 | with all handlers done and no silent exit, every blocked poller waits for a request that is still pending |
| LongPollTheorems.NotificationArrives | internal/server/util-notifications.go:41-58 | the owed notification fills and closes the channel of exactly that blocked poller and changes no row |
| LongPollTheorems.WakeupDelivers | internal/server/routes-request.go:290-373 | once the owed notification is sent, three steps of the poller answer it with what the row holds |
| LongPollTheorems.NotifiedPollerAnswers | internal/server/routes-request.go:290-373 | a poller with a value in its channel and a finished row answers in three steps: done with the stored envelope, failed, or gone |
| LongPollProgress.NotifiedPollerGetsThrough | internal/server/routes-request.go:279-373 | whatever runs in between, after the notification the poller has answered or its next step is possible, and after four steps of its own it has answered with the request's outcome, unless its client left or the database failed |
| LongPollProgress.AwakeStaysAwake | internal/server/routes-request.go:290-373 | over any run a poller on its way to an answer stays on its way or has answered, and each of its own steps brings it nearer |
| LongPollOutcomes.OnlyOwnersAreTold | internal/server/routes-request.go:272-277 | in every run, whoever holds a channel or is told that a request is done, failed, gone or pending is its owner |
| LongPollOutcomes.StrangersAreTurnedAway | internal/server/routes-request.go:265-277 | a poll for somebody else's request, or for none, makes no channel and returns "not found" unless the database fails |
| LongPollOutcomes.HandlerCommitsIff | internal/server/routes-api.go:156-252 | a handler finishes a pending request if and only if its user owns it and the deadline agrees with its kind, with exactly its exit and audit record; otherwise it changes nothing |
| LongPollOutcomes.OutcomeIsDelivered | internal/server/routes-api.go:156-252 | a confirmation, cancellation or expiry, its notification and three steps of the parked poller give that poller the envelope or the failure, take the row, and leave exactly this history |
| LongPollOutcomes.FinishedRequestIsServed | internal/server/routes-request.go:242-341 | the owner's poll of a finished request takes the row and is told the outcome at once |
| LongPollOutcomes.PendingRequestIsAwaited | internal/server/routes-request.go:242-345 | the owner's poll of a pending request parks on a channel of its own, registered for the request |
| LongPollOutcomes.OverdueRequestFails | internal/server/routes-request.go:242-341 | the owner's poll of an overdue request expires it silently, takes the row and is told that it failed |
| LongPollOutcomes.LastSecondIsPending | internal/db/requests.go:102-121 | in the second that starts at the deadline the poll reads the row again and goes on with it unchanged |
| LongPollOutcomes.ParkedGoesOnIff | internal/server/routes-request.go:343-373 | a parked poller can go on exactly when it is not blocked, and how for a value and for an eviction |
| LongPollOutcomes.SecondPollEvicts | internal/server/util-notifications.go:18-29 | a second poll of the owner makes the first answer that the request is still pending |
| LongPollOutcomes.CollectingTakesOrReads | internal/db/requests.go:123-186 | the collecting statement expires an overdue row on record, and otherwise the poller reads again; in reachable worlds the row is finished or gone |
| LongPollOutcomes.PollerFailuresAreLocal | internal/server/routes-request.go:260-341 | where the database or the client can end a poll, and that nothing else changes |
| LongPollOutcomes.HandlerFailuresAreLocal | internal/server/routes-api.go:156-252 | where a handler can fail, that nothing but the handler changes, and when its request falls silent |
| LongPollTheorems.LazyExpiryStrands | internal/db/requests.go:108-118 | a run in which expiry on read leaves a parked poller that nobody will wake |
| LongPollTheorems.DequeueErrorStrands | internal/server/routes-api.go:193-197 | a run in which a dequeue error leaves a parked poller of a canceled request that nobody will wake |
| LongPollTheorems.ExactlyOneOutcome | internal/server/routes-api.go:156-252 | per request: one exit, one collection, one confirm-or-cancel audit record at most, all agreeing; completions are the owner's and in time, expiries late |
| LongPollTheorems.StoryShape | internal/server/routes-api.go:156-252 | a request's history is an exit, an audit record exactly when a user caused it, and perhaps one collection, in that order |
| LongPollTheorems.RowsAgreeWithHistory | internal/db/requests.go:123-308 | a stored row is pending with nothing recorded, or holds the status and envelope of its one exit |
| LongPollTheorems.AtMostOneAnswer | internal/server/routes-request.go:303-341 | over all polls of one request at most one is given the outcome, and the envelope is the one the completion stored |
| LongPollTheorems.HistoriesOnlyGrow | internal/db/requests.go:123-308 | an earlier history is a prefix of every later one |
| LongPollTheorems.ChannelDiscipline | internal/server/util-notifications.go:18-58 | in every run no channel is closed twice or sent on after closing, and each registered channel is open, empty and owned by exactly one live poller |
| LongPollTheorems.ReturnedPollersLeaveNothing | internal/server/routes-request.go:284-288 | once all pollers have returned the registry is empty and every channel is closed |
| LongPollTheorems.EvictedCleanupIsHarmless | internal/server/routes-request.go:284-288 | the deferred cleanup of an evicted poller changes nothing; otherwise it removes only its own entry |
| Broker.Broker.Subscribe | internal/utils/broker/broker.go:37-50 | adds a fresh empty open queue, unless the broker has stopped |
| Broker.Broker.Unsubscribe | internal/utils/broker/broker.go:54-63 | removes and closes the queue if it is subscribed, and nothing else |
| Broker.Broker.Shutdown | internal/utils/broker/broker.go:67-77 | closes and removes every queue once |
| Broker.Broker.Publish | internal/utils/broker/broker.go:80-100 | appends the message to every queue with room and drops it from the full ones |
| ListStream.Stream.Receive | internal/server/routes-api.go:439-455 | forwards a message of the user's that is a removal or new, and records it |
| ListStream.Stream.Run | internal/server/routes-api.go:398-461 | after any messages, what the browser has rendered from the snapshot and the lines is exactly `seen`; every line is the user's own and sends no item the browser has |
| ListStream.RenderedForwardIsMerge | internal/server/routes-api.go:444-455 | rendering the lines written for one message does what the merge does |
| ListStream.InvHolds | internal/server/routes-api.go:374-461 | after every run each request is in one place, and the drained queue would show exactly the announced ones |
| ListStream.ListAtRest | internal/server/routes-api.go:374-461 | the exact list once all is published and drained: offered and still pending, plus the three kinds of phantom |
| ListStream.Convergence | internal/server/routes-api.go:374-461 | that list equals the user's pending requests if and only if no pending one went unannounced or had its item dropped without being listed, and nothing offered left silently, was published late or had its removal dropped |
| ListStream.CleanRunsConverge | internal/server/routes-api.go:374-461 | with none of those failures it always does |
| ListStream.OvertakenItemIsAPhantom | internal/server/routes-request.go:159-177 | a run in which a cancellation overtakes the item and a canceled request stays on the list |
| ListStream.DroppedItemIsMissed | internal/utils/broker/broker.go:80-100 | a run in which the ninth unread item is dropped and its pending request stays off the list |
| ListStream.UnannouncedRequestIsMissed | internal/server/routes-request.go:149-177 | a run in which the creator fails before publishing and the pending request stays off the screen |
| ListStream.ExpiredRequestIsAPhantom | internal/db/requests.go:102-121 | runs in which a read or a sweep expires a request that stays on the screen |
| ListStream.UnpublishedRemovalIsAPhantom | internal/server/routes-api.go:156-203 | a run in which the handler fails after its transaction and the request stays on the screen |
| ListStream.CompletedRequestLeavesTheScreen | internal/server/routes-api.go:210-252 | an ordinary run: completed with its envelope, the request leaves the screen with its removal |
| Cbor.ReadCborUint | client/web/src/lib/cose-extract.ts:7-42 | the byte-by-byte arithmetic computes the big-endian value, and rejects exactly what is truncated, reserved or above 2^53-1 |
| Cbor.CborItemLength | client/web/src/lib/cose-extract.ts:46-91 | the recursive reader with its loops computes `ItemLength` and terminates, whatever count an item declares |
| Cbor.ArrayItems | client/web/src/lib/cose-extract.ts:70-76 | the array loop ends where the flat reading of that many items ends, with the same error |
| Cbor.MapEntries | client/web/src/lib/cose-extract.ts:77-84 | the map loop likewise for two items an entry |
| Cbor.SkipSplits | client/web/src/lib/cose-extract.ts:46-91 | reading `a + b` items is reading `a` and then `b` |
| Cbor.HeadReads | client/web/src/lib/cose-extract.ts:7-58 | a head reads as a type and argument of a width exactly where it is encoded so |
| Cbor.StandingItemIsSkipped | client/web/src/lib/cose-extract.ts:46-91 | completeness: any well-formed item, whatever follows, is stepped over exactly |
| Cbor.SkippedItemsStand | client/web/src/lib/cose-extract.ts:46-91 | soundness: whatever is stepped over is a run of well-formed items of that extent |
| Cbor.ItemLengthIsExact | client/web/src/lib/cose-extract.ts:46-91 | the reader returns `n` if and only if the next `n` bytes are one well-formed definite-length item |
| Cbor.WellFormedIff | client/web/src/lib/cose-extract.ts:60-91 | what must follow the head of each major type, written out as in section 3.1 of RFC 8949 |
| Cbor.KnownHeads | client/web/src/lib/cose-extract.ts:7-58 | heads encode to the bytes of the examples in appendix A of RFC 8949 |
| Cbor.HeadFaults | client/web/src/lib/cose-extract.ts:7-58 | which fault of a head is reported when |
| CoseExtract.ExtractAuthData | client/web/src/lib/cose-extract.ts:95-155 | the method with its moving offset computes the walk, with every error of the source |
| CoseExtract.AuthDataIsExact | client/web/src/lib/cose-extract.ts:95-155 | it returns a byte string if and only if that is the value of the first authData entry of a map with text keys in any order |
| CoseExtract.KeyBytesIsExact | client/web/src/lib/cose-extract.ts:164-191 | the key bytes returned are exactly one encoded key at the attested offset, whatever follows |
| CoseExtract.ExtractIsExact | client/web/src/lib/cose-extract.ts:163-191 | the extractor returns `bytes` if and only if the object's first authData attests a key encoded by those bytes |
| CoseExtract.NamedIff | client/web/src/lib/cose-extract.ts:112-130 | an entry is called authData exactly when its decoded text is, a leading byte order mark aside |
| CoseExtract.KeyFaults | client/web/src/lib/cose-extract.ts:166-186 | which fault of the authenticator data is reported when, and where the key begins |
| CoseExtract.MapFaults | client/web/src/lib/cose-extract.ts:95-118 | which fault of the object's own head is reported when |
| CoseExtract.ExtractCredentialPublicKeyCose | client/web/src/lib/cose-extract.ts:163-191 | the method computes that function, with every error of the source |
| ChecksumReader.Reader.Read | internal/db/backup/restore.go:115-140 | each read hands out and hashes the next part of the body; the end is reported exactly when all but the last 32 bytes are out |
| ChecksumReader.Reader.Verify | internal/db/backup/restore.go:143-158 | accepts if and only if the stream ended without error, has at least 32 bytes, and its last 32 are the hash of the rest |
| ChecksumReader.Consume | internal/db/backup/restore.go:97-158 | for every chunking and all buffer sizes the bytes read are a prefix of the body, all of it at the end, and verification accepts exactly the sealed inputs |
| ChecksumReader.SealedBodyComesBack | internal/db/backup/backup.go:58-87 | a body written with its checksum is accepted and comes back whole |
| ChecksumReader.AcceptedInputsAreDeterminedByBody | internal/db/backup/restore.go:143-158 | accepted inputs are equal if their bodies are, and share a trailer only if their bodies share a hash |
| Backup.Encoder.DumpTable | internal/db/backup/backup.go:91-145 | writes header, normalised rows in order and the end marker |
| Backup.Encoder.RunBackup | internal/db/backup/backup.go:73-79 | writes the blocks of all tables in order |
| Backup.Restorer.RestoreTableBlock | internal/db/backup/restore.go:163-217 | reads one block and inserts its rows, with every error of the source |
| Backup.Restorer.RestoreTables | internal/db/backup/restore.go:79-85 | reads that many blocks and stops at the first error |
| Cells.CellSurvivesIff | internal/db/backup/format.go:102-155 | for any pair of engines and whatever the driver hands out for a cell, the restored cell is the same if and only if it is neither text bound for a Postgres uuid or jsonb column nor a document the driver decoded that fails `Decodes` |
| Cells.DecodedSurvivesIff | internal/db/backup/restore.go:324-353 | a document the driver decoded comes back if and only if it is an array or object whose numbers are doubles, or on Postgres a flag or such a number, or on SQLite a number whose text denotes it |
| Cells.BackupIsNeutral | internal/db/backup/format.go:102-155 | what is stored for a cell is one value whatever the engine and the driver's type, and for an identifier or a document a text for it |
| Cells.FlagsAreCoerced | internal/db/backup/restore.go:324-353 | a flag is handed to each engine in its own type and arrives as that flag; anything else is handed over as it is |
| Cells.SqliteFlagsAreIntegers | internal/db/backup/restore.go:324-353 | in SQLite flags are the integers 0 and 1, and any other integer stays a number |
| Cells.RefusedIff | internal/db/backup/restore.go:222-264 | Postgres refuses exactly the values of another type than their column's and the text it cannot parse, SQLite none |
| Cells.ScalarDocumentsBecome | internal/db/backup/format.go:102-155 | what exactly becomes of an unwrapped null, flag, number or string on either engine |
| Backup.RestoreInserts | internal/db/backup/restore.go:79-217 | whatever follows it, the stream is consumed exactly, and every known table's rows are inserted in order into the table of that name, up to the first refusal |
| Backup.RowSurvivesIff | internal/db/backup/restore.go:222-264 | a dumped row is inserted as the record of its cells if and only if each of them comes through |
| Backup.RowsSkipped | internal/db/backup/restore.go:203-206 | the rows of an unknown table are read past and change nothing |
| Backup.BackupSurvivesIff | internal/db/backup/restore.go:79-217 | restoring a backup gives every known table exactly the source's rows, in order and cell for cell, if and only if every cell of such a table comes through; tables it does not hold are as they were |
| Backup.UnwrappedTextIsLost | internal/db/backup/format.go:102-155 | for all codecs that obey the laws, a one-row table with a jsonb string is restored by no engine |
| Backup.CutBackupFails | internal/db/backup/restore.go:163-217 | a stream cut anywhere before its end, whatever it holds, is reported truncated or refused as the whole would be |
| Pipe.ReadAdvances | internal/utils/bufconn/bufconn.go:183-188 | moving the read offset, with its wrap, takes exactly the bytes read off the front |
| Pipe.WriteAdvances | internal/utils/bufconn/bufconn.go:221-234 | moving the write offset, with its wrap, appends exactly the bytes written |
| Pipe.Pipe.Empty | internal/utils/bufconn/bufconn.go:153-155 | the test is exact in both layouts |
| Pipe.Pipe.Full | internal/utils/bufconn/bufconn.go:157-159 | the test is exact in both layouts |
| Pipe.Pipe.Read | internal/utils/bufconn/bufconn.go:161-196 | a read takes the front of the contents, at least a byte unless it would wait, and reports closed, end or waiting as the source does |
| Pipe.Pipe.WritePass | internal/utils/bufconn/bufconn.go:219-234 | a pass into a pipe that is not full copies at least one byte to the end of the contents |
| Pipe.Pipe.Write | internal/utils/bufconn/bufconn.go:198-242 | one locked section copies exactly as much as fits and reports done or waiting; a closed pipe takes nothing |
| Pipe.Run | internal/utils/bufconn/bufconn.go:161-262 | over any sequence of sections what came out is a prefix of what went in, and at most the capacity is inside |
| Pipe.Transfer | internal/utils/bufconn/bufconn.go:161-262 | a writer that resumes and a reader move a whole message through any capacity, then the end |
| Ndjson.Generate | client/web/src/lib/ndjson.ts:13-55 | for any cut into chunks, between a CR and its LF too, the output is that of the non-empty pieces of the whole text split at `\r?\n`, up to the first that is not JSON |
| Ndjson.YieldAll | client/web/src/lib/ndjson.ts:43-51 | the inner loop yields the non-empty pieces in order and stops at the first that is not JSON |
| Ndjson.SplitResumes | client/web/src/lib/ndjson.ts:36-42 | splitting a longer text keeps every piece but the last and goes on from that one |
| Ndjson.SplitUndoesJoin | client/web/src/lib/ndjson.ts:13-13 | splitting undoes joining lines with either separator |
| Ndjson.FailureIsFinal | client/web/src/lib/ndjson.ts:45-50 | after a record that is not JSON the rest of the text makes no difference |
| Auth.AuthStore.Consume | internal/db/auth.go:295-329 | marks a live challenge of the right purpose and owner used, once, or changes nothing |
| Auth.AuthStore.AdvanceWrappedKeyEpoch | internal/db/auth.go:697-712 | advances the epoch of an active, ready user by one |
| Auth.AuthStore.UpdateCredentialWrappedKey | internal/db/auth.go:596-622 | re-wraps the named credential of an active user at the user's epoch |
| Auth.AuthStore.ReplaceWrappedKey | internal/server/routes-auth.go:971-1018 | the transaction: refused during a passkey ceremony, and an advance is undone when the update fails |
| Auth.AuthStore.FinishRegistration | internal/server/routes-auth.go:1541-1613 | the transaction: a live register challenge with session data and a good ceremony makes a user and one credential, or nothing changes |
| Auth.AuthStore.FinishAddCredential | internal/server/routes-auth.go:1270-1408 | the transaction: every check of the source in order, session data, ceremony and attestation among them, the challenge unspent when one fails |
| Auth.AuthStore.FinishSetup | internal/server/routes-auth.go:1781-1879 | the transaction: one credential, a signed key bundle, a matching attestation of bounded size at epoch 1, and a user not ready before and active |
| Auth.AuthStore.DeleteCredentialPostgres | internal/db/auth.go:747-785 | refines the one three-outcome delete, and its fourth outcome cannot occur |
| Auth.AuthStore.DeleteCredentialSqlite | internal/db/auth.go:788-830 | refines the same three-outcome delete |
| AuthOutcomes.AddCredentialIff | internal/server/routes-auth.go:1270-1408 | a passkey is added if and only if nothing stands in its way, each obstacle with its error in order; the whole credential, the spent challenge, and nothing else |
| AuthOutcomes.AddCredentialBeginIff | internal/server/routes-auth.go:1134-1190 | a ceremony begins for an active, ready account only and keeps its epoch |
| AuthOutcomes.RegisterIff | internal/server/routes-auth.go:1541-1613 | a registration succeeds exactly when nothing stands in its way, and makes this user and this credential |
| AuthOutcomes.FinalizeIff | internal/server/routes-auth.go:1781-1879 | a sign-up is finished exactly when nothing stands in its way, and puts each wrapped key in its place |
| AuthOutcomes.FinalizeNeedsOneCredential | internal/server/routes-auth.go:1784-1793 | it is refused for the number of credentials exactly when there is not one |
| AuthOutcomes.ReplaceIff | internal/server/routes-auth.go:971-1018 | a wrapped key is replaced exactly when nothing stands in its way; the named credential, the epoch, and nothing else |
| AuthOutcomes.HousekeepingRemoves | internal/db/auth.go:830-868 | which challenges, users and credentials housekeeping removes, and that the rest stays |
| AuthTheorems.DeleteOutcomes | internal/db/auth.go:735-830 | deleted if and only if the user owns it and another one; last if and only if it is the only one; not found if and only if it is not the user's |
| AuthTheorems.InvHolds | internal/db/auth.go:237-868 | the account invariant holds after every run of the transactions |
| AuthTheorems.AccountsAreSound | internal/db/auth.go:331-489 | every account has a credential, and each credential's epoch lies between 1 and the account's |
| AuthTheorems.FinalizeFindsOneCredential | internal/server/routes-auth.go:1784-1793 | the one-credential check of finalize can fail only for an account that is ready already |
| AuthTheorems.AdvanceLeavesOneCurrent | internal/server/routes-auth.go:985-999 | a committed advance leaves exactly the re-wrapped credential current and all others stale; otherwise no other credential changes |
| AuthTheorems.EpochFreeze | internal/server/routes-auth.go:1270-1278 | a passkey is added only at the epoch its ceremony began with, carries it, and no other credential changes |
| AuthTheorems.CeremonyBlocksReplacement | internal/server/routes-auth.go:975-983 | while a ceremony can still finish it was live all along, and every wrapped-key update of its user since it began was refused |
| AuthTheorems.AccountLives | internal/server/routes-auth.go:1541-1879 | a run in which an account registers, signs up, gets a second passkey, has its key replaced and is disabled, with the rows it ends with |
| SigningKeys.SigningKeyStore.CreateSigningKey | internal/server/routes-signing-keys.go:164-247 | the create transaction: a proof is required to publish, verified when complete, and the slot and id must be free |
| SigningKeys.SigningKeyStore.VerifyPublicationProof | internal/server/routes-signing-keys.go:546-610 | accepts only a complete proof whose body names this version, user, algorithm, label and id |
| SigningKeys.SigningKeyStore.AutoStoreUnpublished | internal/db/signing_keys.go:114-156 | inserts or replaces an unlocked row, and leaves a published row or one with a stored payload alone |
| SigningKeys.SigningKeyStore.UpdateSigningKey | internal/server/routes-signing-keys.go:255-342 | the update transaction: a supplied proof is verified and stored, and publishing without any is refused |
| SigningKeys.CreateIff | internal/server/routes-signing-keys.go:164-247 | when a key is created, each refusal in order, and the row with the flag and proof given |
| SigningKeys.AutoStoreIff | internal/db/signing_keys.go:114-156 | when auto-store fills or re-keys a slot, and the row it leaves |
| SigningKeys.UpdateIff | internal/server/routes-signing-keys.go:255-342 | when an update of the owned row succeeds, each refusal, and the row it leaves |
| SigningKeys.OwnershipDecides | internal/db/signing_keys.go:270-345 | an update or delete finds nothing exactly when the user owns no row of that id; a delete takes it away |
| SigningKeys.PublishedIsProven | internal/server/routes-signing-keys.go:185-310 | in every run a published row has a complete proof, and a row's proof was verified for exactly this user, algorithm, label and id if and only if it is complete |
| SigningKeys.LockedStepKeeps | internal/db/signing_keys.go:114-156 | no step but a delete changes a locked slot's id or key, and auto-store is refused |
| SigningKeys.LockedSlotKeepsItsKey | internal/db/signing_keys.go:114-156 | over any run a locked slot keeps its id and key until its row is deleted |
| SigningKeys.PartialProofLocksUnverified | internal/server/routes-signing-keys.go:185-213 | an unpublished row may hold an incomplete proof that was never verified and still locks the slot |
| Canonical.CanonicalBody | internal/protocolv2/anchor.go:121-154 | the field walk prints the lines joined by newlines |
| Canonical.ParseTaggedFields | internal/protocolv2/anchor.go:201-245 | the loop computes `Parse`, with every error of the source |
| Canonical.ParseUndoesPrint | internal/protocolv2/anchor.go:121-245 | parsing inverts printing for every layout, newline-free texts and 64-bit integers |
| Canonical.PrintIsInjective | internal/protocolv2/anchor.go:121-154 | equal bodies mean equal fields |
| Canonical.PrintUndoesParseIff | internal/protocolv2/anchor.go:201-245 | printing inverts parsing if and only if every number was written plainly |
| Canonical.SignedNumberIsNotPrintedBack | internal/protocolv2/anchor.go:233-238 | `+5` is read as 5 and printed without its sign |
| Canonical.BundleVersionsDiffer | internal/protocolv2/anchor.go:257-273 | a version 1 and a version 2 bundle never have the same body |
| Canonical.DomainsAreSeparate | internal/protocolv2/anchor.go:19-26 | messages are equal only within a domain and for equal bodies, whatever the bodies |
| Canonical.SignedMessageDeterminesPayload | internal/protocolv2/signing-key-publication.go:71-77 | a signed message determines its domain, its layout and every field |
| Canonical.LayoutsHaveOneDomain | internal/protocolv2/anchor.go:19-26 | each of the four layouts is signed in exactly one domain |
| Canonical.BrowserAttestationIsTheServers | client/web/src/lib/crypto-anchor.ts:319-328 | the browser's attestation body is the server's |
| Canonical.BrowserBundleIsTheServers | client/web/src/lib/crypto-anchor.ts:338-351 | the browser's bundle body is the server's version 2 body |
| Canonical.BrowserPublicationIsTheServers | client/web/src/lib/crypto-anchor.ts:386-396 | the browser's publication body is the server's |
| Canonical.JwkBodyParses | internal/protocolv2/jwk_p384.go:110-146 | the hand-concatenated key body parses back to its four members |
| AuditLog.AuditStore.List | internal/db/audit.go:285-418 | one page of the matching rows below the cursor, with the limit clamped, and the next cursor; a filter conflict, an unknown event type and a cursor that is no version 7 UUID are refused in that order |
| AuditLog.PageShowsWhatWasAsked | internal/db/audit.go:304-353 | a page shows only events of the user, kind, method and period asked for, below its cursor, and leaves every other such event for a later page |
| AuditLog.WalkShowsWhatWasAsked | internal/db/audit.go:285-418 | a walk shows only such events, and once ended every one that was such throughout |
| AuditLog.VersionIsInSeventhByte | internal/db/audit.go:460-480 | the version tested is the high half of the id's seventh byte |
| AuditLog.AuditStore.PruneBefore | internal/db/audit.go:422-429 | removes exactly the rows created before the threshold and counts them |
| AuditLog.NewestAreTheLargest | internal/db/audit.go:341-353 | the query returns the largest ids in descending order, as many as the limit |
| AuditLog.PageIsComplete | internal/db/audit.go:285-418 | a page holds every matching row from the next cursor up to its own |
| AuditLog.WalkReturnsLastingRowsOnce | internal/db/audit.go:285-418 | whatever is inserted or pruned meanwhile, a walk is strictly descending and, once ended, holds every matching row that was there throughout |
| AuditLog.PageCount | internal/db/audit.go:285-418 | over a fixed table of N matches a walk ends with page max(1, ceil(N/limit)), not before, and returns all N |
| AuditLog.PagesForIsCeiling | internal/db/audit.go:409-415 | the page count is that ceiling |
| Base64Url.DecodeUndoesEncode | cmd/edit/cmd/file.go:218-256 | unpadded base64url decodes back to the bytes |
| Base64Url.LineBreaksAreIgnored | cmd/edit/cmd/file.go:86-92 | the decoder passes over line breaks anywhere |
| Base64Url.SpareBitsAreZero | cmd/edit/cmd/file.go:218-256 | the encoder leaves the bits that belong to no byte zero |
| JweFile.EncryptedFile.Serialize | cmd/edit/cmd/file.go:218-256 | fills the buffer with the five segments, their dots and a final newline, or refuses a key of the wrong size |
| JweFile.SegmentsComeBack | cmd/edit/cmd/file.go:80-84 | trimming and splitting a serialized file gives the segments it was made of |
| JweFile.DecryptUndoesSerialize | cmd/edit/cmd/file.go:175-256 | decrypting inverts serializing for every plaintext, and the header comes back whenever it would be accepted |
| JweFile.WrittenHeaderIsReadIff | cmd/edit/cmd/file.go:79-113 | the header of a written file is read back exactly when its key information has version 1 and names label, algorithm and key, with the error of each other case |
| JweFile.AcceptedHeaderIsChecked | cmd/edit/cmd/file.go:79-113 | whatever is accepted is the first of five segments decoded, and has those values |
| JweFile.OpenedFileIsAuthentic | cmd/edit/cmd/file.go:175-214 | whatever is opened had five segments, no encrypted key, a nonce of 12 bytes and a valid key size, and authenticated under its own first segment |
| JweFile.PaddingIsIgnored | cmd/edit/cmd/file.go:80-84 | white space around a file makes no difference |
| EditSession.Session.SaveIfChanged | cmd/edit/cmd/editor.go:224-250 | after a save attempt without error the encrypted file decrypts to what was read, except for a new file nobody wrote; it saves exactly when the contents differ from the last saved or a file never saved was written |
| EditSession.Run | cmd/edit/cmd/editor.go:78-179 | the same for a whole session of polls, failed saves and an editor that may fail; a session nobody wrote in changes nothing |
| Manifest.MarshalManifest | internal/integrity/manifest.go:45-71 | writes the lines, each with its newline |
| Manifest.ParseManifest | internal/integrity/manifest.go:75-157 | the loop computes `Parse`, with every error of the source |
| Manifest.ValidateSha256Hex | internal/integrity/manifest.go:243-255 | accepts exactly 64 lowercase hex digits |
| Manifest.RoundTripIff | internal/integrity/manifest.go:45-157 | parsing inverts printing if and only if the manifest is printable: fields without pipe, LF or CR where they matter, commit and date non-empty, sizes and hashes in range |
| Manifest.MarshalUndoesParseIff | internal/integrity/manifest.go:45-157 | printing inverts parsing of an accepted text if and only if every size was written plainly, so nothing in it was passed over |
| Manifest.EntryFaults | internal/integrity/manifest.go:123-155 | which fault of an entry line is reported when |
| Manifest.SignedTextIsUnique | internal/integrity/manifest.go:45-157 | distinct printable manifests have distinct signed text |

## Left out

- Cryptography (signatures, key encapsulation, AEAD, hashing): parameters with the one law used.
- WebAuthn ceremonies, sessions, cookies and login: a ceremony is a verdict passed to the transaction; sign counts are not modelled.
- Validation and defaulting of a create request's body: a request is created with its owner and deadline.
- HTTP, middleware, rate limits, TLS, webhooks, telemetry, logging, configuration, command line: plumbing.
- SQL text, indexes other than the unique keys, isolation anomalies and connection errors inside a transaction: each statement or transaction is one step.
- Event queue internals and process restart: an expiry event may fire at any time, once or more, or never; rows of a deleted user's requests are not removed with the user.
- The stream's session deadline, its flush batching and the order of a list: only which requests are listed.
- The audit record written when an expiry event fires: confirm and cancel records only.
- Validation of an audit record to be inserted: records are given.
- AuditLog.AuditStore.List: does not model SQLite's comparison by text for a cursor written otherwise than the stored ids (in capitals, say); ids are compared as numbers.
- Reading the row back inside `GetRequest` after a lost race: one step here, three steps (read, expire, read again) in the long-poll machine.
- Text decoding: texts are characters; a byte order mark before the authData key is kept, other decoding details are not.
- JavaScript number rounding and recursion depth: integers are exact and the reader always returns.
- Backup file header, schema level, the empty-target check and key constraints of the target: the block stream and the trailer are modelled, the byte codec between them is not.
- Values of driver types outside the listed ones and failures to re-serialise JSON: no column has them.
- Pipe deadlines and wake-up order: a section that would wait reports it. A capacity of zero is excluded, since the source then loops without progress.
- Ndjson.Generate: does not model a chunk of no bytes, after which the source awaits the same read for ever; a chunk that decodes to no characters is covered.
- Editor launch, temporary-file creation and wiping, symlink checks: a session begins with its temporary file written; a save is atomic.
- Cells.CellSurvivesIff: does not tell text columns from integer columns, and a number no double comes near, at which the driver fails, rounds to some number here; two texts of one document or identifier are the same cell.
- Walking a `dist` directory and its path checks: the manifest is given.
- Key-label, note and IP normalisation, trust-store pinning, retry and log pausing: easy members.
