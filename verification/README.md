# Verified models of the AMG portal's audit chain and its stateful helpers

A Dafny model of the tamper-evident audit log of the AMG portal and of seven smaller stateful pieces of the
same repository, with proofs of what they are for. `dafny verify dfyconfig.toml` checks everything.

- **The audit chain.** Every audit row is encoded as canonical JSON, hashed together with the hash of the row
  before it, keyed with an HMAC of its day, and folded into a signed daily Merkle root. The model covers the
  encoder down to characters and bytes (`Text`, `Calendar`, `Base64`, `Json`, `JsonProofs`, `PyValues`,
  `AuditRows`) with readers for what it writes (`Readings`, `ValueReadings`), the tree (`Merkle`),
  `finalize_chain`, `sign_day` and `verify_day` on objects and tables (`AuditChain`), their queries, bytes and
  signatures (`ChainQueries`), what the hashes commit to (`ChainBinding`), whole runs of the store
  (`ChainRuns`), what `verify_day` answers when their conditions are not met (`ChainFaults`), interleaved
  transactions under the advisory lock (`ChainConcurrency`), and what is verified after them (`ChainVerdict`).
  `AuditListener` and `ListenerEntries` model the entries the session hooks produce, `AuditReplay` what
  replaying them gives, `AuditSession` the hooks on a session with real chain rows, and `AuditStored` what
  those rows say when they are read back.
- **Single-flight token refresh** of the mobile client (`TokenRefresh`, `TokenOutcomes`), as a state machine
  of the stretches of code between two awaits, and as a class whose methods take those steps.
- **Retention** of encrypted backups (`Retention`), the **rate limiter** of the API-key middleware
  (`RateLimiter`), the **offline cache** (`DataCache`, `CacheReads`) and the **message outbox** (`Outbox`, and
  `OutboxRaces` for calls that overlap) of the mobile client, the **encryption backfill** (`Backfill`,
  `BackfillRows`), and **key decoding and derivation labels** (`Keys`).

SHA-256, HMAC, Ed25519, the document cipher and the time-stamping service are function-valued parameters. The
only laws used are that a signature just made checks, that unsealing undoes sealing and the envelope describes
the sealed object, and that a digest has 32 bytes; one lemma, about signatures made for another day or root,
takes a signature to check against no other message (`ChainQueries.Strict`). No hash is taken to be injective:
a binding theorem returns a `Finding`, which is either "the same", or two explicit inputs with one hash, or
(for whole histories) an explicit input that hashes to the 32 zero bytes that stand for "no previous row".

## What the proofs found

- The chain forks, inside one transaction: entries the hooks chained wait in the session until the next flush,
  and an audit row a service adds before that flush is chained on the same tail. This is the exact condition
  under which committed rows are not one chain (`ChainConcurrency.ReachableNoFork`,
  `AuditSession.SessionForks`); `log_action` after a flush of its own request meets it
  (`AuditSession.AddedBesideWaiting`), and the verification of some day then fails
  (`ChainFaults.MisreadIsSeen`).
- Deleting all rows of a signed day is not noticed on that day (`ChainFaults.RemovedDayPasses`), but on the
  next day that has rows (`ChainFaults.RemovedDayIsSeenLater`).
- Repeating the last leaf of an odd list is invisible in the Merkle root, except for a single leaf
  (`Merkle.RepeatedLastLeaf`). The chain closes the ambiguity because rows with different ids have different
  hashes and a row's hashed bytes are longer than the 64 bytes of an inner node (`Merkle.RootBinding`).
- A batch that crosses midnight is keyed with the wrong day, and verification answers a MAC mismatch
  (`ChainFaults.WrongDayIsSeen`).
- Replaying the entries of a flush fails for exactly three reasons (`AuditReplay.FlushReplays`): a row deleted
  and created again under its key in one flush; a column that an UPDATE sets on its own, such as `updated_at`;
  and a foreign key by which the database removes rows, or sets columns to null, when a row they name is
  deleted. Deleting a document removes its shares and changes report schedules, and the log shows neither
  (`AuditReplay.SharesAreLost`). All columns the database does not set, of all rows it does not remove and no
  flush switches, are rebuilt (`AuditReplay.OtherColumnsReplay`).
- An old value the ORM had not loaded is recorded as None, and the update can then be undone only if the value
  was None (`AuditReplay.UndoneExactlyWhenLoaded`).
- A refresh whose token read finds nothing or raises leaves `isRefreshing` set. Exactly the requests answered
  401 during that refresh, before the read or at any time after it, wait for ever
  (`TokenRefresh.EveryRequestSettles`).
- The backfill loop never ends in a dry run with anything eligible, when an eligible row has no path or cannot
  be read or written, or when two eligible rows share an object (`Backfill.EndsExactly`).
- With the clock set back the rate limiter forgets exactly the grants that a later call was a minute ahead of,
  and grants more than the full history would (`RateLimiter.ListIsMinute`, `RateLimiter.ClockSetBack`).
- Calls on the outbox that overlap lose and double messages. Each message has one fate at every point exactly
  if every write finds the messages that its call read (`OutboxRaces.OneFateExactly`). A message queued while
  a pass over waiting ones is under way is lost (`OutboxRaces.OverlapLoses`); of two overlapping passes the
  second delivers again, puts back or drops what the first delivered (`OutboxRaces.TwoPasses`).
- Messages not touched for a day expire unsent, be it at the reading of their number
  (`Outbox.ExpiresOnlyWhenLate`).
- The cache key `metadata`, and no other, collides with the cache's index (`DataCache.IndexKeyTaken`).
- No backup is ever pruned: the time is cut out of the name with one character too many, so none of the
  script's own names parses (`Retention.WrittenNameNotParsed`, `Retention.OwnBackupsNotListed`).

## Model

| member | source | states |
|---|---|---|
| JsonProofs.RoundTrip | backend/app/core/audit_chain.py:96-110 | a decoder recovers the meaning of any JSON value (dicts as mappings, integers of any size, any characters) from its compact text, and finds every dict in key order |
| JsonProofs.SameTextSameMeaning | backend/app/core/audit_chain.py:96-110 | two values are written alike exactly when they mean the same: dict insertion order never shows, at any depth, and nothing else is lost |
| JsonProofs.SortKeysInOrder | backend/app/core/audit_chain.py:106 | at any depth, of two consecutive keys the first is a proper prefix of the second, or has the smaller character where they first differ |
| JsonProofs.EscapesLeast | backend/app/core/audit_chain.py:104-109 | only quotes, backslashes and control characters are escaped, those with a two-character escape by it |
| Text.DecimalIsShort | backend/app/core/audit_chain.py:104-109 | numbers are written without leading zeros |
| JsonProofs.LookUp | backend/app/core/audit_chain.py:104-107 | a dict means the mapping from its keys to the meanings of their values |
| PyValues.EncodableIffToJson | backend/app/core/audit_chain.py:80-93 | encoding raises exactly when some nested value is neither of a type `json.dumps` writes itself, `str` and `int` enums included, nor one `_json_default` accepts |
| ValueReadings.EncodedStandsFor | backend/app/core/audit_chain.py:80-93 | what is encoded says which value it was: readers recover the identifier, the instant, the date and the bytes from their texts, and every other value is as it was |
| Calendar.UtcTextIsInstant | backend/app/core/audit_chain.py:83-88 | two timestamps, naive or with any offset, are written alike exactly when they are the same instant |
| Calendar.DateTextInjective | backend/app/core/audit_chain.py:89-90 | different days are written differently |
| Readings.DateTextRead | backend/app/core/audit_chain.py:89-90 | the three fields of the text, read as decimal numbers, are a date with exactly that many days before it in the Gregorian calendar |
| Readings.UtcTextRead | backend/app/core/audit_chain.py:83-88 | a reader recovers the instant from the text, which ends in `+00:00` |
| Readings.TextsAgree | backend/app/core/audit_chain.py:83-88 | the UTC text and the ISO text of a timestamp name one instant: a clock with an offset shows UTC plus the offset, a naive one UTC |
| Calendar.CivilDateInjective | backend/app/core/audit_chain.py:89-90 | the proleptic Gregorian date determines the day |
| Readings.CivilDateIs | backend/app/core/audit_chain.py:89-90 | the date of a day is the one whose closed-form day number it is |
| Calendar.YearOf | backend/scripts/backup_encrypted.py:178-181 | the year of a day is the one the leap-year count puts it in |
| Calendar.Epoch | backend/scripts/backup_encrypted.py:178-183 | the calendar and the weekday are anchored: the day count puts 1 January 1970 on a Thursday |
| Text.UuidTextInjective | backend/app/core/audit_chain.py:81-82 | different UUIDs are written differently |
| Readings.UuidTextRead | backend/app/core/audit_chain.py:81-82 | the 32 digits of the dashed text are the identifier in hexadecimal |
| Text.Utf8Injective | backend/app/core/audit_chain.py:104-110 | different texts have different UTF-8 bytes |
| AuditRows.CanonicalIffSameColumns | backend/app/core/audit_chain.py:58-110 | two rows have the same canonical bytes exactly when all eleven canonical columns are the same (states as JSON values, times as instants) |
| AuditRows.CanonicalSays | backend/app/core/audit_chain.py:58-110 | a row's canonical bytes are the UTF-8 of a JSON object with the eleven field names, each saying the column of that name |
| AuditRows.CanonicalIsLong | backend/app/core/audit_chain.py:104-110 | the canonical bytes of any row are longer than a digest, so that with the 32 bytes of the previous hash a row's hashed bytes outgrow an inner node's 64 |
| Merkle.MerkleRoot | backend/app/core/audit_chain.py:252-269 | the pad-and-halve loop computes the recursively defined root, in as many rounds as the tree is deep |
| Merkle.ThreeLeaves | backend/app/core/audit_chain.py:252-269 | an input: the roots of none to three leaves, children joined from left to right, the last one standing in for a fourth |
| Merkle.DepthIsLog | backend/app/core/audit_chain.py:264-269 | that number of rounds is the base-two logarithm of the number of leaves, rounded up |
| Merkle.RootAbove | backend/app/core/audit_chain.py:265-268 | one round of padding and pairing keeps the root of the tree |
| Merkle.RepeatedLastLeaf | backend/app/core/audit_chain.py:266-267 | an odd list and the same list with its last leaf repeated have one root exactly when there is more than one leaf, or the leaf is the hash of its own pair |
| Merkle.SameSizeBinding | backend/app/core/audit_chain.py:252-269 | for equal lengths, equal roots force equal leaves, or yield a collision |
| Merkle.SameDepthBinding | backend/app/core/audit_chain.py:252-269 | for equal depths and distinct leaves, equal roots force equal leaves whatever the lengths, or yield a collision |
| Merkle.LeftEdge | backend/app/core/audit_chain.py:252-269 | a node shared by trees of different heights yields a collision, when leaves are hashed from more than 64 bytes |
| Merkle.RootBinding | backend/app/core/audit_chain.py:252-269 | across any lengths, equal roots over distinct leaves with long preimages force equal leaves, or yield a collision |
| AuditChain.AuditLog.Finalize | backend/app/core/audit_chain.py:220-244 | one turn of the loop gives the entry object exactly the columns, day, previous hash, hash and HMAC of the chain row after `prev`; an id or a time it has stays, a missing one is filled in |
| AuditChain.AuditStore.FinalizeChain | backend/app/core/audit_chain.py:193-244 | the entry objects become the rows that continue the chain from the table's last hash, in list order |
| AuditChain.ChainRowsLinked | backend/app/core/audit_chain.py:216-244 | every row of a chained batch points back to its predecessor, the first to the given tail, and carries the hash of its own bytes |
| AuditChain.ChainRowsAt | backend/app/core/audit_chain.py:220-244 | the i-th row of a batch is its i-th columns chained onto the hash of the row before |
| AuditChain.AuditStore.SignDay | backend/app/core/audit_chain.py:346-385 | signing stores the signed root of the day's rows, keeps an existing checkpoint, and does nothing for an empty day |
| AuditChain.AuditStore.CheckRows | backend/app/core/audit_chain.py:434-451 | the row loop passes exactly if every row has the expected predecessor, hash and HMAC; otherwise it names the first failing row and its first failing check |
| AuditChain.AuditStore.VerifyDay | backend/app/core/audit_chain.py:395-487 | the answer is the one explained by the ledger: out of scope or empty, first faulty row, missing checkpoint, wrong root, bad signature, unparsable token, or a sound day |
| AuditChain.ExplanationUnique | backend/app/core/audit_chain.py:395-487 | only one answer is explained by a ledger, so the contract of `VerifyDay` fixes it |
| ChainQueries.DayRowsAre | backend/app/core/audit_chain.py:337-343 | on any table, the rows fetched for a day are exactly those in its bucket, each as often as there, ascending by (created_at, id) |
| ChainQueries.LastIsLatest | backend/app/core/audit_chain.py:178-190 | on any table, the row whose hash is read as the tail is in it and no row is later by (created_at, id) |
| ChainQueries.RowBeforeIsLatest | backend/app/core/audit_chain.py:417-430 | on any table, the row before a day is in an earlier bucket, and no row of an earlier bucket is later by (day_bucket, created_at, id) |
| ChainQueries.RowInputIs | backend/app/core/audit_chain.py:241 | what is hashed is the canonical bytes and then the previous hash, or 32 zero bytes |
| ChainQueries.SignedMessageIs | backend/app/core/audit_chain.py:291-300 | what is signed is the 32 bytes of the root and then the ten ASCII characters of a date that reads as the day |
| ChainQueries.SignedMessageInjective | backend/app/core/audit_chain.py:291-300 | so it is the same for the same root and day only |
| ChainQueries.SignStores | backend/app/core/audit_chain.py:346-385 | signing stores, under that day alone, the root of its rows' hashes in their order, a signature on that message, and the token |
| ChainQueries.WrongSignatureIsSeen | backend/app/core/audit_chain.py:468-471 | a signature made for some root and day is answered as invalid exactly if one of them is another, the rest being right |
| ChainQueries.BadTokenIsSeen | backend/app/core/audit_chain.py:472-487 | the rest being right, a day is accepted exactly if its token is missing or can be parsed |
| ChainQueries.FaultIsNamed | backend/app/core/audit_chain.py:434-451 | the first row that fails is named with its predecessor, its hash or its HMAC, whichever check fails first |
| ChainQueries.CheckpointIsNamed | backend/app/core/audit_chain.py:453-469 | when all rows pass, a missing checkpoint and then a wrong root is named |
| ChainQueries.OutOfScopePasses | backend/app/core/audit_chain.py:395-415 | days before the chain start and days without rows are accepted, whatever is stored |
| ChainBinding.RowInputInjective | backend/app/core/audit_chain.py:241 | the bytes hashed for two rows are equal exactly when all canonical columns are and the previous hashes are, a missing one and 32 zero bytes being hashed alike |
| ChainBinding.RowBinding | backend/app/core/audit_chain.py:241-242 | two rows with one hash are the same row, or yield a collision |
| ChainBinding.HashesDistinct | backend/app/core/audit_chain.py:241-242 | rows with unique ids have distinct hashes, or yield a collision |
| ChainBinding.CheckpointBinding | backend/app/core/audit_chain.py:395-487 | two tables that pass verification of a day against one root, with unique ids, hold equally many rows of it that agree on every canonical column, hash and previous hash (the first of the day up to a missing one and 32 zero bytes), or yield a collision; an empty day is the exception |
| ChainBinding.HistoryBinding | backend/app/core/audit_chain.py:434-451 | two chains from the first row on, of any lengths, that end in one hash are identical row by row, or yield a collision or an input that hashes to zero |
| ChainRuns.InsertAndVerifyAgree | backend/app/core/audit_chain.py:193-244 | after any run of batches and signatures that keeps the clock and ordering conditions, a day from the chain start on is accepted exactly when it holds no rows or is signed, and the only possible complaint is a missing checkpoint |
| ChainRuns.SignedDayVerifies | backend/app/core/audit_chain.py:346-487 | a day signed after its last batch is accepted at the end of the run |
| ChainRuns.RunKeepsGood | backend/app/core/audit_chain.py:193-385 | every allowed batch or signature keeps the table one chain in order, each row keyed to its own day, and every checkpoint sound |
| ChainRuns.DayStays | backend/app/core/audit_chain.py:193-385 | once nothing is appended to a day its rows and its checkpoint stay |
| ChainRuns.TailIsRowBefore | backend/app/core/audit_chain.py:417-430 | the chain tail looked up for a day is the row just before the day's first, however many empty days lie between |
| ChainRuns.DayIsStretch | backend/app/core/audit_chain.py:337-343 | in an ordered table the rows fetched for a day are one contiguous stretch |
| ChainRuns.SortedAlready | backend/app/core/audit_chain.py:341 | ordering by (created_at, id) leaves rows that were chained in that order as they are |
| ChainRuns.TailOfOrdered | backend/app/core/audit_chain.py:178-190 | the latest row by (created_at, id) is the last one chained, so `_last_row_hash` reads the end of the chain |
| ChainFaults.RowsSoundInOrder | backend/app/core/audit_chain.py:417-451 | in an ordered table the rows of a day pass exactly if each points back to the row before it in the table, carries its hash and is keyed to its own day |
| ChainFaults.WrongDayIsSeen | backend/app/core/audit_chain.py:216-243 | after a batch in order but of any days, the rows of a day pass exactly if each row of the batch on it was chained under that day's key or its two MACs agree; otherwise the answer is a MAC mismatch |
| ChainFaults.OutOfOrderIsSeen | backend/app/core/audit_chain.py:337-343 | a day on which a row sorts before the row it was chained on is not accepted, or there is a collision |
| ChainFaults.ForkIsSeen | backend/app/core/audit_chain.py:417-440 | of two rows that share a previous hash, the day of one is not accepted, or there is a collision |
| ChainFaults.MisreadIsSeen | backend/app/core/audit_chain.py:204-216 | after a committed transaction that chained behind its own waiting rows, some day is not accepted, or there is a collision |
| ChainFaults.RemovedDayPasses | backend/app/core/audit_chain.py:412-415 | when all rows of a day are removed the day is accepted, whatever its checkpoint says |
| ChainFaults.RemovedDayIsSeenLater | backend/app/core/audit_chain.py:417-441 | the next day that has rows is then answered with a previous-hash mismatch at its first row, or there is a collision |
| ChainFaults.CheckpointStays | backend/app/core/audit_chain.py:355-359 | a stored checkpoint stays as it is over any run of batches and signatures, and signing its day again changes nothing |
| ChainConcurrency.StepKeepsInvariant | backend/app/core/audit_chain.py:204-244 | taking the lock, reading the tail, chaining an entry, inserting, committing and aborting, in any interleaving and with rows of a transaction waiting while it finalises more, keep: only the lock holder has uncommitted rows, and with them the rows form one chain unless a tail was misread, in which case two share a predecessor or the next entry will |
| ChainConcurrency.ReachableNoFork | backend/app/core/audit_chain.py:193-244 | in every reachable state the committed rows, read back in (created_at, id) order, form one chain exactly if no committed transaction read the tail while rows it had chained were waiting for their INSERT; where one did, two committed rows share a previous hash; or there is a collision |
| ChainConcurrency.CommittedExactly | backend/app/core/audit_chain.py:193-216 | in every reachable state a row is committed exactly if it was there from the start, or was chained and then inserted by a transaction that committed afterwards, with neither a commit nor an abort between |
| ChainConcurrency.TransactionRows | backend/app/core/audit_listener.py:282-316 | a transaction's waiting rows are those it chained and has not inserted, its inserted ones those it has not committed, since it last ended |
| ChainConcurrency.LockExactly | backend/app/core/audit_chain.py:208-213 | a transaction holds the lock exactly from taking it to its commit or its abort |
| ChainVerdict.InterleavingsVerify | backend/app/core/audit_chain.py:193-487 | after any interleaving in which no committed transaction did so, each entry keyed to its own UTC day and no row committed on a day after it was signed, a day from the chain start on is accepted exactly when it holds no rows or is signed, and the only possible complaint is a missing checkpoint |
| ChainVerdict.StepKeepsKeyed | backend/app/core/audit_chain.py:216-243 | every step keeps all rows, committed, inserted or waiting, keyed to their own day, if each entry is |
| ChainConcurrency.SecondFinalizeForks | backend/app/core/audit_listener.py:264-316 | an input: a transaction that chains a second entry before inserting the first commits both behind one predecessor |
| ChainConcurrency.CommittedMisread | backend/app/core/audit_chain.py:204-216 | the history field of the state is that event of the run |
| ChainConcurrency.NoFork | backend/app/core/audit_chain.py:240-244 | two rows of one chain that share a previous hash yield a collision |
| ChainConcurrency.CommittedOnlyGrows | backend/app/core/audit_listener.py:247-316 | over any run, aborts included, the committed rows of a state are the beginning of those of every later one |
| AuditListener.SafeExactlyForKnown | backend/app/core/audit_listener.py:34-52 | the serialised value is JSON-safe exactly when the value holds, at any depth, no unknown type and no enum whose own value needs converting |
| AuditListener.SerializeKeepsSafe | backend/app/core/audit_listener.py:34-52 | a JSON-safe value is left as it is |
| AuditListener.SafeIsEncodable | backend/app/core/audit_listener.py:34-52 | what the listener serialises safely, the chain's encoder accepts |
| AuditListener.BytesShowOnlyLength | backend/app/core/audit_listener.py:47-51 | two byte values are recorded alike exactly when they have the same length |
| AuditListener.ScalarsStayDistinct | backend/app/core/audit_listener.py:26-31 | different identifiers, datetimes or dates are recorded differently |
| ValueReadings.RecordedStandsFor | backend/app/core/audit_listener.py:34-52 | what is recorded says which value it was: readers recover identifiers, datetimes with their offsets, and dates, bytes show their number, and decimals their text |
| Calendar.IsoTextInjective | backend/app/core/audit_listener.py:26-31 | `isoformat` of a datetime keeps both its clock reading and its offset |
| Readings.IsoTextRead | backend/app/core/audit_listener.py:26-31 | a reader recovers both from the text |
| AuditListener.SensitiveNeverShown | backend/app/core/audit_listener.py:55-80 | no entry holds a sensitive field, before or after |
| ListenerEntries.SecretsNeverShown | backend/app/core/audit_listener.py:22-23 | no entry shows `hashed_password`, `mfa_secret` or `mfa_backup_codes` |
| AuditListener.ToDictIsView | backend/app/core/audit_listener.py:55-63 | the dict of an instance is the serialised non-sensitive part of its row |
| AuditListener.InstanceToDict | backend/app/core/audit_listener.py:55-63 | the loop fills that dict |
| AuditListener.GetChanges | backend/app/core/audit_listener.py:66-80 | the loop fills `before` and `after` with the changed non-sensitive attributes |
| AuditListener.TouchedView | backend/app/core/audit_listener.py:66-80 | merging `after_state` into what was known of a row gives its reported columns |
| AuditSession.Session.AuditCreates | backend/app/core/audit_listener.py:109-142 | one create entry for each new instance that is not skipped, in order |
| AuditSession.Session.AuditUpdates | backend/app/core/audit_listener.py:145-183 | one update entry for each changed instance that is not skipped and has something to report |
| AuditSession.Session.AuditDeletes | backend/app/core/audit_listener.py:186-226 | one delete entry for each deleted instance that is not skipped |
| AuditSession.Session.BeforeFlush | backend/app/core/audit_listener.py:247-279 | the audit rows added directly become chain rows on the tail of the table, in order; those already chained are left alone |
| AuditSession.Session.AfterFlush | backend/app/core/audit_listener.py:282-316 | the entries for creates, updates and deletes, in that order, become chain rows on the tail of the table and wait in the session |
| AuditSession.Session.Flush | backend/app/core/audit_listener.py:247-316 | the whole new session and its audit rows after a flush with both hooks, and the tables after its statements and all that their foreign keys then remove or set to null |
| AuditSession.Session.FlushAll | backend/app/core/audit_listener.py:282-316 | flushing until nothing is left takes at most two flushes |
| AuditListener.CreatesReplay | backend/app/core/audit_listener.py:109-142 | replaying the create entries does to the audited columns what the inserts do to the tables |
| AuditListener.UpdatesReplay | backend/app/core/audit_listener.py:145-183 | replaying the update entries does to the audited columns what the updates do to the reported ones |
| AuditListener.DeletesReplay | backend/app/core/audit_listener.py:186-226 | replaying the delete entries does to the audited columns what the DELETE statements of the flush do to the tables, before foreign keys are followed |
| AuditReplay.FlushReplays | backend/app/core/audit_listener.py:282-316 | replaying a flush's entries rebuilds every audited entity's serialised non-sensitive columns exactly when no audited row deleted and created again in it is there afterwards, no UPDATE of an audited row leaves a non-sensitive column with another value without history, and no audited row goes, and no non-sensitive column of one becomes null where the entries leave another value, because of a foreign key to a deleted row |
| AuditReplay.RowSilence | backend/app/core/audit_listener.py:66-80 | for one row, exactly such a column is what the entry does not show |
| AuditReplay.TimestampIsLost | backend/app/db/base.py:17-22 | an input: with an `onupdate` timestamp an ordinary update is not rebuilt |
| AuditReplay.SharesAreLost | backend/app/api/v1/documents.py:419-440 | an input: deleting a document removes its share and sets the column of a report schedule to null; the replayed log still has both |
| AuditReplay.NoneDangles | backend/app/models/document_share.py:19-24 | after a flush no foreign key with ON DELETE CASCADE or SET NULL names a row that is gone |
| AuditReplay.ClosureIsLeast | backend/app/models/document_share.py:19-24 | and no more rows go than those deleted, those that refer to them by CASCADE, and so on |
| AuditReplay.DirectReferencesDecide | backend/app/models/report_schedule.py:37-41 | where all keys lead to audited tables and no row is switched, the third condition is decided by the direct references of audited rows to the rows that the statements delete |
| AuditReplay.LogReplays | backend/app/core/audit_listener.py:282-316 | replaying the log rebuilds every audited entity after any sequence of flushes that meet these three conditions |
| AuditReplay.OtherColumnsReplay | backend/app/core/audit_listener.py:282-316 | whatever UPDATEs set without history and foreign keys remove or set to null, the log rebuilds all other columns of all rows that are neither removed so nor deleted and created again, over any sequence of flushes |
| AuditReplay.FlushRewinds | backend/app/core/audit_listener.py:66-80 | read backwards, the entries of a flush undo it exactly when no UPDATE of an audited row sets such a column and no foreign key to a deleted row removes an audited row that was there or changes a non-sensitive column of one that the flush does not change explicitly, old values being loaded |
| AuditReplay.OtherColumnsRewind | backend/app/core/audit_listener.py:66-80 | and all other audited columns of all other rows are restored in any case |
| AuditReplay.RewindReplay | backend/app/core/audit_listener.py:109-226 | a log whose entries tell the truth about what they replace, read backwards, returns to where it began |
| AuditReplay.UndoneExactlyWhenLoaded | backend/app/core/audit_listener.py:76-79 | with a truthful history a change can be undone exactly when its old value was loaded, or was None |
| AuditListener.SkippedNeverAudited | backend/app/core/audit_listener.py:96-106 | no row of a skipped table is ever audited |
| ListenerEntries.EntriesExactly | backend/app/core/audit_listener.py:96-226 | a flush gets a create entry for exactly the new rows, an update entry for exactly the changed rows with a change that may be shown, and a delete entry for exactly the deleted rows, of all tables but `audit_logs`, `audit_checkpoints` and `alembic_version` |
| ListenerEntries.EntriesInOrder | backend/app/core/audit_listener.py:303-306 | creates come first, then updates, then deletes; each names the actor of the request, and has no state before a create, none after a delete, and a change in an update |
| AuditSession.SettlesInTwo | backend/app/core/audit_listener.py:282-316 | after two flushes the session is clean, after one exactly if nothing was audited, so auditing does not feed itself |
| AuditSession.FlushChains | backend/app/core/audit_listener.py:264-316 | the rows a flush inserts keep the table one chain, unless it finds rows of the hooks waiting beside rows added directly; then two of them share a predecessor |
| AuditSession.SessionForks | backend/app/core/audit_listener.py:247-316 | a session that begins on one chain leaves one chain exactly if none of its flushes finds rows of the hooks waiting beside rows added directly, or there is a collision |
| AuditSession.AddedBesideWaiting | backend/app/services/audit_service.py:20-44 | an input: an entity is stored and flushed, then a service adds an entry of its own and flushes |
| AuditSession.SessionLog | backend/app/core/audit_listener.py:282-316 | the rows the hooks made, inserted and then waiting, are the log of the work in its order, and the tables are the outcome of that work, foreign keys followed |
| AuditStored.ContentSays | backend/app/core/audit_listener.py:125-137 | a stored row says in each column what its entry says: the action's text, the table, the id, the actor's four columns, and both states key by key in JSON terms |
| AuditStored.ChainedSays | backend/app/core/audit_chain.py:220-244 | the i-th row of a batch has the id and the time drawn for it and the content of the i-th entry |
| AuditStored.TableIsLog | backend/app/core/audit_listener.py:247-316 | over any run the inserted rows are the log's in its order, each made of its entry |
| AuditStored.StoredLog | backend/app/core/audit_listener.py:247-316 | so what is read back from the table is what the entries say, one by one |
| AuditStored.DirectRowsInserted | backend/app/core/audit_listener.py:247-279 | every row a service adds is inserted by the next flush, in order, and none is made up |
| AuditSession.TableReplays | backend/app/core/audit_listener.py:282-316 | once nothing waits and every flush met the three conditions, replaying the whole table, rows added directly included, rebuilds every audited identity that no such row names in a create, update or delete |
| AuditStored.StoredTableReplays | backend/app/core/audit_listener.py:282-316 | the same for the rows read back from the table, in JSON terms: replaying them rebuilds every such identity |
| AuditSession.TableReplaysOthers | backend/app/core/audit_listener.py:282-316 | whether or not they did, it rebuilds of such an identity, if the database never removed it and no flush switched it, all columns the database did not set |
| AuditSession.NeutralExactly | backend/app/services/audit_service.py:31-42 | a row added directly leaves a replay as it is exactly if it repeats what the replay holds of the identity it names |
| AuditSession.KnownIsStorable | backend/app/core/audit_listener.py:55-63 | the dict of an instance whose columns hold known values can be hashed |
| TokenRefresh.NextKeepsInvariant | mobile/lib/api.ts:97-140 | every step keeps: one owner of a running refresh, outcomes in order, promises settled with their refresh, a queue that holds exactly the unsettled tickets |
| TokenRefresh.SingleFlight | mobile/lib/api.ts:38-139 | in every reachable state at most one refresh is in progress, a non-empty queue implies `isRefreshing`, and each waiter is settled exactly once, when its refresh ends and with its outcome |
| TokenRefresh.RefreshBound | mobile/lib/api.ts:97-140 | with n requests at most n refresh calls and n + n * n sends are made, whatever the server answers |
| TokenOutcomes.EndsExactly | mobile/lib/api.ts:67-142 | a request ends well exactly if it was answered with success, and badly exactly if it was answered with another error than 401, with 401 after its own refresh or on the refresh endpoint, if the token read raised, after a logout, or when the refresh it waited for failed |
| TokenOutcomes.CountsAreExact | mobile/lib/api.ts:97-140 | the counters in that bound are the refresh calls and the requests of the run |
| TokenRefresh.NextDecreases | mobile/lib/api.ts:97-140 | every step brings the end nearer |
| TokenRefresh.RunsEnd | mobile/lib/api.ts:97-140 | no run goes on for ever |
| TokenRefresh.EveryRequestSettles | mobile/lib/api.ts:97-140 | where a run can go no further, every request is done exactly if none that was not retried, and is not to the refresh endpoint, was answered 401 during a refresh whose token read found nothing or raised |
| TokenRefresh.AbandonedByTokenRead | mobile/lib/api.ts:111-116 | a refresh is left unfinished only by a token read that finds nothing or raises, and it is that very refresh |
| TokenRefresh.StrandedWaits | mobile/lib/api.ts:100-116 | a request that joins such a refresh, before the read or after it, waits for ever |
| TokenRefresh.StrandedWaiter | mobile/lib/api.ts:111 | an input, as a run of five steps: the read raises, and a second request answered 401 waits for ever |
| TokenRefresh.Client.ProcessQueue | mobile/lib/api.ts:44-53 | every queued promise is settled once with the outcome, and the queue is emptied |
| TokenRefresh.Client.Send | mobile/lib/api.ts:133-133 | sending a request is the protocol's step |
| TokenRefresh.Client.OnResponse | mobile/lib/api.ts:97-111 | the interceptor up to its first await is the protocol's step |
| TokenRefresh.Client.OnTokenRead | mobile/lib/api.ts:111-123 | so is what follows the reading of the refresh token |
| TokenRefresh.Client.OnRefreshStep | mobile/lib/api.ts:125-139 | so is what follows the refresh call and each write of a new token |
| TokenRefresh.Client.OnLoggedOut | mobile/lib/api.ts:137-138 | so is what follows the logout |
| Retention.BackupStore.Select | backend/scripts/backup_encrypted.py:310-318 | the selection loop keeps the first few of each cadence in a listing |
| Retention.BackupStore.Prune | backend/scripts/backup_encrypted.py:309-331 | the counts it returns and the objects it leaves, a failing deletion being passed over |
| Retention.SortedDescending | backend/scripts/backup_encrypted.py:309 | sorting lists the same backups, newest first |
| Retention.SortIsStable | backend/scripts/backup_encrypted.py:309 | whatever the times, the newest come first, and backups taken at one time stay in the order of the listing |
| Retention.PruneFollowsPolicy | backend/scripts/backup_encrypted.py:309-318 | with distinct times the loop keeps exactly the backups with fewer newer ones of their cadence than its quota |
| Retention.KeepsMostRecent | backend/scripts/backup_encrypted.py:187-192 | each cadence keeps exactly its quota, or all it has, and every kept backup is newer than every dropped one of its cadence |
| Retention.CadenceIs | backend/scripts/backup_encrypted.py:161-184 | 1 January is yearly, other firsts of a month monthly, other Sundays weekly, the rest daily, by the Gregorian calendar |
| Retention.AtMostThirty | backend/scripts/backup_encrypted.py:187-192 | at most 7 daily, 4 weekly, 12 monthly and 7 yearly backups are kept |
| Retention.IncrementalPruning | backend/scripts/backup_encrypted.py:291-331 | pruning again after new backups keeps what pruning the full history would |
| Retention.PrunedEachTimeIsPrunedOnce | backend/scripts/backup_encrypted.py:291-331 | however a history is cut into batches, pruning after each loses nothing |
| Retention.PruneAgain | backend/scripts/backup_encrypted.py:309-331 | the same for the code: a later run over what an earlier run left keeps the same keys as one run over everything |
| Retention.PruningIsIdempotent | backend/scripts/backup_encrypted.py:291-331 | pruning twice is pruning once |
| Retention.KeptPlusDeleted | backend/scripts/backup_encrypted.py:319-331 | when deletions succeed, kept and deleted add up to the listing |
| Retention.DeletedExactly | backend/scripts/backup_encrypted.py:319-329 | a backup counts as deleted when neither its object nor its manifest stuck |
| Retention.RemainingBackups | backend/scripts/backup_encrypted.py:319-329 | a listed backup is left in the bucket exactly when it is kept or its deletion fails |
| Retention.ManifestsEnd | backend/scripts/backup_encrypted.py:298-326 | a manifest is named after its backup, and the listing skips exactly the names with its ending |
| Retention.RemainingObject | backend/scripts/backup_encrypted.py:319-329 | an object goes exactly when a deletion removes it: nothing else in the bucket is touched |
| Retention.WrittenNameNotParsed | backend/scripts/backup_encrypted.py:161-176 | the slice taken from every name the script writes is a character longer than the format can consume |
| Retention.OwnBackupsNotListed | backend/scripts/backup_encrypted.py:294-307 | so from a bucket of the script's own backups and manifests nothing is collected |
| RateLimiter.Limiter.Check | backend/app/core/api_auth.py:42-65 | with any clock, the list of a key holds what its calls left of it, and the answer is whether the pruned list is below the limit |
| RateLimiter.KeptIsLeft | backend/app/core/api_auth.py:52-64 | the list of a key holds its grants that no later call has overtaken by a minute |
| RateLimiter.EveryMinuteBounded | backend/app/core/api_auth.py:42-65 | every window of a minute in any run holds at most `limit` grants of a key |
| RateLimiter.RefusedOnlyWhenFull | backend/app/core/api_auth.py:59-61 | a request is refused exactly when the minute up to it holds `limit` grants |
| RateLimiter.ListIsMinute | backend/app/core/api_auth.py:56-57 | with any clock, the pruned list is the last minute of the full history of grants exactly if no grant of that minute was overtaken by a later call a minute or more ahead of it, and every grant after now was |
| RateLimiter.CountsTooFew | backend/app/core/api_auth.py:56-61 | where nothing counted lies after now, the limiter counts too few exactly if that fails |
| RateLimiter.DecidesAsHistory | backend/app/core/api_auth.py:42-65 | with a clock that does not go back it decides as the full history does |
| RateLimiter.ClockSetBack | backend/app/core/api_auth.py:50-65 | an input: with the clock set back a request is granted though its minute is full |
| RateLimiter.LatestCallDoesNotDecide | backend/app/core/api_auth.py:50-57 | neither the most recent call nor the one furthest ahead decides alone whether grants are forgotten |
| DataCache.IndexKeyTaken | mobile/services/DataCache.ts:8-9 | a cache key is stored where the index is exactly when it is `metadata` |
| DataCache.StorageKeyInjective | mobile/services/DataCache.ts:58-60 | different keys are stored apart |
| DataCache.DataCacheService.Initialize | mobile/services/DataCache.ts:43-53 | after a restart the index in memory is the one of the last run |
| DataCache.DataCacheService.SaveMetadata | mobile/services/DataCache.ts:217-223 | the stored index becomes the one in memory |
| DataCache.DataCacheService.Set | mobile/services/DataCache.ts:65-87 | the entry is stored and indexed with its time and expiry, and nothing else changes; under the key `metadata` the index overwrites it at once |
| DataCache.DataCacheService.Get | mobile/services/DataCache.ts:92-110 | fresh data, or nothing and the entry is evicted; under `metadata` at most the index's own row for the key `data` |
| DataCache.DataCacheService.GetStale | mobile/services/DataCache.ts:115-126 | the data, expired or not; under `metadata` as `get` |
| DataCache.DataCacheService.Has | mobile/services/DataCache.ts:131-141 | whether there is fresh data, without evicting; never under `metadata` |
| DataCache.DataCacheService.HasStale | mobile/services/DataCache.ts:146-153 | whether there is an entry; under `metadata` whether there is an index |
| DataCache.DataCacheService.Remove | mobile/services/DataCache.ts:158-166 | the entry and its index row go, and nothing else; the index itself cannot be removed |
| DataCache.DataCacheService.Clear | mobile/services/DataCache.ts:171-180 | all entries go, and nothing the rest of the app stores |
| DataCache.ForeignExactly | mobile/services/DataCache.ts:209-212 | what `clear` and every other operation leave alone is exactly what is stored under no key of the cache |
| DataCache.DataCacheService.ClearExpired | mobile/services/DataCache.ts:185-204 | exactly the expired entries go, from storage and from both copies of the index |
| DataCache.CacheRefinesTtlMap | mobile/services/DataCache.ts:65-204 | over any run with a clock that does not go back, restarts and operations on `metadata` included, `get` and `has` of every other key answer as a plain TTL map does, and a stale read never finds another value |
| CacheReads.HeldExactly | mobile/services/DataCache.ts:65-204 | with any clock, a key is held exactly if an operation stored it and none took it away or replaced it since; then it is what that operation stored |
| CacheReads.StoredIsFound | mobile/services/DataCache.ts:92-153 | the stale reads find it whether expired or not, `get` and `has` up to its expiry |
| CacheReads.NothingElseIsFound | mobile/services/DataCache.ts:92-153 | and no read finds anything else |
| DataCache.ClearExpiredInvisible | mobile/services/DataCache.ts:185-204 | whether `clearExpired` ran at some point shows in no later `get` or `has` |
| Outbox.OfflineMessages.GetQueue | mobile/hooks/use-offline.ts:218-221 | the waiting messages, an expired queue being dropped |
| Outbox.OfflineMessages.QueueMessage | mobile/hooks/use-offline-messages.ts:47-74 | offline, the message joins the end of the queue; online, nothing happens |
| Outbox.OfflineMessages.ProcessQueue | mobile/hooks/use-offline-messages.ts:79-125 | one pass sends, keeps with one more retry, or drops each message, and `sent` plus `failed` is the length of the queue |
| Outbox.OfflineMessages.UpdateCount | mobile/hooks/use-offline-messages.ts:36-42 | the effect reads the number of waiting messages, an expired queue being dropped |
| Outbox.SendAll | mobile/hooks/use-offline-messages.ts:93-114 | the loop of a pass keeps what is to be kept, and its two counts add up to the queue |
| Outbox.WalkConserves | mobile/hooks/use-offline-messages.ts:93-114 | each message of a pass is delivered, kept or dropped, once |
| Outbox.WalkCounts | mobile/hooks/use-offline-messages.ts:103-110 | a kept message has one more retry and at most three, a dropped one had three |
| Outbox.WalkKeepsOrder | mobile/hooks/use-offline-messages.ts:91-114 | the kept messages stay in order |
| Outbox.WalkByAnswer | mobile/hooks/use-offline-messages.ts:93-114 | a message of a pass is delivered exactly if its own send succeeds, and dropped exactly if that is refused and it had three retries |
| Outbox.StepKeepsGood | mobile/hooks/use-offline-messages.ts:47-125 | each call keeps conservation, counts and order |
| Outbox.EveryRunIsGood | mobile/hooks/use-offline-messages.ts:47-125 | after any sequence of calls every queued message is waiting, delivered, dropped or expired, its retry count is the number of tries, and the waiting ones stand in the order they were queued |
| Outbox.OneFate | mobile/hooks/use-offline-messages.ts:47-125 | exactly one of the four holds of each message, and it was tried at most four times |
| Outbox.FourRoundsDrain | mobile/hooks/use-offline-messages.ts:93-120 | with no new messages four passes empty the queue, whatever the server answers |
| Outbox.ThreeRoundsMayNot | mobile/hooks/use-offline-messages.ts:105-110 | three passes need not |
| Outbox.ExpiresOnlyWhenLate | mobile/hooks/use-offline-messages.ts:36-85 | nothing expires over a run exactly if no call, the count effect included, reads the queue more than a day after it was last written |
| Outbox.ExpiresAfterADay | mobile/hooks/use-offline-messages.ts:60-120 | a stored queue expires 24 hours after the last call of the run that wrote it |
| Outbox.LateIsAfterADay | mobile/services/DataCache.ts:92-104 | a read drops it exactly when it comes later than those 24 hours |
| OutboxRaces.OneFateExactly | mobile/hooks/use-offline-messages.ts:36-125 | over any interleaving of the reads, evictions and writes of calls, at every point each queued message is waiting, delivered, dropped or expired, and once, exactly if every eviction and every write finds the messages that its call read |
| OutboxRaces.MoveConserves | mobile/hooks/use-offline-messages.ts:60-120 | one eviction or write keeps conservation exactly if what it removes or overwrites are the messages its call read |
| OutboxRaces.ApartIsGood | mobile/hooks/use-offline-messages.ts:36-125 | if a call that begins while another is between its read and its write only reads, then conservation, the number of tries and the order hold at every point |
| OutboxRaces.RunsAreSerial | mobile/hooks/use-offline-messages.ts:36-125 | the runs of calls one after the other are interleavings, with the same outcome |
| OutboxRaces.OverlapLoses | mobile/hooks/use-offline-messages.ts:60-120 | a message queued between the read and the write of a pass over waiting messages is afterwards neither waiting nor delivered, dropped or expired |
| OutboxRaces.TwoPasses | mobile/hooks/use-offline-messages.ts:84-120 | of two overlapping passes over a message the message keeps one fate exactly if the first was refused and put it back; what the first delivered, the second delivers again, puts back or drops |
| Backfill.NewObjectNameInjective | backend/scripts/backfill_encrypted_documents.py:48-52 | different documents get different object names, whatever their file names contain, when entity types hold no slash |
| BackfillRows.NameRead | backend/scripts/backfill_encrypted_documents.py:48-52 | the name can be taken apart into type, entity, document, extension and `.enc` |
| BackfillRows.ExtensionIs | backend/scripts/backfill_encrypted_documents.py:48-51 | the extension runs from the last dot of the file name on |
| Backfill.Process | backend/scripts/backfill_encrypted_documents.py:55-108 | the status, the new row and the new bucket for each of the seven ways it can go |
| BackfillRows.StatusSays | backend/scripts/backfill_encrypted_documents.py:55-108 | what was found before each status, each excluding the others, and what holds of the row, the old object and the new one afterwards |
| Backfill.RunBatch | backend/scripts/backfill_encrypted_documents.py:132-139 | processing a batch, with the counts of rows moved and rows failed |
| BackfillRows.TallyCounts | backend/scripts/backfill_encrypted_documents.py:132-139 | the rows counted as moved are those that became encrypted, the failed ones, but for a dry run, those with a path that did not |
| BackfillRows.BatchIsOldest | backend/scripts/backfill_encrypted_documents.py:118-130 | a batch is the oldest rows that wait, as many as fit |
| Backfill.Run | backend/scripts/backfill_encrypted_documents.py:111-144 | where the loop ends, it handles each eligible document once: processed and ok are the initial count, failed is zero, and nothing eligible is left for the next query |
| Backfill.EndsExactly | backend/scripts/backfill_encrypted_documents.py:115-142 | the loop ends exactly when the batch size is zero, nothing is eligible, or it is no dry run and every eligible row has a path, can be read and can be written, and shares its object with no other eligible row unless the object cannot be deleted |
| Backfill.RoundMovesBatch | backend/scripts/backfill_encrypted_documents.py:115-142 | in that case each turn takes a full batch off the list |
| Backfill.StuckForEver | backend/scripts/backfill_encrypted_documents.py:115-142 | otherwise a row that cannot be moved, any eligible row in a dry run, or one of two that share an object is still there after any number of turns |
| Backfill.BytesStayRecoverable | backend/scripts/backfill_encrypted_documents.py:55-108 | however long the loop runs and whatever fails, a document's bytes can still be read from its row, if no other document to be moved shares its object |
| BackfillRows.MovedRowsDescribe | backend/scripts/backfill_encrypted_documents.py:89-96 | after any number of turns each row is as it was, or was to be moved: then its size and digest are those of the bytes a reader gets from it, its key number and nonce prefix those in the header of the object it points at, and its subject is set |
| BackfillRows.ForeignObjectsStay | backend/scripts/backfill_encrypted_documents.py:55-108 | all other objects of the bucket stay as they are |
| Backfill.SharedObjectIsLost | backend/scripts/backfill_encrypted_documents.py:99-106 | otherwise a document that is not itself to be moved loses its bytes when the other is |
| Backfill.AllMove | backend/scripts/backfill_encrypted_documents.py:132-139 | a turn moves such a row exactly if it is in the batch and can be moved, and otherwise leaves it as it was |
| Base64.RoundTrip | backend/app/core/audit_chain.py:91-92 | Python's lenient decoder recovers what was encoded, in either alphabet |
| Base64.EncodeAlphabet | backend/app/core/audit_chain.py:91-92 | standard Base64 has no `-` or `_`, the urlsafe form no `+` or `/` |
| Base64.FeedCounts | backend/app/core/crypto.py:46-52 | without padding, n symbols decode to 3n/4 bytes, other characters being passed over |
| Keys.FromBase64 | backend/app/core/crypto.py:46-60 | every 32-byte key is recovered from its urlsafe Base64 form |
| Keys.FromUnpaddedBase64 | backend/app/core/crypto.py:46-60 | and from that form without its padding |
| Keys.FromHexKey | backend/app/core/crypto.py:46-60 | and from its 64 hex digits, in lower, upper or mixed case |
| Keys.HexAsBase64 | backend/app/core/crypto.py:48-51 | 64 hex digits, with any whitespace, read as Base64 are 48 bytes |
| Keys.HexFallsThrough | backend/app/core/crypto.py:46-60 | so whatever consists of 64 hex digits and whitespace is read as hexadecimal |
| Keys.HexRoundTrip | backend/app/core/crypto.py:54-57 | `fromhex` recovers bytes from their digits in any case |
| Keys.FromHexTakes | backend/app/core/crypto.py:54-57 | it takes nothing but digits, two for each byte, and whitespace |
| Keys.SpaceBetweenBytes | backend/app/core/crypto.py:54-57 | tabs, line breaks and spaces between two bytes make no difference |
| Keys.SpaceInsideByte | backend/app/core/crypto.py:54-57 | between the two digits of a byte they make it raise |
| Keys.TenantInfoInjective | backend/app/core/crypto.py:79-82 | different tenants or columns derive from different bytes, for columns of any content |
| Keys.SubjectInfoInjective | backend/app/core/crypto.py:131-144 | different subjects, versions or columns do too, so bumping the version changes what is derived from |
| Keys.LabelsDisjoint | backend/app/core/crypto.py:79-144 | a tenant's key and a subject's key are never derived from the same bytes |
| Keys.LabelsRead | backend/app/core/crypto.py:79-144 | the labels can be taken apart into their fixed words, the identifier, the version and the column |

## Left out

- The primitives themselves: SHA-256, HMAC, HKDF, Ed25519, AES-GCM, RFC 3161 parsing and the loading of keys from the environment.
- ChainRuns.InsertAndVerifyAgree: for batches ordered by (created_at, id) after all stored rows, within the UTC day whose key was taken, chained and inserted together, and none on a signed day; `ChainFaults` says what is answered otherwise.
- ChainVerdict.InterleavingsVerify: signing reads the committed rows of one state; transactions of the signing job itself are not interleaved step by step.
- ChainConcurrency.ReachableNoFork: an entry's (created_at, id) comes after every row its transaction sees, and a transaction sees the committed rows and its own, as under READ COMMITTED; a snapshot taken before the lock was granted is not part of this model.
- ChainBinding.CheckpointBinding: does not cover days without rows, because `verify_day` accepts them whatever the checkpoint says.
- ChainFaults.RemovedDayIsSeenLater: the row before the removed day must carry its own hash, which rows from before the chain start need not.
- AuditStored.StoredTableReplays: for entries whose dicts the encoder accepts, as `KnownIsStorable` gives for known column values.
- A chain finalisation that raises: the listener logs it and inserts unhashed rows; the model has no such rows, and an entry whose dict the encoder refuses is not followed further.
- `session.info["skip_audit"]`: with it both hooks do nothing; the session model has it unset.
- AuditReplay.FlushReplays: primary keys are taken as `str` prints them, so entities without an `id` (named after a memory address) and relationship attributes are not part of it.
- AuditReplay.LogReplays: for tables that change by flushes alone. Bulk UPDATE and DELETE statements that a service executes itself, such as `delete(RefreshToken)` or `update(Notification)`, reach the tables between flushes and write no entries. Foreign keys that forbid a deletion make the flush raise; a flush that raises is not part of this model.
- AuditReplay.FlushRewinds: needs the old values loaded and deleted instances as stored; UndoneExactlyWhenLoaded says when one value need not be.
- AuditSession.SessionForks: one session that holds the lock from its first entry to its commit; the interleaving of several is in `ChainConcurrency`.
- Floats in JSON, what JSONB storage does to numbers, and timestamps whose UTC form would fall outside the years 1 to 9999.
- Object mutation inside a JSON value and non-string dict keys.
- The two-second `isLoggingOut` timer and navigation of the mobile client.
- Retention.BackupStore.Prune: starts from parsed (key, time) pairs, though no name the script writes parses; the digits `strptime` accepts are not part of this model.
- Retention.IncrementalPruning: for backups with distinct times; ties are broken by listing order.
- RateLimiter.EveryMinuteBounded: for a clock that does not go back and a limit that does not change during the run; several server processes have a limiter each.
- DataCache.CacheRefinesTtlMap: for storage calls that succeed; statistics and `getCacheInfo` are left out. So is the key `__proto__`: on the plain object that holds the index, setting it leaves no index row.
- Outbox.EveryRunIsGood: for calls that do not overlap; `OutboxRaces` is about those that do. Drafts and the counter in the interface are left out.
- OutboxRaces.OneFateExactly: the sends of a pass count as made when it writes, so an app that is killed before that, and sends again after a restart, is not part of this model.
- `useOfflineQueue.processQueue`: it clears the whole queue once anything succeeds, so conservation is not what it does.
- BackfillRows.MovedRowsDescribe: the segments of a sealed object are not part of this model, only its header.
- Backfill.EndsExactly: for object names that are not in use yet and calls that always or never raise for an object; a crash between the deletion and the commit is not part of this model.
- `blind_index` and its Unicode normalisation, pg_dump and S3 plumbing, migrations, routing and user interface.
