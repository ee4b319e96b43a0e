# cfgit, modelled and verified

cfgit versions live configuration documents that it does not own: any other writer may change a
document at any moment. It keeps an append-only history with one HEAD pointer per record, and
advances both in one transaction that compares HEAD's oid and the live document's hash with what
the caller saw. This project models that system in Dafny and proves what it promises. The files,
from the bottom up:

- `Orders`, `Texts`, `Documents`: sorting, splitting and joining, documents and edits at a path.
- `Canonical`, `Hashing`, `Contents`: the canonical text of a normalised tree and a reader of JSON that
  gives the tree back, the oid of a document, and what documents with the same oid have in common.
- `Conversions`: what becomes of dates and other values that JSON lacks when a document is written as
  JSON, and when the hash sees it.
- `Runtime`, `Secrets`: what a write makes of a live document on Mongo and on Postgres.
- `Store`: rows, HEAD pointers, the two compare-and-swap checks, the chain, the as-of query.
- `Plans`, `Protocol`: what the engine decides from its reads, and every interleaving of callers
  with outside writers.
- `Operations`, `Statuses`, `Bulk`, `Previews`, `Snapshots`, `Restores`: calls on one record and on
  many, with nobody else writing during the call. `Interference`: a system restore while outside
  writers change documents.
- `Branches`, `Reviews`: draft commits, pull requests and their merge.
- `Recording`, `Policies`, `Instants`: what a call answers and writes, exactly; what the secret policy
  keeps out over whole runs; and when versions start, with the round trip to an instant.
- `Adapter`, `Engine`: the storage adapter and the engine as objects whose methods change their
  state step by step. Each method is proved to compute a function of the old state, and the other
  files prove what that function guarantees.
- `DocDiff`, `Replay`: the structured diff, and replaying it. `Doctor`: the secret preflight.
- `LineDiff`, `Folding`: the line diff of the local UI over arrays, its numbers and its folds.

## Reading the statements

- sha256 is taken to be injective, so an oid is the hashed text itself. The clock, fresh ids and
  failures of single writes are parameters that may take any value. One database transaction is
  one step.
- `At(p, s, ref, oid)` says that a record is live with this hash and recorded at it. `GainedRow`
  says that its history gained exactly one row. `SameRecord` says that nothing about it changed.
- `Writable` is what a caller can check before a write: the document is settled, that is, on the
  members cfgit sets (the record id and `live_when`) the hash sees in it just what is set, and on
  Postgres no other hashed value changes its text as JSON; `_id` is ignored on Mongo; and every secret
  to be carried over finds its place.

## Where the code does not do what it is meant to

Each of these has a lemma with a concrete input and a lemma with the exact condition under which
the code is right.

- A carried-over secret whose parent object the new document lacks changes the hash, so cfgit's own
  write shows as drift: `Runtime.MissingParentDrifts`, `Runtime.PutKeepsHashIff`.
- Postgres stores a date as JSON text with its offset, the hash writes it with a `Z`, so writing a
  hashed date shows as drift there: `Runtime.DateDriftsOnPostgres`, `Runtime.PutKeepsHashIff`.
- `docs/ADAPTERS.md` says that a commit preserves the secrets its document omits. It loses some when
  a secret field is listed before a field that contains it: `Secrets.ChildFirstExample`,
  `Secrets.KeepsSecretsIff`.
- A diff can be empty between documents with different oids, because `True == 1`:
  `Replay.EmptyDiffMayHideANewHash`, `Replay.EmptyDiffKeepsHashIff`.
- The dry run of a bulk commit does not look for repeated records and never allows secrets, so it
  can promise a commit that is aborted, and raise for one that goes ahead:
  `Previews.RepeatedRecordMisleads`, `Previews.AllowedSecretMisleads`, `Previews.DryRunMisleadsIff`.
- The export file writes dates, decimals and other values that JSON lacks as text, so a document
  with a hashed date is not imported with the hash it was exported with:
  `Snapshots.DateDoesNotSurvive`, `Snapshots.ExportImportRoundTrip`.
- A record whose collection name holds a colon is not read back from its printed name:
  `Snapshots.ColonIsLost`, `Snapshots.RecordTextRoundTrip`.
- For a secret inside a list, doctor suggests a field that strips nothing: `Doctor.ListSecretStays`,
  `Doctor.SuggestionsWorkIff`.
- A system restore counts a record that drifted after the preflight as done, so a report of `restored`
  need not mean that every record is: `Interference.DriftCountsAsRestored`,
  `Interference.RestoredMeans`.
- A number that is no integer hashes like its own text: `Contents.NumberHashesLikeItsText`,
  `Contents.ContentDecides`, `Contents.TextIsAlike`.
- A version counts from the moment it was planned, so a call that was half-way at an instant changes the
  version at that instant after the fact: `Instants.PlannedEarlier`, `Instants.AsOfIsHeadIff`.
- The description of the dotted set promises `a.b.0` for a list position, and the code refuses it:
  `Replay.NumberIsNoPosition`, `Replay.DottedSetIff`.
- One live document that cannot be hashed leaves the whole status report without rows:
  `Statuses.NaNHidesAll`, `Statuses.StatusMeans`.
- Expanding the leading fold of a diff upward, in part, puts lines out of order:
  `Folding.PartlyUpExample`, `Folding.DiffPageKeepsOrderIff`.

The comment on `commit_many` says that duplicate targets and secret-policy failures block the batch;
in the code they raise. Either way nothing is written, and the model follows the code:
`Previews.RepeatedRecordMisleads` is aborted, not blocked, and `Previews.PreviewPredicts` says when.

## Model

| member | source | states |
|---|---|---|
| `Protocol.NoLostEdit` | src/cfg/adapters/mongo.py:325-373 | Any callers, any interleaving with outside writes and deletes: when a step of cfgit replaces the live document of a record with a HEAD, that document hashed to HEAD's oid at that very step, it is replaced and not deleted, and after any continuation its hashed content is still in the row HEAD named |
| `Protocol.RunKeepsInv` | src/cfg/adapters/mongo.py:342-401 | In every run the history stays one chain per record (seq 1..n, HEAD on row n, parents and closing times linked, oids honest), old rows change only by added tags and one closing time, and every pending write is sound and guarded |
| `Protocol.ReplacedMatchesHead` | src/cfg/adapters/mongo.py:331-373 | From any state that satisfies the invariant, one step, single write or batch, replaces a live document only if it hashes to HEAD in that transaction |
| `Protocol.GuardedWrite` | src/cfg/adapters/mongo.py:366-373 | A guarded write that succeeds over a record with a HEAD found a live document with that HEAD's hash; a seeding write succeeds exactly where there is no document, so it never replaces one |
| `Protocol.RefusedWrite` | src/cfg/adapters/mongo.py:325-373 | Why a write is refused, exactly: HEAD moved since it was read, the live document changed or appeared since, it is gone, or it cannot be hashed; the next row number is always free |
| `Protocol.BatchActsPointwise` | src/cfg/adapters/mongo.py:288-294 | A batch over distinct records does to each record exactly what its own write would do alone, and nothing to any other |
| `Protocol.ApplyIsLocal` | src/cfg/adapters/mongo.py:325-409 | Whether a write goes through, and what it does, depends on its own record only |
| `Plans.DecisionsAreSafe` | src/cfg/core/engine.py:1310-1343 | Whatever was read and whenever, every write that commit, adopt, import, restore or merge plans has an entry that records the document of the operation without its secrets, with the hash of that document, its operation, the moment of the plan as its start and the expected HEAD as parent, and over a HEAD it expects the live document to have that HEAD's hash |
| `Store.ApplyKeepsChain` | src/cfg/adapters/mongo.py:342-401 | One sound write keeps every record's chain, adds exactly one row to its own and keeps all that was there |
| `Store.ApplyManyKeepsChain` | src/cfg/adapters/mongo.py:288-294 | So does a transaction of many writes |
| `Store.ApplyNumbers` | src/cfg/adapters/mongo.py:342-365 | A write makes exactly one new row, under the next number of its record, and no row changes what it says |
| `Store.RecordOrderAscends` | src/cfg/core/engine.py:496 | Reports, merges and restores list the records by collection and then by id, in code point order |
| `Store.TagKeepsChain` | src/cfg/adapters/mongo.py:411-415 | Tagging a row keeps the chain and every row |
| `Store.OutsideKeepsChain` | src/cfg/core/engine.py:473-496 | Outside writes and deletes of live documents cannot break the history |
| `Store.AsOfIsLastStarted` | src/cfg/adapters/mongo.py:183-197 | In every chain, for every instant and every clock, `valid_from <= T < valid_to`, seq descending, limit 1 picks the last row with valid_from <= T, and finds one exactly when there is one |
| `Store.AsOfIsOnly` | src/cfg/adapters/postgres.py:234-252 | If valid_from never decreases along the chain, no other row qualifies |
| `Documents.DropCommutes` | src/cfg/core/hashing.py:50-60 | Removals at any two paths commute, on any tree |
| `Documents.DropIdempotent` | src/cfg/core/hashing.py:50-60 | Removing the same path twice is removing it once |
| `Documents.DropAllAbsorbs` | src/cfg/core/hashing.py:43-46 | A path of the list can be dropped beforehand without changing what the list leaves |
| `Documents.DropAllCommutes` | src/cfg/core/hashing.py:43-46 | The ignored paths and the secret paths can be stripped in either order |
| `Documents.DropAllReads` | src/cfg/core/hashing.py:43-60 | After removing a list of paths nothing is left at or below any of them, and everything beside all of them reads as before |
| `Hashing.StoredDoc` | src/cfg/core/hashing.py:18-26 | The loop over secret fields computes the stored form |
| `Hashing.StripForHash` | src/cfg/core/hashing.py:35-47 | The three loops compute the hashed form: ignored members, ignored paths and secrets removed |
| `Hashing.StoredReads` | src/cfg/core/hashing.py:18-26 | The stored form has nothing at or below a secret field and everything else as it was |
| `Hashing.StripReads` | src/cfg/core/hashing.py:35-47 | So has the hashed form for ignored members, ignored paths and secret fields |
| `Hashing.StoredKeepsHash` | src/cfg/core/hashing.py:18-60 | The stored form hashes like its source and is its own stored form, so a merged or restored entry gets its source's oid |
| `Hashing.OidIdentifiesNormalForm` | src/cfg/core/hashing.py:29-32 | Two documents have the same oid exactly when their stripped, normalised trees are equal (or both cannot be hashed) |
| `Hashing.TidyKeepsHash` | src/cfg/core/hashing.py:63-97 | At any depth, null members hash like absent ones and integral floats like integers |
| `Contents.ContentDecides` | src/cfg/core/hashing.py:63-97 | Two documents that hash have the same oid exactly when their hashed parts are alike at every position: the same truth value, integer or text, the same items, the same members but for nulls |
| `Contents.HashableIff` | src/cfg/core/hashing.py:79-81 | A document has an oid exactly when its hashed part holds no NaN and no infinity |
| `Contents.JsonContentDecides` | src/cfg/core/hashing.py:63-82 | For JSON of normal texts and integral numbers, two documents have the same oid exactly when their hashed parts are equal but for null members and integers written as floats |
| `Contents.TextIsAlike` | src/cfg/core/hashing.py:74-97 | What a text hashes like: texts with the same normal form, the number that is no integer and prints so, the date that prints so, a further type with that text, and nothing else |
| `Contents.NumbersAndDates` | src/cfg/core/hashing.py:80-94 | With injective formatting, numbers hash alike exactly when equal, and dates when they fall in one millisecond |
| `Contents.NumberHashesLikeItsText` | src/cfg/core/hashing.py:84 | Concrete input: 1.5 has the oid of its own text |
| `Canonical.TextInjective` | src/cfg/core/hashing.py:29-32 | A reader of JSON (RFC 8259) gives back the tree from its canonical text, so different trees have different texts |
| `Canonical.ValueBack` | src/cfg/core/hashing.py:31 | Inside a larger text too: the reader stops where the printed tree ends |
| `Canonical.TextCancel` | src/cfg/core/hashing.py:31 | It is uniquely decodable inside a larger text: if two printed trees followed by anything that may follow a value agree, so do the trees and what follows |
| `Canonical.KeysInOrder` | src/cfg/core/hashing.py:31 | The text of an object lists each member once, in the code point order of the names |
| `Orders.SortedUnique` | src/cfg/core/hashing.py:31 | Sorting gives one list, whatever order the members were inserted in |
| `Runtime.PutRecord` | src/cfg/adapters/postgres.py:708-740 | The put, with its carry-over loop, computes `PutDoc`: on Mongo the unprotected members are set and unset, on Postgres the whole document is replaced, its dates written as JSON text |
| `Runtime.PutKeepsHashIff` | src/cfg/adapters/mongo.py:579-600 | After the put, on either backend, the live document has the hash of the version written: for a settled version exactly when every carried secret lands where the hash does not look; over a live document that was found under the id and `live_when`, for any version, exactly when it is settled and every carried secret so lands |
| `Runtime.RuntimeKeepsHashIff` | src/cfg/adapters/postgres.py:854-864 | A version is settled exactly when setting the id and `live_when` members and keeping the document, on Postgres as JSON, is unseen by the hash: each of these members is seen as it was, a null value may be left out, and on Postgres every other hashed date is written with the text that is hashed |
| `Runtime.CarryKeepsHashIff` | src/cfg/adapters/postgres.py:715-724 | The same for the carry-over alone, as the backend keeps documents: both directions |
| `Runtime.ParentsAreEnough` | src/cfg/adapters/mongo.py:671-680 | A carried secret whose parent object exists in the new document lands there |
| `Runtime.SeedKeepsHash` | src/cfg/adapters/mongo.py:609-630 | A seeding restore inserts a document with the hash of its version exactly when the version is settled |
| `Runtime.MissingParentDrifts` | src/cfg/adapters/mongo.py:671-680 | Concrete input: with `a.key` secret and `a` missing from the new document, cfgit's own write drifts |
| `Runtime.DateDriftsOnPostgres` | src/cfg/adapters/postgres.py:859-863 | Concrete input: putting a document with a hashed date drifts on Postgres and not on Mongo |
| `Secrets.KeepsSecretsIff` | src/cfg/adapters/mongo.py:579-600 | For all new documents, and all live ones the backend can meet, the put keeps every secret the new document omits, exactly when no secret field that a put can lose is listed only after one below it |
| `Secrets.PutKeepsSecrets` | src/cfg/adapters/postgres.py:715-720 | With parents listed first, every omitted secret has its old value, as the backend keeps values, in the live document after the put, on either backend and over any live document |
| `Secrets.ChildFirstExample` | src/cfg/adapters/postgres.py:715-720 | Concrete input: with `auth.key` listed before `auth`, putting a document that omits `auth` leaves `auth` with the key only, on either backend |
| `Secrets.PutWritesVersion` | src/cfg/adapters/mongo.py:566-607 | Beside the secrets, a put writes the version with the record id set and the `live_when` values over it; on Mongo the ignored fields and `_id` stay those of the live document |
| `Secrets.SeedWritesVersion` | src/cfg/adapters/mongo.py:609-630 | A seeding restore inserts the version so, and Mongo adds an `_id` where there is none |
| `Operations.CommitLands` | src/cfg/core/engine.py:710-743 | With nobody else writing, a commit finds the record drifted, finds it already at the version, is stopped by one of three errors for the reason it names, or leaves it live and recorded at the new version with exactly one more row, whose number it answers; in every other case nothing changes |
| `Operations.RecordingLands` | src/cfg/core/engine.py:675-708 | Adopt and import touch no live document; either the live document becomes the recorded version with one more row, or nothing changes because it is recorded already or a named reason stops it |
| `Operations.ReplacementLands` | src/cfg/adapters/mongo.py:325-409 | A write planned from the current state always goes through and leaves the record at its version |
| `Operations.OperateKeeps` | src/cfg/core/engine.py:542-574 | No call on one record breaks a chain, loses history or touches another record |
| `Recording.CallWrites` | src/cfg/core/engine.py:1310-1343 | Whatever a call on one record is: it adds exactly the row that records its document without secrets, from the clock reading of the call on, under the operation it is, untagged, over HEAD and numbered as answered, closes the row before at that moment and changes no other row; or it writes nothing |
| `Recording.CommitAnswers` | src/cfg/core/engine.py:710-743 | Each answer of a commit, exactly when it is given: missing, unhashable, drifted, unchanged, refused for its secrets, written |
| `Recording.AdoptAnswers` | src/cfg/core/engine.py:675-708 | The same for adopt: in particular refused for its secrets exactly when the record is live, hashable, not at HEAD and refused by the policy without the flag |
| `Recording.ImportAnswers` | src/cfg/core/engine.py:542-574 | The same for import |
| `Recording.RestoreAnswers` | src/cfg/core/engine.py:1089-1131 | The same for a restore |
| `Recording.NoChangeMeansAlike` | src/cfg/core/engine.py:723-729 | On a recorded, undrifted record a commit answers that nothing changed exactly when it was handed content alike to the live content |
| `Recording.DriftMeansNotAlike` | src/cfg/core/engine.py:483-491 | A record has drifted exactly when its live content is not alike to the content HEAD records |
| `Recording.DraftAnswers` | src/cfg/core/engine.py:941-1012 | Each answer of planning a draft, exactly when it is given, and all that the draft holds: its document without secrets, the draft committed last as parent, HEAD as base, its clock reading |
| `Recording.DraftBatchIff` | src/cfg/core/engine.py:203-258 | A draft batch stores something exactly when the branch is there, the batch is well-formed, every record is live, undrifted and allowed or at its tip already, and one is not at its tip; otherwise nothing changes |
| `Policies.AddsNoSecret` | src/cfg/core/engine.py:1420-1432 | Without leave to record secrets, no row that a commit, an adopt or an import adds holds a document that the policy refuses |
| `Policies.RunIsClean` | src/cfg/core/engine.py:1420-1432 | In every run in which nobody lifts the policy, however callers and outside writers interleave, the history holds no refused document |
| `Policies.DoAllIsClean` | src/cfg/core/engine.py:962-990 | So it is for complete calls, drafts, requests and merges included, and no branch holds one either |
| `Policies.RowsHoldNoSecretField` | src/cfg/core/hashing.py:18-26 | No row of the history holds anything at or below a secret field |
| `Statuses.StatusMeans` | src/cfg/core/engine.py:473-496 | The report fails exactly when a live document that is not empty cannot be hashed, and then reports no record; otherwise it has one row per record in record order, with the true oids, and each of the five states exactly for the records it names |
| `Statuses.NaNHidesAll` | src/cfg/core/engine.py:483 | Concrete input: one live document with a NaN leaves the report without any row |
| `Restores.RestoreManyArrives` | src/cfg/core/engine.py:1133-1228 | A system restore not stopped at preflight brings every target to its version with at most one new row, or reports it failed and leaves it exactly as it was, and touches no other record; with no write failing it is never partial |
| `Restores.RestoreBlocksOnDrift` | src/cfg/core/engine.py:1146-1178 | Exactly a drifted (or unhashable) record stops it, and a stopped or dry run writes nothing |
| `Restores.BlockedAreDrifted` | src/cfg/core/engine.py:1153-1163 | A blocked restore lists exactly the drifted records |
| `Restores.DryRunTells` | src/cfg/core/engine.py:1176-1190 | A dry run stops as a real run would, writes nothing, and lists as to be restored exactly the records a real run gives a row, as unchanged exactly those it leaves alone, in the order of the real report |
| `Restores.RestoreAsOfArrives` | src/cfg/core/engine.py:1020-1051 | After a `restored` result every record with a row at T is live and recorded at that row's oid, and every other record is untouched |
| `Restores.RestoreAsOfConverges` | src/cfg/core/engine.py:1164-1174 | Running the same restore again, for T in the past or the future and any clock, appends nothing and reports every target unchanged |
| `Restores.RestoreAsOfResumes` | src/cfg/core/engine.py:1219-1227 | After `partial`, a re-run only works on records reported as failed |
| `Restores.RestoreAsOfCompletes` | src/cfg/core/engine.py:1219-1227 | After `partial`, a re-run in which nothing fails is `restored` and every record that had a row at T is live and recorded at it |
| `Restores.AsOfIsStable` | src/cfg/adapters/mongo.py:183-197 | The row a restore appends does not change which version the record had at T |
| `Instants.CallStarts` | src/cfg/core/engine.py:1336-1337 | A row written at `now` is the version at `now` and ever after, and the version at every earlier instant stays what it was; a call that writes nothing changes no version |
| `Instants.MergeStarts` | src/cfg/core/engine.py:387-442 | So it is for every record of a merge, from the clock reading at which that record was planned |
| `Instants.RestoredRowsStart` | src/cfg/core/engine.py:1194-1204 | Restoring many records: each record is as it was, or gained one row that holds its target's document and is the version from the moment that record was restored |
| `Instants.CommittedRowsStart` | src/cfg/core/engine.py:828-880 | A bulk commit: each record is as it was, or gained one row that holds its change's document and is the version from the moment the change was planned |
| `Instants.AsOfIsHeadThen` | src/cfg/adapters/mongo.py:183-197 | In every run whose clock does not go back, at every instant at which no write was half-way: the version of a record at the instant is ever after the one that was HEAD then |
| `Instants.InstantRoundTrip` | src/cfg/core/engine.py:1020-1051 | Any such run of any callers with outside writes, then a complete restore to such an instant: every record that had a HEAD then is live and recorded at it, and the others are untouched |
| `Instants.AsOfIsHeadIff` | src/cfg/adapters/mongo.py:183-197 | With writes half-way: the version at the instant is the HEAD of that moment exactly when no row written since starts by it |
| `Instants.PlannedEarlier` | src/cfg/core/engine.py:1322 | Concrete input: a call that plans at 10 and writes after 15 changes the version at 15 after the fact |
| `Restores.TagPicksThatHead` | src/cfg/core/engine.py:1063-1068 | After the last use of a tag, whatever happens, the latest row that carries it is the HEAD row of that moment, also when the name was used before |
| `Restores.TagRoundTrip` | src/cfg/core/engine.py:1285-1308 | Tag, then any run of any callers with outside writes that does not use the name again, then a complete tag restore: every record that had a HEAD at the tag is live and recorded at that HEAD's oid |
| `Restores.RestoreTagConverges` | src/cfg/core/engine.py:1053-1087 | After a complete tag restore, the same restore again appends nothing and finds every target in place |
| `Restores.RestoreTagCompletes` | src/cfg/core/engine.py:1053-1087 | After a partial one, a re-run in which nothing fails completes it |
| `Interference.RestoreTells` | src/cfg/core/engine.py:1190-1228 | Whatever is written outside between the preflight, each read and each transaction of a restore: a target in place is touched from outside only; a planned one gains exactly the one row that brings it to its version, or only outside writes happen to it and its outcome is an error, reported as failed, or a drift, which is not |
| `Interference.RestoredMeans` | src/cfg/core/engine.py:1190-1228 | Under a `restored` report, all planned targets gained their row exactly when no outcome in the results is a drift, and every target that nobody else touched is live and recorded at its version |
| `Interference.DriftCountsAsRestored` | src/cfg/core/engine.py:1192-1228 | Concrete input: a record changed from outside just before its write is reported under `restored`, with the outside document live and no new row |
| `Interference.QuietIsRestoreMany` | src/cfg/core/engine.py:1133-1228 | With nobody writing in between it is the restore of `Restores` |
| `Bulk.BulkAccounts` | src/cfg/core/engine.py:852-899 | Every input record appears exactly once across results, failed and pending, in input order, at whatever item an error or a cancel hits; a blocked or aborted batch writes nothing |
| `Bulk.BlocksIff` | src/cfg/core/engine.py:837-842 | Exactly a missing or a drifted record blocks |
| `Bulk.StoppedMeans` | src/cfg/core/engine.py:819-842 | An aborted batch reports the error of the first change that repeats a record or raises, a blocked one lists exactly its missing and drifted records |
| `Bulk.BulkLands` | src/cfg/core/engine.py:799-899 | The records in the results, and no others, moved, each to its new version |
| `Bulk.RerunSkipsLanded` | src/cfg/core/engine.py:925-926 | A re-run plans a noop for every record that landed, whether or not a record that was there already could have been written |
| `Bulk.RerunCompletes` | src/cfg/core/engine.py:849-899 | After `partial`, a re-run in which nothing fails is complete and every record is live and recorded at its version |
| `Bulk.RerunOfCompleteIsNoop` | src/cfg/core/engine.py:852-899 | Once the batch is complete, a further run changes nothing, whatever fails on the way |
| `Previews.PreviewPredicts` | src/cfg/interfaces/actions.py:389-415 | For any batch and any two secret flags: the commit is aborted exactly when the batch is empty, repeats a record or holds a change that raises; otherwise it is blocked exactly when the dry run shows records that are neither noops nor to be committed, by exactly that many, and plans exactly as many writes as shown. The counters count the list, and the list is the previews in order |
| `Previews.PreviewIsPlan` | src/cfg/core/engine.py:745-780 | Record by record and for any two secret flags: the preview is what the commit would decide, with the same oids, unless the flag alone decides, and then the opposite |
| `Previews.PreviewReplays` | src/cfg/core/engine.py:770-780 | For plain keys: every change a preview lists shows the live value and the new one at its path, and replaying the list over the hashed part of the live document gives that of the new one |
| `Previews.DryRunMisleadsIff` | src/cfg/interfaces/actions.py:368-399 | If the dry run of the actions layer answers, the commit is aborted exactly for an empty batch or a repeated record; if it raises, the commit still goes ahead exactly when secrets are allowed, no record repeats and secret refusals are all that stops any change |
| `Previews.RepeatedRecordMisleads` | src/cfg/core/engine.py:818-828 | Concrete input: one committable change twice shows two commits and is aborted |
| `Previews.AllowedSecretMisleads` | src/cfg/interfaces/actions.py:234-248 | Concrete input: one change refused for its secrets makes the dry run raise, and the commit with secrets allowed plans the write |
| `Previews.InvisibleChange` | src/cfg/core/engine.py:773 | On a recorded document, a commit that is previewed with no change at all is one where a truth value faces a number |
| `Snapshots.RecordTextRoundTrip` | src/cfg/interfaces/actions.py:734-740 | `parse_record` gives a record name back exactly when the collection has no colon and neither part is empty |
| `Snapshots.ColonIsLost` | src/cfg/interfaces/actions.py:734-740 | Concrete input: collection `a:b` with id `c` is read back as collection `a` with id `b:c` |
| `Snapshots.RowIsReadBack` | src/cfg/interfaces/actions.py:234-268 | An exported row names its record, with its whole name or with collection and id; the whole name counts before the two |
| `Snapshots.ExportItemsToCommit` | src/cfg/interfaces/actions.py:251-268 | The loop over rows of an export computes the changes they name, or the first error |
| `Conversions.SavedKeepsHashIff` | src/cfg/cli/main.py:891-904 | A document written to the export file, or to a JSON column of Postgres, and read back has the hash it had exactly when every value in its hashed part that is turned into text is written with the text that is hashed |
| `Conversions.JsonSurvives` | src/cfg/adapters/postgres.py:854-864 | Neither changes JSON values |
| `Snapshots.DateDoesNotSurvive` | src/cfg/cli/main.py:898-899 | Concrete input: a document with a date as the database gives it hashes differently once read back |
| `Snapshots.ExportImportRoundTrip` | src/cfg/interfaces/actions.py:234-268 | Rows read back from the export file name the exported records, and importing them over any later state in which they are live, undrifted and allowed leaves every one live and recorded as the file has it; that is its exported hash exactly when everything hashed in it survives the file |
| `Branches.TipIsLastCommitted` | src/cfg/core/engine.py:1376-1388 | Among drafts whose parents link them in commit order, the tip found by parent links is the one committed last, though timestamps tie or run backwards and ids sort the other way |
| `Branches.PutDraftsJournals` | src/cfg/core/engine.py:244-256 | Storing a batch of planned drafts keeps every (branch name, record) one chain in commit order |
| `Branches.LatestIsNewest` | src/cfg/core/engine.py:1381-1387 | Whatever links the drafts of a record have: the tip is nobody's parent if any draft is nobody's parent, and none of those is newer, the greater id deciding ties; if every draft is a parent, the tip is the newest of all |
| `Reviews.BranchTipIsLastCommitted` | src/cfg/core/engine.py:968-1003 | After any complete calls and outside writes, branch deletion and re-creation included, the tip of every record on every branch name is the draft committed last for it |
| `Reviews.DraftsLand` | src/cfg/core/engine.py:203-258 | If every record of a draft batch is live, undrifted and allowed, then afterwards the branch shows the committed content for every one of them, and every other record and branch shows what it showed |
| `Reviews.DoAllKeepsInv` | src/cfg/core/engine.py:297-471 | Any sequence of complete calls and outside writes keeps the chains, the draft order, honest drafts, and open requests that describe their branch as long as it has not moved |
| `Reviews.MergeIsAllOrNothing` | src/cfg/core/engine.py:369-471 | Whatever happened to the store between planning and the transaction: either nothing changes, or every record gains exactly one row over the HEAD it has then, no other record changes, and the request and no other ref is marked merged |
| `Reviews.MergesIff` | src/cfg/core/engine.py:373-418 | A merge can be planned exactly when the request is open on a branch that has drafts and has not moved, and every record of it is live, undrifted and still at its draft's base HEAD |
| `Reviews.CreatedCanMerge` | src/cfg/core/engine.py:297-418 | From the creation of a request on, whatever is called but drafts on its branch: as long as it is open, a merge can be planned exactly when every record of the branch is live, undrifted and at its draft's base HEAD |
| `Reviews.MergeGoesThrough` | src/cfg/core/engine.py:463 | A merge that can be planned goes through when nobody writes in between |
| `Reviews.MergesWhatWasReviewed` | src/cfg/core/engine.py:315-338 | Create a request, make any complete calls, merge: the merged records are exactly those frozen at creation, each gains one row with the frozen oid, and its parent is the draft's base HEAD |
| `Reviews.MergedIsLive` | src/cfg/core/engine.py:387-442 | A merged record is live at the version of its draft, so the merge causes no drift |
| `Reviews.DoAllKeepsPr` | src/cfg/core/engine.py:358-367 | What a request says never changes but for its status, which leaves `open` at most once |
| `Reviews.RequestEnds` | src/cfg/core/engine.py:358-471 | An open request is closed by exactly one call, its own close, and merged by exactly one, its own merge when that merge can be planned; no other call ends it |
| `Reviews.BranchEnds` | src/cfg/core/engine.py:115-160 | A branch name is there after a call exactly when it was there and was not deleted (the main branch and a branch with an open request cannot be), or was created from an existing base; only drafts move it, and a new branch is empty |
| `LineDiff.Table` | src/cfg/ui/server.py:1325-1327 | The nested loops fill the table with the values of the recurrence |
| `LineDiff.Walk` | src/cfg/ui/server.py:1328-1336 | The walk yields an edit script from the left to the right lines whose context count is the table's value, and every row of it is a common line where both texts go on with it, a deletion exactly where deleting loses no context, an addition only where it would |
| `LineDiff.Diff` | src/cfg/ui/server.py:1321-1337 | Its context and deleted lines spell the left text, its context and added lines the right text |
| `LineDiff.LcsBounds` | src/cfg/ui/server.py:1326-1327 | No common subsequence is longer than the table says |
| `LineDiff.FewestEdits` | src/cfg/ui/server.py:1328-1336 | No script between the two texts has more context or fewer deletions plus additions |
| `LineDiff.ContextIsLongest` | src/cfg/ui/server.py:1328-1336 | The context lines are a longest common subsequence |
| `Folding.NumberOps` | src/cfg/ui/server.py:1341-1349 | In place, every row gets its line numbers |
| `Folding.NumbersAreComplete` | src/cfg/ui/server.py:1341-1349 | The left numbers are exactly 1..n and the right numbers exactly 1..m, in order |
| `Folding.NumbersNameLines` | src/cfg/ui/server.py:1341-1349 | A row numbered x shows line x of its side |
| `Folding.Keep` | src/cfg/ui/server.py:1352 | The loops mark exactly the rows within 3 positions of a change |
| `Folding.FoldContext` | src/cfg/ui/server.py:1350-1359 | Flattening the folded list gives the rows back, a row is hidden exactly when it is more than 3 positions from every change, no fold is empty and no two are adjacent |
| `Folding.ExpandKeepsOrder` | src/cfg/ui/server.py:1391-1415 | Expanding an inner fold keeps every row in its place and hides strictly less |
| `Folding.ClicksKeepOrderAndEnd` | src/cfg/ui/server.py:1391-1415 | So does any sequence of expansions, and no more are possible than there were hidden rows |
| `Folding.LeadKeepsOrderIff` | src/cfg/ui/server.py:1397-1406 | For any lead with distinct line numbers: expanding it keeps the rows in order exactly when it is not a partial expansion upward |
| `Folding.LeadIsContext` | src/cfg/ui/server.py:1383-1389 | The lead of a folded list hides its first rows, all of them context rows |
| `Folding.DiffPageKeepsOrderIff` | src/cfg/ui/server.py:1383-1406 | The page of a diff shows its numbered rows in order, and expanding its lead keeps them so exactly when it is not a partial expansion upward |
| `Folding.SplitDiff` | src/cfg/ui/server.py:1383-1389 | Diffing, numbering and folding two texts yields a script whose context is a longest common subsequence, the folded list of its numbered rows, which hides exactly the rows far from every change, and the page of that list |
| `Folding.PartlyUpExample` | src/cfg/ui/server.py:1395-1404 | Concrete input: eleven leading context rows, expanded upward once, are out of order |
| `DocDiff.DiffEmptyIff` | src/cfg/core/diff.py:8-23 | The diff is empty exactly when the documents are equal |
| `Replay.PrintedEmptyIff` | src/cfg/core/diff.py:8-23 | So is the printed diff, for all values and whatever their keys |
| `DocDiff.DiffIsInOrder` | src/cfg/core/diff.py:12-21 | The changed paths are listed in ascending order: at the first key where two paths differ, the earlier one has the smaller key |
| `DocDiff.DiffIsPrefixFree` | src/cfg/core/diff.py:8-23 | No changed path lies at or above another |
| `DocDiff.DiffShows` | src/cfg/core/diff.py:8-23 | Every edit shows what either document has at its path: added paths are absent before, removed ones after, changed ones hold different values |
| `Replay.DiffValuesLoop` | src/cfg/core/diff.py:8-23 | The recursive loop with its accumulated list computes the printed diff |
| `Replay.PrintedShows` | src/cfg/core/diff.py:8-23 | So does every printed edit, for documents with plain keys |
| `Replay.PrintedBackwards` | src/cfg/core/diff.py:8-23 | For all values and keys, the printed diff the other way round takes every edit back: old and new value exchanged |
| `Replay.AnyOrder` | src/cfg/core/engine.py:1472-1503 | Edits at paths that lie apart give the same document in any order |
| `Replay.SetDottedIsSet` | src/cfg/core/engine.py:1472-1523 | For plain keys under existing objects, the dotted set is a plain write at the path |
| `Replay.SetAtReads` | src/cfg/core/engine.py:1472-1503 | Setting a parsed path succeeds exactly where the way can be gone, through existing list positions and objects and objects still to be made, and then the value is there |
| `Replay.SetAtElsewhere` | src/cfg/core/engine.py:1472-1503 | Everything beside the path stays: every other member and every other list position, at any depth |
| `Replay.SetDottedPosition` | src/cfg/core/engine.py:1506-1523 | The text `key[i]` is parsed back, and setting it changes position i of that list and nothing else, or fails where there is none |
| `Replay.NumberIsNoPosition` | src/cfg/core/engine.py:1472-1474 | Concrete input: the text `key.0` does not set position 0 of a list; it is refused |
| `Replay.DottedSetIff` | src/cfg/core/engine.py:1472-1523 | For plain keys the dotted set succeeds exactly where the way can be gone |
| `Replay.DiffReplays` | src/cfg/core/diff.py:8-23 | For documents with plain keys: replaying the printed changes in any order, adds and changes with the dotted set and removes with the dotted drop, succeeds and turns `before` into `after` |
| `Replay.DiffReplaysBackwards` | src/cfg/core/diff.py:8-23 | For documents with plain keys: taking the printed changes back in any order, dropping what was added and setting the old values, turns `after` into `before` |
| `Replay.EmptyDiffKeepsHashIff` | src/cfg/core/engine.py:773 | When the hashed parts of two documents show no difference, they have the same oid exactly when nowhere in them a truth value faces a number |
| `Replay.EmptyDiffMayHideANewHash` | src/cfg/core/diff.py:9-10 | Concrete input: `1` and `true` compare equal, so a diff can be empty between documents with different oids |
| `Doctor.ScanDoc` | src/cfg/core/engine.py:621-632 | Rolling the matches of a document up to containers collects each once |
| `Doctor.MatchIff` | src/cfg/core/engine.py:1542-1563 | A value at plain keys is a match exactly when its last key or its whole path fits a secret field pattern, or it is a text that a value pattern finds |
| `Doctor.SuggestSecretFields` | src/cfg/core/engine.py:648-663 | The suggested fields are exactly the outermost containers of all matches in the scanned documents |
| `Doctor.SuggestionsWorkIff` | src/cfg/core/engine.py:1542-1576 | For matches under plain keys, in lists or not: stripping the suggestions leaves no match in any scanned document exactly when each match starts with the advised fields of some match; a match advises its fields down to its first secret-bearing key, or all of them, unless a list position lies on that way or right at its end |
| `Doctor.SuggestionsReach` | src/cfg/core/engine.py:648-663 | Match by match: the outermost containers strip exactly what the container of some match reaches, so dropping the inner ones loses nothing |
| `Doctor.AdviceWorks` | src/cfg/core/engine.py:1542-1576 | In particular when every match lies under objects with plain keys |
| `Doctor.AdviceWorksIff` | src/cfg/core/engine.py:1420-1431 | For any documents and any added secret fields: no match is left exactly when each match starts with the fields of one of them |
| `Doctor.ListSecretStays` | src/cfg/core/engine.py:1565-1576 | Concrete input: for a secret text in a list the only suggestion is `key[]`, which strips nothing |
| `Doctor.ImportRefusedIff` | src/cfg/core/engine.py:542-562 | With added secret fields, importing a document is refused for secrets exactly when it has no HEAD and some match starts with the fields of none of them |
| `Doctor.AdviceUnblocksImport` | src/cfg/core/engine.py:1420-1431 | So an import of a scanned record is no longer refused for secrets |
| `Adapters.Adapter.ApplyItem` | src/cfg/adapters/mongo.py:325-409 | The ordered steps of a write (checks, insert, close, live write, HEAD) compute exactly the next state, or report exactly the error, of `Apply` |
| `Adapters.Adapter.ApplyOnce` | src/cfg/adapters/mongo.py:296-323 | As a transaction: the next state, or the error and no change at all |
| `Adapters.Adapter.ApplyAll` | src/cfg/adapters/mongo.py:288-294 | Several writes and a request in one transaction: the state after all of them, or the first error and no change at all; each number answered names a new row of its record that holds that entry, and for distinct records it is HEAD's, one above what it was |
| `Adapters.Adapter.GetHeads` | src/cfg/adapters/mongo.py:103-130 | The two-query batch read returns exactly what one read per record would |
| `Adapters.Adapter.QueryAsOf` | src/cfg/adapters/mongo.py:183-197 | The filtered scan returns the greatest qualifying seq |
| `Adapters.Adapter.DraftsByRecord` | src/cfg/core/engine.py:1377-1380 | One pass over a branch's drafts groups them by record |
| `Adapters.Adapter.BranchLatestByRecord` | src/cfg/core/engine.py:1376-1388 | It finds the tip of every record of the branch and of no other |
| `Engines.Engine.Commit` | src/cfg/core/engine.py:710-743 | Branch by branch: the state and the outcome of one commit as `Operations` describes it |
| `Engines.Engine.Adopt` | src/cfg/core/engine.py:675-708 | The same for adopt |
| `Engines.Engine.ImportRecord` | src/cfg/core/engine.py:542-574 | The same for the import of one record |
| `Engines.Engine.RestoreOne` | src/cfg/core/engine.py:1089-1131 | The same for one restore, seeding included |
| `Engines.Engine.CommitPlan` | src/cfg/core/engine.py:901-939 | Planning one change of a batch gives the decision a commit would take |
| `Engines.Engine.PlanMany` | src/cfg/core/engine.py:819-842 | The preflight loop finds the first error, or exactly the blocked records, or all plans |
| `Engines.Engine.CommitMany` | src/cfg/core/engine.py:799-899 | The whole bulk commit computes the state and report that `Bulk` reasons about |
| `Engines.Engine.CommitPreview` | src/cfg/core/engine.py:745-780 | The guards of the preview in the order of the source, with the oids and the structured diff it shows |
| `Engines.Engine.BulkCommitPreview` | src/cfg/interfaces/actions.py:389-415 | The loop computes the counters and the list of the dry run |
| `Engines.Engine.Preflight` | src/cfg/core/engine.py:1142-1175 | The loop over targets sorts them into already there, drifted and to be restored |
| `Engines.Engine.RestoreMany` | src/cfg/core/engine.py:1133-1228 | The whole restore computes the state and report that `Restores` reasons about |
| `Engines.Engine.AsOfTargets` | src/cfg/core/engine.py:1030-1044 | One target for exactly the records that have a row at T: that row |
| `Engines.Engine.RestoreSystemAsOf` | src/cfg/core/engine.py:1020-1051 | Restoring to an instant is a restore of exactly those targets |
| `Engines.Engine.LatestTagged` | src/cfg/core/engine.py:1063-1068 | The scan over tagged rows keeps the latest of each record |
| `Engines.Engine.RestoreSystemTag` | src/cfg/core/engine.py:1053-1087 | Restoring a tag is a restore of exactly the records it covers, or an error if it covers none |
| `Engines.Engine.Tag` | src/cfg/core/engine.py:1285-1308 | Exactly the HEAD rows gain the tag |
| `Engines.Engine.Status` | src/cfg/core/engine.py:473-496 | The loop over the records, in any order, computes the sorted report or its error |
| `Engines.Engine.StatusRow` | src/cfg/core/engine.py:482-495 | One row: the live document is hashed first, unless it is empty, then the five states in the order of the source |
| `Engines.Engine.BranchCommitPlan` | src/cfg/core/engine.py:941-1012 | Planning one draft: its parent is the tip of its record |
| `Engines.Engine.PlanDrafts` | src/cfg/core/engine.py:220-242 | A draft batch reports exactly its first error, or exactly its missing and drifted records, or all plans |
| `Engines.Engine.BranchCommitMany` | src/cfg/core/engine.py:203-258 | The drafts are stored and the branch moves to the last; nothing else changes; what stops the batch is reported as planned |
| `Engines.Engine.PrCreate` | src/cfg/core/engine.py:297-344 | The new request freezes the tips of its branch, or an error and no change |
| `Engines.Engine.MergePlans` | src/cfg/core/engine.py:387-442 | One write for each record of the branch, in record order, or the first reason to stop |
| `Engines.Engine.PrMerge` | src/cfg/core/engine.py:369-471 | The merge as one transaction, successful exactly when it can be planned and applied; it answers the new HEAD number of every record, in record order, one above what it was |

## Left out

- sha256, NFC, decimal and date formatting, fnmatch and the secret patterns: open functions of the model, with nothing assumed but that the hash is injective. NaN and the infinities are one value. Decimals are those of BSON; Python's own and the special ones are not modelled, and the dates of one store are all with a zone or all without. Texts that cannot be encoded as UTF-8 are not modelled.
- Documents are values: `_drop_path`, `_set_path`, `_set_dotted` and `_put_record` move a cursor through nested dictionaries of a private copy, and the model does not capture aliasing inside that copy or the half-edited copy that a failing `_set_dotted` throws away.
- Members whose names hold a dot or start with `$` in a Mongo update, and, on Postgres, the same conversion of dates in history rows and drafts as in live documents. Postgres refuses decimals, other types that JSON lacks and NaN; the model stores them as they are.
- Two live documents for one record: the model keeps live documents in a map, so the ambiguity error cannot arise.
- Protocol.NoLostEdit: says nothing about records without a HEAD; committing an untracked record overwrites what is there, as in the code. It speaks of the hashed content, so ignored fields and secrets are not covered.
- Restores.RestoreManyArrives: assumes no outside write during the call, as do the results of `Operations`, `Bulk` and `Snapshots`; what holds with outside writes is in `Interference`, and under any interleaving in `Protocol`.
- Interference.RestoredMeans: the preflight reads all records at one moment, and those who write meanwhile do not use cfgit.
- Doctor.SuggestionsWorkIff: keys of matches that hold a dot or a bracket, or are empty, are only covered by `Doctor.AdviceWorksIff`.
- Bulk.BulkAccounts: a cancel is taken to hit before the write it interrupts has been committed.
- Reviews.MergesWhatWasReviewed: is about calls that do not overlap; the seq a merge result predicts is not claimed to be exact under concurrency.
- Restores.TagRoundTrip: the tag is put on all HEAD rows in one step; outside writes between the tagging of two records are not modelled.
- Secrets.PutWritesVersion: is about paths beside all secret fields; what becomes of the secrets is in `Secrets.KeepsSecretsIff`.
- Replay.SetDottedIsSet: list positions of a dotted path are ASCII digits, and a line break after the last bracket is refused.
- LineDiff.Table: table entries are unbounded, where the source has 32-bit ones that no text in memory can exceed.
- Folding.SplitDiff: which HTML a row or a control becomes is outside the model.
- Doctor.SuggestSecretFields: oversized fields and duplicate ids, the other two findings of the preflight, only add easy members.
- Snapshots.ExportImportRoundTrip: printing JSON values and parsing them back is taken to be the identity.
- Snapshots.ExportItemsToCommit: rows are records with optional members, so a row of the wrong type is not modelled.
- The base branch of a request is always main, so the model has no field for it.
- `make_head=False`: no engine call uses it.
- Retries of transactions, indexes, drivers, SQL, connection caches, schema creation, environments and their mismatch report.
- Authorization, identity, the atomicity report, empty messages, branch-name rules and unknown collections: checks that stop a call before it does anything.
- References to a version by number, prefix, date or tag (`resolve_ref`), `log`, `recent_history`, `fsck`, `branch_diff` and removing a tag.
- The command line, the MCP and HTTP servers, the pages around the line diff, updates, the impact plugin and the language-model providers.
