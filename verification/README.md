# Mail Guardian: a verified model

Mail Guardian moves mail between IMAP folders and trains a spam filter on the corrections its
user makes. Replies get lost, processes get killed, other mail clients use the same mailbox, and
a restored database or model may be older than what it describes. This project models the parts of
the program that have to stay correct under all of that, and proves that they do, or exactly when.

Verify everything with `dafny verify dfyconfig.toml`.

## How it is modelled

**Journal** (`mailbox`, `store`, `journal`, `safety`, `client`, `passes`, `engine`, `blocked`). `Journal.State`
is what survives a crash: the server, the `messages` table, the archive. An `Event` is one durable
effect of the program or of another mail client, and `Enabled` is what the code establishes before
that effect. A crash is a run of events that simply stops; the theorems in `JournalSafety` are about
every prefix of every legal run, so about every crash point. The imperative side is `MailClient.World`
(the state, with the run that led to it), `Store.DB`, `MailClient.Client` (the session with its SELECT
cache) and `Engine.Engine`. Their methods do what the code does, branch by branch, and each keeps
`Valid`: whatever server, store and other clients do, the effects form a legal run. So the theorems
about runs are theorems about the methods. `Own(run)` is the program's own part of a run. `Passes` says,
in folders and statuses, what a pass without interference achieves and what it leaves alone; those
statements add up to the theorem about a whole `Engine.Run`.

**Recovery catalog and bundle** (`volume`, `catalog`, `bundle`). `Volume` is a directory whose
operations since the last directory fsync may each be lost at a crash. `Catalog` publishes a signed
watermark on it; `Bundle` seals and opens an archive of named files.

**Redis** (`resp`, `respreader`, `sorting`, `compare`, `crc`, `snapshot`, `export`). The budgeted RESP2
parser, the comparison of two servers, the snapshot checksum, two-generation rotation, and the
marker-terminated stream.

**Gates** (`authorization`, `continuity`, `classifier`, `qualification`). Settings-driven permission to
touch mail, high-water marks of the learned model, verdicts, and the measurement behind a threshold.

## Assumptions

- The server follows RFC 3501 section 2.3.1.1: a UID is never given twice under one UIDVALIDITY, UIDs
  ascend, and the bytes behind a UID never change. `Server.ledger` records every location ever given
  out. While a folder is selected its UIDVALIDITY stays the same. MOVE is atomic (RFC 6851 section 3.3).
  COPYUID and APPENDUID (RFC 4315 section 3) are true when they come, and may be missing.
- A command may be refused, take effect with its reply lost, succeed without a UID, or succeed with one.
- Before every command other clients may deliver, expunge, move or renumber anything.
- SHA-256 is injective: a digest is the content it stands for. A signature is valid for what was signed
  and for nothing else. Layout fingerprints are injective.
- The six configured folders have different names.
- A statement of the store is atomic: it happens or fails, and the unique location index decides.
- Redis servers are fenced during a comparison and SCAN returns existing keys only.
- `calm` means that nobody else acts and nothing fails; `Engine.Quiet` means that of session, store and
  archive together with native MOVE. Only clauses that promise progress use it. Safety never does.
- The date of a message never changes, so a dated search selects by location (`Client.recent`). How each
  message scans is an arbitrary function of its location.
- Times and counters are integers, scores are reals. 64-bit limits are explicit where the code relies on
  them (RESP integers, budgets, CRC registers). UIDs are naturals; the page arithmetic of the code was
  rewritten so that the 32-bit bound does not matter.

## Model

| member | source | states |
|---|---|---|
| Mailbox.ClientKeeps | internal/imapmail/client.go:405-441 | whatever another mail client does (deliver, expunge, move, renumber a folder), locations already handed out keep their bytes and every live message stays below its folder's UIDNEXT, which is what paging and confirmation by UID rely on |
| Mailbox.RelocateKeeps | internal/imapmail/client.go:556-570 | a MOVE keeps the bytes of every location handed out and every live message below its UIDNEXT: its new UID was never used |
| Store.DB.UpsertMessage | internal/store/store.go:560-613 | the row already at a location with a UID is reused, otherwise a new row is made; an absent path, deadline or label keeps the stored one; an id without a row changes nothing; a failed statement changes nothing |
| Store.DB.UpdateLocation | internal/store/store.go:615-620 | location and status change together, or nothing does; the unique index decides |
| Store.DB.FinalizeMove | internal/store/store.go:622-662 | the row gets the given location and status; its archive deadline is set, never brought forward and at least the full archive period from now; quarantine dates start now for quarantined rows and stay for others; nothing else changes; refused when another row has the location |
| Store.DB.MarkLearned | internal/store/store.go:664-672 | label, action and pending status in one step, for the two valid labels only |
| Store.DB.MarkFeedbackIntent | internal/store/store.go:674-681 | the intent alone changes, for the two valid labels only |
| Store.DB.MarkRestorePending | internal/store/store.go:693-709 | only a row without a complete location, or one already being restored, becomes pending |
| Store.DB.FinalizeRestore | internal/store/store.go:711-731 | needs a complete location and a row being restored or restored |
| Store.DB.MarkPurged | internal/store/store.go:733-737 | status and folder change together |
| Store.DB.SupersedeOtherCopies | internal/store/store.go:739-746 | every other row of the hash is superseded unless purged, restored, being restored or superseded |
| Store.DB.ClearArchivePath | internal/store/store.go:870-874 | exactly the rows with that path lose path and deadline |
| Store.DB.LatestFeedback | internal/store/store.go:981-991 | the effective label of the newest labelled row of that hash, or none |
| Store.DB.HasHamFeedback | internal/store/store.go:946-948 | true exactly when some row of the hash has ham as feedback or intent, whatever its status |
| Journal.StepKeeps | internal/engine/engine.go:978-1133 | every durable effect of the engine and of other clients keeps the invariant: finished rows name a location whose bytes the server confirmed, one row per location, archive copies behind every unfinished or deletable row, labels only in the folders they can come from |
| Journal.RunKeeps | internal/store/store.go:560-746 | the invariant holds in every state of every run, so at every crash point |
| JournalSafety.FinishedRowsConfirmed | internal/store/store.go:622-662 | at every crash point of every run a quarantined, review, rescued or restored row records a location in its final folder that held exactly its bytes, and no other row has that location |
| JournalSafety.ArchivedBeforeMove | internal/engine/engine.go:1045-1106 | at every MOVE the row is already durable as pending and its archive file holds exactly the bytes that leave |
| JournalSafety.VetoLostExactly | internal/engine/engine.go:1149-1158 | a step loses the last ham correction of some bytes if and only if it records, under a hash of its location, the one corrected message of these bytes in the ham folder, which then exceeds the size limit |
| JournalSafety.VetoPermanent | internal/store/store.go:943-948 | while the size limit is never lowered, a ham correction of some bytes is never lost again |
| JournalSafety.PurgeRespectsVeto | internal/engine/engine.go:1203-1286 | while the size limit is never lowered, no permanent deletion removes bytes that any earlier state had corrected as ham, nor other bytes than the row's, nor before the full retention period |
| JournalSafety.LoweredLimitForgets | internal/engine/engine.go:840-844 | for every two configurable limits and every message between them there is a legal run that loses the only ham correction |
| JournalSafety.NoSecondAppend | internal/engine/engine.go:1389-1436 | after one effective APPEND for a row there is no second one, whatever fails in between, as long as nobody takes a copy of the bytes out of the review folder |
| JournalSafety.RestoredIsFinal | internal/engine/engine.go:1357-1371 | a restored row stays restored and is never appended again, whoever touches the folder |
| JournalSafety.CopiesConserved | internal/engine/engine.go:1075-1133 | at every crash point the copies of any content equal the initial ones plus deliveries by others and restores, minus removals by others and purges |
| JournalSafety.CleanupSpares | internal/store/store.go:835-868 | a deleted archive file is referenced by no row in a protected status and by none whose retention is unexpired |
| JournalSafety.InterruptedCleanupResumes | internal/engine/engine.go:1472-1494 | after a crash between deleting a file and clearing its path, every later cleanup selects that path again and clears it |
| BlockedRescue.InboxScanBlocksRescue | internal/engine/engine.go:470-485 | there is a legal run after which the only copy of a pending message lies at a location another row has |
| MailClient.Client.SearchSince | internal/imapmail/client.go:353-376 | a fresh SELECT, then in ascending order exactly the UIDs of the messages the date selects; without a date all of the folder |
| MailClient.Client.SearchExactSize | internal/imapmail/client.go:380-401 | exactly the live messages of that size, ascending; a size below one is refused |
| MailClient.Client.SearchUIDPage | internal/imapmail/client.go:405-441 | live UIDs of the page above the cursor without gaps, all below the cached UIDNEXT; complete only when the page reaches it |
| MailClient.Client.Fetch | internal/imapmail/client.go:443-481 | the bytes the server holds at that UID under the session's UIDVALIDITY |
| MailClient.Client.MarkUnread | internal/imapmail/client.go:643-659 | selects again and refuses another UIDVALIDITY; changes no bytes and no location |
| MailClient.Client.StartMove | internal/imapmail/client.go:530-555 | goes ahead only with native MOVE, a destination UIDNEXT and the source under the expected UIDVALIDITY |
| MailClient.Client.SendMove | internal/imapmail/client.go:556-567 | the command takes effect at most once; a reported UID is the new location and holds the bytes that left |
| MailClient.Client.Move | internal/imapmail/client.go:530-577 | at most one MOVE; a location is reported only when it holds exactly the given bytes |
| MailClient.Client.ResolveMovedUID | internal/imapmail/client.go:579-601 | up to three confirmation reads and no second MOVE |
| MailClient.Client.ResolveMovedUIDOnce | internal/imapmail/client.go:605-641 | a UID is found only when exactly one new message has the bytes; when exactly one new message arrived in a quiet folder, it is found |
| MailClient.Client.AppendUnread | internal/imapmail/client.go:661-682 | at most one APPEND of the row's own bytes; a reported location holds them |
| MailClient.Client.DeleteUID | internal/imapmail/client.go:684-730 | needs UIDPLUS and the expected UIDVALIDITY twice; at most that one UID is expunged, and success means it is gone; in a quiet session exactly that message goes |
| Engine.Engine.SaveCopy | internal/archive/archive.go:111-178 | empty messages are refused; afterwards the file holds the bytes |
| Engine.Engine.CheckCopy | internal/archive/archive.go:180-209 | succeeds only on a file whose bytes have the expected hash |
| Engine.Engine.DeleteCopy | internal/archive/archive.go:211-219 | verifies before removing; a missing file is no obstacle |
| Engine.Engine.PreparePending | internal/engine/engine.go:1045-1073 | the archive copy first, then the pending row with location, hash, action, path and deadline |
| Engine.Engine.MovePending | internal/engine/engine.go:1075-1133 | at most one MOVE; the row is finished at a confirmed location or stays exactly as it was; a finished row is no cleanup candidate before the archive period is over and not due for deletion before the quarantine period is; in a quiet session it is finished and the message has moved |
| Engine.Engine.CountMatches | internal/engine/engine.go:325-369 | a result means every hit was read in full; in a quiet folder the count is the number of copies, and there is a result exactly when at most a thousand messages have that size |
| Engine.Engine.FinishReconciliation | internal/engine/engine.go:445-489 | the decision table: MOVE again only with one source copy and no destination copy, settle only with one copy in all, otherwise mark ambiguous |
| Engine.Engine.ReconcileBySize | internal/engine/engine.go:325-371 | in a quiet mailbox the row is settled if and only if both searches are within bounds, exactly one copy is left on the two sides and no other row has its location |
| Engine.Engine.ReconcileRow | internal/engine/engine.go:269-288 | an unresolved row ends unresolved or where its action leads, and stays unresolved if that is nowhere; in a quiet session it reaches that goal if and only if both searches are within bounds and one unowned copy is left, and everything else is left alone |
| Engine.Engine.ReconcilePending | internal/engine/engine.go:250-320 | only unresolved rows change, without the quality gate only explicit corrections, and each stays unresolved or ends where its action leads; in a quiet session every eligible row alone of its size reaches its goal if and only if one pass over it could settle it at the start, and resting rows, labels, restores and training folders are left alone |
| Engine.Engine.ScanPage | internal/engine/engine.go:373-443 | across deadlines and new UIDVALIDITYs the count is exact up to the cursor; once complete it is exact for the folder if and only if no copy lies at or past the UIDNEXT the folder was last selected with |
| Engine.ExactSurvives | internal/engine/engine.go:373-396 | between two pages the count survives everything other clients do except taking away a counted copy |
| Engine.StaleUidNextMisses | internal/imapmail/client.go:405-441 | a message that arrives after the SELECT is missed by a page that reports the folder complete |
| Engine.Engine.Intend | internal/engine/engine.go:1010-1024 | archive copy, pending row and correction are durable before anything else happens |
| Engine.Engine.ArchiveLearnAndMove | internal/engine/engine.go:999-1043 | learned only after the intent is durable; the outcome names a row with the correction at a confirmed final location and every other row of the bytes is superseded; in a quiet session the message has moved |
| Engine.Engine.ArchiveUnlearnableAndMove | internal/engine/engine.go:920-930 | the correction is recorded and the message moved without learning |
| Engine.Engine.ArchiveKnownAndMove | internal/engine/engine.go:957-976 | the same, for bytes already learned under this label |
| Engine.Engine.FinishUnlearned | internal/engine/engine.go:932-946 | other copies are superseded and the message moved |
| Engine.Engine.Correct | internal/engine/engine.go:832-913 | a quiet pass over one acceptable message moves exactly that message to the Inbox or the quarantine and records its correction without losing another |
| Engine.Engine.ProcessTraining | internal/engine/engine.go:798-918 | a quiet pass over fresh corrections within the limits leaves the training folder empty and a row with the label for every message; any quiet pass changes other rows only by superseding copies of corrected bytes; a dry run only records oversized messages |
| Engine.Engine.RecordOversized | internal/engine/engine.go:1149-1158 | the only row a dry run writes |
| Engine.Engine.RecordKept | internal/engine/engine.go:1135-1147 | the kept row carries location, hash and status |
| Engine.Engine.Guarded | internal/engine/engine.go:781-796 | a verdict never overrules the latest correction of the same bytes |
| Engine.Engine.DecisionAllowed | internal/engine/engine.go:761-779 | what is decided from a guarded verdict is never against the latest correction, and the Inbox is only touched in active mode |
| Engine.Engine.ArchiveAndMove | internal/engine/engine.go:978-997 | a dry run changes nothing; success means the message is confirmed at its destination |
| Engine.Engine.SortMessage | internal/engine/engine.go:642-757 | the decision table: in a quiet session spam not corrected as ham is quarantined in active mode; in the Inbox everything else stays and is recorded as kept, observed or failed; from the spam folder ham not corrected as spam is rescued in active mode and everything else goes to review; nothing else changes |
| Engine.Engine.ProcessFolder | internal/engine/engine.go:588-759 | in a quiet session every due message that the dated search selects and that has its turn within the limit of messages ends as the decision table says about the state before the pass; a dry run only records oversized messages |
| Engine.Engine.FindInReview | internal/engine/engine.go:551-580 | no match means the bytes were absent from the review folder when it was listed; one match is a confirmed location; in a quiet folder none, one and several are told apart exactly |
| Engine.Engine.Restore | internal/engine/engine.go:1342-1452 | at most one APPEND, only after listing or marking, and no other row changes; a restored or located row is only checked; a quiet restore completes if and only if the review folder holds no copy or one that no other row has (row under way), or the row lost its location and has its archive (any other row) |
| Engine.Engine.PurgeOne | internal/engine/engine.go:1203-1291 | the exact UID is deleted at most once, after every check, and the row marked only after the deletion was confirmed; in a quiet session nothing decides but the veto, the period, the message being there, the second scan and the user's mark |
| Engine.Engine.Purge | internal/engine/engine.go:1160-1294 | without permission, active mode, quality or UIDPLUS nothing happens, and nothing is deleted while a ham correction waits; only due rows without a ham correction change, and only to purged; a quiet purge empties exactly the locations of messages that are due, kept for the full period, uncorrected and still there, except where the second scan or the user's mark held one back |
| Engine.Engine.CleanupExpiredArchives | internal/engine/engine.go:1472-1494 | only files of candidates are deleted, and when nothing fails every path that is left has no deadline passed, a message still in use, or another row that needs the file |
| Engine.Engine.ReconcileRestores | internal/engine/engine.go:491-506 | success means that every row that was being restored is restored at a confirmed location; no other row changes; in a quiet session a single one succeeds if and only if it can be restored |
| Engine.Engine.Run | internal/engine/engine.go:61-145 | without authorization or native MOVE a live run does nothing at all, and a dry run only records oversized messages; a quiet live run settles every interrupted move that one pass can settle, empties fresh training folders and records every correction, and past the quality gate takes new mail out of the spam folder and out of the Inbox or into its records, and completes interrupted restores or reports failure; without the gate no message is decided |
| Engine.Independent | internal/engine/engine.go:325-369 | reconciling one row changes nothing that decides another row of a different size |
| Engine.AllStagesDone | internal/engine/engine.go:61-145 | what each stage of a run achieved still holds when the later stages are over |
| Passes.ProgressEnds | internal/engine/engine.go:597-625 | a pass over a folder that ended at its list or at its limit of messages has treated every due message whose turn it was |
| Passes.OneRowPasses | internal/engine/engine.go:978-1043 | a step that moves at most one message and rewrites one unfinished row leaves settled rows, restores, recorded mail and the set of messages alone, except for copies of corrected bytes |
| Passes.StillEnded | internal/engine/engine.go:642-757 | a message that was sorted stays where it ended while the others of its folder are sorted |
| Passes.SortStepDone | internal/store/store.go:981-991 | sorting a message changes no latest correction of any bytes, so every message of a pass is judged by the corrections from before it |
| Catalog.VerifyReceipt | internal/recoverybundle/receipt.go:155-188 | accepts a receipt if and only if the policy is valid and the receipt genuine, for this source and recipient, fresh and not below or in conflict with the watermark |
| Catalog.ValidFits | internal/recoverybundle/catalog.go:405-408 | no acceptable record comes near the size limit |
| Catalog.AdvancedValid | internal/recoverybundle/catalog.go:181-182 | every record an advance writes passes the validation of the next open |
| Catalog.PhaseServes | internal/recoverybundle/catalog.go:310-347 | whatever directory operations a crash loses, the catalog refuses to open or opens with the one record of that phase |
| Catalog.Catalog.Commit | internal/recoverybundle/catalog.go:403-474 | success means exactly the new record is durable; when it stops early, every crash leaves the old record, the new one, or a catalog that refuses to open |
| Catalog.Catalog.Initialize | internal/recoverybundle/catalog.go:101-134 | only in an empty directory, with valid pins and floor; success opens with that floor |
| Catalog.Catalog.Load | internal/recoverybundle/catalog.go:273-355 | an opened record is the one durably held, bound to these pins, with the bootstrap floor or that of a genuine receipt |
| Catalog.Catalog.Crash | internal/recoverybundle/catalog.go:310-347 | after a crash anywhere the catalog is in a state some loss of directory operations leads to, with what was acknowledged unchanged |
| Catalog.Catalog.Watermark | internal/recoverybundle/catalog.go:140-148 | a floor it returns is at or above every acknowledged one |
| Catalog.Catalog.VerifyAndAdvance | internal/recoverybundle/catalog.go:162-190 | success means both floors accepted the receipt and its watermark is durable; when nothing fails it succeeds if and only if the catalog opens and both accept |
| Catalog.Catalog.AcknowledgedSurvives | internal/recoverybundle/catalog.go:150-161 | after any crash a catalog that opens is at or above every acknowledged watermark, with the same payload at the same sequence |
| Catalog.Catalog.ServedNeverDecreases | internal/recoverybundle/catalog.go:150-190 | between any two crash points of any history sequences never fall and no sequence stands for two payloads |
| Resp.DecimalRoundTrip | internal/redismodel/reader.go:100-109 | every 64-bit number reads back from its decimal text of at most twenty characters |
| RespReader.Budget.Take | internal/redismodel/reader.go:62-68 | bytes are taken exactly when they fit and never exceed the limit |
| RespReader.Budget.Node | internal/redismodel/reader.go:69-75 | nodes are counted exactly while they fit |
| RespReader.Line | internal/redismodel/reader.go:76-99 | exactly the bytes up to the first line feed, within 128 bytes and the budget; a known line that fits is read |
| RespReader.ParseLine | internal/redismodel/reader.go:119-131 | simple strings and integers; errors are refused |
| RespReader.ParseBulk | internal/redismodel/reader.go:132-145 | exactly the announced number of bytes and the line end; null and oversized ones are refused |
| RespReader.ParseArray | internal/redismodel/reader.go:146-163 | the three early checks never refuse an array that fits |
| RespReader.Parse | internal/redismodel/reader.go:110-167 | on any input the budget holds and the value is what its bytes spell; an encoded reply is read whole and unchanged if and only if it is plain, at most three deep and within the limits |
| RespReader.Unambiguous | internal/redismodel/reader.go:110-167 | no bytes spell two values and no value's bytes begin another's |
| RespReader.Reader.Exchange | internal/redismodel/reader.go:169-217 | the k-th successful exchange returns the k-th reply; a failed one closes the reader for good |
| Compare.Comparison.CheckedAdd | internal/redismodel/compare.go:97-103 | the sum stays within its limit, so it cannot overflow |
| Compare.Comparison.Bounded | internal/redismodel/compare.go:329-337 | accepts exactly what fits one reply and the running total |
| Compare.Comparison.Deadline | internal/redismodel/compare.go:112-123 | accepts -1 and positive times; the earliest one never grows |
| Compare.Comparison.SameCollection | internal/redismodel/compare.go:271-321 | sorted matching accepts exactly equal collections without duplicate keys, if there is room |
| Compare.Comparison.EqualValue | internal/redismodel/compare.go:260-325 | success means equal kinds, contents and expiries with nothing else set; equal values within the limits are accepted |
| Compare.Comparison.Scan | internal/redismodel/compare.go:221-258 | success returns exactly the keys of the database; every cursor sequence terminates |
| Compare.EquivalentShowSame | internal/redismodel/compare.go:260-325 | replies that compare equal show the same entry |
| Compare.StartedBeforeBoth | internal/redismodel/compare.go:132-148 | the reported start is at or before both clocks at the end if and only if neither server started after the other ended, and never later by more than the skew |
| Compare.StartedAfterOne | internal/redismodel/compare.go:132-148 | readings that the comparison accepts and whose reported start is after one server's end |
| Compare.Compare | internal/redismodel/compare.go:132-219 | success means equal databases, the key total, and no key or field expiring before either server's clock at the end plus the clock skew; the reported times are the later clocks before the first and after the last answer and fit the skew and the elapsed time; neither server restarted, expired or evicted in between |
| Crc64.TableChecksum | internal/stack/redis_backup.go:31-46 | the table-driven loop computes the bit-at-a-time checksum of every byte string |
| Crc64.BurstDetected | internal/stack/redis_backup.go:43-46 | two inputs of one length that differ only within eight consecutive bytes have different checksums |
| Snapshot.ValidateRdb | internal/stack/redis_backup.go:27-51 | accepts exactly the snapshots with header, end opcode and matching checksum |
| Snapshot.ValidateFresh | internal/stack/redis_capture.go:186-223 | the same with version digits, unless cancelled |
| Snapshot.Payload | internal/stack/redis_backup.go:53-70 | the snapshot itself, or what precedes a 40-digit marker, exactly when that is valid |
| Snapshot.CorruptionDetected | internal/stack/redis_backup.go:27-51 | a valid snapshot changed within eight consecutive bytes, in body, checksum or across both, is refused |
| Snapshot.Backups.Publish | internal/stack/redis_backup.go:198-247 | only a valid payload with its own digest becomes current, and the old current becomes previous |
| Snapshot.Backups.Backup | internal/stack/redis_backup.go:99-160 | refuses exactly revisions below the baseline; does nothing for an equal recent one; success installs exactly the new generation |
| Snapshot.Backups.FloorNeverLost | internal/stack/redis_backup.go:99-160 | killed at any two moments, the later state has a complete generation with revisions no lower than the earlier one's |
| Export.Find | tools/recover_redis_snapshot.py:61 | the first occurrence, or none |
| Export.Receive | tools/recover_redis_snapshot.py:51-67 | for every way the stream is cut into blocks the file is the stream up to the first marker, and without a marker it fails |
| Authorization.Settings.BindConfiguration | internal/store/configuration.go:18-90 | the mailbox never changes; a changed layout needs no pending operations and revokes; a new non-legacy instance starts revoked; the same layout changes nothing |
| Authorization.Settings.BindDeployment | internal/store/deployment.go:14-42 | every other host revokes; the same host changes nothing |
| Authorization.Settings.ReauthorizeDeployment | internal/store/deployment.go:49-102 | needs the exact identities, an unbound host, reconciled state, a clean last run and deletion disabled; keeps policy history and revokes the proof |
| Authorization.Settings.RequireFreshDryRun | internal/store/store.go:151-174 | revokes the proof without touching identities |
| Authorization.Settings.DryRunAuthorized | internal/store/store.go:415-431 | only a database that never had the setting inherits from an old run |
| Authorization.Settings.DryRun | cmd/guardian/main.go:942-947 | records a proof only for a dry run without errors, under the identities it bound |
| Authorization.Settings.Authorized | internal/store/configuration.go:92-107 | when required, passes only if a dry run under the present identities succeeded since the last revocation |
| Authorization.Settings.RevokedCopy | internal/migration/authorization.go:35-134 | the copy is unbound and revoked, history kept or reset as asked |
| Authorization.Live | internal/store/configuration.go:92-107 | after any history the gate opens only for such a dry run, and the requirement never reverts |
| Continuity.Instance.CompareHighWater | cmd/guardian/main.go:883-922 | accepts exactly an intact model |
| Continuity.Instance.Checkpoint | cmd/guardian/checkpoint.go:52-84 | never checkpoints a regressed model; marks only rise; success sets them to the reading |
| Continuity.Instance.PrepareMutation | cmd/guardian/checkpoint.go:16-24 | the marker is durable first, and success means an intact model and a checkpoint |
| Continuity.Instance.FinishMutation | cmd/guardian/checkpoint.go:26-36 | the marker is cleared only after a checkpoint |
| Continuity.Instance.EnsureContinuity | cmd/guardian/main.go:2091-2184 | each mark becomes the highest of the reading, the stored mark and the consulted count, and no more; without a rollback both equal the reading; a regression is reported exactly as defined and switches memory and disk to protect mode without deletion, dated once |
| Continuity.Instance.EnsureTwice | cmd/guardian/main.go:2091-2184 | checking the same model again, whatever the store counts by then, repeats the answer |
| Continuity.Instance.Command | cmd/guardian/main.go:960-1032 | on Linux nothing starts below a stored mark, and success leaves no marker and nothing unsecured; deletion after the marker is cleared happens only where Linux refuses it |
| Continuity.TestsDiffer | cmd/guardian/main.go:2123-2144 | the continuity test finds a regression exactly when the checkpoint test fails or the store's count alone says so while a mark is missing |
| Continuity.Live | cmd/guardian/main.go:960-1032 | over any history of runs, restores and configuration changes cut off anywhere, marks never fall and no Linux command began below any mark ever stored |
| Classifier.Classify | internal/rspamd/client.go:148-217 | verdict and flags are the same for every order in which the symbols are visited |
| Classifier.ClassifyDelivery | internal/rspamd/client.go:223-248 | the same, including the exception for failed lookups |
| Classifier.ClassifyPermanent | internal/rspamd/client.go:252-257 | spam needs a score of twelve, the threshold and a complete scan, and implies the delivery verdict |
| Classifier.MeasuredIsProduction | cmd/guardian/qualify.go:268-270 | spam at six with a score of at least t is what production decides at t, and ham does not depend on t, for every result and every t of at least six |
| Qualification.Cheapest | cmd/guardian/qualify.go:185-192 | the first bucket of least cost |
| Qualification.PlacedOneMore | cmd/guardian/qualify.go:174-198 | placing one more group keeps what was said of the earlier ones |
| Qualification.AssignBuckets | cmd/guardian/qualify.go:158-198 | groups are placed whole, larger ones first, each in the first bucket that is cheapest given what the earlier ones left in every bucket |
| Qualification.SwapReserved | cmd/guardian/qualify.go:200-214 | the reserved buckets change places, entry by entry |
| Qualification.ScanPart | cmd/guardian/qualify.go:247-286 | exactly the samples of that part, each once, with its own scan |
| Qualification.FreezeThreshold | cmd/guardian/qualify.go:287-292 | one above the highest ham of the tuning part, and at least six |
| Qualification.Measure | internal/qualification/report.go:53-76 | all six counts of the test part |
| Qualification.Qualify | cmd/guardian/qualify.go:158-322 | succeeds when every sample was scanned; every sample is used in the part its bucket gives, the report passes all structural checks, and what it counts as detected or rescued is what production would do at its threshold |
| Qualification.Validate | internal/qualification/report.go:80-143 | accepts exactly the reports that meet every requirement |
| Qualification.BuiltReportsAreValid | internal/qualification/report.go:107-137 | a built report is valid if and only if the rules hold, there are enough examples and the metrics pass |
| Bundle.ValidStaysUnder | internal/recoverybundle/bundle.go:49-52 | a valid name stays strictly under every destination |
| Bundle.Seal | internal/recoverybundle/bundle.go:73-240 | succeeds exactly for trees within the limits; the entries are the tree and its manifest |
| Bundle.ReadEntries | internal/recoverybundle/bundle.go:323-427 | accepts exactly archives of distinct valid names within the limits that match their one, last manifest |
| Bundle.Open | internal/recoverybundle/bundle.go:288-471 | only the expected ciphertext; the files are exactly those listed, and every path stays under the destination |
| Bundle.RoundTrip | internal/recoverybundle/bundle.go:73-471 | seal then open returns exactly the tree if and only if the limits hold it |

## Findings

Properties that the code does not have on all inputs, each with the exact condition.

- **A ham correction can be forgotten.** `recordMetadataError` (internal/engine/engine.go:1149-1158)
  records an oversized training message under a hash of its location and reuses the row already there.
  If that row carried the only ham correction of the bytes, the veto against deletion is gone.
  `JournalSafety.VetoLostExactly`: a step loses the last ham correction if and only if it is this one, on
  a message in the ham folder that exceeds the limit now in force. `JournalSafety.LoweredLimitForgets`
  gives the run for every pair of limits the configuration allows and every message between them.
  While the limit is never lowered the veto is permanent and purging respects it (`VetoPermanent`,
  `PurgeRespectsVeto`). The comment at internal/store/store.go:943-945 promises it without that condition.
- **A rescue can be stuck for good.** A rescue's MOVE answered without COPYUID, whose confirming reads are
  refused, leaves its row pending. If the Inbox scan of the same run records the message, the unique
  location index refuses the pending row the only location it could be settled at
  (`BlockedRescue.InboxScanBlocksRescue`). `Engine.Engine.ReconcileBySize`: in a quiet mailbox a row is
  settled if and only if at most a thousand messages have its size on each side, exactly one copy is left
  and no other row has its location.
- **The paged scan can report a folder complete too early.** It pages against the UIDNEXT of the last
  SELECT (internal/imapmail/client.go:405-441, 739-748). `Engine.Engine.ScanPage`: a complete count is
  exact if and only if no copy lies at or past that UIDNEXT. `Engine.StaleUidNextMisses` is a
  case in which the only copy is missed.
- **Two tests for a lost model disagree.** With one high-water mark missing, `ensureBayesContinuity`
  compares both revisions with the number of messages the store counts as trained, while the
  checkpoint and the comparison use the stored mark where there is one. `Continuity.TestsDiffer`: they
  differ exactly when the checkpoint test passes and, one mark being missing, the revision with a mark
  is at or above it but below the count. `Continuity.Instance.Command` states it for a
  Linux restore, which passes the one test and may fail the other.

- **A reported start can lie after one server's end.** `StartedMillis` is the later of two clocks that may
  differ by the skew (internal/redismodel/compare.go:132-148). `Compare.StartedBeforeBoth`: it is at or before
  both clocks at the end if and only if neither server's first reading is after the other's last one
  (`Compare.StartedAfterOne` gives readings for which it is not), and never later by more than the skew.

## Left out

- Engine.Engine.ProcessFolder: messages above the absolute size limit and empty ones are left to Engine.Engine.RecordOversized; the time before which kept mail is looked at again is a parameter, not derived from what the run learned.
- Engine.Engine.Run: progress is promised without interference only; for the spam folder and the Inbox when the mailbox holds no more messages than the limit per folder (the exact turns are in Engine.Engine.ProcessFolder), and for restores when one is under way or none.
- Engine.Engine.ReconcilePending: decides rows that share their size with another eligible row only by Engine.Engine.ReconcileBySize, since the order of the passes then matters.
- Engine.Engine.ScanPage: does not promise that a page advances; a gap of UIDs wider than a page stalls the scan.
- Engine.Engine.ProcessTraining: the quiet theorem is about a folder of new, acceptable messages within the message limit and without rows from an interrupted run.
- Engine.Engine.Restore: in a quiet session only; with others acting, what is promised is at most one APPEND and a truthful row.
- MailClient.Client.DeleteUID: the \Deleted flag set before the expunge, and taken back when it fails, is not modelled.
- Compare.Compare: says what success means; that equal databases within the limits compare equal is proved for one value (Compare.Comparison.EqualValue), not for a whole run.
- Snapshot.Backups.Publish: process crashes only; what a loss of power does between the renames is not modelled.
- Catalog.Catalog.Load: ownership, permission and lock checks are one possible refusal.
- Bundle.Seal: the encoded size of the manifest is a parameter; tar, JSON and age bytes are not modelled.
- Qualification.AssignBuckets: groups of one size may come in any order; the code orders them by their hash.
- Message columns that no modelled decision reads: Message-ID hash, score, verdict, symbols, timestamps of rows, attempts and errors. The second identity check by Message-ID is therefore missing; the one by content hash is there.
- Flags other than the user's mark against deletion.
- More than one account in one database.
- Free choices: whether a message is already learned (`HasLearnedFeedback`), valid MIME, the second scan before a deletion, the reply of the learner, and the quality gates of activation and purge. Timeouts and cancellation are early stops.
- The order in which rows, groups and map keys are visited is arbitrary, which covers the order the code uses.
- The event log, run counters, notifications, and the reconciliation-progress table (a progress value is a parameter object here).
- `RequireConfiguration`/`ConfigurationMatches`, which are read-only comparisons of the fields `BindConfiguration` writes.
- Redis commands above one reply: INFO and metadata parsing, and the assembly of values from replies. The comparison starts from decoded replies.
- Scores that are infinite or not a number; Unicode case folding and normalisation of subjects (the group of a sample is given).
- Network, TLS, HTTP, SQLite internals, credentials, Docker and service control, installers, menus and diagnostics.
- Operator tools that repair live state directly; they bypass the journal.
