# Verified model of the control plane's core logic

The control plane of the audit proxy keeps a configuration that operators diff, redact, edit,
approve and apply; it ships audit logs into several stores; it routes database reads, tracks
sessions, merges server lists, guards drains and runs automation jobs.  This project models that
logic in Dafny and proves what it is for, over all inputs, all runs and all reachable states.

| part | modules | main results |
|---|---|---|
| diff | `ConfigDiff`, `ConfigHunks`, `UnifiedDiff` | the script is a shortest one; hunks are the unique cover of the changes; the printed text alone rebuilds the new text, and is unique |
| redaction | `JsonText`, `Redaction` | restore undoes redaction exactly on trees without a null secret; equal redactions exactly characterised; the diff of two documents is that of the redacted ones and does not depend on secrets |
| ingestion | `LogLines`, `ClickHouseIngest`, `IndexIngest`, `IndexStores`, `QueueIngest` | every run of growth, truncation, failing passes and crashes agrees with one full scan; at least once and exactly once delivery |
| INI | `IniQuoting`, `IniText`, `IniCodec`, `IniRoundTrip`, `IniObjects`, `IniFamilies`, `IniLines`, `IniDocuments`, `IniReading`, `IniTable` | what parsing makes of any printed document, exactly which documents come back, for the server's own table, and what hand-written text means |
| approval | `ConfigApproval`, `ConfigChangeStore`, `ConfigApply` | a payload is applied at most once, only after its approval was saved; decisions are final through restarts and only in time |
| database | `DbCluster` | a read sees all completed writes exactly while lag stays within the window; reads are spread evenly |
| sessions | `SessionMetadata` | every row follows from its history: last report, first closing, last change |
| servers | `Servers` | every report lands in exactly one entry, by id and else by host and port; stable sorted result |
| cluster | `Topology` | a drain is accepted exactly when the cluster is safe without the node |
| automation | `Automation` | no job runs twice at once, in any interleaving; one running record per job exactly while no restart finds one |

`Text` holds strings, lines and numbers.  `dafny verify dfyconfig.toml` checks the whole project.

How the modules are built: a loop or a state-changing method of the source is a method or a class
here, proved against a function of its inputs or of the old state; protocols are state machines
whose runs are sequences of states; a property that the code does not have is given with the exact
condition under which it holds, and an input that shows the failure.

Clocks, disk writes, network calls and statements of a database are parameters or
nondeterministic outcomes: each may fail at any step.

## Model

| member | source | states |
|---|---|---|
| `ConfigDiff.FillLcsTable` | internal/api/config_diff.go:347-365 | the table filled in place from the bottom-right corner holds the longest-common-subsequence length of every pair of suffixes |
| `ConfigDiff.LcsIsUpperBound` | internal/api/config_diff.go:347-365 | no common subsequence of two suffixes is longer than the table entry |
| `ConfigDiff.KeptAtMostLcs` | internal/api/config_diff.go:347-395 | the kept lines of any script are a common subsequence of its two sides and so bounded by the table |
| `ConfigDiff.EditScriptIsMinimal` | internal/api/config_diff.go:366-395 | the walk's script has the two texts as its sides, running line numbers, a longest common subsequence as its kept lines and no more changes than any other script |
| `ConfigDiff.ComputeDiffLines` | internal/api/config_diff.go:347-395 | the program's script is that minimal one, for every two line sequences |
| `ConfigDiff.NoChangesIffEqual` | internal/api/config_diff.go:397-404 | a minimal script has no change exactly when the texts are equal |
| `ConfigHunks.BuildHunks` | internal/api/config_diff.go:406-433 | the spans are in bounds, ordered, separated by an uncovered line, and cover a line exactly when it is within `context` of a change |
| `ConfigHunks.CoverDeterminesSpans` | internal/api/config_diff.go:406-433 | separated spans are determined by what they cover, so that description leaves no choice |
| `ConfigHunks.DiffRange` | internal/api/config_diff.go:435-450 | starts are the first line's numbers, at least one; counts are the lengths of the two sides |
| `ConfigHunks.HunksRebuildNewText` | internal/api/config_diff.go:310-450 | for any amount of context, replacing the old lines that each header names by the hunk's lines turns the old text into the new one |
| `UnifiedDiff.SameLinesIffSameText` | internal/api/config_diff.go:339-345 | two contents split into the same lines exactly when they agree up to line endings and one final newline |
| `UnifiedDiff.LinesOfContent` | internal/api/config_diff.go:339-345 | whatever mixture of the two line endings a content has, and with or without one at its end, its lines are the lines |
| `UnifiedDiff.NoLinesInNothing` | internal/api/config_diff.go:339-345 | a content of at most one line ending has no lines |
| `UnifiedDiff.ReadUnifiedOf` | internal/api/config_diff.go:310-337 | a reader of the printed form recovers labels and hunks |
| `UnifiedDiff.HasChanges` | internal/api/config_diff.go:397-404 | true exactly when the script adds or removes a line |
| `UnifiedDiff.BuildUnifiedDiff` | internal/api/config_diff.go:310-337 | the no-difference message exactly for equal texts; otherwise the text prints the minimal script's hunks, reads back, rebuilds the new lines, and every header names its slices of both texts |
| `UnifiedDiff.PrintedTextIsUnique` | internal/api/config_diff.go:310-337 | that description of the printed text leaves no choice |
| `Redaction.IsSensitiveConfigKey` | internal/api/config_diff.go:29-37 | true exactly when one of the seven words, in any letter case, stands in the key |
| `Redaction.SensitiveWordsAreHidden` | internal/api/config_diff.go:14-50 | the value under such a key is shown as the placeholder |
| `Redaction.SanitizeConfig` | internal/api/config_diff.go:39-50 | every entry is replaced by its redaction, whatever the order of the walk |
| `Redaction.SanitizeUntyped` | internal/api/config_diff.go:52-65 | the loops over maps and arrays compute the redaction of the tree |
| `Redaction.RestoreUndoesRedaction` | internal/api/config_diff.go:109-137 | merging the redacted copy back against the original yields the original exactly when no sensitive key holds null |
| `Redaction.NullSecretIsLost` | internal/api/config_diff.go:109-137 | a tree with a null secret does not come back |
| `Redaction.MergeKeepsAndFills` | internal/api/config_diff.go:109-137 | at every path the merge keeps leaves, key sets and array lengths of the incoming tree, fills a placeholder with the current value, and leaves one only where the current tree has nothing or a placeholder |
| `Redaction.MergeAddsOnlyBelowPlaceholders` | internal/api/config_diff.go:109-137 | whatever else the merge holds lies below a placeholder and comes from the current tree |
| `Redaction.RedactionShowsClearPaths` | internal/api/config_diff.go:39-65 | along paths without a sensitive key the redacted tree has the same shape and leaves |
| `Redaction.RedactionHidesSecrets` | internal/api/config_diff.go:39-65 | a path through a sensitive key ends there, at the placeholder |
| `Redaction.RedactEqualIffAgree` | internal/api/config_diff.go:29-65 | two trees redact to the same tree exactly when they agree wherever no key is sensitive |
| `JsonText.ReadOfPrint` | internal/api/config_diff.go:302-303 | a reader of RFC 8259 text gets the tree back from its indented text, at any depth, and stops behind it |
| `JsonText.ReadOfDocumentText` | internal/api/config_diff.go:302-303 | the printed text of a document is JSON that reads back as the document |
| `JsonText.PrintIsUnique` | internal/api/config_diff.go:292-306 | the indented text of a tree determines the tree and where it ends, at any depth |
| `JsonText.DocumentTextIsUnique` | internal/api/config_diff.go:292-306 | two documents print the same text exactly when they are equal |
| `JsonText.Escapes` | internal/api/config_diff.go:302-303 | which characters of a string stand for themselves, and which are written with a letter |
| `JsonText.Layout` | internal/api/config_diff.go:302-303 | one entry to a line, two more blanks for each level |
| `Redaction.SubmitBackUnchanged` | internal/api/config_api.go:370-377 | a shown document submitted back unchanged becomes the stored document exactly when no secret is null |
| `Redaction.DiffConfigDocuments` | internal/api/config_diff.go:292-306 | for every two documents: no difference is reported exactly when they agree off their secrets; else the text is the minimal hunks between the redacted documents, and rebuilds the new redacted one |
| `Redaction.DiffHidesSecrets` | internal/api/config_diff.go:292-337 | documents that agree off their secrets have the same diffs |
| `LogLines.ReadAuditEvents` | internal/api/audit.go:88-111 | the reader's loop finds the records of the full scan, in order |
| `LogLines.RecordsAre` | internal/api/audit.go:88-111 | the records of a file are those of its lines: each one that is not blank, parsed without its outer white space, with the place where it starts |
| `LogLines.AuditLogNames` | internal/api/audit_clickhouse.go:251 | the files that are read are those whose names end in .jsonl or .log |
| `LogLines.ScanGrowsIffSafe` | internal/api/audit.go:88-111 | a grown file still holds all earlier records exactly when a parseable unterminated tail was only extended by blanks up to its newline |
| `LogLines.ResumableGrows` | internal/api/audit_clickhouse.go:281-350 | an offset from which reading may resume stays one while the file grows |
| `ClickHouseIngest.EveryRunIsSound` | internal/api/audit_clickhouse.go:224-350 | over every run of growth, truncation, passes, failed inserts and crashes, stored records are records of the full scan or from before a truncation, and all before an offset are stored |
| `ClickHouseIngest.UnsafeGrowthLeavesAStrayRow` | internal/api/audit_clickhouse.go:281-350 | for every growth outside the condition there is a run from an empty store after which the growth makes a stored record one that no scan finds |
| `ClickHouseIngest.LostRecordLeavesAStrayRow` | internal/api/audit_clickhouse.go:281-350 | the same for every change of a file that loses one of its records |
| `ClickHouseIngest.StrayRow` | internal/api/audit_clickhouse.go:281-350 | a concrete log on which it happens |
| `ClickHouseIngest.ClickHouseStore.InsertBatch` | internal/api/audit_clickhouse.go:353-395 | an insert stores the batch, a failed one any part of it |
| `ClickHouseIngest.ClickHouseStore.SaveOffset` | internal/api/audit_clickhouse.go:421-432 | the offset is stored, or an error leaves either value |
| `ClickHouseIngest.ClickHouseStore.SyncFile` | internal/api/audit_clickhouse.go:281-350 | without error every record from the old offset on is stored and the offset has neither gone back nor past the bytes, stopping before an unterminated line; with an error only records of what was read |
| `ClickHouseIngest.ClickHouseStore.SyncDir` | internal/api/audit_clickhouse.go:224-279 | the pass is a run of the protocol and keeps it sound however it ends; without error it adds exactly the full scan, files cut below their offset included, and then holds nothing else unless something was stored before a truncation |
| `IndexIngest.EveryRunIsSound` | internal/api/audit_store.go:277-360 | over every run of whole-line growth, truncation, passes, failures and restarts the table holds only records of the full scan, or rows from before a truncation, and all records before any offset |
| `IndexIngest.EverythingStored` | internal/api/audit_store.go:277-324 | a sound table that has every file's records has all ids of the full scan, and exactly those when nothing was stored before a truncation |
| `IndexIngest.DistinctIdsMeanExactTable` | internal/api/audit_store.go:362-392 | with distinct ids the rows are the records of the full scan |
| `IndexIngest.CutLosesNothingIff` | internal/api/audit_store.go:326-360 | a pass that advances past an unterminated line loses nothing exactly when the cut is between lines, or before it is already the whole record, or the line holds none |
| `IndexStores.PartialLineIsLost` | internal/api/audit_store.go:326-360 | a record read in two parts is found by neither pass |
| `IndexStores.SqlAuditStore.UpsertEvent` | internal/api/audit_store.go:362-392 | the row of the event's id becomes the event, or an error leaves either |
| `IndexStores.SqlAuditStore.SyncFile` | internal/api/audit_store.go:326-360 | without error all records from the offset are upserted and the offset is the end of the file; with an error only some of those read, and the offset stays |
| `IndexStores.SqlAuditStore.SyncDir` | internal/api/audit_store.go:277-324 | the pass is a run of the protocol and stays sound; without error it adds exactly the full scan's ids, files cut below their offset included |
| `IndexStores.SqlAuditStore.SaveFileOffset` | internal/api/audit_store.go:404-414 | the offset is stored, or an error leaves either value |
| `IndexStores.SearchAuditStore.BulkIndex` | internal/api/audit_search_store.go:253-324 | a bulk request indexes all documents, a failed one any of them |
| `IndexStores.SearchAuditStore.SyncFile` | internal/api/audit_search_store.go:162-214 | the batched loop has the same effect as one upsert of everything behind the offset |
| `IndexStores.SearchAuditStore.SyncDir` | internal/api/audit_search_store.go:120-160 | the pass is a run of the protocol and stays sound; without error it adds exactly the full scan's ids, files cut below their offset included |
| `IndexStores.SearchAuditStore.SaveFileOffset` | internal/api/audit_search_store.go:488-493 | memory takes the offset at once, the state file when the write succeeds |
| `QueueIngest.EveryRunDelivers` | internal/api/audit_queue.go:91-210 | over every run only genuine records are sent, or were sent before a truncation, and every record before an offset has been sent: at least once |
| `QueueIngest.CleanRunsDeliverOnce` | internal/api/audit_queue.go:91-191 | in runs without failure every record before an offset was sent exactly once, in order |
| `QueueIngest.QueueForwarder.PublishBatch` | internal/api/audit_queue.go:193-197 | a publish sends the batch, a failed one only messages of the batch |
| `QueueIngest.QueueForwarder.SyncFile` | internal/api/audit_queue.go:135-191 | without error exactly the records behind the offset are sent, in order; with an error only records that were read |
| `QueueIngest.QueueForwarder.SyncDir` | internal/api/audit_queue.go:91-133 | the pass is a run of the protocol and stays sound; without error every record of every file has been sent, files cut below their offset included, and exactly once if that held before |
| `QueueIngest.QueueForwarder.SaveFileOffset` | internal/api/audit_queue.go:205-210 | memory takes the offset at once, the state file when the write succeeds |
| `IniText.StripInlineComment` | internal/api/config_codec.go:526-549 | the flag-toggling loop leaves all before the first # or ; that no open quote precedes and that starts the value or follows a blank; a quote is open until its like comes |
| `IniReading.CommentIsDropped` | internal/api/config_codec.go:506-549 | behind a value whose quotes are closed, a blank and either mark start a comment |
| `IniReading.NothingIsCut` | internal/api/config_codec.go:526-549 | a value with neither mark is kept whole |
| `IniReading.QuotesAreTakenOff` | internal/api/config_codec.go:506-524 | quotes of either kind are taken off and protect marks and white space |
| `IniReading.KeyIsRead` | internal/api/config_codec.go:506-524 | keys are read in any letter case, with any white space around, up to the first equals sign |
| `IniReading.CommentLineIsIgnored` | internal/api/config_codec.go:255-259 | a line that starts with a mark changes nothing |
| `IniReading.HeaderOfFamily` | internal/api/config_codec.go:492-504 | the word before the colon of a header selects its family in any letter case |
| `IniReading.WordsForTrue` | internal/api/config_codec.go:551-557 | 1, true, yes and on, in any letter case, and nothing else, read as true |
| `IniReading.OnIsPrintedAsFalse` | internal/api/webhook_debug_api.go:179-188 | printing text into such a field takes on for false, unlike reading |
| `IniReading.FractionIsCut` | internal/api/config_codec.go:558-565 | a number with a fraction in an integer field is cut to an integer, other text stays text |
| `IniReading.OtherKinds` | internal/api/config_codec.go:630-682 | what is printed for values that do not have the kind of their field |
| `IniReading.OtherRouteNames` | internal/api/config_codec.go:276-291 | the other names of route keys mean the same |
| `IniReading.OtherPolicyNames` | internal/api/config_codec.go:297-305 | the other names of policy list keys mean the same |
| `IniReading.OtherWindowNames` | internal/api/config_codec.go:306-307 | the other names of the login window mean the same |
| `IniReading.OtherDayNames` | internal/api/config_codec.go:308-311 | the other names of login days and time zone mean the same |
| `IniReading.UnknownKeysAreIgnored` | internal/api/config_codec.go:272-311 | keys that routes and policies do not know change nothing |
| `IniReading.UserKeepsOtherKeys` | internal/api/config_codec.go:312-330 | keys that users do not know are kept as text |
| `IniReading.LastLineCounts` | internal/api/config_codec.go:246-344 | for every text a table field has the value of the last line that names it in its section, that of the last header above, and none when no line does |
| `IniText.UnquotedTextIff` | internal/api/config_codec.go:506-549 | an unquoted text reads as itself exactly when it is unpadded, holds no comment and is not wrapped in quotes |
| `IniText.TextReturnsIff` | internal/api/config_codec.go:652-660 | a text comes back exactly when its printed form hides no comment from the quote-blind scanner and, unquoted, reads as itself |
| `IniText.NoQuoteIsSafe` | internal/api/config_codec.go:652-660 | every text with a newline or an outer space and no double quote comes back |
| `IniQuoting.SimpleIsLawful` | internal/api/config_codec.go:652-660 | the laws asked of the library quoting and number functions can be met |
| `IniText.KeyLineReads` | internal/api/config_codec.go:506-524 | a printed key line, whatever the value, is read as its key and value, and not as comment, blank or header |
| `IniText.HeaderReads` | internal/api/config_codec.go:481-490 | a printed header is read as its trimmed section |
| `IniRoundTrip.ClassifyNamed` | internal/api/config_codec.go:492-504 | the header of a route, policy or user selects that family and the trimmed name |
| `IniRoundTrip.ValueReturnsIff` | internal/api/config_codec.go:551-662 | a value printed and read as any kind comes back exactly when it has that kind and is a safe text, a good list, or text that is no number in a float field |
| `IniRoundTrip.WordsReturnIff` | internal/api/config_codec.go:604-651 | a list comes back exactly when its words are non-empty, trimmed, without comma, and the line reads as itself |
| `IniRoundTrip.TextInIntFieldIsLost` | internal/api/config_codec.go:551-662 | text that is no number is left in an integer field by the parser and printed as zero, digits beyond 64 bits as the nearest number |
| `IniLines.OneLineIff` | internal/api/config_codec.go:551-662 | a value is printed on one line exactly when no word and no unreadable float of it holds a newline; texts always are |
| `IniRoundTrip.SectionsReturn` | internal/api/config_codec.go:346-385 | reading the printed table sections puts at every table key what its field reads from the printed value, for every document |
| `IniObjects.PubkeysReturnIff` | internal/api/config_codec.go:593-602 | public keys come back exactly when they are one non-empty string or a list of at least two, each a safe text |
| `IniFamilies.MfaReturnsIff` | internal/api/config_codec.go:394-408 | a user's mfa_enabled comes back exactly when it is the text true or the text false |
| `IniFamilies.ObjectReturns` | internal/api/config_codec.go:582-591 | the printed block of any object puts its fields, as read, into the entry of its trimmed name, and nothing when no line was printed |
| `IniFamilies.ObjectReturnsIff` | internal/api/config_codec.go:386-479 | an object comes back exactly when it has a trimmed name, another entry, and only entries that come back |
| `IniFamilies.FamilyReturns` | internal/api/config_codec.go:386-479 | reading the printed blocks of any family gives the list that its objects fold to |
| `IniFamilies.FamilyReturnsIff` | internal/api/config_codec.go:386-479 | a list comes back, sorting included, exactly when its objects do and their names strictly increase |
| `IniCodec.ParseIniDocument` | internal/api/config_codec.go:246-344 | the line loop computes the fold of the line step, refusing an over-long line and a text without sections |
| `IniCodec.RenderIniDocument` | internal/api/config_codec.go:346-479 | the buffer ends up with the table sections, then users, routes and policies sorted by name, as blocks separated by blank lines |
| `IniDocuments.ParseOfRender` | internal/api/config_codec.go:246-479 | what parsing makes of any printed document, in normal form or not: an error for a line at the limit, an error when nothing was printed, else the document that its entries read as |
| `IniDocuments.ReturnsIff` | internal/api/config_codec.go:246-479 | a document comes back exactly when it is in normal form: not empty, known keys, fitting values, fitting strictly sorted lists, no line at the limit |
| `IniDocuments.PrintedOnOneLine` | internal/api/config_codec.go:346-479 | a document without a newline in its names, words and unreadable floats prints every entry on one line |
| `IniDocuments.Layout` | internal/api/config_codec.go:346-419 | headers in brackets, keys and values around an equals sign, one blank line between sections, for every section, field, value and user |
| `IniDocuments.NothingPrintedIsRefused` | internal/api/config_codec.go:246-344 | every document that prints nothing is refused |
| `IniDocuments.BareObjectIsLost` | internal/api/config_codec.go:346-479 | a user, route or policy with only a name prints a header and is gone after reading |
| `IniDocuments.ParsedDocumentsHaveForm` | internal/api/config_codec.go:246-344 | whatever the text, a parsed document has only known keys, typed values, non-empty lists and distinct route and policy patterns |
| `IniTable.TableIsGood` | internal/api/config_codec.go:29-131 | the server's 90 fields have lower-case names, distinct in their section, and keys other than those of the three lists |
| `IniTable.JoinedNames` | internal/api/config_codec.go:133-141 | looking a field up by section and key joined with a dot is looking it up by the pair |
| `IniTable.OwnDocumentsReturnIff` | internal/api/config_codec.go:246-479 | the exact round trip for the server's own table |
| `ConfigApproval.EveryRunIsValid` | internal/api/config_approval.go:93-346 | over every interleaving of create, get, list, approve, deny, apply, mark, restart and failing saves: file and memory agree up to an unsaved expiry, times fit statuses, a decision was checked before its expiry, each change has at most one handler |
| `ConfigApproval.AppliedAtMostOnce` | internal/api/config_approval.go:512-566 | in no run are two applies of the same change |
| `ConfigApproval.AppliesOnlyApproved` | internal/api/config_approval.go:512-566 | an apply comes after a saved approval, with the requested payload, while memory and file say approved, and no apply of that change came before |
| `ConfigApproval.StepMoves` | internal/api/config_approval.go:182-303 | a step moves a change only from pending to approved, denied or expired and from approved to applied or failed, and never edits the request; only a restart without a file forgets it |
| `ConfigApproval.FinalStaysFinal` | internal/api/config_approval.go:294-346 | in a store with a file a final status stays, through restarts and failed saves |
| `ConfigApproval.StatusTells` | internal/api/config_approval.go:182-303 | a status says exactly which times are set and in what order, that the check of a decision lay within the lifetime and before its stamp, and whether and how the payload was applied |
| `ConfigApproval.StampMayFollowExpiry` | internal/api/config_approval.go:182-213 | the stamp of a decision itself may lie behind the expiry: a run where it does |
| `ConfigApproval.DeadlineStays` | internal/api/config_approval.go:93-126 | in every run a change keeps the deadline of its creation |
| `ConfigApproval.DecidedInTime` | internal/api/config_approval.go:182-303 | in every run whose requests have that much time, a pending change is approved or denied only at a check no later than creation plus that time, and a later check finds it expired |
| `ConfigApproval.MarkedIsValid` | internal/api/config_approval.go:216-263 | a handler's mark finds its change approved, so it fails only when the save fails |
| `ConfigChangeStore.ChangeStore.constructor` | internal/api/config_approval.go:70-82 | the store starts from the file's records, or empty without a path; a timeout that is not positive becomes a day |
| `ConfigChangeStore.ChangeStore.CreateChange` | internal/api/config_approval.go:93-126 | a request with a requester and a payload is stored as given, created now and expiring after the timeout, or taken out again when the save fails |
| `ConfigChangeStore.ChangeStore.GetChange` | internal/api/config_approval.go:129-142 | returns the change with its expiry taken, ignoring a failed save |
| `ConfigChangeStore.ChangeStore.ListChanges` | internal/api/config_approval.go:145-179 | expires every change that is overdue when the clock is read for it and returns exactly those that match status, requester, approver and creation time, each once, newest first |
| `ConfigChangeStore.ChangeStore.ApproveChange` | internal/api/config_approval.go:182-213 | approves a pending change that is not overdue at the check, with a later stamp, and leaves everything as it was when the save fails |
| `ConfigChangeStore.ChangeStore.MarkApplied` | internal/api/config_approval.go:216-238 | marks an approved change applied, or leaves everything as it was |
| `ConfigChangeStore.ChangeStore.MarkFailed` | internal/api/config_approval.go:241-263 | marks an approved change failed, or leaves everything as it was |
| `ConfigChangeStore.ChangeStore.DenyChange` | internal/api/config_approval.go:266-292 | denies a pending change that is not overdue at the check, with a later stamp, or leaves everything as it was |
| `ConfigChangeStore.ChangeStore.ExpireLocked` | internal/api/config_approval.go:294-303 | expires exactly a pending change past its time |
| `ConfigChangeStore.ChangeStore.SaveLocked` | internal/api/config_approval.go:305-325 | writes the whole map, or nothing without a path or on failure |
| `ConfigApply.ConfigNode.ApplyConfigDocument` | internal/api/config_api.go:386-416 | on success file and running configuration are the new text; on failure the running one is kept, and the file exactly when what was written last equals it |
| `ConfigApply.FileComesBackIff` | internal/api/config_diff.go:215-248 | after a failed reload the file is restored exactly when it existed and a central store that is asked first holds the same text |
| `ConfigApply.SnapshotOrder` | internal/api/config_diff.go:215-248 | the snapshot is the first present of central store, file, desired state and local copy with a central database, and of file, desired state, central store and local copy without |
| `ConfigApply.HandleApprove` | internal/api/config_approval.go:512-566 | approve, apply and mark: a successful answer means applied status, matching file and matching running configuration; the other answers say what was left |
| `ConfigApply.HandlerFollowsProtocol` | internal/api/config_approval.go:512-566 | the handler's three calls are an approve, an apply and a mark of the protocol |
| `DbCluster.NormalizePoolSettings` | internal/api/db_cluster.go:38-68 | every setting in force, given or by default; the pool is never empty, the window never negative, and settings in force are exactly those left alone |
| `DbCluster.SqlDbCluster.MarkWriteObserved` | internal/api/db_cluster.go:209-214 | reads stay on the writer for one window from now |
| `DbCluster.SqlDbCluster.WriteExec` | internal/api/db_cluster.go:160-169 | a successful write, and only that, opens the window |
| `DbCluster.SqlDbCluster.ReadDb` | internal/api/db_cluster.go:216-231 | the writer while the window is open or there is no replica, else the next replica with a 64-bit counter |
| `DbCluster.ReadAfterWrite` | internal/api/db_cluster.go:160-231 | in every run whose replicas lag at most the window every read sees every completed write |
| `DbCluster.LongerLagMissesAWrite` | internal/api/db_cluster.go:160-231 | for every longer lag there is a run with a read that misses a write |
| `DbCluster.SynchronousWriteIsEnabled` | internal/api/db_cluster.go:160-169 | a write that reaches all replicas at once is a step within any lag, none included |
| `DbCluster.RunsSpreadReads` | internal/api/db_cluster.go:216-231 | in every run any n replica reads in a row go once to each of n replicas, whatever comes between, unless the counter wraps among them |
| `DbCluster.RoundRobin` | internal/api/db_cluster.go:228-230 | n counter values before the wrap hit each replica once |
| `DbCluster.EvenAcrossWrapIff` | internal/api/db_cluster.go:228-230 | reads stay even across the wrap exactly when n divides 2^64 |
| `SessionMetadata.SessionMetadataStore.UpsertSnapshot` | internal/api/session_metadata_store.go:255-364 | a committed snapshot gives listed rows their last report, closes the other live rows and keeps the rest; a failed one changes nothing |
| `SessionMetadata.SessionMetadataStore.MarkTerminated` | internal/api/session_metadata_store.go:394-418 | ends exactly the named row, keeping an earlier closing time; a missing row is reported, a blank id ignored, and a failed row count reported although the row has ended |
| `SessionMetadata.EveryRunFits` | internal/api/session_metadata_store.go:255-418 | in every run from an empty table the closing time is set exactly on rows that are neither active nor closing |
| `SessionMetadata.LiveIffReported` | internal/api/session_metadata_store.go:255-418 | after every run the live rows are exactly those that the last snapshot lists as live and that have not ended since |
| `SessionMetadata.StatusTexts` | internal/api/session_metadata_store.go:545-556 | which reported texts mean active, closing and terminated, in any letter case |
| `SessionMetadata.ListedIff` | internal/api/session_metadata_store.go:300-306 | a report lists exactly the trimmed ids of its sessions that are not blank |
| `SessionMetadata.LastOfIs` | internal/api/session_metadata_store.go:300-341 | of sessions with the same id the last one counts |
| `SessionMetadata.RowTells` | internal/api/session_metadata_store.go:255-418 | after every run a row holds the details of its last report; its status, first closing time and last change follow from what ended it since, and a later termination does not move the closing time |
| `SessionMetadata.RowsStay` | internal/api/session_metadata_store.go:343-360 | rows never disappear, and a closed row stays unchanged until its id is named again |
| `SessionMetadata.ClosedBeforeUpdated` | internal/api/session_metadata_store.go:343-418 | with times that do not go back no row is closed after its last update |
| `Servers.MergeManagedServers` | internal/api/servers.go:126-177 | the two loops with their indexes compute the merge, all its entries, sorted by name or else host |
| `Servers.MergeIsValid` | internal/api/servers.go:126-162 | both indexes point at entries throughout, the endpoint index at entries with that endpoint |
| `Servers.EntriesAreFolds` | internal/api/servers.go:126-162 | every report belongs to exactly one entry, and every entry is its configuration, or first report, with exactly its reports folded in order |
| `Servers.SameIdSameEntry` | internal/api/servers.go:145-162 | reports that share an id share an entry |
| `Servers.KeyIff` | internal/api/servers.go:74-76 | the endpoint key tells exactly host, up to letter case, and port |
| `Servers.KnownIds` | internal/api/servers.go:131-162 | the id index knows exactly the ids that were configured or reported |
| `Servers.UnknownIdGoesByEndpoint` | internal/api/servers.go:145-162 | a report without a known id goes to the last entry made with its host and port, and makes a new entry exactly when there is none |
| `Servers.SeedIs` | internal/api/servers.go:126-162 | each entry was made from its configuration or its first report |
| `Servers.ConfiguredIdOwns` | internal/api/servers.go:145-149 | a report of a configured id goes to the last entry configured with that id |
| `Servers.FoldKeeps` | internal/api/servers.go:78-124 | folding, field by field: the first value set counts for what identifies and sizes a server, the last one for status, sessions and check time; health is the last report's, maintenance any one's |
| `Servers.SortIsStable` | internal/api/servers.go:164-174 | the result is sorted, holds the same entries and keeps the order of equal labels |
| `Text.LessIff` | internal/api/servers.go:164-174 | names are ordered by the first byte in which they differ, a shorter one first |
| `Topology.BuildClusterTopology` | internal/api/cluster_topology.go:31-110 | every count is the number of listed nodes it counts, per region and per zone, missing list entries skipped; the name lists are the counted places in order; the last-healthy flags follow |
| `Topology.LastIff` | internal/api/cluster_topology.go:98-107 | a node counts as last exactly when two places are healthy and one would have no healthy node without it |
| `Topology.SamePlaceIff` | internal/api/cluster_topology.go:119-132 | two nodes count for the same zone exactly when region and zone agree, or part of one's region stands in the other's zone |
| `Topology.NoSlashTellsApart` | internal/api/cluster_topology.go:119-132 | zone names without a slash are told apart |
| `Topology.SlashHidesAZone` | internal/api/cluster_topology.go:119-132 | with a slash in a name the last node of a zone may be drained |
| `Topology.SafetyIff` | internal/api/cluster_topology.go:31-110 | where zone names are told apart, safety by places is safety by the regions and zones of the nodes |
| `Topology.AcceptDrain` | internal/api/system.go:157-181 | with unique ids and this node listed as healthy, a drain is accepted exactly when a leader leaves another healthy node and, with two healthy regions or zones of a region, each keeps a healthy node; the refusal names the zone exactly when that is lost |
| `Topology.ReadyForRestart` | internal/api/system.go:73-117 | ready exactly when drained without sessions and, in a cluster, safe to lose |
| `Topology.CountOtherHealthy` | internal/api/system.go:106-111 | positive exactly when another healthy node exists |
| `Automation.ActiveJobs.BeginRun` | internal/api/automation.go:599-610 | claims a job exactly when it is free |
| `Automation.ActiveJobs.EndRun` | internal/api/automation.go:612-619 | frees the job |
| `Automation.ActiveJobs.BeginDueJobs` | internal/api/automation.go:1489-1514 | begins every enabled job with a schedule whose time has come and that is not active, once, and nothing else |
| `Automation.PassFollowsProtocol` | internal/api/automation.go:1489-1514 | what the scheduler's pass begins are steps of the protocol, each successful |
| `Automation.RunStore.Create` | internal/api/automation.go:545-560 | a record that cannot be saved is taken out again |
| `Automation.RunStore.Update` | internal/api/automation.go:562-577 | an update stays in memory even when it cannot be saved |
| `Automation.EveryRunExclusive` | internal/api/automation.go:1489-1525 | in every interleaving, restarts included, a job is active exactly when it has one execution in flight |
| `Automation.OneRunningRecord` | internal/api/automation.go:1527-1608 | from a fresh store, a job of which no restart finds a running record never has two, and has one only while it is active, whatever other jobs left |
| `Automation.LeftoverRecordDoubles` | internal/api/automation.go:1549-1562 | any run that ends in a restart with a running record of a job extends to one with two |
| `Automation.CrashLeavesARecord` | internal/api/automation.go:1549-1562 | such a run exists from a fresh store: a crash while the job runs |
| `Automation.ExecuteJob` | internal/api/automation.go:1516-1608 | the execution is the begin, start, finish and end of the protocol with the outcome it reports; whatever happens the job is free again and no record stays running |
| `Automation.ExecutionIsEnabled` | internal/api/automation.go:1516-1608 | each of those steps is enabled for a free job and a fresh record |
| `Automation.SummarizeRun` | internal/api/automation.go:1610-1636 | completed exactly when all targets completed, failed exactly when none did; counts and finish times are right |

## Left out

- IniDocuments.ReturnsIff: documents whose names, words or unreadable floats hold a newline print an entry on several lines; nothing is claimed for them, nor for numbers outside 64 bits.
- IniText.TextReturnsIff: strings are text; bytes that are not valid UTF-8 are not modelled.
- IniFamilies.FamilyReturns: objects of the same name are printed in the order of the list, which the library's sort does not promise.
- ConfigApply.FileComesBackIff: a write to the configuration file is one step that happens or does not.
- ConfigChangeStore.ChangeStore.SaveLocked: a write of the change file that fails half way is not modelled; it happens as a whole or not at all.
- ConfigApply.HandleApprove: publication to the cluster after the mark is not modelled.
- ConfigApproval.EveryRunIsValid: the clock does not go back and new identifiers are fresh; applies are one at a time.
- DbCluster.ReadAfterWrite: covers single statements; a transaction is noted when it begins, so nothing is claimed for its commit.
- ClickHouseIngest.EveryRunIsSound: rows are a set of records; the table engine's merging of rows with the same sort key is not modelled, nor is a log that is cut short and grows past its old offset before the next pass.
- Automation.ExecuteJob: the update of the job after its run and the audit event are not modelled.
- Servers.MergeManagedServers: reads and writes of the server list's file are not modelled.
- Characters: letter case and white space are those of ASCII, while Go folds and trims Unicode.
- JsonText.ReadOfPrint: numbers are the literal text that the encoder prints; surrogate pairs are not modelled.
- Library functions: quoting and floating-point functions are parameters with their documented laws; YAML is not modelled.
- The record parser of audit lines is an arbitrary partial function; `OwnIdentity` states where each record needs its own identity.
- Masking of configuration text that is not JSON (`sanitizeConfigText`), format detection and the YAML form.
- Sorting and paging of merged audit events, retention, export and backup.
- HTTP handlers, authentication, cluster publication, object storage, message brokers and SQL drivers.
- Access-rule evaluation, just-in-time access, command control, discovery, insights and compliance reports.
