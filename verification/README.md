# The durability layer and the AutoLISP reader, verified

A Dafny model of the parts of this AutoCAD server whose promises only make sense over whole runs: what
survives a process that dies at any step, and what a text that is let through to AutoCAD can do.
`dafny verify dfyconfig.toml` checks all of it.

Where the source updates objects in place the model is a class with the source's fields and loops, and
every method is proved to do to the state what a function says; the theorems are about that function.
Where the source computes a value the model is a datatype and functions. Runs are sequences of worlds,
each the next step of the one before, and a kill is a step, or the end of the run, anywhere.

| modules | what they model |
|---|---|
| `AtomicWrite`, `ConcurrentSaves` | a save (marker, temporary file, check, marker, replace or copy in place), recovery of an interrupted one, and any number of processes doing both |
| `Journal`, `JournalRuns`, `JournalOnce`, `JournalSync`, `JournalTwoServers`, `JournalReplay`, `JournalOutcomes`, `JournalWriteBehind`, `JournalLost`, `JournalStore`, `History` | the operation journal: bounded memory, write-behind queue, shared file, kills, the sweep at open, replay of answers, paged history |
| `LispReader`, `LispTokens`, `LispScanners`, `LispLiterals` | the explicit-stack reader, a grammar for what it reads, where its strings, comments and numbers end, and simpler scanners of the same text |
| `LispWalk`, `LispPlaces`, `LispEval`, `LispSafety`, `LispCheck` | the classification walk, the places of a form and what each needs to run, an evaluator, and what a text that passes can do when it is run |
| `Checkpoints`, `CheckpointWrites`, `CheckpointStores`, `CheckpointBudget` | checkpoint files and their index, evictions, every disk between two writes, runs of adds and kills, the byte budget |
| `UndoRedo`, `UndoLaws`, `UndoRuns`, `UndoRedoEngine` | undo and redo over in-memory steps and stored checkpoints, with saves, transactions, restores, kills and reopens |
| `ChangeSets` | merged change summaries, and the incremental summary against the full difference |
| `Lineage` | which (document id, revision) pairs are issued, over opens, saves, outside changes and kills |
| `Wildcards` | a glob as one AutoCAD wcmatch filter |
| `HandOffs` | the abandoned call's hook, the executor, and the journal's flush thread, in every interleaving |

## Hypotheses

Each is one the source relies on. sha256 is injective, so a digest stands for its bytes. Pids are not reused, and the
test for a live owner never calls one dead; it may take a dead one for alive for as long as it likes. `os.replace` and
the write of a marker or an index are one step each; an in-place copy is one step a byte. Deleting a file does not
fail. The journal's file takes every write. A call is finished `cancelled` only before its worker ran. A lineage's
journal bounds every revision that processes before this one issued above the recorded one, and one process at a time
has its documents open. For undo and redo an open hashes the file it read; so a document is reopened above everything
issued, or at the recorded revision when nothing was issued since, with the recorded drawing. For the revisions
themselves (`Lineage`) this is not supposed. Handles are issued in increasing order and an entity keeps its owner for
one operation. When a checked AutoLISP text runs, no earlier text of the session has bound a name of the read tier.

## Where the code does less than it says

Each with the exact condition, and a run or a disk on which it happens.

- Saving in place (a hard-linked target) and failing with an exception leaves what the copy had written, and
  the cleanup takes the temporary file and marker that could have finished it, though the docstring says the target
  is untouched on any failure (backends/atomic_write.py:370-372 and 420-424). `AtomicWrite.FailedReplaceUntouchedAlwaysIff`:
  it is for every failure exactly if the save is not in place.
- Recovery of one target that meets an `OSError` keeps the marker and then deletes its temporary file as an orphan
  (backends/atomic_write.py:535-546). `AtomicWrite.FailedIff` and `AtomicWrite.AloneFailsIff` say when a marker is left standing,
  `AtomicWrite.BrokenRecoveryTearsForGood` has a target in place that no later recovery mends. A lock error is no `OSError` and
  ends the recovery.
- With two servers alive a cancelled operation id can run twice, because memory is read before the file
  (`JournalTwoServers.TwoServersRunTwice`). `JournalReplay.OnceIffOneAtATime`: one server at a time is exactly what the promise takes.
- A server's own call can lose its row number, and its row then says `running` for good
  (`JournalLost.LostStaysRunning`). `JournalLost.LostIffTooMany`: a server loses one exactly if more than `maxlen` of its writing
  calls were unfinished at once.
- After a kill in the middle of an eviction the byte budget can be overrun: bytes of rows that lost their file are taken off the
  count (`CheckpointWrites.KilledEvictionOverruns`). `CheckpointBudget.BoundHoldsIff` says on which disks the budget binds every
  checkpoint added.
- A reopen can forget that its content was reached by an undo, and the next undo goes forward to what the last one left
  (`UndoRuns.BaseIsLost`), though the module says it does not (backends/ezdxf_checkpoints.py:28-31).
  `UndoRuns.RunReopenKeepsBaseIff`: it remembers exactly if the newest live checkpoint is at the reopened revision and has the
  base, or is not and no undo had led there; and one at the revision has it as long as no earlier reopen of the run forgot.
- With in-memory steps on, an edit after a store undo, undone in memory, leads to the same step forward
  (`UndoRuns.UndoGoesForward`). `UndoRuns.EditUndoneIff`: the two cancel exactly if the newest step is the content and its effective
  revision, which after a store undo it never is (`UndoRuns.StoreUndoIsUnder`).
- An undo and a redo after a rollback bring back what the rollback threw away (`UndoRuns.RollbackUncaps`).
  `UndoRedo.RedosInvertUndos`: redos invert undos exactly from a retraceable document, and `UndoRuns.NextCaps` and
  `UndoRuns.NextMoors` say which steps end that.
- With a limit below one the file's history is empty and the in-memory one has a row; an empty lineage id is no
  lineage in the file and one in memory: `History.HistoriesAgree`.
- An open reads the file and then hashes what is at its path (backends/ezdxf_backend.py:3220-3227). If the file was
  taken away or replaced in between, the record has no hash or that of another drawing, and a later open of other bytes
  goes on at the recorded revision, which then names two drawings (`Lineage.BlindRunTurns`, for either).
  `Lineage.RevisionsTurnIff`: that happens exactly in the runs with a blind open, one that sees no change of the hash, knows
  nothing issued above, and has read another drawing than its revision names. `Lineage.HashedAsReadIsNeeded`: no run that
  starts with an open and is honest from then on has one if and only if that open hashed the drawing it read. A quarantined
  document is dropped without its revision being noted (backends/ezdxf_backend.py:2426-2440), so only the journal bounds it.
- A second `set_on_finish` replaces the first hook, which then never runs: `HandOffs.HookRunsOnce`.
- A handle deleted and added again is in both merged lists, as its comment says (`ChangeSets.RestoredIsInBoth`). `ChangeSets.MergeIsExact`: the merged
  lists are the difference of end and start exactly if no handle of both ends is missing in between.

## Model

| member | source | states |
|---|---|---|
| `AtomicWrite.KillThenRecover` | backends/atomic_write.py:511-547 | killed after any step and recovered, a save leaves its target whole - the old file or the checked new bytes, or, only if earlier interrupted saves of it were waiting, one of theirs - no tmp, no marker, and every other file as it was |
| `AtomicWrite.UncheckedNeverLands` | backends/atomic_write.py:401-407 | and before the check no marker vouches for the bytes: killed there and recovered, the target is the old file, or one of the earlier interrupted saves that were waiting |
| `AtomicWrite.RecoveryIsIdempotent` | backends/atomic_write.py:511-547 | a recovery killed anywhere - between markers, inside an in-place copy, between orphans - and run again ends in the same disk |
| `AtomicWrite.InterruptedResolveAgrees` | backends/atomic_write.py:444-470 | one marker's resolution cut short anywhere and run again ends as it would have |
| `AtomicWrite.ResolveChangesTarget` | backends/atomic_write.py:455-470 | a dead save's target is changed exactly when its verified tmp is there and the target is as the save found it, or the save was in place |
| `AtomicWrite.FailedReplaceUntouchedIff` | backends/atomic_write.py:210-239 | a failed replacement leaves every target as it was if and only if it renames or no try copied a byte |
| `AtomicWrite.FailedReplaceUntouchedAlwaysIff` | backends/atomic_write.py:370-372 | over every failing plan and content a failed replacement leaves the target as it was if and only if the save is not in place |
| `AtomicWrite.FailedIff` | backends/atomic_write.py:523-540 | a marker is left standing if and only if at its turn it would finish its target and every try of the replacement broke |
| `AtomicWrite.AloneFailsIff` | backends/atomic_write.py:523-540 | for a target with one save waiting, that is known from the disk before recovery |
| `AtomicWrite.BrokenRecoveryTearsForGood` | backends/atomic_write.py:535-546 | a disk and a fault after which the target is torn, its tmp swept, and a later recovery only removes the marker |
| `AtomicWrite.ResolveListedIdles` | backends/atomic_write.py:526-544 | a pass over the markers leaves none of a dead process and makes none |
| `AtomicWrite.Disk.AtomicWrite` | backends/atomic_write.py:358-438 | a written save is one whose bytes passed the check, and they are the target; unwritten or unchecked bytes leave the target as it was and are vouched for at no state on the way; which failure is answered, in the order they can happen; every state on the way is one a kill can be recovered from (given the marker, in place), and when it renames has the target old or new, whole; the target, backup, tmp and marker it ends with |
| `AtomicWrite.Disk.TryToSave` | backends/atomic_write.py:400-419 | the steps between the first marker and the cleanup, each safe to be killed after; the answer to each failure, the check among them |
| `AtomicWrite.Disk.Commit` | backends/atomic_write.py:408-418 | second marker, backup and replacement: the answer to each failure and every state on the way |
| `AtomicWrite.Disk.Prepare` | backends/atomic_write.py:408-416 | before the replacement the marker names the checked bytes and the backup holds the old ones |
| `AtomicWrite.Disk.WriteTmp` | backends/atomic_write.py:401-405 | only the tmp changes; if nothing raised it holds all chunks |
| `AtomicWrite.Disk.TakeBackup` | backends/atomic_write.py:413-416 | the backup is the target's bytes or the disk is untouched |
| `AtomicWrite.Disk.CleanUp` | backends/atomic_write.py:420-424 | without a commit the tmp goes, the marker always, nothing else |
| `AtomicWrite.Disk.Replace` | backends/atomic_write.py:210-239 | the verdict of at most four tries, what failed copies leave, and every state on the way |
| `AtomicWrite.VerdictMeans` | backends/atomic_write.py:216-239 | the tries go on while the file is held, the first other one decides, and four held ones are a lock |
| `AtomicWrite.Disk.CopyInto` | backends/atomic_write.py:200-207 | a copy into the target's own file ends with the source's bytes and no source, or, cut short, with a prefix over the old bytes |
| `AtomicWrite.Disk.ResolveMarker` | backends/atomic_write.py:444-470 | one marker: what becomes of marker, tmp and target in terms of their bytes and of no other file, the disk and verdict of its attempt under any faults, and every state on the way |
| `AtomicWrite.Disk.SweepOrphans` | backends/atomic_write.py:482-508 | exactly the tmps of dead writers no resolved marker named are deleted |
| `AtomicWrite.Disk.ResolveMarkers` | backends/atomic_write.py:523-544 | the loop over markers: the disk, exactly the markers left standing, whether a lock error ended it, and that without an error every state on the way recovers to the same end |
| `AtomicWrite.Disk.ResolvePending` | backends/atomic_write.py:511-547 | no step touches a live process's tmp or marker or another target's; the disk and exactly the markers an error leaves standing; their tmps are kept only if no target was given; of a given target no dead writer's tmp is left |
| `ConcurrentSaves.TargetIsAlwaysWhole` | backends/atomic_write.py:358-547 | with any number of savers and recoveries interleaved, each digest a step of its own, killed at any step, from any start with markers of dead processes, the drawing is its first bytes or one save's checked bytes, whole |
| `ConcurrentSaves.DrawingIsChecked` | backends/atomic_write.py:401-418 | that is, its first bytes, bytes that passed before the run, or what some saver's tmp held when its check passed |
| `ConcurrentSaves.LiveSaveUntouched` | backends/atomic_write.py:511-547 | no other process's step touches a live process's tmp or marker |
| `ConcurrentSaves.CheckedSaveLands` | backends/atomic_write.py:405-418 | a live saver's replacement finds its checked tmp and makes it the drawing |
| `JournalOnce.AtMostOnce` | backends/journal_store.py:986-1104 | any servers, at once or not, killed anywhere: executions of a client's mutating request are at most one, plus one for each retirement and cancelled run and two for each run without an answer |
| `JournalOnce.AdmittedHasRoom` | backends/operations.py:340-377 | a mutating request is admitted only if the file or the server's memory says it may run |
| `JournalReplay.AtMostOnceInSuccession` | backends/journal_store.py:986-1104 | one server after another: at most once, plus one for each retirement and each run without an answer, cancelled runs not counting |
| `JournalSync.NextStaysSynced` | backends/journal_store.py:1077-1104 | with one server alive every step keeps its memory of an id saying what the file's row says, and an unfinished call of it that row, running |
| `JournalReplay.OnceIffOneAtATime` | backends/journal_store.py:1077-1104 | that count holds of all runs with at most so many servers alive if and only if that is at most one |
| `JournalTwoServers.TwoServersRunTwice` | backends/journal_store.py:1077-1080 | a run of two live servers in which a cancelled id executes twice |
| `JournalReplay.ReplaysIff` | backends/operations.py:340-365 | a begin of a recorded request is answered as recorded if and only if the server remembers nothing of the id or what the file says; then it changes neither server nor file |
| `JournalReplay.ReplayedForever` | backends/operations.py:340-365 | any number of servers: once an answer is recorded that every live one echoes, no run of it unfinished, until it is retired every later begin of the request by any server then or later returns it and changes neither server nor file, and another request under the id is refused |
| `JournalReplay.SettledIsEchoed` | backends/journal_store.py:1077-1104 | with one server after another every recorded answer is so echoed |
| `JournalReplay.SettledForever` | backends/journal_store.py:732-773 | until it is retired nothing - no sweep, flush, finish or kill of any number of servers - changes a recorded answer that every live server echoes, and all go on echoing it |
| `JournalOutcomes.UnfinishedIsInProgress` | backends/operations.py:340-357 | with one server after another a begin of the same request while its call is unfinished on the live one is refused as in progress, another request as a different one, and nothing changes |
| `JournalOutcomes.KilledNeedsReconcile` | backends/journal_store.py:732-764 | a mutating call's server is killed before it finished: from the next open that finds it dead every begin of the request, by any server, must reconcile, until the row is retired, and another request is a different one |
| `JournalOutcomes.AbandonedForever` | backends/journal_store.py:1077-1104 | such a row stays the dead server's, unfinished or unknown_commit, remembered by no live server, whatever any number of servers opened since do, until it is retired |
| `JournalWriteBehind.FlushedRowsAreFinal` | backends/journal_store.py:1045-1075 | after a flush every finished call of the server has its one row with its own final state, or was retired, or lost its row number and says running |
| `JournalLost.LostIffTooMany` | backends/journal_store.py:1023-1034 | along any run a server has lost a call's row number if and only if at some moment more than `maxlen` of its writing calls were unfinished |
| `JournalLost.OldestIsLost` | backends/journal_store.py:1031-1034 | a call loses its number exactly at a begin of its server that finds `maxlen` unfinished calls with numbers, it the first begun of them |
| `JournalLost.FewUnfinishedAreFinal` | backends/journal_store.py:1045-1075 | so after a flush every finished call of a server that never had too many unfinished has its one row with its own final state, or was retired |
| `JournalLost.LostStaysRunning` | backends/journal_store.py:1023-1034 | a run in which a call committed, its server flushed, and its row says running |
| `JournalWriteBehind.FinalRowsAreTrue` | backends/journal_store.py:732-764 | at every moment a row says committed only if its call finished so; any other end is the call's own, or unknown_commit of a dead server's write |
| `JournalWriteBehind.KillLosesOnlyReads` | backends/journal_store.py:1021-1038 | a writing call's row is there from its begin until it is retired, whatever is killed |
| `JournalWriteBehind.ClientRowsAreTrue` | backends/journal_store.py:1063-1073 | with any servers, a client's row carries a state an answer is replayed from only if a call under its id, by the server the row names, ended in it |
| `JournalRuns.NextKeepsBooks` | backends/journal_store.py:891-1075 | every step keeps file, queue, row numbers and deferred reads consistent with every call of the server |
| `JournalStore.JournalFile.Run` | backends/journal_store.py:911-943 | one statement: an insert under the next row number, an update by number or by client id and owner |
| `JournalStore.JournalFile.Sweep` | backends/journal_store.py:732-764 | exactly the running rows of dead servers become unknown_commit, or cancelled if they only read |
| `JournalStore.JournalFile.Retire` | backends/journal_store.py:766-773 | of the rows past their retention exactly those not running go |
| `JournalStore.DurableJournal.constructor` | backends/journal_store.py:674-730 | an opened journal remembers nothing, over a file whose rows are as swept, those ended and past their retention gone |
| `JournalStore.DurableJournal.Commit` | backends/journal_store.py:911-943 | the queue, if drained, then the statements, in order |
| `JournalStore.DurableJournal.Flush` | backends/journal_store.py:965-969 | the queue in the file and empty |
| `JournalStore.DurableJournal.Find` | backends/journal_store.py:1077-1104 | memory before the file; a dead server's running row reconciled as it is read |
| `JournalStore.DurableJournal.Store` | backends/operations.py:528-537 | the id's record last, the oldest and their answers out |
| `JournalStore.DurableJournal.Check` | backends/operations.py:340-377 | from memory's record, else the file's row as it reads with a dead owner: a different request, in progress, reconcile, the recorded answer, or run, each exactly when it is due; and the row so read is the file's |
| `JournalStore.DurableJournal.Announce` | backends/journal_store.py:1023-1036 | the running row committed with the queue, committed alone with its number noted, or put off |
| `JournalStore.DurableJournal.Begin` | backends/journal_store.py:986-1043 | what the caller is told, likewise, and the server and file after |
| `JournalStore.DurableJournal.Close` | backends/operations.py:379-406 | the record closed and a client's answer kept for replay, unless it was evicted or replaced |
| `JournalStore.DurableJournal.WriteFinal` | backends/journal_store.py:1058-1075 | a client's final state committed before the call returns, any other queued |
| `JournalStore.DurableJournal.Finish` | backends/journal_store.py:1045-1075 | the server and file after a finish |
| `Journal.ExecuteAllAppend` | backends/journal_store.py:928-937 | committing two batches is committing one after the other |
| `History.DurableHistory` | backends/journal_store.py:1212-1298 | whatever is added, finished, swept or retired between pages: newest first, each row one that was asked for as a query showed it, and no row asked for that stayed as it was missed but for the limit; if rows are only added, exactly the first `limit` matching rows of the log as the first query found it; a prefix if the file fails midway; memory's answer if it fails at once |
| `History.RowsAsked` | backends/journal_store.py:1212-1256 | a history holds exactly the rows of the document or lineage, ended, of the tool, label and later numbers asked for, not skipped, that pass the text tests |
| `History.PageEnds` | backends/journal_store.py:1260-1298 | the rows past a page are exactly the rows below its last row's number |
| `History.Gather` | backends/journal_store.py:1300-1310 | the page's rows that pass, up to the limit |
| `History.MemoryHistory` | backends/operations.py:439-476 | the newest matching records, up to the limit, a first match always |
| `History.HistoriesAgree` | backends/operations.py:439-476 | over every log file and memory give one history if and only if the limit is at least one and the lineage asked for is not empty |
| `History.EmptyLineageDiffers` | backends/operations.py:540-543 | a record of an empty lineage is in the in-memory history and not in the file's |
| `LispReader.ReadsExactly` | security_lisp.py:429-547 | a text reads to these forms if and only if the recursive grammar spells it as them |
| `LispReader.ReadsOneWay` | security_lisp.py:429-547 | the grammar spells a text as at most one forest |
| `LispReader.ReadForms` | security_lisp.py:429-547 | the loop over the frame stack gives the forms the grammar gives, or refuses what it does not spell |
| `LispReader.RunDatum` | security_lisp.py:447-458 | reading a datum the grammar spells hands exactly it to the frame waiting, whatever the stack |
| `LispReader.RunSpells` | security_lisp.py:459-547 | whatever the loop accepts, from any stack of open lists, the grammar spells |
| `LispTokens.StringEndsAt` | security_lisp.py:511-522 | a string ends at its first quote after an even number of backslashes, and is open without one |
| `LispTokens.CommentEndsAt` | security_lisp.py:463-479 | a block comment ends after its first closing mark, another after its line, and is open without one |
| `LispTokens.NumberIff` | security_lisp.py:342-342 | a token is a number if and only if it is a sign or none, digits with at most one dot, and an exponent or none |
| `LispScanners.SpansNest` | security_lisp.py:429-547 | siblings are ordered and disjoint, and every span lies inside its parent's |
| `LispScanners.WrappedReads` | security_lisp.py:429-547 | a readable text in parentheses reads to one list of exactly its forms, one to the right |
| `LispScanners.ParenthesesBalance` | security_lisp.py:480-490 | a scanner that knows strings and no comments finds a readable text balanced and never negative |
| `LispLiterals.BlankedAt` | security.py:508-517 | blanking keeps every offset: exactly the characters inside literals are blank |
| `LispLiterals.LiteralsAreStrings` | security.py:455-517 | the denylist's literals are exactly the reader's strings, at their offsets, if and only if no string holds a backslash before a newline |
| `LispWalk.NoLoopIsRead` | security_lisp.py:346-365 | while, repeat and defun are not of the read tier |
| `LispWalk.Walk.Code` | security_lisp.py:608-667 | the walk of a form adds exactly its findings and approved spans, those of its places in order |
| `LispPlaces.CodeWalked` | security_lisp.py:608-667 | what the walk adds for a form is, in order, what each of its places adds: the arguments of every call, refused ones too, bodies, clauses, values, functions named or written out, quoted data, names bound |
| `LispPlaces.FormsFree` | security_lisp.py:608-835 | the walk finds nothing that no tier runs, or nothing at all, if and only if no place of the forms, however deep, needs it; how far the walk went does not matter |
| `LispPlaces.FormsApproved` | security_lisp.py:595-597 | in forms of the read tier the approved spans are exactly the tokens their places are known by |
| `LispPlaces.SsgetModeIs` | security_lisp.py:826-826 | an ssget mode is the literal without blanks around it and underscores before it, in capitals |
| `LispWalk.Walk.Special` | security_lisp.py:773-819 | the special forms, arity checks and bindings among them |
| `LispWalk.Walk.Lambda` | security_lisp.py:755-771 | a lambda's parameters as bindings and its body as code |
| `LispWalk.Walk.FunctionValue` | security_lisp.py:723-735 | a higher-order function's function argument, a literal or refused |
| `LispWalk.Walk.FunctionReference` | security_lisp.py:737-753 | a function named or written out |
| `LispWalk.Walk.Target` | security_lisp.py:702-721 | a symbol bound |
| `LispWalk.Walk.Value` | security_lisp.py:673-685 | a symbol evaluated |
| `LispWalk.Walk.Data` | security_lisp.py:687-700 | quoted data |
| `LispWalk.Walk.Ssget` | security_lisp.py:821-835 | ssget by its literal mode |
| `LispSafety.ReadTierIsSafe` | security_lisp.py:27-30 | a form the walk finds nothing in ends with no more fuel than its height, calls only the read tier and rebinds none of it |
| `LispSafety.LiteralResolves` | security_lisp.py:723-753 | an approved function argument evaluates, in any such environment, to an approved function |
| `LispSafety.ApplySafe` | security_lisp.py:737-771 | and calling it, with any arguments, is as safe |
| `LispSafety.RoundsSafe` | security_lisp.py:623-650 | and so is any number of calls a higher-order function makes of it |
| `LispSafety.LoopsRunForever` | security_lisp.py:27-30 | a loop, which the walk refuses, does not end on any fuel |
| `LispCheck.Assess` | security_lisp.py:879-893 | the tier is never if and only if some place of the forms is one no tier runs, and read if and only if every place is; unread means the grammar does not spell the text |
| `LispCheck.CodeTokened` | security_lisp.py:595-597 | every approved span is one whole symbol token of the text |
| `LispCheck.CheckExpression` | security_lisp.py:992-1089 | what passes under each policy; under the read tier a text passes if and only if it reads to forms of which no place is one no tier runs, and either there is no denylist match, or every place is of the read tier and every match lies in the token of a name at one of them; so no name that no tier runs is called, evaluated, quoted, bound or passed anywhere in a text that passes |
| `LispCheck.PassedTextRunsSafely` | security_lisp.py:879-893 | forms whose every place is of the read tier, evaluated in turn, end by their heights calling only the read tier |
| `CheckpointWrites.RowsNeverTurn` | backends/checkpoints.py:309-319 | along any run of adds, completed or killed after any of their writes, a row once indexed reads as exactly the drawing stored for it, or is refused |
| `CheckpointWrites.AddSafe` | backends/checkpoints.py:220-286 | every disk between the writes of an add is sound and keeps the rows before it, and the last is the completed add's |
| `Checkpoints.AddKeepsTheNewest` | backends/checkpoints.py:220-286 | after an add the new row is live and reads as what was added, with its revision and base, at most max(1, keep) others are live besides S0, the lineage is within its byte cap or the new row is all that has bytes, and only older rows than those kept went, in every lineage |
| `Checkpoints.AddEvictsIff` | backends/checkpoints.py:335-433 | and exactly which rows went: of its lineage those beyond the newest so many, S0 apart, and beyond the newest so many bytes of what is left; of what is then there, in any lineage, those with which, and without all older ones, the files are still over the budget |
| `Checkpoints.AddEvictsOnlyOver` | backends/checkpoints.py:335-433 | so a row goes only if the count was over, the lineage over its byte cap, or the disk over the budget, and S0 never for the count |
| `Checkpoints.AddedFiles` | backends/checkpoints.py:328-333 | the files left are those that were there and the new one, but for those of rows left evicted |
| `Checkpoints.LineageEvictsIff` | backends/checkpoints.py:335-354 | the two passes over a lineage evict exactly the rows beyond the newest so many and the newest so many bytes |
| `Checkpoints.BudgetEvictsIff` | backends/checkpoints.py:409-433 | the pass over the lineages evicts exactly the rows still needed to come down to the budget |
| `Checkpoints.AddedBytes` | backends/checkpoints.py:409-433 | the bytes on disk after any add: the budget and the phantoms' bytes, or the new checkpoint and the stray files |
| `Checkpoints.AddStaysInBudget` | backends/checkpoints.py:409-433 | from a disk no kill left torn, the budget or the new checkpoint |
| `CheckpointWrites.KilledEvictionOverruns` | backends/checkpoints.py:328-333 | a run from a whole store: an add killed between an eviction's unlink and its index, and a completed add that ends over the budget |
| `CheckpointBudget.BoundHoldsIff` | backends/checkpoints.py:409-433 | every add to a disk ends within the budget or with the new checkpoint alone if and only if no stray file has bytes and every row without its file is newer than all that is on disk, in one lineage |
| `CheckpointBudget.HarmlessStaysInBudget` | backends/checkpoints.py:409-433 | on such a disk evicting a row without its file takes nothing off the disk only once nothing is left to take |
| `CheckpointBudget.PhantomOverruns` | backends/checkpoints.py:417-431 | on any other with such a row there is a budget that stops the eviction one byte too early |
| `Checkpoints.ByCountKeeps` | backends/checkpoints.py:335-345 | eviction by count goes oldest first and leaves at most so many |
| `Checkpoints.BySizeKeeps` | backends/checkpoints.py:346-354 | eviction by size goes oldest first and ends under the cap or with the new row alone |
| `CheckpointStores.CheckpointStore.constructor` | backends/checkpoints.py:180-184 | a process that finds any disk, as a kill left it |
| `CheckpointStores.CheckpointStore.Add` | backends/checkpoints.py:220-286 | the disk and row of an add, and exactly which disks there are between its writes; the row live and read back, the lineage within its caps |
| `CheckpointStores.CheckpointStore.EvictLineage` | backends/checkpoints.py:335-354 | the lineage's evictions by count and by size, the files going one by one: exactly the rows beyond the newest so many and the newest so many bytes of those |
| `CheckpointStores.CheckpointStore.EvictBudget` | backends/checkpoints.py:409-433 | the evictions lineage by lineage, each index written after its files went, and the disks between |
| `CheckpointStores.CheckpointStore.TotalBytes` | backends/checkpoints.py:356-382 | the bytes on disk |
| `UndoRuns.RunIsOk` | backends/ezdxf_checkpoints.py:79-394 | every document a run comes to - edits, saves, labels, transactions, undo, redo, restores, other drawings' evictions, kills and reopens - is consistent |
| `UndoRuns.NextMoors` | backends/ezdxf_checkpoints.py:299-334 | every step keeps the rows and open transactions at the revision undone from one place, if and only if it is no reopen that loses the base |
| `UndoRuns.NextCaps` | backends/ezdxf_backend.py:9581-9615 | every step keeps the newest in-memory step the content, if and only if it is no rollback from under it |
| `UndoRuns.RunUndosRunOut` | backends/ezdxf_checkpoints.py:415-485 | wherever a run has come to, the store can be stepped back no more often than the effective revision |
| `UndoRuns.RunRedosInvertUndos` | backends/ezdxf_backend.py:5599-5658 | and any number of undos is taken back by as many redos, over in-memory steps and store, unless such a reopen or rollback came before |
| `UndoRuns.RunReopenKeepsBaseIff` | backends/ezdxf_checkpoints.py:299-334 | killed and reopened at its recorded revision a document is undone from the same place if and only if the newest live checkpoint, when at that revision, has its base, and otherwise no undo had led there; while no earlier reopen lost the base, one at the revision has it |
| `UndoRuns.BaseIsLost` | backends/ezdxf_checkpoints.py:313-323 | a run with a reopen after which the undo goes forward to what the undo before had left |
| `UndoRuns.EditUndoneIff` | backends/ezdxf_backend.py:5757-5763 | an edit and its in-memory undo are back at content and effective revision if and only if the newest step had been both |
| `UndoRuns.StoreUndoIsUnder` | backends/ezdxf_checkpoints.py:396-413 | after a store undo the newest step's revision is above the effective one |
| `UndoRuns.UndoGoesForward` | backends/ezdxf_backend.py:5599-5632 | so a run in which an undo goes forward |
| `UndoRuns.RollbackUncaps` | backends/ezdxf_backend.py:9581-9615 | a run in which an undo and a redo after a rollback bring back what it threw away |
| `UndoRedo.UndosRunOut` | backends/ezdxf_checkpoints.py:415-485 | no document can be undone from the store more often than its effective revision, whatever is evicted between |
| `UndoRedo.UndoneConsistent` | backends/ezdxf_checkpoints.py:415-485 | each store undo strictly lowers the effective revision, keeps the document consistent and leaves no row at the new revision undone from elsewhere |
| `UndoRedo.SaveThenReopen` | backends/ezdxf_checkpoints.py:299-365 | saved, killed and reopened a document has its content, revision and rows, and is undone from the same place if and only if the newest live row, when at the revision, said so |
| `UndoRedo.RedosInvertUndos` | backends/ezdxf_backend.py:5599-5658 | with no edit and no eviction between, n redos after n undos succeed, across in-memory steps and store, and restore content, effective revision and both redo branches if and only if the start was retraceable |
| `UndoRedo.RedoInverts` | backends/ezdxf_checkpoints.py:506-541 | a store redo undoes a store undo, from any document later steps came back to, if and only if the row it took for the content was undone from the same place |
| `UndoRedo.StepRedoInverts` | backends/ezdxf_backend.py:5634-5658 | an in-memory redo undoes an in-memory undo if and only if the newest step was the content |
| `UndoRedo.RolledBackConsistent` | backends/ezdxf_backend.py:9581-9615 | a rollback is the begun drawing at a new revision, undone from where the begin was |
| `UndoRedo.SavedConsistent` | backends/ezdxf_checkpoints.py:336-365 | a save keeps content and effective revision, and the newest live row is then at the revision |
| `UndoRedo.OpenedConsistent` | backends/ezdxf_checkpoints.py:299-334 | any open, continued or not, over any rows that name no revision above its own; the base it takes up |
| `UndoRedo.RestoredConsistent` | backends/ezdxf_checkpoints.py:589-650 | a restore captures the current content first and starts a new effective revision |
| `UndoRedo.LabelledConsistent` | backends/ezdxf_checkpoints.py:543-568 | a label is a row of the current content and moves nothing |
| `UndoRedo.RedoneConsistent` | backends/ezdxf_checkpoints.py:506-541 | a redo keeps the document consistent |
| `UndoLaws.UndoTarget` | backends/ezdxf_checkpoints.py:415-485 | a store undo goes to the live row below the effective revision, no pre_undo and not the current content, of the greatest revision, the newest of those; to its drawing and base at a new revision, the content left in a live row on top of the redo branch; and there is nothing to undo exactly when there is no such row |
| `UndoLaws.RedoTarget` | backends/ezdxf_checkpoints.py:506-541 | a store redo goes to the row on top of the branch exactly if no later change made the branch stale and the row is live, and hands back the steps set aside |
| `UndoLaws.RestoreTarget` | backends/ezdxf_checkpoints.py:589-650 | a restore goes to the row named at a revision undone from itself, with no branch to redo, the content before in a live row |
| `UndoLaws.CaptureAddsIff` | backends/ezdxf_checkpoints.py:382-394 | capturing the content adds one row of it exactly if no live row is of its revision |
| `UndoLaws.SaveAddsIff` | backends/ezdxf_checkpoints.py:336-365 | a save notes the digest and adds one row of the content exactly if the newest live row is not of its revision |
| `UndoLaws.OpenAddsIff` | backends/ezdxf_checkpoints.py:299-334 | an open adds a row of what it read exactly if it does not go on from the newest live one, whose base it takes up if that is at its revision |
| `UndoLaws.LabelAdds` | backends/ezdxf_checkpoints.py:543-568 | a label adds one row of the current content and nothing else |
| `UndoLaws.CommitAdds` | backends/ezdxf_backend.py:9561-9579 | a commit adds one row of the begin's drawing, and nothing else of the document changes |
| `UndoLaws.RollbackAdds` | backends/ezdxf_backend.py:9581-9615 | a rollback adds that row too, goes to its drawing at a new revision and keeps the in-memory steps |
| `UndoLaws.EditPushes` | backends/ezdxf_backend.py:5728-5749 | an edit is the newest of at most depth + 1 steps, the oldest gone, and nothing is left to redo in memory |
| `UndoLaws.StepBackIs` | backends/ezdxf_backend.py:5599-5632 | an in-memory undo goes to the step below the newest, undone from its revision |
| `UndoRedoEngine.EzdxfCheckpoints.UndoSync` | backends/ezdxf_checkpoints.py:415-485 | the store undo, of a consistent document to the row an undo must go to; or none, exactly when there is no such row, and a stale redo branch dropped |
| `UndoRedoEngine.EzdxfCheckpoints.RedoSync` | backends/ezdxf_checkpoints.py:506-541 | the store redo, to the row on top of a branch that is not stale, or none |
| `UndoRedoEngine.EzdxfCheckpoints.CaptureCurrent` | backends/ezdxf_checkpoints.py:382-394 | the row of the current revision, added if none holds it |
| `UndoRedoEngine.EzdxfCheckpoints.ReplaceDocument` | backends/ezdxf_checkpoints.py:396-413 | the document becomes the row's, at a new revision, in-memory steps gone |
| `UndoRedoEngine.EzdxfCheckpoints.BestCandidate` | backends/ezdxf_checkpoints.py:415-447 | the row an undo must go to, and none exactly when no row may be gone to |
| `UndoRedoEngine.EzdxfCheckpoints.RedoStack` | backends/ezdxf_checkpoints.py:487-499 | the redo branch unless a later change made it stale |
| `UndoRedoEngine.EzdxfCheckpoints.MarkDirty` | backends/ezdxf_backend.py:5692-5695 | an edit: a new revision, a step, the redo branch gone; a consistent document stays so |
| `UndoRedoEngine.EzdxfCheckpoints.PushSnapshot` | backends/ezdxf_backend.py:5728-5749 | at most depth + 1 steps, the oldest out |
| `UndoRedoEngine.EzdxfCheckpoints.DrawingUndo` | backends/ezdxf_backend.py:5599-5632 | in-memory steps first, then the store |
| `UndoRedoEngine.EzdxfCheckpoints.DrawingRedo` | backends/ezdxf_backend.py:5634-5658 | the in-memory branch first, then the store |
| `UndoRedoEngine.EzdxfCheckpoints.UndoEverything` | backends/ezdxf_backend.py:5599-5632 | repeated undo ends, with no in-memory step and no row left that an undo may go to |
| `UndoRedoEngine.EzdxfCheckpoints.TransactionBegin` | backends/ezdxf_backend.py:9532-9559 | the drawing, its revision and its base remembered, at most so many, the oldest out |
| `UndoRedoEngine.EzdxfCheckpoints.TransactionCommit` | backends/ezdxf_backend.py:9561-9579 | the begin's snapshot becomes a row, nothing else moves |
| `UndoRedoEngine.EzdxfCheckpoints.TransactionRollback` | backends/ezdxf_backend.py:9581-9615 | the document rolled back, or nothing without a transaction |
| `UndoRedoEngine.EzdxfCheckpoints.OnSave` | backends/ezdxf_checkpoints.py:336-365 | the document after a save: the content in a row, one added if the newest live one is not of its revision |
| `UndoRedoEngine.EzdxfCheckpoints.Restore` | backends/ezdxf_checkpoints.py:589-650 | the document after a restore in place: the row's drawing, the content before it in a live row |
| `ChangeSets.MergeFollows` | backends/change_sets.py:142-176 | for summaries of S0 to Sn: Sn is S0 less the merged deleted plus the merged added, handles added again among them |
| `ChangeSets.MergeIsExact` | backends/change_sets.py:142-176 | the merged sets are exactly Sn - S0 and S0 - Sn if and only if no handle of both ends is missing in between |
| `ChangeSets.RestoredIsInBoth` | backends/change_sets.py:160-167 | a handle deleted and added again is in both |
| `ChangeSets.MergeChanges` | backends/change_sets.py:142-176 | for any summaries, the loop computes those sets, of which the lists show the first fifty, the sums of the counts of each owner, and the first feature tokens in the order they stand, up to twenty; none without parts; complete exactly when every part is, untruncated |
| `ChangeSets.MergeOne` | backends/change_sets.py:160-167 | one part's deletions, then its additions; a handle added before is deleted only if the part lists it twice |
| `ChangeSets.MissingAreDeleted` | backends/change_sets.py:339-340 | before + added - after is exactly the number deleted |
| `ChangeSets.EzdxfChangeSets.Summarize` | backends/change_sets.py:295-318 | no summary without a map; an empty incomplete one when another document or none is there; else the full difference, and the map the document's |
| `ChangeSets.EzdxfChangeSets.ChangeSummary` | backends/change_sets.py:304-350 | with deletions looked for only when something is missing, the summary is the full difference, the feature tokens those of what was added, and the cached owner map exact |
| `ChangeSets.EzdxfChangeSets.ChangeReplaced` | backends/change_sets.py:352-370 | for a document replaced as a whole the summary is the full difference and the cached map the new one |
| `ChangeSets.EzdxfChangeSets.WalkIssued` | backends/change_sets.py:322-337 | the handles issued since the mark that are alive, listed, counted and in the map, and the feature tokens of those listed |
| `ChangeSets.EzdxfChangeSets.DropDead` | backends/change_sets.py:340-347 | the dead handles out of the map, listed and counted |
| `ChangeSets.FinishedShows` | backends/change_sets.py:113-134 | a summary shows the first fifty of each list and how many more there are, and the counts that count something |
| `ChangeSets.FeaturesAreFirst` | backends/change_sets.py:84-106 | its features are tokens, each once, in the order they first stand, and all of them or twenty that stand before any other |
| `Lineage.RevisionsTurnIff` | backends/lineage.py:95-156 | over any run of opens - the file taken away or replaced between read and hash, or not -, recoveries, edits, saves, missed and lost records, outside changes, closes and kills every (document id, revision) once issued names one drawing for good if and only if no open is blind |
| `Lineage.HashedAsReadIsNeeded` | backends/ezdxf_backend.py:3220-3227 | every run that starts with this open and hashes what it reads from then on keeps its revisions if and only if this open hashed the drawing it read |
| `Lineage.RevisionsNeverTurn` | backends/lineage.py:95-156 | so in every run whose opens hash the drawing they read |
| `Lineage.BlindRunTurns` | backends/ezdxf_backend.py:3220-3264 | for a file taken away and for one replaced between read and hash: a run in which one revision comes to name two drawings |
| `Lineage.OpenIdsDiffer` | backends/ezdxf_backend.py:2294-2300 | no two open documents share an id, and each one's revision names its drawing |
| `Lineage.ContinuesAbove` | backends/lineage.py:95-156 | a continued revision is above everything known issued, or is the recorded one with the recorded bytes |
| `Lineage.ResolvesTo` | backends/lineage.py:95-156 | an open continues the recorded document exactly if that has an id and is open nowhere else, at the least revision not below the record, above it if the bytes changed and above what is known issued if that is; else it starts anew with the recorded lineage for its parent |
| `Lineage.ContinuesAtRecordedIff` | backends/lineage.py:133-155 | an open goes on at the recorded revision if and only if the hashes agree or one is missing, and nothing higher is known issued |
| `Lineage.UnhashedChangeIsMissed` | backends/lineage.py:133-155 | changed bytes go on at the recorded revision if and only if one of the hashes is missing and nothing higher is known issued |
| `Lineage.NextKeeps` | backends/ezdxf_backend.py:2231-2340 | every step keeps what names, records and open documents say of each other, and every name what it was if and only if it is no blind open |
| `Wildcards.TranslationKeepsMeaning` | backends/set_edits.py:106-134 | for every list of patterns, every name and every case folding the wcmatch filter accepts exactly what the glob matches |
| `Wildcards.JoinedReads` | backends/set_edits.py:126-134 | the filter's alternatives are exactly the escaped patterns, commas in them and all |
| `Wildcards.EscapedReads` | backends/set_edits.py:121-134 | an escaped pattern reads as its own characters and its * and ?, and never as a negation |
| `Wildcards.EscapeIsNeeded` | backends/set_edits.py:121-134 | unescaped, A.B accepts a name the glob does not |
| `HandOffs.HookRunsOnce` | backends/quarantine.py:131-159 | in every interleaving a hook's work is done at most once, and in the end exactly once unless a later hook replaced it |
| `HandOffs.JobsInOrder` | backends/quarantine.py:202-242 | jobs are taken in the order submitted and each runs exactly once unless it was cancelled before; with one worker in that order, one at a time |
| `HandOffs.NoJobIsStranded` | backends/quarantine.py:202-261 | while a job is queued there are workers, none has ended, and each can step |
| `HandOffs.QueueIsFlushed` | backends/journal_store.py:945-969 | whenever writes are queued and no caller is inside the enqueue, the flush thread alone, or a close under way, has them committed within four steps |
| `HandOffs.FlushRunAwake` | backends/journal_store.py:945-969 | no wake-up is lost: a queue means the wake is set, a flush is coming or a caller is about to set it |

## Left out

- ConcurrentSaves.TargetIsAlwaysWhole: rename mode only; two processes copying into one hard-linked target at once is not promised.
- LispSafety.ReadTierIsSafe: the evaluator is this model's reading of AutoLISP; what a builtin answers is any function, AutoCAD itself is not modelled.
- LispCheck.CheckExpression: the denylist's pattern is a parameter, matched against a name and against a text; refusal wording and positions are not modelled.
- LispReader.ReadsExactly: letters and digits are ASCII, and an unreadable text is refused without its reason and exact place.
- History.DurableHistory: the text searches `query` and `handle` and the caller's `skip` are parameters.
- Lineage.RevisionsTurnIff: that the journal bounds what earlier processes issued is a hypothesis.
- UndoRedo.RedosInvertUndos: an eviction between may take the row a redo needs, which the source then refuses.
- UndoRuns.RunIsOk: an opened file is hashed as it was read, and a snapshot that cannot be written or read is not modelled.
- ChangeSets.EzdxfChangeSets.ChangeSummary: which tokens an entity's payloads give is a parameter.
- HandOffs.JobsInOrder: how many threads an unlimited executor starts is not promised.
- The journal's degraded mode after the file fails, its settings, its stored text forms, and `get`, `recent`, `labels`, `lost_since_save`, `max_revision`.
- The check of a written drawing: a parameter, any predicate of the bytes.
- Scratch files of marker and index writes, fsync, file modes and the state folder.
- An unreadable checkpoint index, parsing of checkpoint references, listings, and restoring into a new document.
- Re-anchoring S0 after a new drawing's bootstrap.
- Two processes recovering or writing one checkpoint index at the same instant, and pid reuse.
- The live AutoCAD engine, DXF parsing, rendering, message filters, policies and the server's tools.
