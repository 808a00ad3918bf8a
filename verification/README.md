# SpawnPoint, modelled and proved in Dafny

SpawnPoint is a server that runs registered commands, keeps their output in rotated logs, serves those logs to polling
readers, issues instance identifiers and migrates its own database. This project models those parts and proves what they
promise. Every file belongs to one component:

- **Reading logs.** `Utf8` states the byte grammar and the encoding of RFC 3629 (sections 3 and 4) and shows that the
  hand-written lead, continuation and partial-tail tables refine it; `PrefixCodes` holds what is true of every such code.
  `TextDecoder` has the decoding loops, for UTF-8 and for Windows code pages. `LogReader` is one request, `LogPolling` is
  whole runs of "the child appends, a reader polls".
- **Running commands.** `Entry` is the live half of one entry. `Protocol` cuts the manager's operations, the watchers and
  the processes into atomic steps at the lock boundaries; `ProtocolSafety` is the invariant of every step and
  `ProtocolRuns` what it means for whole runs. `StopRuns` follows one stop or start from its first step to its last.
  `FirstStart` is the one start that takes no operation lock. `Handshake` composes many entries with the auto-start and
  the shutdown, and `AutoStarting` says what the auto-start does when nothing cuts it short.
  `LockOrder` proves that threads which take locks in order and wait downwards never come to a standstill,
  `ManagerLocks` that all of the manager's operations are such threads, and `ManagerSections` what they do inside their
  locks and how often.
- **Keeping logs.** `LogRotation` is the collector on a file system whose operations may fail. `LogFollowing` puts a
  polling reader on the file it rotates.
- **Migrating.** `SqlLexing` is the token structure of a script, `SqlStates` an independent character automaton,
  `SqlSplitter` the two scanners of the source and `SqlCoverage` how far the startup check, which uses the one, covers
  what is executed, which the other cuts. `SqlVisible` and `SqlMarkers` say by the script's characters alone which
  pieces are executable and which words are markers. `Migrations` applies scripts in transactions and checks them at
  startup.
- **Issuing.** `Instances`, `Issuer`, `IssueInterleavings`, `IssueOutcomes` and `IssueSpacing` are identifiers, the retry
  loop, its interleavings, what each call is answered and when they respect the deduplication window; `Ordering` and
  `StorageTime` say what the stored timestamps spell and what comparing them as strings means.
- **Starting a child.** `EnvMerge` builds the environment block, `ChildEnv` says which lines are in it.

Conventions. A Go string or byte slice is a sequence of bytes where the bytes matter and of characters where the source
works on runes. Clocks, randomness, timeouts and failures are inputs of a step, or left open. Concurrency is a state
machine over atomic steps; what a lock protects is one step. Where the source loops, a method with the same loop is proved
equal to a specification function, and the promises are lemmas about that function.

Some promises turned out to have limits. They are stated as theorems too:

- The two scanners read a script alike exactly when no block comment opens with the three characters `/*/` before the
  end of the script. What the startup check needs is less: that every semicolon at which the splitter cuts is one the
  stripper, too, reads outside quotes and comments. Then the check covers everything that is executed. This is one way
  only, since where a separator is not shared there may be nothing to find. What is exact is where the check looks: a
  BEGIN written at the start of a statement is always executed, and a script that passed without it is refused if and
  only if the separator in front of that statement is shared. `/*/;BEGIN*/` passes and executes a compound statement.
- The rows of one key stay the window apart over an interleaving exactly when every insert finds no live row of its key.
  That is so whenever calls with one key do not overlap between lookup and insert, whatever the other calls do; two that
  do overlap can both be answered with a fresh instance.
- The first start of a new registration takes no operation lock. It makes the entry lose track of a process, at once or
  in some later state, exactly when it finds a live one running, or starts one while a stop is under way or a restart is
  past its stop. And it leaves its own process running on an entry that is gone from the manager, where no later
  operation can find it, exactly when the entry was deleted before or a delete is past its stop. All four happen.
- A deleted entry can be started again exactly when its first start is yet to come, or a run or a restart had found it
  before it was removed.
- A reader that echoes its offset is reset after a rotation exactly when the new file is still shorter than the offset.
  Reset or not, it misses whatever of the old file it had not read, and all that the new file holds in front of the
  position where its answer starts.
- A stop that times out still reports the entry as stopped. Its watcher may write the exit code later, even onto a start
  that failed meanwhile: exactly the watcher of the run before can do it, and only after such a stop. A failed entry can
  still get a code exactly when that watcher has not recorded yet. Field claims are for generations without one.
- A final rename that fails loses no output of the live log, but every attempt still drops the oldest archive: as many
  failures in a row as there are archives leave none.
- Stored timestamps compare as instants up to the end of year 9999 and not one millisecond further.

## Model

| member | source | states |
|---|---|---|
| Utf8.CharIffEncoding | internal/textdec/textdec.go:188-235 | the grammar of RFC 3629 section 4 accepts exactly the encodings of scalar values of section 3 |
| Utf8.TablesRefineGrammar | internal/textdec/textdec.go:195-235 | a byte string is one character of the grammar exactly when the length table gives its length and every later byte is in the continuation table's range |
| Utf8.DecodeRuneAccepts | internal/textdec/textdec.go:153-157 | on a slice of the announced length the decoded rune has that size exactly for one whole character |
| Utf8.PartialViable | internal/textdec/textdec.go:163-186 | the partial-tail test accepts exactly the tails that some further bytes turn into well-formed UTF-8 |
| Utf8.CarryBound | internal/textdec/textdec.go:145-152 | what lies behind the longest well-formed prefix of text that can still be completed is at most 3 bytes |
| Utf8.Utf8PrefixFree | internal/textdec/textdec.go:127-132 | no character is the beginning of another, so text splits into characters in one way |
| Utf8.AsciiBoundary | internal/runner/logread.go:158-160 | the position after an ASCII byte of well-formed text is a character boundary |
| TextDecoder.PartialUtf8Ok | internal/textdec/textdec.go:178-186 | the loop accepts exactly when every byte in hand is in its range |
| TextDecoder.DecodeUtf8 | internal/textdec/textdec.go:133-161 | accepts exactly the byte strings some extension of which is well-formed, and then consumes exactly the longest well-formed prefix |
| TextDecoder.Utf8Incremental | internal/textdec/textdec.go:163-177 | a rejection holds for every extension; decoding the carry with the new bytes gives what decoding everything at once gives |
| TextDecoder.IsLead | internal/textdec/candidates_windows.go:48-59 | the scan of the lead-byte pairs finds exactly the bytes in a pair before the terminator |
| TextDecoder.DecodeCodePage | internal/textdec/candidates_windows.go:156-181 | the scan stops at the last character boundary and the rest of the verdict is the conversion's |
| TextDecoder.CodePageIncremental | internal/textdec/candidates_windows.go:158-170 | the scan leaves at most one byte and finds the same boundaries when it resumes on it |
| TextDecoder.Decode | internal/textdec/textdec.go:86-96 | the loop over the candidates gives the decoded slice, on which the next two rows are exact |
| TextDecoder.FirstFitDecides | internal/textdec/textdec.go:90-94 | the first candidate that fits the slice, wherever in the list it stands, reads it: its whole characters, converted, under its name |
| TextDecoder.ReplacedIffNoneFits | internal/textdec/textdec.go:95-122 | all bytes are substituted exactly when no candidate fits |
| TextDecoder.ViableIsUtf8 | internal/textdec/textdec.go:86-96 | bytes that can still become UTF-8 are decoded as UTF-8, to their longest well-formed prefix |
| TextDecoder.CarryAtMostThree | internal/textdec/textdec.go:86-96 | no decode leaves more than 3 bytes, whichever candidate accepts |
| TextDecoder.CarrySettles | internal/textdec/textdec.go:163-177 | what a decode left is, offered again alone, either still unfinished or consumed whole |
| LogReader.ReadLog | internal/runner/logread.go:61-120 | every answer, for every parameter and every state of the file at each access; where it begins and what it says are the next rows |
| LogReader.QueryBegins | internal/runner/logread.go:123-151 | for every parameter: at the position it names if the file reaches it, at the tail of the size it asks for up to 1048576 bytes, and in every other case, a reset included, at the tail of 262144 bytes |
| LogReader.DefaultTail | internal/runner/logread.go:206-230 | an absent parameter, the word in any case, and what is neither a number nor a tail request read the tail of 262144 bytes |
| LogReader.TailWindowOf | internal/runner/logread.go:214-222 | tail:<n> in decimal reads a tail of n bytes, at most 1048576; an n beyond 64 bits is no number |
| LogReader.AnswerReads | internal/runner/logread.go:80-120 | the text, offset and encoding of an answer are those of the first notation that fits the bytes from its start up to 1048576 of them, or substituted, when none fits or nothing is whole and the child is gone |
| LogReader.NothingRead | internal/runner/logread.go:66-105 | where nothing can be read the answer is empty, in UTF-8, and moves nobody |
| LogReader.ParsesDecimals | internal/runner/logread.go:214-224 | decimal text is read exactly within 64 bits, with or without a sign |
| Basics.TrimSpaceCuts | internal/runner/logread.go:207 | trimming takes white space off both ends and nothing else |
| LogReader.EchoIsExact | internal/runner/logread.go:123-138 | a returned offset sent back is read as that offset |
| LogReader.AbsoluteIffNumber | internal/runner/logread.go:206-230 | a parameter names a position exactly when it is a non-negative 64-bit number after trimming |
| LogReader.ResetIffBeyondEnd | internal/runner/logread.go:123-132 | what a client sends resets it exactly when, trimmed, it is a 64-bit number beyond the end of the file |
| LogReader.TailStartShape | internal/runner/logread.go:141-188 | on a log that may grow meanwhile, a tail starts at 0, right after the first line feed within the scan limit, or at the raw position when the scan finds none |
| LogReader.LineStartIsBoundary | internal/runner/logread.go:158-160 | in well-formed text a position after a line feed is a character boundary |
| LogReader.StallIsShort | internal/runner/logread.go:90-119 | an uncapped answer lags by at most 3 bytes, a capped one advances by at least the cap less 3, and nothing is consumed only when at most 3 bytes remain and the child lives |
| LogReader.StallIsUnfinished | internal/runner/logread.go:109-115 | and those bytes are unfinished: they hold no whole character and can still become text, or are a single byte |
| LogPolling.EchoIsPolled | internal/runner/logread.go:61-120 | a poll that echoes the last offset is the poll the runs below are made of |
| LogPolling.StepKeepsInStep | internal/runner/logread.go:61-120 | one append or poll keeps the reader exactly in step with the file |
| LogPolling.PollingIsFaithful | internal/runner/logread.go:61-120 | over every run of appends and polls the ranges tile the file, the texts joined are its bytes up to the offset, no character is split and nothing is reset |
| LogPolling.MayStartAt | internal/runner/logread.go:141-188 | a reader may begin at offset 0 or at any line start, as a tail read finds it |
| LogPolling.StaticLogDrains | internal/runner/logread.go:90-119 | echoing the offset reads any finished file, of any bytes, within one poll more than its size divided by the cap less 3 |
| Entry.Entry.ClearLive | internal/runner/entry.go:162-173 | every live field is reset and the generation kept |
| Entry.Entry.MarkFailed | internal/runner/entry.go:180-188 | the fields a failed start sets and those it leaves alone |
| Entry.Entry.MarkStarted | internal/runner/manager.go:544-557 | the fields of a started generation |
| Entry.Entry.Watch | internal/runner/manager.go:673-700 | the watcher's locked section and the child group it gives back |
| Entry.Entry.AskStop | internal/runner/manager.go:719-730 | the first locked section of a stop and what it captures |
| Entry.Entry.FinishStop | internal/runner/manager.go:755-772 | the last locked section of a stop |
| ProtocolSafety.StepKeepsInv | internal/runner/manager.go:311-777 | no step of an operation, a process or a watcher breaks the invariant of fields, runs, groups and channels |
| ProtocolSafety.RecordKeepsInv | internal/runner/manager.go:665-701 | the same for the watcher's section, in every state it can find |
| ProtocolSafety.FinishKeepsInv | internal/runner/manager.go:755-772 | the same for the end of a stop, waited for or not |
| ProtocolRuns.EveryRunIsSafe | internal/runner/manager.go:311-777 | in every state reached: each process started is the current one, has ended or was reported; each run was recorded once, as stopped exactly when asked before it was recorded, and its group and channel closed once; the fields between operations are coherent; not running means no unreported process |
| ProtocolRuns.StopsAreSound | internal/runner/manager.go:718-777 | a stop marks only runs not recorded yet, leaves the entry down, claims the run's exit code exactly when its wait saw the end, and keeps the end time the watcher wrote; the next rows say when its waits see it |
| StopRuns.ReportedOnlyAfterTwoWaits | internal/runner/manager.go:732-767 | over every run from a new entry, a run is reported as not seen to end only by a stop that found it under way, waited in vain, forced it, waited in vain again and then finished |
| StopRuns.EndIsSeen | internal/runner/manager.go:732-772 | a process that ends during the first wait or, forced, during the second is seen to: the stop finishes with its exit code and end time and does not report it |
| StopRuns.RunOfRunning | internal/runner/manager.go:320-323 | a run of a running entry leaves it exactly as it is |
| StopRuns.StartShows | internal/runner/manager.go:540-557 | any other start that succeeds shows its process and nothing of the run before |
| StopRuns.StartFails | internal/runner/entry.go:180-188 | one that fails shows its reason and time and no process |
| StopRuns.ReasonStays | internal/runner/entry.go:180-188 | and the reason stays until something is started again, whatever else happens |
| ProtocolRuns.OldRunsAreFinal | internal/runner/manager.go:658-677 | once an entry has been started again, nothing that happens in any run changes what was decided, recorded or closed for an older generation |
| ProtocolRuns.LateStepsLeaveNoTrace | internal/runner/manager.go:658-677 | any number of late steps of older generations leaves the entry and its current run exactly as they are |
| ProtocolRuns.LateExitCodeIff | internal/runner/manager.go:673-685 | a failed start gets an exit code exactly from the watcher of the run before it, and only if a stop of that run gave up waiting |
| ProtocolRuns.LateExitCodeOverRun | internal/runner/manager.go:673-685 | over any run that starts nothing, a failed entry gets an exit code exactly if that watcher records during it, and then the run before it had been reported stopped |
| ProtocolRuns.LateExitCodePossibleIff | internal/runner/manager.go:673-685 | it can still get one exactly when that watcher has not recorded yet |
| ProtocolRuns.LateExitCode | internal/runner/manager.go:757-767 | a run in which it does |
| FirstStart.FirstStartSafeIff | internal/runner/manager.go:145-156 | after any run up to the first start of a registration: in all runs from there each process started is the entry's current one, has ended or was reported, exactly when the entry is not running a live one and, if a process is started, no stop is under way and no restart past its stop |
| FirstStart.FirstStartStrandsIff | internal/runner/manager.go:145-156 | after any such run, the process started is, at once or in some later state, left running on an entry no longer in the manager exactly when the entry was deleted before or a delete is past its stop |
| FirstStart.OutOfReach | internal/runner/manager.go:311-475 | from an entry that is gone, with no operation that had found it, nothing can happen but the ends of its processes and their records |
| FirstStart.RunBefore | internal/runner/manager.go:145-156 | until then every interleaving keeps the invariant |
| FirstStart.RaceWithRun | internal/runner/manager.go:311-326 | a run in which a resume comes first and its process is lost at once |
| FirstStart.RaceWithRestart | internal/runner/manager.go:343-348 | a run in which nothing is lost until a restart, past its stop, starts another process |
| FirstStart.RaceWithStop | internal/runner/manager.go:755-772 | a run in which nothing is lost until the stop of an ended run writes `stopped` over the new one |
| FirstStart.RaceWithDelete | internal/runner/manager.go:207-232 | a run in which a delete removes the entry before its first start, whose process is then out of reach |
| ProtocolRuns.DeletedStaysDownIff | internal/runner/manager.go:145-232 | after a delete something can start the entry again exactly when its first start is yet to come or a run or a restart had found it before |
| Handshake.MoveKeepsInv | internal/runner/autostart.go:9-30 | no move of the auto-start, the shutdown, a watcher or a process breaks the invariant over all entries |
| Handshake.ReturnedIsFinal | internal/runner/manager.go:405-432 | after StopChildren has returned nothing runs and nothing is started, whatever happens next |
| Handshake.ShutdownLeavesNothing | internal/lifecycle/lifecycle.go:279-292 | the same over every interleaving from a restored server, and no unreported process is left alive |
| Handshake.StartedAtMostOnce | internal/runner/autostart.go:5-30 | over every interleaving the auto-start starts an opted-in entry at most once and any other never |
| AutoStarting.AutoStartCallsEach | internal/runner/autostart.go:9-30 | an auto-start that finishes while the server is serving has called Run once for each opted-in entry and for no other |
| AutoStarting.AutoStartStartsEach | internal/runner/autostart.go:26-28 | each of those has a process or carries the failure to start one |
| AutoStarting.AutoStartCanFinish | internal/runner/autostart.go:9-30 | from any restored server it can come to that end |
| LockOrder.SomeoneCanStep | internal/runner/entry.go:59-67 | among threads that take locks in order and wait only for threads below, an unfinished one leads to one that can go on |
| LockOrder.NoDeadlock | internal/runner/entry.go:59-67 | in every reachable state all is done or some thread can go on |
| LockOrder.EveryScheduleEnds | internal/runner/entry.go:59-67 | once nothing new begins, every schedule, whatever its waits settle on, is over within the work there is and can stop only where everything has ended |
| LockOrder.AllCanFinish | internal/runner/entry.go:59-67 | and such an end is reached from every reachable state |
| ManagerLocks.OperationsKeepOrder | internal/runner/manager.go:129-481 | register, update, run, restart, stop, delete, list, the shutdown steps, closing the server job among them, and the auto-start keep the order on every path |
| ManagerLocks.AnyOperationMayArrive | internal/runner/manager.go:129-481 | each of them may begin in any state |
| ManagerLocks.ManagerNeverStuck | internal/runner/manager.go:311-464 | no mix of these operations, arriving at any time, deadlocks, waiting for watchers under the operation lock included; when no more arrive every schedule ends, with all of them done |
| ManagerSections.OperationsGuard | internal/runner/manager.go:129-481 | on every path a process is started only under its entry's field lock and, but for the first start, operation lock; watchers are waited for under operation locks only, stopping threads under the auto-start lock alone |
| ManagerSections.NeverTwoInside | internal/runner/entry.go:59-67 | no two threads are ever inside sections of the same lock |
| ManagerSections.ProcessesStarted | internal/runner/manager.go:129-375 | an operation on an entry starts a process at most once, exactly when it has one to start and that works |
| ManagerSections.WatcherWaits | internal/runner/manager.go:718-777 | only stops wait for watchers, as often as they have to |
| ManagerSections.OperationLockOnce | internal/runner/manager.go:311-365 | run, restart, stop and delete take their entry's operation lock once and no other |
| SqlLexing.PiecesJoin | internal/sqlsplit/sqlsplit.go:33-38 | the raw pieces joined by semicolons give back the script |
| SqlLexing.PieceIsWhole | internal/sqlsplit/sqlsplit.go:33-38 | splitting a piece gives just that piece |
| SqlLexing.ReadingsAgree | internal/sqlsplit/sqlsplit.go:69-116 | the two scanners find the same tokens exactly when no block comment opens with slash-star-slash before the end |
| SqlStates.SeparatorIffOutside | internal/sqlsplit/sqlsplit.go:56-116 | a semicolon separates exactly where an independent automaton is outside every construct |
| SqlStates.CutAtSeparators | internal/sqlsplit/sqlsplit.go:71-74 | the pieces are cut at exactly those positions |
| SqlSplitter.Statements | internal/sqlsplit/sqlsplit.go:39-132 | the scanner returns the executable pieces, in order |
| SqlSplitter.FilterInPlace | internal/sqlsplit/sqlsplit.go:125-131 | filtering into the front of the same slice keeps exactly the executable pieces in order |
| SqlSplitter.StatementsAreWhole | internal/sqlsplit/sqlsplit.go:33-38 | splitting a returned statement again returns just that statement |
| SqlSplitter.StripCharacter | internal/sqlsplit/sqlsplit.go:174-242 | one turn of the stripping scanner |
| SqlSplitter.StripComments | internal/sqlsplit/sqlsplit.go:168-244 | what the stripping scanner writes is the tokens with constructs blanked |
| SqlSplitter.BareBegin | internal/sqlsplit/sqlsplit.go:145-162 | finds the word, in any case and standing alone, exactly when the stripped text holds it |
| SqlSplitter.ExecutablesConcat | internal/sqlsplit/sqlsplit.go:125-131 | executable pieces are kept in their order, each as often as it stands there |
| SqlVisible.ExecutableIffVisible | internal/sqlsplit/sqlsplit.go:134-137 | a piece is executable exactly when a character that is not white space lies outside every quoted run and comment, by an automaton over the characters |
| SqlMarkers.CompoundIffWritten | internal/sqlsplit/sqlsplit.go:139-162 | the word is found exactly where its five letters stand in the script, in any case, outside quoted runs and comments and next to no letter, digit or underscore |
| SqlMarkers.NameIsMarker | internal/sqlsplit/sqlsplit.go:143-144 | a single name is the word only if it is that word |
| SqlCoverage.NoTightShares | internal/sqlsplit/sqlsplit.go:69-116 | without an early slash-star-slash opening the stripper shares every separator of the splitter |
| SqlCoverage.StripPiecewise | internal/sqlsplit/sqlsplit.go:164-244 | when the separators are shared, stripping the script is stripping each piece |
| SqlCoverage.PiecewiseByAccident | internal/sqlsplit/sqlsplit.go:164-244 | not only then: a family of scripts without a shared separator for which it is, too |
| SqlCoverage.CompoundIsExecutable | internal/sqlsplit/sqlsplit.go:134-137 | a piece with the word is never filtered away |
| SqlCoverage.StartupCheckCovers | internal/dialect/assets.go:159-165 | when the separators are shared, the check fires on a script exactly when it would on one of its executed statements |
| SqlCoverage.MarkerExecutes | internal/dialect/assets.go:159-165 | a BEGIN written at the start of any statement is executed |
| SqlCoverage.CheckSeesStart | internal/dialect/assets.go:159-165 | and the check, if it passes the script without it, fires exactly when the separator in front of it is shared |
| SqlCoverage.EveryStartSeenIff | internal/dialect/assets.go:159-165 | so it sees the start of every statement of a script it passes exactly when all separators are shared |
| SqlCoverage.StartupCheckCoversPlainText | internal/dialect/assets.go:159-165 | the same for every script without the three characters |
| SqlCoverage.TightCommentEscapes | internal/sqlsplit/sqlsplit.go:69-70 | a script that passes the check although a statement of it does not |
| Migrations.Store.ApplyOne | internal/store/store.go:137-163 | a script is executed and recorded whole or not at all |
| Migrations.LoadScripts | internal/dialect/assets.go:48-73 | the embedded files ascending by name, unless one cannot be read or begins with a BOM |
| Migrations.Store.Migrate | internal/store/store.go:99-126 | one start applies the unrecorded scripts up to the first failure, or nothing if the scripts, the table or the history are not to be had |
| Migrations.RecordingMeans | internal/store/store.go:137-163 | applying scripts executes their statements in order and records their names |
| Migrations.StartAdvances | internal/store/store.go:99-126 | a start moves the recorded prefix forward by exactly what it applied |
| Migrations.HistoryIsWhatRan | internal/store/store.go:94-163 | over any sequence of starts failing anywhere, what was executed is the recorded scripts, ascending by filename, each once |
| Migrations.ScriptsInOrder | internal/dialect/assets.go:48-62 | what is loaded ascends by filename compared as strings |
| Migrations.HealthyStartCompletes | internal/store/store.go:112-125 | after a start without failures everything is recorded and the next start applies nothing |
| Migrations.Validate | internal/dialect/assets.go:141-174 | the check reports the first defect in filename order, a file that cannot be read among them, then a broken query mapping |
| Migrations.FirstDefectIsFirst | internal/dialect/assets.go:146-170 | and none exactly when no script has one |
| Migrations.PassesIff | internal/dialect/assets.go:141-170 | passing means, exactly: three digits, an underscore, something and .sql; a readable file without byte order mark; something to execute; and no BEGIN standing alone outside quotes and comments |
| Migrations.DefectSays | internal/dialect/assets.go:146-170 | the defect reported is the first of these, in the order of the check, that fails |
| Migrations.AppliedByNumber | internal/dialect/assets.go:42-46 | scripts with conventional names, in filename order, are in the order of their numbers |
| Migrations.ValidatedScriptsRunNoCompound | internal/dialect/assets.go:159-165 | over any sequence of starts, checked scripts whose separators are shared never execute a compound statement |
| Migrations.EscapingScriptPassesCheck | internal/dialect/assets.go:159-165 | without that condition one can |
| LogRotation.Collector.constructor | internal/runner/collect.go:68-88 | opening the log, with the tracked size taken from the file |
| LogRotation.Collector.ShiftArchives | internal/runner/collect.go:180-186 | the removal and the shifts, each of which may fail |
| LogRotation.Collector.Rotate | internal/runner/collect.go:173-238 | a rotation under every combination of failures |
| LogRotation.Collector.Append | internal/runner/collect.go:141-160 | one chunk under every combination of failures |
| LogRotation.BelowThresholdAppends | internal/runner/collect.go:147-153 | over any run that stays below the threshold no archive is touched and the live file gains exactly the chunks |
| LogRotation.NoRotationBelow | internal/runner/collect.go:147-153 | and whatever goes wrong with the writes, it gains what of each reached the disk and nothing else changes |
| LogRotation.ReachingRotates | internal/runner/collect.go:147-233 | a chunk that reaches the threshold leaves the old log as archive 1, the others one place up, and a new log of a header spelled out with the byte count, and the chunk |
| LogRotation.FailureRemembered | internal/runner/collect.go:141-238 | a failure is remembered exactly when a write falls short or the log cannot be reopened, and only then is the log given up |
| LogRotation.ClosedStaysClosed | internal/runner/collect.go:144-146 | a log given up changes no further |
| LogRotation.AfterKeepsTracking | internal/runner/collect.go:208-215 | the tracked size stays the length of the live file unless a file that was not renamed cannot be measured |
| LogRotation.RotatedArchives | internal/runner/collect.go:180-187 | every archive moves up one place, and the first is the old live log or, after a failed final rename, nothing |
| LogRotation.HeaderCountsArchive | internal/runner/collect.go:220-230 | the header counts the bytes of the file that went aside, whatever became of the other archives |
| LogRotation.RunConserves | internal/runner/collect.go:162-172 | over every run with working shifts, what was dropped, whole oldest archives only, followed by what the files hold is the initial output and every chunk, in order and whole |
| LogRotation.LiveGrows | internal/runner/collect.go:187-218 | without a successful rotation the live file gains exactly the chunks and no header, whatever fails among renames and archives |
| LogRotation.LiveSinceRotation | internal/runner/collect.go:187-218 | the live file is the header of the last successful rotation and every chunk from then on |
| LogRotation.FailedRenameRetries | internal/runner/collect.go:209-218 | after a failed final rename the very next chunk, of any length, rotates again |
| LogRotation.FailedRenamesErode | internal/runner/collect.go:180-218 | after n failed renames in a row the first n archive places are empty |
| LogRotation.RunStaysBelow | internal/runner/collect.go:141-187 | while final renames work, whatever else fails, every file stays below the threshold and all of them below (keep + 1) times it |
| LogFollowing.LiveAfterBurst | internal/runner/collect.go:141-233 | after any stretch of work the live file is the old one and the chunks, or the header of the last rotation whose rename worked and the chunks from it on |
| LogFollowing.NextPoll | internal/runner/logread.go:123-132 | the next poll of a reader that echoes its offset, after any number of rotations: reset exactly when the file was renewed and is shorter than the offset, else going on at the offset; what it missed, what it got and what is ahead are all the unread output in order |
| LogFollowing.NothingMissedIff | internal/runner/collect.go:220-223 | it misses nothing exactly when the file is the same, or all that went aside was read and the answer starts before the new output |
| LogFollowing.FollowingConserves | internal/runner/collect.go:162-172 | over every run of collecting, rotating and polling each byte of output is missed once, delivered once or still ahead, in the order written |
| EnvMerge.ParseRender | internal/runner/env.go:51-63 | cutting an entry loses nothing, and proper names are read back |
| EnvMerge.Environment.Set | internal/runner/env.go:39-49 | sets a variable in place or appends it, keeping the index pointing at each variable's slot and nothing else |
| Ordering.SortedKeys | internal/runner/env.go:85-92 | the one ascending list of the keys |
| Ordering.AscendingUnique | internal/runner/env.go:82-84 | there is only one such list, so map iteration order cannot show |
| EnvMerge.MergeEnv | internal/runner/env.go:35-72 | the block is the inherited, the forced and the user's writes applied in turn |
| EnvMerge.AppliedIsMerged | internal/runner/env.go:24-34 | which is one slot where each variable first appears, holding its last write, and every nameless entry |
| EnvMerge.Priority | internal/runner/env.go:24-34 | exactly the variables written have a slot, one each, with the value of the user, else forced, else last inherited |
| EnvMerge.MapLast | internal/runner/env.go:66-71 | of a map's names for one variable the last in sorting order counts |
| EnvMerge.BlockReadsBack | internal/runner/env.go:51-72 | with proper names the block parses back into those slots |
| EnvMerge.MergeTwice | internal/runner/env.go:24-34 | merging the result again changes nothing |
| ChildEnv.UserWins | internal/runner/env.go:24-34 | the user's entry for a variable is in the block as written |
| ChildEnv.Utf8UnlessUser | internal/runner/env.go:9-20 | PYTHONUTF8=1 is in it unless the user sets the variable, whatever is inherited |
| ChildEnv.EncodingUnlessUser | internal/runner/env.go:9-20 | and so is PYTHONIOENCODING=utf-8 |
| ChildEnv.InheritedPassesOn | internal/runner/env.go:51-63 | an inherited variable that nothing overrides is in it letter by letter |
| ChildEnv.NamelessPassesOn | internal/runner/env.go:53-60 | and so is an inherited entry without a name |
| StorageTime.StorageOrder | internal/timefmt/timefmt.go:30-33 | in years 0000 to 9999 stored timestamps compare as the instants truncated to milliseconds |
| StorageTime.OrderedExactlyBeforeYear10000 | internal/timefmt/timefmt.go:9-11 | and the order holds below a limit exactly when the limit is not beyond year 9999 |
| StorageTime.CivilIsCalendar | internal/timefmt/timefmt.go:30-33 | the date is the one an independent day-number formula of the Gregorian calendar inverts, the time the rest of the day |
| StorageTime.StorageSpells | internal/timefmt/timefmt.go:30-33 | up to year 9999 a stored string is that date and time digit by digit: 2006-01-02T15:04:05.000Z |
| Instances.IdentifierInjective | internal/issuer/service.go:142-144 | different dates, sequences or tails give different identifiers |
| Instances.IdentifierSpells | internal/issuer/service.go:142-144 | an identifier is the prefix, the day, the sequence in at least four digits and the six of the tail |
| Instances.MatchesByMillis | internal/store/store.go:255-267 | the string comparison in the lookup selects exactly the rows of the key younger than the window |
| Issuer.Registry.NextSeq | internal/store/store.go:195-222 | hands out the next number of the day, in one transaction or not at all |
| Issuer.Registry.Insert | internal/store/store.go:232-253 | adds the row, refuses an identifier that is there, or fails |
| Issuer.Registry.FindActiveByKey | internal/store/store.go:262-287 | the newest row of the key inside the window, or none |
| Issuer.Service.Issue | internal/issuer/service.go:58-140 | for every combination of faults, whether a request is deduplicated, answered fresh or fails, exactly; every field of the answer and of the row it stores; the number it uses up; at most 4 inserts |
| Issuer.FaultlessSettles | internal/issuer/service.go:100-139 | without a fault only four collisions in a row keep a call from storing |
| Issuer.SerialRunsStaySpaced | internal/issuer/service.go:61-70 | over every serial run on a clock that never goes back, rows of one key stay at least 300000 ms apart |
| Issuer.DeduplicatedIsNewest | internal/issuer/service.go:61-70 | a deduplicated answer is the newest row of its key and inside the window |
| Issuer.DeduplicatedIffLive | internal/issuer/service.go:61-70 | a request that does not fail is deduplicated exactly when such a row exists |
| IssueInterleavings.InterleavingsAreSafe | internal/issuer/service.go:58-140 | in every interleaving no two calls share a day and sequence, no two rows an identifier, no call inserts more than 4 times, and there is one new row for each fresh answer |
| IssueInterleavings.CallsNeverCollide | internal/issuer/service.go:100-139 | two calls never propose one identifier, whatever tails they draw |
| IssueInterleavings.ConcurrentCallsDuplicate | internal/issuer/service.go:61-70 | two calls with one key that look before either inserts are both answered fresh |
| IssueOutcomes.AnswersAreExplained | internal/issuer/service.go:58-140 | in every interleaving a call nothing bad happens to fails only for want of numbers or after four collisions, is deduplicated with a stored row of its key, or is answered with the stored instance it asked for |
| IssueSpacing.StepSpacedIff | internal/issuer/service.go:100-104 | one step keeps the rows of each key the window apart exactly when it stores none or none of its key was live |
| IssueSpacing.RunSpacedIff | internal/issuer/service.go:58-140 | a whole interleaving does exactly when each of its inserts did |
| IssueSpacing.NonOverlappingStaySpaced | internal/issuer/service.go:61-104 | any interleaving does in which calls with one key do not overlap between lookup and insert, with other keys free |

## Left out

- Windows calls, job objects, shells, pipes and real processes: a process is an object that may end at any step.
- HTTP routing, field validation, authentication, the help contract, configuration, the dashboard and the service wrapper.
- The operations log, whose rotation repeats the collector's with a weaker size reset.
- The lifecycle sequence beyond the closing of `stop` before StopChildren and both being done once: unwinding a failed
  startup, exit codes, closing listeners and the database are straight-line code.
- SQLite, JSON mappings, regular expressions and embedded files: the store is an abstract one with atomic transactions,
  and the queries mean what their SQL text says. Faults of a transaction are inputs.
- The locks of a collector, of the operations log and of the database: held for one call. A collector reports to the
  operations log while it holds its own, so the operations log is below the collector; neither takes a lock modelled here.
- Labels, commands, working directories, persisted entries and log markers of the runner: they decide nothing here.
- Draining a collector during a stop: it changes no field of the entry.
- Updating shared objects in place across threads: the manager's operations, the auto-start, the shutdown and the concurrent
  calls of Issue are atomic steps on values, since what is proved of them is about interleavings; the locked sections that
  write an entry's fields are the methods of Entry.
- Two collectors on one file, and a log removed while a collector holds it open.
- How many replacement characters the last resort emits, and the conversion of a code page: both abstract.
- Building the list of code-page candidates from the system's code page.
- Scripts that are not valid UTF-8: the scanners work on characters.
- The rendering of a rotation's time: the stamp in a header is any bytes.
- ProtocolSafety.StepKeepsInv: the whole invariant is for operations that begin after a new registration's first start;
  what FirstStart says of earlier ones is about processes, not about every field.
- SqlCoverage.StartupCheckCovers: one way; scripts whose separators are not shared may be covered because there is
  nothing to find, and SqlCoverage.CheckSeesStart is exact about where something would be found.
- LogRotation.RunConserves: assumes the shifts of the archives work; a shift that fails may overwrite an archive.
- LogFollowing.FollowingConserves: a poll finds the live file as it is between two chunks. One that comes in the middle
  of a rotation and cannot open the file is answered with an empty view at offset 0 (LogReader.ReadLog); a reader that
  echoes this offset starts over, which is not followed further.
- Handshake.ShutdownLeavesNothing: for auto-start and shutdown only; requests still being served are no part of it.
