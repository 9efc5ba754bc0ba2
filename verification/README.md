# Codex Web UI backend: verified core

This project models the stateful core of the backend in Dafny and proves what it keeps. Three parts
carry most of the weight.

**The app-server clients.** `AppServer` is a state machine whose steps are the critical sections of
`backend/src/codex_app_server.rs`: one step is the body of one lock, one atomic counter or one write.
Any number of clients, callers, detached startups, answerers, closers, retirers, evictors and process
supervisors interleave. Deadlines, failed writes, unusable processes, exits, aborted supervisors and
incoming messages may happen whenever the code allows them. What a task is doing is its program
counter; which generation a turn belongs to, which ids were issued and what became of each sender is
kept as history beside the fields of the client. A task that spawns a process while no slot is free looks for
another client to evict and waits, with no deadline, for that eviction, which takes the other client's
locks. `AppServerLocks`, `AppServerFence`, `AppServerSlots`, `AppServerSettle`, `AppServerLate`,
`AppServerRoutes` and `AppServerWaits` prove properties of every run. `AppServerExit`, `AppServerDeeds` and
`AppServerDuties` say what a step, an exit or a message has to bring about: whatever the transition
functions say, a task that has come to an end has seen and done what its end calls for.
`AppServerLateRun` has one run step by step. `AppServerClient` has the critical
sections as methods on a client's fields, each proved to do what the machine's operation does, and the
procedures made of them. `AppServerManager` has the loops over clients.

**The configuration file.** `TomlValues`, `TomlReader`, `TomlUpsert`, `TomlLaws`, `TomlFrame`, `TomlSync`,
`TomlSyncFrame` and `TomlAgain` follow `backend/src/config_support.rs` character by character: line splitting, section headers, comment
stripping, quoting, the JSON string decoder behind `parse_toml_string_value`, in-place replacement,
insertion, deletion by restart, and the chain of eleven upserts that writes session preferences.
`TomlForms` says of the text of a line, a string or a number what it is read as, and
`TomlPreferences` what becomes of each preference.

**Redaction.** `RedactionText` says by recursion over the text what is to become of it, `Redaction` has
the searching and replacing loops of `redact_user_facing_error`, proved to compute that;
`RedactionMarks` says which secrets are gone and `RedactionLaws` what is kept; `RedactionSecrets` tells
where a secret stands by the characters around it, and what is put in its place.

**Bounded tables and loops.** `LoginLimiter`, `Revocations`, `AutomationRuns`, `AutomationCleanup` and
`KeyedLocks`.

Some results say where the code does not do what one might expect:

- A string survives writing and reading exactly when it holds no line feed (`TomlLaws.StringRoundTrip`).
  Preferences survive exactly when the four free texts among them are single lines (`TomlSync.SyncExact`).
- Writing one key leaves all other bare keys alone exactly when the lines that its value brings set no
  other bare key and end in the section (`TomlFrame.Frame`), and synchronising leaves all unmanaged bare
  keys alone exactly when its texts bring no header and no line for such a key
  (`TomlSyncFrame.SyncFrame`). A model name `x`, line feed, `zz = 5 #` sets the key `zz` to 5
  (`TomlSyncFrame.ModelSetsAnotherKey`).
- The redacted error text cannot be cut, and `String::truncate` panics, exactly when it is too long and
  its byte 4000 lies inside a character (`Redaction.Redact`); some messages are such
  (`RedactionLaws.SomeTextsPanic`).
- The loops over bearer values and keyed secrets stop for good at the first needle without a value, so
  they mark every needle exactly when there is none on their way (`Redaction.RedactValues`);
  `bearer , bearer abc` comes back as it is (`RedactionLaws.BearerStopsShort`). A later loop may take
  such a needle away, as in `sk-bearer , x` (`RedactionLaws.BearerIsSwallowed`).
- Failing a generation can leave entries of that generation in `pending`, as a run shows
  (`AppServerLateRun.SomeEntryIsLeft`): exactly those registered after the failure and not taken out since
  (`AppServerLate.LeftPending`), by callers that had picked the process while it was installed
  (`AppServerLate.FailureMisses`).
- A text in single quotes is read as it stands, but with a comment behind it only if it does not end in
  an odd number of backslashes (`TomlForms.SingleQuoted`, `TomlForms.BackslashHidesQuote`); a string in
  double quotes that JSON does not know is read without decoding (`TomlForms.BadEscapeIsKept`).
- The login limiter never stops an attempt with fewer than 8 failures in the window. It can let through
  one with 8 (`LoginLimiter.EightFailuresPass`), but only within a window after an identifier with live
  failures had to make room (`LoginLimiter.Limiter.Check`).
- The idle-lock search of `git_operation_lock`, right behind a line that drops every idle lock, finds one
  exactly when a lock lost its last holder between the two and a new key comes to a table that is still
  full (`KeyedLocks.LockTable.GitOperationLock`, `KeyedLocks.SearchFindsOne`).
- The error "request channel closed before a response arrived" cannot reach a caller
  (`AppServerSettle.SettledOrInHand`).

## Model

| member | source | states |
|---|---|---|
| AppServerLocks.RunLocks | backend/src/codex_app_server.rs:585-634 | In every reachable state the lifecycle and start locks are held by exactly the tasks whose code lies between taking and releasing them, and a writer has no reader beside it |
| AppServerLocks.LocksExclude | backend/src/codex_app_server.rs:749-753 | Whoever retires, evicts or closes a client under the write lock is alone in it, and starting and finalising a process exclude each other |
| AppServerFence.InstalledIncrease | backend/src/codex_app_server.rs:836-846 | Over any run the generations a client installs only grow, each greater than all before |
| AppServerFence.NothingBeforeInstall | backend/src/codex_app_server.rs:2735-2739 | No message is handled and no supervisor passes its start signal before its process is installed |
| AppServerFence.SupervisorStep | backend/src/codex_app_server.rs:2945-2987 | A supervisor only takes entries of its own generation, removes only its own process, and clears work only after it did |
| AppServerFence.FinaliserIsFenced | backend/src/codex_app_server.rs:2891-2987 | In every interleaving no step of the supervisor of generation g removes a process, turn or request of a later generation, or a pending entry of any other |
| AppServerFence.RunFence | backend/src/codex_app_server.rs:812-846 | The installed process is the newest installed generation, and between finding no process and installing one none is there |
| AppServerSlots.RunSlots | backend/src/codex_app_server.rs:1092-1107 | Over any run free permits, installed processes and process states in the hands of a task add up to the maximum, so no more processes are installed than allowed |
| AppServerSlots.QuietSlots | backend/src/codex_app_server.rs:1081-1154 | When nothing is starting or being shut down, every slot that no installed process uses is free again, whatever failed before |
| AppServerSettle.SettledOrInHand | backend/src/codex_app_server.rs:893-985 | At every moment an issued id either has its one outcome or is still with its caller, never both; a settled id is not pending; an outcome agrees with what its sender carried, and the closed-channel error never occurs |
| AppServerSettle.ReturnedIsSettled | backend/src/codex_app_server.rs:932-984 | When a caller has returned, each of its ids has an outcome and is out of `pending` |
| AppServerSettle.OutcomesStay | backend/src/codex_app_server.rs:893-985 | Over any run an outcome never changes, a used sender is never used again and an id that left `pending` never comes back |
| AppServerSettle.RepliedByOwnResponse | backend/src/codex_app_server.rs:3027-3032 | A caller is told an answer only if a response with its own id and this answer was handled while the id was pending, and no other answer was ever taken for the id |
| AppServerSettle.ReturnsOwnOutcome | backend/src/codex_app_server.rs:974-978 | Whoever returns an answer returns the recorded outcome of an id of its own |
| AppServerSettle.FailureTakesItsGeneration | backend/src/codex_app_server.rs:3161-3172 | Failing a generation takes exactly the entries of that generation out of `pending`, into the hands of the failing task |
| AppServerSettle.TakenIsFailed | backend/src/codex_app_server.rs:3174-3177 | Whatever was taken out to be failed is at any later time still with the task that took it or has been sent the failure |
| AppServerSettle.RunSettles | backend/src/codex_app_server.rs:893-985 | In every reachable state `pending` holds exactly the senders not yet used, taken or dropped, and nothing is lost |
| AppServerLate.LeftPending | backend/src/codex_app_server.rs:3161-3173 | At any time after a generation was failed, an entry of it is pending exactly when it was registered after the failure and has not been answered, given up, dropped or failed since |
| AppServerLate.LateFailureMisses | backend/src/codex_app_server.rs:2891-2969 | Whatever is pending after the failure under the guard was registered by a caller that had picked the generation before and stood between picking and registering |
| AppServerLate.LateIsGone | backend/src/codex_app_server.rs:2953-2969 | When a finaliser reaches that failure the process of its generation is gone, for good |
| AppServerLate.FailureMisses | backend/src/codex_app_server.rs:893-929 | Whatever is pending after any failure of its generation, early ones included, was registered since by a caller that picked the generation while its process was installed, so before a finaliser removed it |
| AppServerLateRun.SomeEntryIsLeft | backend/src/codex_app_server.rs:2945-2969 | A run from the start in which an entry is registered right after the finaliser failed its generation, and stays pending |
| AppServerRoutes.AnswersGoHome | backend/src/codex_app_server.rs:711-732 | In every run the answer of an observed request is written only by the client that saw it, to a process of the same generation or from one daemon connection to another, and that process was the installed one of the client when it was picked |
| AppServerRoutes.AnswerTakesItsOwn | backend/src/codex_app_server.rs:734-743 | An answer takes a request off the list only if it is still the one observed; an entry under the same id from a later process stays, and so does every other entry |
| AppServerRoutes.RetirementIsFinal | backend/src/codex_app_server.rs:585-709 | Once a client is retired no application call gets past the check under its lock: none registers a request, writes an answer or changes anything but the lock |
| AppServerRoutes.StaysRetired | backend/src/codex_app_server.rs:749-753 | Retirement is never undone |
| AppServerWaits.WaitsClimb | backend/src/codex_app_server.rs:1081-1090 | Every wait, inside one client or of a spawning task for its eviction of another client, goes up one order, so no tasks of any clients wait in a circle; it holds because an evictor only tries the other client's lifecycle lock |
| AppServerWaits.NoCircle | backend/src/codex_app_server.rs:2110-2135 | No chain of waiting tasks, across any clients, returns to its beginning or has more than seven members |
| AppServerWaits.NoDeadlock | backend/src/codex_app_server.rs:2891-2906 | Every task that has begun and is not done is free to go on, or waits over at most six others, of whatever clients, for one that is |
| AppServerWaits.FreeSteps | backend/src/codex_app_server.rs:812-1107 | A task that neither a lock nor its own eviction blocks always has a step, if only that its deadline passes |
| AppServerExit.ExitIsFinalised | backend/src/codex_app_server.rs:2891-2987 | A supervisor that learns that its process has exited and comes to the end of its finaliser has failed its generation in between: nothing that was pending for it at the exit is pending any more; turns and requests are cleared exactly if the supervisor itself removed the process and the process is dead |
| AppServerExit.FailsBeforeWaiting | backend/src/codex_app_server.rs:2896-2906 | Until it has failed its generation the supervisor can always go on, whoever holds the start lock and for how long, so a handshake that waits for the dead process is failed before the supervisor waits for it |
| AppServerExit.FailsOnce | backend/src/codex_app_server.rs:2896-2969 | It fails its generation once: before the guard or under it, not both |
| AppServerExit.ResponseIsDelivered | backend/src/codex_app_server.rs:3027-3031 | In any state a response to a pending id, good or bad, is on the channel of its caller at once and the id is no longer pending; nothing else changes, and a response to any other id changes nothing |
| AppServerExit.NoticeIsRecorded | backend/src/codex_app_server.rs:3033-3098 | A started turn is listed, a completed one is not, a request of the server is listed with the client, generation and connection it came over; nothing else changes |
| AppServerExit.AnyMessageMayCome | backend/src/codex_app_server.rs:3002-3016 | Any message may come from a process that was let begin, in any state |
| AppServerExit.AnyExitMayCome | backend/src/codex_app_server.rs:2744-2762 | And it may exit or be shut down at any time while it is served |
| AppServerExit.LetterIsTaken | backend/src/codex_app_server.rs:956-984 | A waiting caller that goes on before its deadline is told what its sender carried: that answer, the failure, or that nothing will come |
| AppServerExit.LetterWakes | backend/src/codex_app_server.rs:956-984 | And once the sender has been used it can go on |
| AppServerExit.DeadlineEndsIt | backend/src/codex_app_server.rs:930-957 | A deadline that passes during the write or the wait makes the caller give its request up |
| AppServerExit.OnlyExitsAreFinalised | backend/src/codex_app_server.rs:2735-2786 | A supervisor does something to its client, the locks included, only once its process has exited or its connection is lost; a supervisor that is shut down ends without |
| AppServerExit.AbortsAnywhere | backend/src/codex_app_server.rs:1056-1066 | A supervisor can be aborted exactly where it awaits, and the abort gives back the start lock if it held it and changes nothing else |
| AppServerDuties.EndsAreEarned | backend/src/codex_app_server.rs:585-1107 | In every run a task that is done has seen and done what its end calls for. A caller with an answer got it for a request of its own, and a turn that a good answer names is listed; one that ran out of time has taken its request back, and if it was to recover, the process was closed and failed after a look that found no other work, or there was work, or it was gone; one refused saw the client retired; one whose start failed left no process behind. A start counts only if a usable process was found or the handshake with a new one succeeded. Closing fails what waited for the process afterwards; an idle client was seen without pending requests, turns and open requests by the one that had it for itself. An answer to the server went to a process that may be told, was refused only if there was none, and took the request off the list exactly if it was the one observed |
| AppServerDuties.StepsAreLawful | backend/src/codex_app_server.rs:585-1154 | No step does more than what its task has seen and done allows: a process that is there is taken out only to close, retire or evict an idle client, because it is stale, did not come up, or is stuck; a process is spawned only after a look at the retirement flag under the start lock, other clients only are evicted, and when no slot is free this is tried first; turns are listed only for good answers that start one |
| AppServerClient.Inner.TakePending | backend/src/codex_app_server.rs:3161-3173 | The locked loop over `pending` does to the client what the machine's step of failing a generation does, and returns exactly the ids of the generation |
| AppServerClient.Inner.SendFailures | backend/src/codex_app_server.rs:3174-3177 | Every sender that was taken out carries the failure, and nothing else changes |
| AppServerClient.Inner.PurgeClosed | backend/src/codex_app_server.rs:618-623 | The `retain` after a startup deadline drops exactly the entries whose receiver is gone |
| AppServerClient.Inner.HandleMessage | backend/src/codex_app_server.rs:3018-3072 | Field by field: a response, good or bad, takes its id out of `pending` and is what its sender carries, if the id was pending; a turn that starts or completes is added or removed; a request of the server is listed with where it came from; nothing else changes |
| AppServerClient.Inner.FailPendingRequests | backend/src/codex_app_server.rs:3161-3178 | Failing a generation takes out its entries and no others, and each of their senders carries the failure |
| AppServerClient.Inner.SendRequest | backend/src/codex_app_server.rs:893-949 | A request is pending for the installed generation exactly when there is a process and the write succeeds; otherwise its id has its outcome and `pending` is as before |
| AppServerClient.Inner.CloseProcess | backend/src/codex_app_server.rs:755-763 | Closing takes out the process and exactly the entries of its generation |
| AppServerClient.Inner.FinalizeExit | backend/src/codex_app_server.rs:2908-2987 | Finalising takes out the process only if it is its own, its own entries unless they were failed before, and turns and requests only with its own dead process |
| AppServerClient.Inner.EnsureProcess | backend/src/codex_app_server.rs:812-843 | A usable process stays; otherwise the stale one goes and a new one is installed under the next generation if it could be spawned, and nothing pending changes |
| AppServerClient.Inner.AnswerRequest | backend/src/codex_app_server.rs:649-743 | A request of the server is answered only through a process that may be told the answer, and leaves the list exactly if the answer was written and the entry is still the one observed |
| AppServerClient.Inner.HasLiveWork | backend/src/codex_app_server.rs:806-810 | There is live work exactly if something is pending, a turn is active or a request of the server is open; the machine makes the three tests one by one |
| AppServerClient.SplitByGeneration | backend/src/codex_app_server.rs:3164-3172 | The loop takes exactly the ids of one generation and keeps every other entry as it was |
| AppServerManager.EvictIdleClients | backend/src/codex_app_server.rs:2080-2143 | Told by the fields of each visit: eviction closes at most the given number, never the excluded key, only clients that had a process, whose lock was free, that had no live work, were last active long enough ago and were still registered, the least recently active first; and any such client left open came after a full number of clients idle for at least as long |
| AppServerManager.ChosenAreOldest | backend/src/codex_app_server.rs:2110-2141 | Taking candidates in order chooses the least recently active of those that may be closed |
| AppServerManager.PrepareRestart | backend/src/codex_app_server.rs:1761-1843 | If a scanned client is busy and its process would not outlive the restart, nothing is closed and all such clients are counted; otherwise active processes are those preserved, those closed and those newly blocking, and with none blocking each was preserved or closed without live work |
| AppServerManager.CountsAddUp | backend/src/codex_app_server.rs:1773-1798 | The scan sorts every active process into exactly one of preserved, blocking and closable |
| AppServerManager.Registry.GetOrCreate | backend/src/codex_app_server.rs:1510-1558 | Whatever others do to the registry in between, a client that is returned has the requested profile and is the one registered, and each client retired on the way had another profile |
| TomlValues.TrimTomlValue | backend/src/config_support.rs:856-886 | The scanning loop gives the text before the first comment mark outside quotes, trimmed |
| TomlValues.ParseStringify | backend/src/config_support.rs:904-919 | A printed string is parsed back to itself, by the JSON decoder or by the fallback |
| TomlValues.ParseCutString | backend/src/config_support.rs:904-919 | What parsing makes of a printed string that was cut off at its first line feed: never the original |
| TomlValues.IntegerRoundTrip | backend/src/config_support.rs:929-931 | A printed integer that fits `i64` is parsed back to itself |
| TomlValues.BoolRoundTrip | backend/src/config_support.rs:921-927 | A printed boolean is parsed back to itself |
| TomlReader.GetTomlValue | backend/src/config_support.rs:888-902 | The scan over the lines finds the first line that sets the key in the section, and its value |
| TomlReader.GetReadsParts | backend/src/config_support.rs:888-902 | `lines()` and `split('\n')` read alike, carriage returns and a final line feed included |
| TomlReader.KeyIsUnique | backend/src/config_support.rs:1055-1060 | A line sets at most one bare key |
| TomlReader.KeyLineReads | backend/src/config_support.rs:1055-1060 | The line written for a bare key is no header, matches the key and reads as its value |
| TomlReader.HeaderLineReads | backend/src/config_support.rs:846-854 | The header written for a section name is read as that section |
| TomlLaws.NormalLinesAre | backend/src/config_support.rs:1062-1075 | The lines that are edited are those of the file without the carriage returns they end in; only empty ones at the end are left out, never the last one there is |
| TomlLaws.EmptyFileGets | backend/src/config_support.rs:1090-1160 | What an empty file becomes, character by character, with and without a section |
| TomlUpsert.NormalizeTomlLines | backend/src/config_support.rs:1062-1071 | The loop drops exactly the empty lines at the end, keeping one |
| TomlUpsert.UpsertTomlValue | backend/src/config_support.rs:1090-1160 | The in-place edit with its section tracking and deletion by restart replaces or deletes every line of the section that sets the key, or inserts one at the end of the section's first stretch, or appends a section; it ends because matching lines decrease |
| TomlUpsert.DeleteRestarts | backend/src/config_support.rs:1126-1129 | Deleting one line, joining and starting over has the same result as deleting all at once, with one line fewer to delete |
| TomlLaws.ReadBack | backend/src/config_support.rs:1090-1160 | After setting a bare key in any section of any text, reading it gives the first line of the value as the scanner sees it |
| TomlLaws.StringRoundTrip | backend/src/config_support.rs:1073-1160 | Writing a string and reading it gives it back in every text, exactly when it has no line feed |
| TomlFrame.Frame | backend/src/config_support.rs:1090-1160 | Setting or deleting a key leaves every other bare key of every section reading as before, in every text, exactly when the lines of the value behind its first set no other bare key and leave one in the section |
| TomlFrame.OtherKeyStays | backend/src/config_support.rs:1124-1148 | One other bare key that the value does not set reads as before in every text, if the value stays in its section |
| TomlFrame.OtherKeyShows | backend/src/config_support.rs:1124-1148 | One other bare key that the value does set is set in every text, replaced or inserted, with the value's text where it was not set before |
| TomlFrame.NeighbourIsLost | backend/src/config_support.rs:1124-1125 | Behind a value that was put in the place of another and leaves the section, the next key of the section is lost |
| TomlFrame.SecondLineSetsAnotherKey | backend/src/config_support.rs:1124-1148 | In every text and section, a value with a second line that sets a key not set there sets it, whether the value replaces a line or is inserted |
| TomlLaws.Deletion | backend/src/config_support.rs:1126-1129 | After a deletion the key reads as absent and no line of its section sets it |
| TomlLaws.LastWriteWins | backend/src/config_support.rs:1090-1160 | Setting a key twice, first to a value of one line, gives the very text that setting it once with the second value gives; repeating an upsert changes nothing |
| TomlFrame.LastWriteWinsExactly | backend/src/config_support.rs:1123-1125 | For any two values: the last write wins in every text exactly when the first value is one line |
| TomlLaws.DeleteAfterSet | backend/src/config_support.rs:1090-1160 | Deleting undoes setting up to the tidying of the text, except for a section that was created |
| TomlLaws.DeleteTwice | backend/src/config_support.rs:1126-1129 | Deleting a key once more changes nothing |
| TomlForms.SingleQuoted | backend/src/config_support.rs:856-918 | A text without a single quote, in single quotes, with any white space around it and any comment behind it, is read as it stands, with `#`, double quotes and backslashes, if it ends in an even number of backslashes |
| TomlForms.SingleQuotedAlone | backend/src/config_support.rs:915-917 | With nothing behind it, any text without a single quote is |
| TomlForms.BackslashHidesQuote | backend/src/config_support.rs:856-886 | With an odd number and a comment behind it the closing quote is hidden and the value is no string |
| TomlForms.SingleQuotedLineReads | backend/src/config_support.rs:888-918 | So a file with such a line gives the key that text |
| TomlForms.OnlyQuotedIsString | backend/src/config_support.rs:904-919 | A value is read as a string exactly if it is of at least two characters and begins and ends with the same kind of quote |
| TomlForms.DoubleQuoted | backend/src/config_support.rs:856-913 | A string in double quotes is read as what its pieces mean, for every sequence of plain characters, escapes by letter and escapes by number with surrogate pairs, whatever white space and comment surround it |
| TomlForms.BadEscapeIsKept | backend/src/config_support.rs:907-913 | A backslash that begins no escape is kept, as in a path |
| TomlForms.IntegerReads | backend/src/config_support.rs:929-931 | Decimal digits with or without a sign are read as the number they show exactly if 64 bits hold it |
| TomlForms.UnderscoresAreSkipped | backend/src/config_support.rs:929-931 | Underscores anywhere make no difference |
| TomlForms.OnlyDigitsAreIntegers | backend/src/config_support.rs:929-931 | Nothing else is an integer |
| TomlForms.OnlyTheseAreBooleans | backend/src/config_support.rs:921-927 | `true` and `false`, as they stand, are the booleans |
| TomlForms.HeaderForm | backend/src/config_support.rs:846-854 | A name in brackets is a header, with any white space around the brackets and the name |
| TomlForms.HeadersHaveForm | backend/src/config_support.rs:846-854 | And every header is one |
| TomlForms.KeyForm | backend/src/config_support.rs:1055-1060 | A line sets a key exactly if it is the key and an equals sign with white space only before and between |
| TomlForms.LineReads | backend/src/config_support.rs:888-902 | A line that sets a bare key gives it the text behind the equals sign |
| TomlSync.SyncCodexToml | backend/src/config_support.rs:1162-1311 | Rewriting the text upsert by upsert gives the chain of eleven edits on the prepared text |
| TomlSync.SyncExact | backend/src/config_support.rs:933-1053 | Reading the synchronised file gives exactly the normalised preferences, everything unmanaged as before, if and only if the four free texts are single lines |
| TomlPreferences.LanguageIs | backend/src/config_support.rs:1313-1327 | Of the trimmed name of a language the letters, digits and marks that are allowed are kept, in order, the first 48 of them; nothing left means `auto` |
| TomlPreferences.StartsWithSchema | backend/src/config_support.rs:1162-1181 | A file that is missing or white space only begins with the schema comment, any other is taken as it is |
| TomlPreferences.MemoriesAreRead | backend/src/config_support.rs:990-1053 | Each memory setting is read from its own key, the first one from its former key if the new one gives no boolean |
| TomlPreferences.DefaultsComeBack | backend/src/config_support.rs:933-1053 | Preference by preference what a synchronised file gives back: blank texts, unknown personalities, tiers and approval modes and windows that are not positive are dropped, and the effort goes to the key of the mode |
| TomlSyncFrame.SyncFrame | backend/src/config_support.rs:1162-1311 | Every unmanaged bare key of every section reads as before, in every file, exactly when no text that is written brings a line that starts a section or sets an unmanaged bare key |
| TomlSyncFrame.ModelSetsAnotherKey | backend/src/config_support.rs:1182-1191 | The failing preference: a model name whose second line is `key = 5 #` makes every synchronised file read 5 for an unmanaged key that was not set |
| TomlSyncFrame.OneLinesKeepToManaged | backend/src/config_support.rs:1162-1311 | When the four free texts are single lines, nothing unmanaged changes |
| TomlSyncFrame.LostByChain | backend/src/config_support.rs:1098-1110 | Behind a top level value that brings a header, a top level key is lost for good, whatever the other edits of the chain do |
| TomlSync.ReadManaged | backend/src/config_support.rs:1162-1311 | In a chain of edits of different keys, what each wrote is what is read at the end |
| TomlAgain.SyncTwice | backend/src/config_support.rs:1162-1311 | With preferences of one line, synchronising a synchronised file gives the very same text |
| TomlAgain.ChainTwice | backend/src/config_support.rs:1090-1160 | So does any chain of one-line edits of different keys: every later edit leaves the lines that an earlier one made, and making an edit again where it is made changes nothing |
| LoginLimiter.LiveAgain | backend/src/auth_support.rs:728-728 | Dropping failures that have left the window loses nothing that a later look would count |
| LoginLimiter.LiveAreRecent | backend/src/auth_support.rs:728-728 | What is kept of a history is each failure of the last 600000 milliseconds, as often as it is there |
| LoginLimiter.Limiter.Prune | backend/src/auth_support.rs:745-777 | After pruning there is room for the identifier; with room before, only failures outside the window go; without, just enough identifiers go, those whose newest failure is oldest |
| LoginLimiter.Limiter.Check | backend/src/auth_support.rs:723-730 | With calls in any order of their times: an attempt with fewer than 8 failures in the window always passes; one with 8 or more at the latest time seen never does once the last loss of failures is a window ago; a call at such a time decides exactly as the full log of failures |
| LoginLimiter.Limiter.RecordFailure | backend/src/auth_support.rs:732-739 | The table stops saying what the full log says exactly when an identifier with live failures has to make room, and says it again from one window later; it never holds more than 4096 identifiers |
| LoginLimiter.Limiter.Clear | backend/src/auth_support.rs:741-743 | A success forgets the failures of its identifier and of no other |
| LoginLimiter.UpdateAgrees | backend/src/auth_support.rs:745-777 | A table that agreed with the log still does after a call exactly when there was room |
| LoginLimiter.WindowAgrees | backend/src/auth_support.rs:727-729 | One window after the latest time seen, table and log agree whatever was lost |
| LoginLimiter.EightFailuresPass | backend/src/auth_support.rs:751-776 | A run that ends with an attempt let through although 8 failures lie in the window |
| Sorting.DropLowest | backend/src/auth_support.rs:758-776 | Removing in sorted order until the table fits keeps exactly as many as fit, none of them ranked below one that went |
| Revocations.TopStep | backend/src/auth_support.rs:234-250 | Adding to the 8192 latest sessions of the past and cutting again later gives the 8192 latest unexpired of everything |
| Revocations.Prune | backend/src/auth_support.rs:234-250 | What is left is at most 8192 entries, the latest unexpired of what was there |
| Revocations.LineIsRead | backend/src/auth_support.rs:262-282 | A line of the log gives a session exactly if its nonce is more than white space and its expiry fits 64 bits |
| Revocations.PaddedLineIsRead | backend/src/auth_support.rs:262-282 | White space around the nonce does not count |
| Revocations.ReadLog | backend/src/auth_support.rs:262-282 | Reading the log keeps for every nonce the expiry of its last unexpired line, and nothing else |
| Revocations.Store.IsRevoked | backend/src/auth_support.rs:294-307 | With accesses in any order of their times: only sessions that were revoked and have not expired are reported, among them, if expiries are distinct, all of the 8192 latest at the latest time seen; at such a time exactly these |
| Revocations.Store.Add | backend/src/auth_support.rs:337-346 | However the table came about, adding a session gives the 8192 latest of all ever revoked, as far as they have not expired at the latest time seen |
| Revocations.Store.Revoke | backend/src/auth_support.rs:333-370 | The whole of it: the session counts as revoked, and a log that had everything still has if the line could be written |
| RedactionText.WallKeepsFree | backend/src/app_util_support.rs:673-673 | What is put in the place of a match cannot make a new one together with its surroundings |
| Redaction.Sweep | backend/src/app_util_support.rs:660-721 | The loop over a path prefix, and over the token mark, ends even where the text grows; it computes the text with every match and the rest of its value replaced, leaves no match, and brings no other pattern back |
| Redaction.MarkNext | backend/src/app_util_support.rs:677-700 | One round goes on behind a mark, replaces a value or gives up, and each keeps the text on its way to the marked text |
| Redaction.RedactValues | backend/src/app_util_support.rs:677-769 | The loop, over bearer values and over each key and separator, ends with the marked text of its input; every needle in it is followed by the mark exactly when going through the input meets no needle without a value |
| Redaction.MatchIsBefore | backend/src/app_util_support.rs:723-769 | Behind a needle and its mark no further needle begins or ends |
| Redaction.RedactAll | backend/src/app_util_support.rs:652-770 | All the loops together compute the redacted text of the message, in which no home path and no token mark is left, none of the later loops bringing an earlier pattern back |
| Redaction.Redact | backend/src/app_util_support.rs:652-777 | What is returned is the redacted text, cut if it is long: clean and of at most 4014 bytes; one is returned exactly when the redacted text needs no cut or byte 4000 of it ends a character |
| RedactionMarks.BearersAreMarked | backend/src/app_util_support.rs:677-770 | Every `bearer ` in the redacted text is followed by the mark, unless the message without its paths has one without a value on the way; no later loop undoes a mark |
| RedactionMarks.SecretsAreMarked | backend/src/app_util_support.rs:723-769 | Every key with its separator in the redacted text is followed by the mark, unless the text that its own loop is given has one without a value on the way; `RedactionSecrets.NoneIsEmpty` says of the text when it has none |
| RedactionMarks.ReplacedMarksExactly | backend/src/app_util_support.rs:764-765 | Replacing one more value leaves bare exactly those needles that were, that the replaced stretch does not touch, and whose value it is not |
| RedactionMarks.ReplacedStaysMarked | backend/src/app_util_support.rs:764-765 | Replacing one more value leaves the mark behind every needle that has one |
| RedactionSecrets.StretchIsMarked | backend/src/app_util_support.rs:740-766 | Behind the first needle, and the white space and quotes behind it if these are skipped, the stretch up to the next white space, quote, comma, semicolon, brace or the end is replaced by the mark, unless it begins with the mark, and the loop goes on behind it |
| RedactionSecrets.MarkIsPassed | backend/src/app_util_support.rs:758-761 | Where the mark is there already the loop goes on behind it |
| RedactionSecrets.StretchIsSwept | backend/src/app_util_support.rs:660-721 | A path or a token is replaced from where it begins to where its stretch ends |
| RedactionSecrets.SecretsAreReplaced | backend/src/app_util_support.rs:723-769 | If in the text that the loop over a key and separator is given each of them is followed, over white space and quotes or directly, by a character that ends no value, then in the redacted text each is so followed by `[redacted]` |
| RedactionSecrets.OneSecretIsMarked | backend/src/app_util_support.rs:652-770 | A message with one secret behind a key, its separator, white space and quotes, and no other pattern, comes out with `[redacted]` in place of the secret and else as it was |
| RedactionSecrets.QuotedSecretIsMarked | backend/src/app_util_support.rs:723-769 | `key="secret"` and `"key":"secret"`, for each of the ten keys and four separators, in either kind of quotes or none, come out with `[redacted]` in place of the secret |
| RedactionSecrets.PasswordInQuotes | backend/src/app_util_support.rs:745-766 | For one, `password="x"` comes out as `password="[redacted]"` |
| RedactionSecrets.BearerIsMarked | backend/src/app_util_support.rs:677-700 | `Bearer secret` comes out as `Bearer [redacted]` |
| RedactionSecrets.TokenIsMarked | backend/src/app_util_support.rs:702-721 | A token that begins with `sk-`, in either case, comes out as `[redacted]` |
| RedactionSecrets.PathIsGone | backend/src/app_util_support.rs:660-676 | A path below `/home/` or `/Users/` comes out as `~` |
| RedactionSecrets.HomeIsReplaced | backend/src/app_util_support.rs:654-659 | The trimmed home directory is replaced wherever it stands, unless it is blank or the root |
| RedactionLaws.SomeTextsPanic | backend/src/app_util_support.rs:772-775 | A message whose redaction panics |
| RedactionLaws.RedactionKeepsEnds | backend/src/app_util_support.rs:652-770 | Redaction never runs over the end of a value: all white space, quotes, commas, semicolons and braces stay, in order |
| RedactionLaws.SweptRewrites | backend/src/app_util_support.rs:660-721 | What the loops over paths and tokens change lies within values, and all the rest of the text is where it was |
| RedactionLaws.MarkedRewrites | backend/src/app_util_support.rs:677-769 | The same for the loops over bearer values and keyed secrets |
| RedactionLaws.PlainStays | backend/src/app_util_support.rs:652-770 | A message without any of the patterns is kept as it is |
| RedactionLaws.BearerStopsShort | backend/src/app_util_support.rs:688-699 | A message in which a bearer value is left, because one before it is empty |
| RedactionLaws.BearerIsSwallowed | backend/src/app_util_support.rs:688-721 | A message whose bearer loop gives up at an empty value and whose redacted text has no bare bearer all the same, because the token loop took the needle away |
| AutomationRuns.Profile.Record | backend/src/automation_support.rs:888-934 | A run is recorded exactly when the automation has no active run, in front, in a list cut to 200 |
| AutomationRuns.Profile.Update | backend/src/automation_support.rs:1069-1101 | The first run with the id is changed, and no other; the same edit records a failure |
| AutomationRuns.Profile.CompleteSession | backend/src/automation_support.rs:109-128 | Run by run: those of the session that are running or started end with its status, time and error, and so do completed ones when the session failed or was cancelled; all others stay, and a change is reported exactly if there is one |
| AutomationRuns.EndsItsRuns | backend/src/automation_support.rs:109-128 | A session that has come to an end leaves none of its listed runs active, and the runs of other sessions as they were |
| AutomationRuns.RunsAreListed | backend/src/automation_support.rs:888-934 | A new run is refused exactly while its automation has one running or started; else it is in front of the list, and so is a skipped one, with the last run going when the list is full |
| AutomationRuns.TasksChangeTheirOwn | backend/src/automation_support.rs:1069-1101 | Recording the session of a run, or its failure, changes the record of that run to just that, and no other |
| AutomationRuns.AtMostOneActive | backend/src/automation_support.rs:888-934 | From any list a process loads, over every interleaving of runs, failures, session ends and skips, each automation has at most one listed active run |
| AutomationRuns.StatusNeverGoesBack | backend/src/automation_support.rs:1197-1233 | From any list a process loads, over every interleaving, the status of a listed run never goes back in the order running, started, completed, failed or cancelled |
| AutomationCleanup.Select | backend/src/automation_support.rs:658-704 | A worktree is a candidate exactly if its run is finished, enough finished runs of its automation are more recent, and its session is not busy |
| AutomationCleanup.WhoMayGo | backend/src/automation_support.rs:658-704 | Told by the entries alone: not removed, completed, failed or cancelled, with repository, worktree and id, its session not busy, and at least the number to keep of such runs of its automation before it |
| AutomationCleanup.RecentStay | backend/src/automation_support.rs:679-685 | As many finished runs of each automation as are to be kept are never candidates |
| KeyedLocks.LockTable.GitOperationLock | backend/src/git_write_support.rs:3-21 | Whoever gives references back during the call, the lock returned is that of every outstanding handle for the key and of none for another; of the locks held when it began one is dropped exactly if the key is not among them, they fill the table and one lost its last holder before the search |
| KeyedLocks.LockTable.SessionOperationLock | backend/src/app_util_support.rs:98-109 | The lock returned is that of every outstanding handle for the key and of none for another key, trimmed table or not, whoever gives references back during the call |
| KeyedLocks.LockTable.Trim | backend/src/git_write_support.rs:6-6 | Trimming by reference count drops exactly the locks without a handle |
| KeyedLocks.LockTable.FindIdle | backend/src/git_write_support.rs:8-12 | The search finds a lock that nobody holds, or there is none |
| KeyedLocks.LockTable.DropOneIdle | backend/src/git_write_support.rs:7-15 | One lock that nobody holds goes exactly if a new key comes to a full table and there is one; nothing else ever goes |
| KeyedLocks.LockTable.MakeSpace | backend/src/git_write_support.rs:6-15 | The locks that nobody holds at the trim go, and one more exactly if a new key comes to a table that the others fill and one of them lost its last holder since |
| KeyedLocks.SearchFindsOne | backend/src/git_write_support.rs:7-15 | A run in which the search does find a lock and removes it |
| KeyedLocks.OneSectionPerKey | backend/src/git_write_support.rs:3-21 | However often tables were trimmed, two tasks inside the critical sections of one key are the same task |

## Left out

- Processes, signals, sockets, WebSocket frames and the handoff metadata files: they appear as choices of a step (a spawn succeeds or fails, a write fails, a process is usable or not, a daemon is alive or not).
- Time in the app-server protocol: a deadline may pass at any step that has one. A reader may go on handing over messages of its generation after its process was finalised, as the stdout reader may.
- The order in which a fair lock serves its queue: a reader is taken to wait for every queued writer, and the wait of a queued writer for an earlier one is not followed, the queue being a line.
- Locks that are held for one step only (the process, the turns, the requests, the registry) are not waited for across steps. `has_live_work` keeps `pending` locked while it looks at turns and requests; the machine lets others in between, which only adds runs, and `AppServerWaits` counts the wait.
- The choice of the clients to evict: the machine lets the evicting task try other clients one after the other, any of them and any number of times, and `AppServerManager` has the loop that chooses. Waiting for a free slot has a deadline and counts as free.
- `force_kill_process`: a closing task of the machine covers what it does to one client; its search by process id is not part of this model.
- AppServerRoutes.RetirementIsFinal: does not cover a startup that a caller with a deadline left behind, because that task holds no lifecycle lock and may still install a process.
- AppServerFence.FinaliserIsFenced: speaks of finalisers only, because closing, killing and recovering a process leave its active turns listed.
- AppServerDuties.EndsAreEarned: says nothing of supervisors, because `AppServerExit` does; where one look is told from another it names the place in the code at which the task was.
- AppServerSlots.RunSlots: counts process states and not daemons, because a detached daemon holds no slot.
- AppServerManager.EvictIdleClients: each client is looked at once, and what it shows then is an input, because others may change it between two looks.
- Redaction.RedactAll: says nothing about bearer values and keyed secrets itself; `RedactionMarks` says of the text it computes which are gone, before the text is cut.
- RedactionMarks.BearersAreMarked: one direction, because a later loop may take an unmarked needle away or mark it; `RedactionMarks.ReplacedMarksExactly` says of each replacement when it does. `RedactionMarks.SecretsAreMarked` likewise.
- KeyedLocks.LockTable.GitOperationLock: references are given back between the loops, not in them, because reading one count commutes with giving back a reference to another lock.
- Revocations.ReadLog: a line of the log arrives as a JSON object with an optional nonce string and an optional expiry number, or as something else, because the JSON parser is not part of this model.
- Revocations.Store.Revoke: says of the log only what it says when it could be read and written and the session fits a line of it (a trimmed nonce, an expiry of 64 bits), because a lost append is lost after a restart.
- AutomationRuns.AtMostOneActive: speaks of listed runs, because cutting the list to 200 can drop an active one.
- Automation timers, worktree directories, the user-interface state around the run list, and other fields of a run.
- TomlLaws.DeleteAfterSet: speaks of a value of one line, because the further lines of a longer one stay in the file, as `TomlFrame.LastWriteWinsExactly` shows for a second write.
- TomlSync.SyncCodexToml: the file is a text given and a text returned; creating directories and writing atomically are not part of this model.
- JSON-RPC payloads beyond id, method class and turn id; message parsing; notifications to subscribers.
- HTTP routing, cookies, tokens and their signatures, OAuth, password hashing, attachments, git and GitHub wrappers, the front end.
