# AIgency `models` package, modelled in Dafny

This project models the core of the `models` package of the AIgency agent
platform. It covers four areas.

**Tools (adapters)**
- Tool-call arguments (`ExecutionData`) and their typed accessors.
- Validation of tool arguments against the declared parameters, including
  aliases, the lower-case key match, type checks, defaults and enums.
- Tool jobs exchanged over NATS: creating a job, status updates, results,
  the tool manager's maps, pruning and announcements.
- Job results and their text renderings.
- OpenAI function definitions.

**Missions**
- Mission status logs, with the rule that nothing is added after a "done"
  status.

**Messages**
- Message contents, with the cached concatenated text.
- The files attached to a message and the finders over them.
- Message lists, kept sorted by creation time.
- Role-sequence repair: delete, merge, or insert separators.
- The enumerations for conversation role, message type and token direction.

**Agents, prompts and models**
- Agents and their field validation.
- Versioned agent prompts, which keep the first version and the three most
  recent ones.
- Prompt templates: variable extraction and substitution, prompt
  references with key/value attributes, and resolving references against
  stored prompts.
- AI model features, and the cost items that token, tool-call and image
  usage generate.

## How the model is built

**Shared modules**
- `Wrappers` holds `Option`, a Go slice that can be nil (`Slice`) and
  `Run`, the outcome of a computation that may panic.
- `Strings` holds the `strings` package functions used by the source:
  `Split`, `Join`, `Fields`, `Trim`, `Cut`, lower-casing and decimal
  rendering.
- `Seqs` holds `Filter`, `Map` and the last-wins map fold used for Go loops
  that assign into a map.

**Go semantics**
- A Go panic is a `Panic` outcome in `Run`, never a precondition.
- Go map iteration order is a chooser function. Properties are proved for
  every chooser.
- Times are integers. `time.Time{}` is `None` where a field can be unset.
- Prices and used units are `real`.
- Value-receiver `Set` methods return a pair: the caller's value, which is
  unchanged, and the copy's value.

**Templates**
- Regular-expression matching is not modelled. A template is a sequence of
  segments (`Literal`, `VarTag`, `PromptTag`) as the source's two regular
  expressions, the variable pattern and the prompt pattern, would cut it.
- Turning a stored prompt's content into segments is the `tokenize`
  parameter.

**Behaviours kept as the code has them**

Where the code and its documentation differ, the model follows the code.

*Tool argument validation*
- Missing required parameters are accepted. The required check runs only
  when a matching key was found, so it can never fail.
- The caller's original keys stay in the validated data; the value is
  copied to the canonical name as well.
- The enum check reads the original value. When a default replaced a
  non-string value, the type assertion in the enum check panics.
- Type "number" accepts only floating-point values.

*Tool jobs*
- A status update after a terminal status is applied; there is no guard.
- `AddToolJob` overwrites an existing job with the same id.
- A freshly created job has the empty status, not "queued".

*Enumerations*
- `Set` on the role, message-type and token-direction enums has a value
  receiver, so the caller's value never changes.
- `ConversationRole.Set("system")` yields `Assistant`.

*Message contents*
- `SetSeparatorString` does not recompute the cached full text.
- `AddContent` panics when a file item without a file is present.

*Prompts*
- `GetVersion(0)` on a prompt with no stored versions panics.
- A version number too large for a 64-bit `Sscanf` reads as 0, which
  selects the latest version.
- `parseKeyValuePairs` splits at spaces before it strips quotes, so a
  quoted value with a space keeps only its first word.

## Model

| member | source | states |
|---|---|---|
| Adapters.WithArgument | models/base.adapters.go:228 | setting an argument adds the key, stores the value under it, and leaves every other argument unchanged |
| Adapters.GetArgument | models/base.adapters.go:40-43 | the flag is true exactly when the key is present; the value is the stored one, or Null when missing |
| Adapters.GetArgumentValueAsString | models/base.adapters.go:45-55 | ok exactly when the key holds a string; that string, else "" |
| Adapters.GetArgumentValueAsInt | models/base.adapters.go:57-67 | ok exactly when the key holds an int; that int, else 0 |
| Adapters.GetArgumentValueAsFloat | models/base.adapters.go:69-79 | ok exactly when the key holds a float; that float, else 0.0 |
| Adapters.GetArgumentValueAsBool | models/base.adapters.go:81-91 | ok exactly when the key holds a bool; that bool, else false |
| Adapters.GetArgumentValueAsArrayString | models/base.adapters.go:93-103 | ok exactly when the key holds a []string; that list, else empty |
| Adapters.GetArgumentValueAsArrayInt | models/base.adapters.go:105-115 | ok exactly when the key holds a []int; that list, else empty |
| Adapters.GetArgumentValueAsArrayFloat | models/base.adapters.go:117-127 | ok exactly when the key holds a []float64; that list, else empty |
| Adapters.GetArgumentValueAsArrayBool | models/base.adapters.go:129-139 | ok exactly when the key holds a []bool; that list, else empty |
| Adapters.SetThenGet | models/base.adapters.go:45-139 | each accessor reads back a value of its own type; a value of another type, or an untyped list, reads as the zero value with ok false |
| Adapters.AllowedKeys | models/base.adapters.go:147-150 | the accepted names are the parameter name followed by every alias lower-cased, in order |
| Adapters.MatchingKeys | models/base.adapters.go:152-159 | a caller key matches exactly when it is present and its lower-cased form is one of the accepted names |
| Adapters.KeyMatchesIff | models/base.adapters.go:152-159 | a key matches exactly when its lower-cased form equals the name or a lower-cased alias |
| Adapters.CapitalisedNameNeverMatches | models/base.adapters.go:147-159 | a parameter whose name has an upper-case letter and no aliases never matches any key |
| Adapters.TypeAcceptanceTable | models/base.adapters.go:162-211 | "number" rejects ints; the typed array kinds reject untyped and mismatched lists; an unknown type accepts anything |
| Adapters.CopyToName | models/base.adapters.go:228 | the value found under the caller's key is also stored under the canonical name; the other keys are unchanged |
| Adapters.ChosenKey | models/base.adapters.go:152-159 | no key is chosen exactly when no key matches; a chosen key is present and matches |
| Adapters.ValidateToolArguments | models/base.adapters.go:140-232 | the loop over parameters computes the recursive validation outcome, panic included |
| Adapters.ValidateKeepsCallerKeys | models/base.adapters.go:140-232 | validation never drops a caller key; each added key is a parameter's name; valid holds exactly when there is no error |
| Adapters.ProcessKeys | models/base.adapters.go:162-228 | processing one parameter adds at most its canonical name to the keys |
| Adapters.UnmatchedParametersAreSkipped | models/base.adapters.go:152-159 | when no parameter finds a key, the data is returned unchanged and valid |
| Adapters.MissingRequiredAccepted | models/base.adapters.go:222-226 | a required parameter with no matching key still validates |
| Adapters.SingleParameterOutcome | models/base.adapters.go:162-228 | for one matched parameter: it panics exactly when an enum check meets a defaulted non-string; the type error and the enum error each occur exactly when their condition holds without a default; otherwise it succeeds with the value copied; when the value is rejected and a default exists without a panic, the default computed from the data is stored under the caller's key and the declared name |
| Adapters.ErrorNamesCallerKey | models/base.adapters.go:162-221 | a reported error names a key present in the data |
| Adapters.AliasExample | models/base.adapters.go:152-228 | a capitalised caller key "Query" is accepted for parameter "query" and kept beside the canonical copy |
| Results.NewJobResults | models/base.models.jobresults.go:14-22 | new results carry the ids, no texts or files, the "unknown" state and no error |
| Results.GetResultText | models/base.models.jobresults.go:24-30 | the texts joined, followed by one more separator; empty when there are no texts |
| Results.AddResultText | models/base.models.jobresults.go:36-38 | appends the text and changes nothing else |
| Results.AddResultFile | models/base.models.jobresults.go:40-42 | appends the file and changes nothing else |
| Results.ResultFilesTrackMutators | models/base.models.jobresults.go:14-42 | GetResultFiles reads back no files for new results, one more per added file, and the same files after an added text |
| Results.AddResultTextRendering | models/base.models.jobresults.go:24-38 | after adding a text, the rendering grows by that text and one separator |
| Results.GetResultFilesText | models/base.models.jobresults.go:44-53 | the loop builds the numbered four-line blocks of all files in order |
| Results.FilesTextStartsWithFirstBlock | models/base.models.jobresults.go:44-53 | the rendering starts with the first file's block, numbered 1 |
| Results.FilesTextLineCount | models/base.models.jobresults.go:44-53 | when no field holds a line break, there are exactly four lines per file |
| FunctionCalls.NewFunctionDefinition | models/base.models.functioncalls.go:61-81 | the definition has type "function", the given name and description, and an "object" parameter block with the given properties and required list |
| NatsTools.CreateToolJobFromExecutionData | models/base.models.natstool.go:53-64 | the job copies the ids, tool name and arguments, joins the mission URL, and starts with the empty status and no updates, results or end time |
| NatsTools.AddResultFile | models/base.models.natstool.go:353-357 | appends the file and changes nothing else |
| NatsTools.AddResultData | models/base.models.natstool.go:359-363 | appends the text and changes nothing else |
| NatsTools.UpdateStatus | models/base.models.natstool.go:371-399 | appends the update, sets the status, message and update time, appends the new data and files, sets the end time for a terminal status, and keeps every identity field |
| NatsTools.EndedAfterUpdate | models/base.models.natstool.go:365-399 | after an update the job is ended exactly when the new status is completed, cancelled or failed, and then the end time is the update time |
| NatsTools.NoGuardAfterTerminal | models/base.models.natstool.go:371-399 | a "running" update after the end is applied: the job is no longer ended, though its end time stays |
| NatsTools.UpdatesOnlyAppend | models/base.models.natstool.go:371-399 | a sequence of updates (ApplyUpdates, UpdateStatus once per update) only appends to the update history and the data, the data growing by every update's new data in order (ConcatData); the last update's status wins |
| NatsTools.GetResults | models/base.models.natstool.go:401-408 | the results carry the job's id, tool, texts, files and status, with no error |
| NatsTools.ResultsAfterUpdate | models/base.models.natstool.go:371-408 | the results after an update report its status and all the texts and files so far |
| NatsTools.Names | models/base.models.natstool.go:103-120 | the names of the parameters, in order |
| NatsTools.PropertiesOf | models/base.models.natstool.go:103-120 | the property keys are exactly the parameter names |
| NatsTools.LastDeclarationWins | models/base.models.natstool.go:103-120 | for a repeated name, the last declaration's property is kept |
| NatsTools.GetOpenAIFunctionParameters | models/base.models.natstool.go:103-120 | type "object", one property per parameter name, and the required parameters' names in order |
| NatsTools.RequiredNamesAppend | models/base.models.natstool.go:103-120 | the required list grows by a parameter's name exactly when that parameter is required |
| NatsTools.RequiredMeansDeclaredRequired | models/base.models.natstool.go:103-120 | a name is in the required list exactly when some parameter with that name is required |
| NatsTools.Execute | models/base.models.natstool.go:145-173 | with no executor, the no-executor error and nothing published; otherwise the executor's results and an end update carrying them |
| NatsTools.NewJobHandler | models/base.models.natstool.go:218-262 | a malformed message publishes a failed update; a job for another tool is ignored; a job for this tool is executed |
| NatsTools.PruneExpiredTools | models/base.models.natstool.go:447-458 | keeps exactly the tools announced within the interval, unchanged, and leaves the jobs alone |
| NatsTools.PruneExpiredJobs | models/base.models.natstool.go:460-469 | keeps exactly the jobs not ended longer ago than the retention time, unchanged, and leaves the tools alone |
| NatsTools.RunningJobsSurvivePrune | models/base.models.natstool.go:460-469 | a job that has not ended is never pruned |
| NatsTools.AnnouncedToolSurvivesPrune | models/base.models.natstool.go:447-458 | a tool announced within the interval is never pruned |
| NatsTools.OnAnnouncement | models/base.models.natstool.go:474-489 | an announcement stores the tool under its name with the announce time; an undecodable one changes nothing |
| NatsTools.OnJobUpdate | models/base.models.natstool.go:602-616 | an update for a known job applies UpdateStatus to it; unknown or undecodable updates change nothing; the set of jobs stays the same |
| NatsTools.AddToolJob | models/base.models.natstool.go:622-638 | stores the job under its id, keeps the other jobs and the tools |
| NatsTools.AddToolJobOverwrites | models/base.models.natstool.go:622-638 | re-adding a job id replaces the stored job's history without growing the map |
| NatsTools.GetToolJobStatus | models/base.models.natstool.go:653-661 | the stored job's status; for an unknown id, "unknown" and the not-found error |
| NatsTools.GetTool | models/base.models.natstool.go:492-500 | the tool is found exactly when its name is stored |
| NatsTools.HasTool | models/base.models.natstool.go:512-517 | agrees with GetTool |
| NatsTools.GetToolJob | models/base.models.natstool.go:589-597 | the job is found exactly when its id is stored |
| NatsTools.GetToolNames | models/base.models.natstool.go:502-510 | lists exactly the stored names, one entry per tool |
| NatsTools.ListAvailableTools | models/base.models.natstool.go:664-672 | one entry per stored tool; every entry is a stored tool and every stored tool is listed |
| NatsTools.ExecuteJob | models/base.models.natstool.go:674-686 | creates the job from the data and adds it to the manager |
| NatsTools.SubmittedJobStatus | models/base.models.natstool.go:674-686 | a submitted job reports the empty status and is not pruned at any later time |
| NatsTools.EndedJobIsPrunedLater | models/base.models.natstool.go:460-469 | a job that received a terminal update is pruned once the retention time has passed |
| Missions.IdShapes | models/base.models.missions.go:81-84 | mission ids and status-update ids are 20 bytes with their own prefixes; for ASCII ids that is 20 characters, otherwise between 5 and 20 |
| Missions.GeneratedIdsAccepted | models/base.models.missions.go:81-84 | a prefix, `_` and 16 ASCII characters pass their own check and not the other one; one character fewer fails |
| Missions.WideCharacterRejected | models/base.models.missions.go:81-84 | a 20-character status-update id holding a two-byte character is rejected, as `len` counts bytes |
| Missions.StatusClasses | models/base.models.missions.go:155-161 | a created update is neither done nor running, and no update is both |
| Missions.GetLatestStatusUpdate | models/base.models.missions.go:196-203 | the last entry, or none for an empty log |
| Missions.LatestEntryDecides | models/base.models.missions.go:219-237 | a log is done or running exactly as its last entry is |
| Missions.StatusGettersAfterAdd | models/base.models.missions.go:175-217 | for GetStatusUpdates, GetStatusUpdatesCount and GetLatestStatusUpdate: after an accepted update the log read back gains exactly it, the count grows by one and the latest is it; a refused update changes nothing; the count is zero exactly when there is no latest update |
| Missions.StatusGettersAfterAddAll | models/base.models.missions.go:175-217 | for GetStatusUpdates and GetStatusUpdatesCount: over any sequence of additions the earlier entries stay in place and the count grows by at most one per call |
| Missions.AddStatus | models/base.models.missions.go:175-194 | rejects a nil update or a bad id as invalid, rejects any update once the log is done, and otherwise appends exactly that update |
| Missions.DoneIsFinal | models/base.models.missions.go:185-188 | once done, no further updates change the log |
| Missions.AddStatusKeepsWellFormed | models/base.models.missions.go:175-194 | adding keeps every id well formed and only the last entry done |
| Missions.AddAllWellFormed | models/base.models.missions.go:175-194 | any sequence of additions keeps the log well formed |
| MessageFiles.MessageFileIdShape | models/base.models.aigencymessagefile.go:45-48 | file ids are 20 bytes starting "amf"; for ASCII ids, 20 characters |
| MessageFiles.NewMessageFile | models/base.models.aigencymessagefile.go:29-39 | the file carries the given id, name, path, mime type and URL, size 0 and empty metadata |
| MessageFiles.AddFile | models/base.models.aigencymessagefile.go:93-97 | appends the file and keeps the earlier ones |
| MessageFiles.MatchesPatternIsContains | models/base.models.aigencymessagefile.go:131-169 | the prefix-or-suffix-or-contains test is the same as containment |
| MessageFiles.FindFileByMimeType | models/base.models.aigencymessagefile.go:105-116 | the files with that mime type in order; nil exactly when there are none |
| MessageFiles.FindFileByMimeTypes | models/base.models.aigencymessagefile.go:118-129 | the files whose mime type is listed, in order; nil exactly when there are none |
| MessageFiles.FindFileByMimeTypePatterns | models/base.models.aigencymessagefile.go:131-144 | each file occurs as often as it occurs in the list times the number of patterns its mime type matches; nil exactly when no file matches any pattern |
| MessageFiles.PatternResultMembership | models/base.models.aigencymessagefile.go:131-144 | a file is returned exactly when some pattern occurs in its mime type |
| MessageFiles.PatternDuplicates | models/base.models.aigencymessagefile.go:131-144 | a file matching two patterns is returned twice |
| MessageFiles.IndexByName | models/base.models.aigencymessagefile.go:146-156 | the position of the first file with the name, or -1 when none has it |
| MessageFiles.FindFileByName | models/base.models.aigencymessagefile.go:146-156 | the first file with that name; none exactly when no file has it |
| MessageFiles.FindFilesByPattern | models/base.models.aigencymessagefile.go:158-169 | the files passing the name test, in order; nil exactly when no file name contains the pattern |
| MessageFiles.FindFilesByPatternMembership | models/base.models.aigencymessagefile.go:158-169 | a file is found exactly when the pattern occurs in its name |
| MessageFiles.FindFilesByPatternNoRepeats | models/base.models.aigencymessagefile.go:158-169 | no file is returned more often than it occurs in the list |
| Messages.MessageIdShape | models/base.models.aigencymessage.go:95-97 | message ids are 20 bytes starting "msg"; for ASCII ids, 20 characters |
| Messages.NewMessage | models/base.models.aigencymessage.go:75-89 | a new message has the id and time, empty maps, an empty content list, no attachments and no tokens |
| Messages.NewContent | models/base.models.aigencymessage.go:126-140 | an absent text is ""; the file is kept only for a file item |
| Messages.NewContentList | models/base.models.aigencymessage.go:149-156 | empty data and text, with a line break as separator |
| Messages.SetSeparatorString | models/base.models.aigencymessage.go:158-162 | replaces the separator and leaves data and cached text as they were |
| Messages.SeparatorAccessors | models/base.models.aigencymessage.go:149-252 | the separator read back is the one last set, a new list's is a line break, and adding, deleting by type and clearing keep it |
| Messages.AccumulateIsTerminated | models/base.models.aigencymessage.go:196-211 | the loop panics exactly on an included file item without a file; otherwise it yields the included texts joined by the separator |
| Messages.AccumulatePanics | models/base.models.aigencymessage.go:196-211 | the loop panics exactly when some included file item has no file |
| Messages.AccumulateDone | models/base.models.aigencymessage.go:196-211 | a loop that does not panic yields each included text followed by the separator |
| Messages.GetConcatenatedText | models/base.models.aigencymessage.go:196-211 | panics exactly on an included file item without a file; otherwise the included item texts joined by the separator |
| Messages.Refresh | models/base.models.aigencymessage.go:170-175 | recomputing the cached text panics exactly when a file item lacks its file; otherwise the cache is in sync |
| Messages.AddContent | models/base.models.aigencymessage.go:170-175 | appends the item and resynchronises the cached text, panicking exactly when a file item lacks its file |
| Messages.AddContentExtendsFullText | models/base.models.aigencymessage.go:170-211 | adding a text or file item extends the cached text by one separator and the item's text; other items leave it |
| Messages.DeleteContentByType | models/base.models.aigencymessage.go:225-236 | keeps exactly the items of other types, in order, and resynchronises |
| Messages.GetContentByType | models/base.models.aigencymessage.go:185-194 | the items of that type in order; nil exactly when there are none |
| Messages.DeleteAndGetPartition | models/base.models.aigencymessage.go:185-236 | the deleted and the kept items together are a permutation of the data |
| Messages.DeleteContentByIndex | models/base.models.aigencymessage.go:238-245 | removes the item at a valid index and otherwise keeps the data; resynchronises |
| Messages.DeleteByIndexShifts | models/base.models.aigencymessage.go:238-245 | items before the index stay, later ones move down by one |
| Messages.ClearData | models/base.models.aigencymessage.go:247-252 | empties data and text and keeps the separator |
| Messages.MutatorsKeepSynced | models/base.models.aigencymessage.go:170-252 | every mutator except SetSeparatorString leaves the cache in sync |
| Messages.SetSeparatorDesyncs | models/base.models.aigencymessage.go:158-162 | changing the separator leaves a stale cached text |
| Messages.GetContentByIndex | models/base.models.aigencymessage.go:254-261 | the item at a valid index, otherwise none |
| Messages.CountTracksMutators | models/base.models.aigencymessage.go:149-273 | for IsEmpty, Count and GetData: a new list is empty; empty, zero count and no data coincide; adding appends the item and counts one more; clearing empties; deleting an index in range counts one fewer and otherwise keeps the count |
| Messages.CountAndIndex | models/base.models.aigencymessage.go:254-273 | an index finds an item exactly when it is below the count |
| Messages.TextLength | models/base.models.aigencymessage.go:275-279 | panics exactly when an included file item lacks its file; otherwise the byte length of the included texts joined by the separator |
| Messages.TextLengthOfSynced | models/base.models.aigencymessage.go:275-279 | on a synced list, the byte length of the cached text: at least its character count, at most four bytes per character, equal for ASCII |
| Messages.TextLengthAfterAdd | models/base.models.aigencymessage.go:170-279 | adding a text or file item adds the separator's bytes (unless nothing was rendered before) and the item's bytes |
| Messages.GetAIgencyFileList | models/base.models.aigencymessage.go:213-223 | exactly one file per file item that carries one, in data order: the i-th result is the file of the i-th such item |
| Messages.FileListMembership | models/base.models.aigencymessage.go:213-223 | a file is listed exactly when some file item carries it |
| Messages.ItemOfFileList | models/base.models.aigencymessage.go:213-223 | every listed file is the file of some file item of the data |
| Messages.FileListHasItem | models/base.models.aigencymessage.go:213-223 | the file of every file item that carries one is listed |
| MessageLists.NewMessageList | models/base.models.aigencymessagelist.go:14-18 | an empty list |
| MessageLists.Insert | models/base.models.aigencymessagelist.go:82-86 | inserting into a sorted list keeps it sorted and one longer |
| MessageLists.InsertPermutes | models/base.models.aigencymessagelist.go:82-86 | inserting adds exactly the new message |
| MessageLists.SortByCreatedAt | models/base.models.aigencymessagelist.go:82-86 | the result is sorted by creation time and as long as the input |
| MessageLists.SortPermutes | models/base.models.aigencymessagelist.go:82-86 | sorting is a permutation |
| MessageLists.InsertNewest | models/base.models.aigencymessagelist.go:82-86 | a message not older than the rest goes to the end |
| MessageLists.SortSortedIsIdentity | models/base.models.aigencymessagelist.go:82-86 | sorting a sorted list changes nothing |
| MessageLists.AddMessage | models/base.models.aigencymessagelist.go:20-26 | the list stays sorted and gains exactly the message |
| MessageLists.AddMessages | models/base.models.aigencymessagelist.go:36-42 | the list stays sorted and gains exactly the messages |
| MessageLists.CopyMessages | models/base.models.aigencymessagelist.go:28-34 | the list stays sorted and gains exactly the other list's messages |
| MessageLists.AddNewestAppends | models/base.models.aigencymessagelist.go:20-26 | adding the newest message appends it |
| MessageLists.GetLatestMessage | models/base.models.aigencymessagelist.go:51-56 | the last message, or none for an empty list |
| MessageLists.GetMessageByIndex | models/base.models.aigencymessagelist.go:58-63 | the message at a valid index, otherwise none |
| MessageLists.ClearMessages | models/base.models.aigencymessagelist.go:65-70 | an empty list |
| MessageLists.ListGettersTrackMutators | models/base.models.aigencymessagelist.go:20-192 | for GetMessages, GetMessagesCount, GetMessageByIndex and GetLatestMessage: adding counts one more per message, keeps every earlier message and the sort order; clearing and a new list count none; an index finds a message exactly below the count; there is a latest message exactly when the count is positive |
| MessageLists.RemoveMessageByIndex | models/base.models.aigencymessagelist.go:72-80 | at a valid index, the list loses exactly that message and is re-sorted; otherwise unchanged |
| MessageLists.RemoveFromSorted | models/base.models.aigencymessagelist.go:72-80 | removing from a sorted list just drops the entry |
| MessageLists.Select | models/base.models.aigencymessagelist.go:89-156 | the matching messages in order; nil exactly when none match |
| MessageLists.GetMessagesByReferenceID | models/base.models.aigencymessagelist.go:89-100 | the messages with that reference id, in order; nil exactly when none |
| MessageLists.GetMessagesByResponseToID | models/base.models.aigencymessagelist.go:103-114 | the messages answering that id, in order; nil exactly when none |
| MessageLists.GetMessagesBySenderID | models/base.models.aigencymessagelist.go:117-128 | the messages from that sender, in order; nil exactly when none |
| MessageLists.GetMessagesByRole | models/base.models.aigencymessagelist.go:131-142 | the messages with that role, in order; nil exactly when none |
| MessageLists.GetMessagesByType | models/base.models.aigencymessagelist.go:145-156 | the messages of that type, in order; nil exactly when none |
| MessageLists.LookupExact | models/base.models.aigencymessagelist.go:89-156 | a lookup returns every matching occurrence and nothing else |
| MessageLists.LastIndexOfType | models/base.models.aigencymessagelist.go:159-169 | the last position with that type, or -1 |
| MessageLists.GetLatestMessageByType | models/base.models.aigencymessagelist.go:159-169 | the last message of that type; none exactly when there is none |
| MessageLists.LatestIsLastOfLookup | models/base.models.aigencymessagelist.go:145-169 | the latest of a type is the last of the type lookup |
| MessageLists.GetFirstMessageByType | models/base.models.aigencymessagelist.go:172-184 | a one-element list with the first message of that type; nil exactly when there is none |
| MessageLists.Runs | models/base.models.aigencymessagelist.go:237-263 | the list cut into maximal runs of one role, which concatenate back to the list |
| MessageLists.MergeRun | models/base.models.aigencymessagelist.go:280-342 | a merged run keeps the first role, sums the tokens, takes the id and times of the kept message and all contents and attachments; panics exactly when a file item lacks its file |
| MessageLists.AddAllAppends | models/base.models.aigencymessagelist.go:303-310 | adding a run's items one by one panics exactly when one is a file item without a file; otherwise the items are appended in order and the separator kept |
| MessageLists.AddAllSynced | models/base.models.aigencymessagelist.go:303-310 | adding items one by one to a list whose cached text is in sync keeps it in sync |
| MessageLists.MergeMapsLastWins | models/base.models.aigencymessagelist.go:320-329 | a merged map has a key exactly when some message of the run has it, with the value of the last such message |
| MessageLists.MergedKeepsRoleAndTokens | models/base.models.aigencymessagelist.go:280-342 | a merged message has the run's first role and the run's total token count |
| MessageLists.Separator | models/base.models.aigencymessagelist.go:344-374 | a system message from "system" placed one tick before the next message, in its thread, holding the separator text |
| MessageLists.WithSeparators | models/base.models.aigencymessagelist.go:344-374 | a separator goes between every two neighbouring messages of a run |
| MessageLists.ResolveRun | models/base.models.aigencymessagelist.go:265-376 | single messages stay; delete keeps the oldest or newest; separators are interleaved; unknown strategies keep the run |
| MessageLists.ResolveRoleSequenceViolations | models/base.models.aigencymessagelist.go:237-263 | lists shorter than two are returned as they are; longer ones are resolved run by run |
| MessageLists.IgnoreKeepsList | models/base.models.aigencymessagelist.go:237-263 | the ignore strategy returns the list unchanged |
| MessageLists.DeleteResolves | models/base.models.aigencymessagelist.go:274-278 | delete leaves one message per run, the requested one, and roles alternate |
| MessageLists.DeleteKeepsOnePerRun | models/base.models.aigencymessagelist.go:274-278 | delete never panics and leaves exactly the newest (keepNewest) or the oldest message of each run |
| MessageLists.MergeResolves | models/base.models.aigencymessagelist.go:280-342 | merge leaves one message per run, roles alternate, and the token total is kept |
| MessageLists.MergePanicsIff | models/base.models.aigencymessagelist.go:280-342 | merge panics exactly when a run of two or more carries a file item without a file |
| MessageLists.MergeOnePerRun | models/base.models.aigencymessagelist.go:280-342 | a merge that does not panic yields, per run, the message merged from it |
| MessageLists.InsertSeparatorsResolves | models/base.models.aigencymessagelist.go:344-374 | separators never fail and add one message per same-role neighbour pair; only system messages share a role with a neighbour, and roles alternate when no message is a system message; removing the separators gives the list back, each separator being the one made for the message after it |
| MessageLists.SeparatorsUnmarked | models/base.models.aigencymessagelist.go:344-374 | removing the inserted separators from the result gives back the runs laid end to end |
| MessageLists.SeparatorsPrecede | models/base.models.aigencymessagelist.go:344-374 | every inserted separator is the one built for the message right after it |
| MessageLists.SeparatorsEnd | models/base.models.aigencymessagelist.go:344-374 | the result ends with the last message of the last run |
| MessageLists.SeparatedRunShares | models/base.models.aigencymessagelist.go:344-374 | within one separated run only system messages share a role with a neighbour, and roles alternate for a non-system run |
| MessageLists.SeparatorsShareOnlySystem | models/base.models.aigencymessagelist.go:344-374 | in the whole result only system messages share a role with a neighbour |
| MessageLists.SeparatorsAlternate | models/base.models.aigencymessagelist.go:344-374 | with no system run, the whole result alternates roles |
| MessageLists.SeparatorsLength | models/base.models.aigencymessagelist.go:344-374 | separators never panic, and a run of k messages becomes 2k-1 |
| ConversationRoles.EqualsAndEqualsRole | models/base.models.conversationrole.go:34-40 | a role equals its own string; EqualsRole implies Equals; Equals ignores case and EqualsRole does not |
| ConversationRoles.SetMapping | models/base.models.conversationrole.go:19-32 | Set yields only user, assistant or unknown |
| ConversationRoles.Set | models/base.models.conversationrole.go:19-32 | the caller's role is unchanged; the copy gets the mapped role |
| ConversationRoles.SetIsNoOp | models/base.models.conversationrole.go:19-32 | Set never changes the caller; "System" and "system" both map to assistant |
| MessageTypes.EqualsAndEqualsRole | models/base.models.aigencymessagetype.go:31-37 | a type equals its own string; EqualsRole implies Equals; only Equals ignores case |
| MessageTypes.SetMapping | models/base.models.aigencymessagetype.go:20-29 | "state-update" in any case maps to the state-update type, anything else to message |
| MessageTypes.Set | models/base.models.aigencymessagetype.go:20-29 | the caller's type is unchanged; the copy gets the mapped type |
| MessageTypes.SetIsNoOp | models/base.models.aigencymessagetype.go:20-29 | Set never changes the caller's value |
| TokenDirections.EqualsIsExact | models/base.models.tokendirection.go:24-26 | Equals is exact, case-sensitive comparison |
| TokenDirections.SetMapping | models/base.models.tokendirection.go:15-22 | a known direction is taken; anything else keeps the current one |
| TokenDirections.Set | models/base.models.tokendirection.go:15-22 | the caller's value is unchanged; the copy gets the mapped direction |
| TokenDirections.SetIsNoOp | models/base.models.tokendirection.go:15-22 | Set never changes the caller's value |
| AIModels.ModelIdShape | models/base.models.aimodels.go:235-238 | model ids are 20 bytes starting "aimodel"; for ASCII ids, 20 characters |
| AIModels.NewAIModel | models/base.models.aimodels.go:219-229 | a new model has the id, no parameters or features, and equal creation and update times |
| AIModels.GetCostItemByCostUnit | models/base.models.aimodels.go:106-117 | the first template with that unit; none exactly when no template has it |
| AIModels.RelativeUnits | models/base.models.aimodels.go:155-163 | per-million units are divided by one million, the others kept |
| AIModels.NewExecutionUsageCost | models/base.models.aimodels.go:155-173 | the price is scaled by the multiplier; source cost is price times relative units; the cost is source cost times multiplier |
| AIModels.UsageCostArithmetic | models/base.models.aimodels.go:155-173 | one unit (a million for per-million units) costs the list price; cost is additive in used units |
| AIModels.CreateUsedFeatures | models/base.models.aimodels.go:119-138 | a capability mismatch is an error; otherwise one used feature per template with that unit, in template order, each with no constraints or templates and one cost item priced by its template for the used units and multiplier |
| AIModels.UsedFeaturesIffTemplate | models/base.models.aimodels.go:106-138 | a used feature exists exactly when the feature has a template for the unit, and its cost comes from the first one |
| AIModels.FirstMatchIsFilterHead | models/base.models.aimodels.go:106-117 | the first template found is the head of the templates with that unit |
| AIModels.UsageCosts | models/base.models.aimodels.go:265-284 | no error; every result has the capability and one cost item of the unit |
| AIModels.UsageCostsConcatenateContributions | models/base.models.aimodels.go:265-284 | the result is the used features of each feature of the capability that prices the unit, laid end to end in feature order |
| AIModels.CalculateUsageCostsForFeature | models/base.models.aimodels.go:265-284 | no error; every result has the capability and one cost item of the unit; the result is each feature's contribution laid end to end in feature order, a feature contributing only when it has the capability and prices the unit |
| AIModels.UsageCostsEmptyIff | models/base.models.aimodels.go:265-284 | no cost arises exactly when no feature of the capability prices the unit |
| AIModels.UsageCostsUnits | models/base.models.aimodels.go:265-284 | every cost item carries the used units, converted for per-million units |
| AIModels.CalculateCostForText2Text | models/base.models.aimodels.go:286-313 | no error; nil exactly when nothing is charged; every item is a text-to-text token cost or a function-call cost |
| AIModels.Text2TextGroupOrder | models/base.models.aimodels.go:286-313 | the output-token costs come first, then the input-token costs, then the tool-call costs |
| AIModels.Text2TextByUnit | models/base.models.aimodels.go:286-313 | the output, input and tool-call items are each that unit's feature costs, present only for a positive count |
| AIModels.SeparateUnits | models/base.models.aimodels.go:286-313 | selecting one unit from the three parts gives back that part |
| AIModels.CalculateCostForText2Image | models/base.models.aimodels.go:315-326 | nil for a non-positive count or when no text-to-image feature prices images; otherwise the image-generation costs |
| AIModels.Text2ImageCounts | models/base.models.aimodels.go:315-326 | every image cost is a text-to-image item counting the images |
| Agents.AgentIdShape | models/base.models.agents.go:73-76 | agent ids are 22 bytes starting "agent"; for ASCII ids, 22 characters |
| Agents.NewAgent | models/base.models.agents.go:57-67 | a new agent has the id and time, empty metadata, and no name, model, owner or lists |
| Agents.ValidateAgent | models/base.models.agents.go:78-87 | no error exactly when every field rule holds; otherwise the generic invalid-agent error |
| Agents.NewAgentIsInvalid | models/base.models.agents.go:57-87 | a fresh agent fails validation |
| Agents.ValidationIgnoresUntaggedFields | models/base.models.agents.go:37-87 | visibility, host location, metadata and timestamps do not affect validity |
| Agents.RepeatedSystemMessageIsInvalid | models/base.models.agents.go:37-87 | a repeated system message makes the agent invalid |
| Agents.GetSystemMessagesAsString | models/base.models.agents.go:89-91 | no messages give ""; one message gives itself |
| Agents.SystemMessagesRoundTrip | models/base.models.agents.go:89-91 | splitting at line breaks gives back messages that contain none |
| AgentPrompts.PromptIdShape | models/base.models.agentprompts.go:11-16 | prompt ids are 15 bytes starting "prt"; for ASCII ids, 15 characters |
| AgentPrompts.GeneratedPromptIdAccepted | models/base.models.agentprompts.go:11-16 | the prefix and 12 ASCII characters form a prompt id; with a separator after the prefix it is one byte too long |
| AgentPrompts.NewAgentPrompt | models/base.models.agentprompts.go:72-81 | a new prompt is private, at version 1, with no stored versions |
| AgentPrompts.Retain | models/base.models.agentprompts.go:104-107 | up to four versions are kept as they are; longer lists keep the first and the last three |
| AgentPrompts.AddVersion | models/base.models.agentprompts.go:92-108 | the counter goes up by one; the new version is last; at most four are kept, the first included; nothing else changes |
| AgentPrompts.IndexOfVersion | models/base.models.agentprompts.go:114-119 | the position of the first entry with that number, or -1 |
| AgentPrompts.GetVersion | models/base.models.agentprompts.go:110-120 | 0 panics on an empty list and otherwise gives the last entry; another number gives the first entry with it, none exactly when absent |
| AgentPrompts.NewIsWellVersioned | models/base.models.agentprompts.go:72-81 | a new prompt satisfies the version invariant |
| AgentPrompts.RetainKeepsIncreasing | models/base.models.agentprompts.go:104-107 | retention keeps increasing numbers increasing and invents no entry |
| AgentPrompts.AddVersionKeepsWellVersioned | models/base.models.agentprompts.go:92-108 | adding a version keeps the numbers increasing and below the counter |
| AgentPrompts.GetAddedVersion | models/base.models.agentprompts.go:92-120 | after adding, both version 0 and the new number fetch the added version |
| AgentPrompts.GetVersionUnique | models/base.models.agentprompts.go:110-120 | in a well-versioned prompt every stored number fetches its own entry, and 0 fetches the highest |
| AgentPrompts.Upto | models/base.models.agentprompts.go:92-108 | the numbers 1 to n |
| AgentPrompts.AddVersionNumbers | models/base.models.agentprompts.go:92-108 | the stored numbers after adding are the retained old numbers plus the counter |
| AgentPrompts.AddVersionsHistory | models/base.models.agentprompts.go:72-108 | after n additions to a new prompt, the counter is n+1 and the kept numbers are 1..n, or 1, n-2, n-1, n |
| AgentPrompts.HistoryStep | models/base.models.agentprompts.go:92-108 | adding version n to the kept numbers of n-1 additions gives the kept numbers of n additions: 1 and the last three |
| PromptTemplates.ToVariable | models/base.models.agentprompts.variables.go:20-36 | name and default are copied; options are nil exactly for empty option text, and joining them with commas gives the text back |
| PromptTemplates.ExtractVariables | models/base.models.agentprompts.variables.go:20-36 | one variable per variable tag, in template order: the i-th entry is the variable declared by the i-th variable tag |
| PromptTemplates.ExtractVariablesMembership | models/base.models.agentprompts.variables.go:20-36 | a variable is extracted exactly when some variable tag describes it |
| PromptTemplates.ExtractVariablesCount | models/base.models.agentprompts.variables.go:20-36 | one variable per variable tag, duplicates included |
| PromptTemplates.EntryFromTag | models/base.models.agentprompts.variables.go:20-36 | every extracted variable is declared by some variable tag |
| PromptTemplates.TagGivesEntry | models/base.models.agentprompts.variables.go:20-36 | every variable tag gives an extracted variable |
| PromptTemplates.VarValue | models/base.models.agentprompts.variables.go:38-52 | the supplied value, else the default, else the missing-value marker |
| PromptTemplates.ReplaceVariablesAppend | models/base.models.agentprompts.variables.go:38-52 | substitution works piece by piece over concatenated templates |
| PromptTemplates.ReplaceVariablesIdentity | models/base.models.agentprompts.variables.go:38-52 | a template without variable tags is returned as its text |
| PromptTemplates.ReplaceVariablesLocal | models/base.models.agentprompts.variables.go:38-52 | only the values of names used in tags matter |
| PromptTemplates.Pair | models/base.models.agentprompts.variables.go:77-89 | a part yields a pair exactly when it contains "=" |
| PromptTemplates.ParseKeyValuePairsLastWins | models/base.models.agentprompts.variables.go:77-89 | a key is present exactly when some word assigns it, and the last such word gives its value |
| PromptTemplates.PairOfAttribute | models/base.models.agentprompts.variables.go:77-89 | a rendered key="value" attribute parses back to its pair |
| PromptTemplates.Attributes | models/base.models.agentprompts.variables.go:77-89 | one attribute per pair |
| PromptTemplates.AssignAttributes | models/base.models.agentprompts.variables.go:77-89 | parsing the attributes gives the same map as assigning the pairs |
| PromptTemplates.ParseKeyValuePairsRoundTrip | models/base.models.agentprompts.variables.go:77-89 | rendering space-free pairs and parsing them gives back the pairs, last wins |
| PromptTemplates.AttributeWord | models/base.models.agentprompts.variables.go:77-89 | each rendered attribute is one non-empty word |
| PromptTemplates.QuotedSpaceSplits | models/base.models.agentprompts.variables.go:77-89 | name="John Smith" parses to name = John |
| PromptTemplates.QuotedSpacePairs | models/base.models.agentprompts.variables.go:77-89 | the word name="John yields name = John and the word Smith" yields no pair |
| PromptTemplates.Reference | models/base.models.agentprompts.variables.go:54-75 | the attributes plus the tag's version, which an explicit version attribute overrides |
| PromptTemplates.ExtractPromptReferences | models/base.models.agentprompts.variables.go:54-75 | an id is present exactly when a tag names it; the last such tag gives its attributes |
| PromptTemplates.ScanInt | models/base.models.agentprompts.variables.go:91-119 | the decimal value when it fits in 64 bits, otherwise 0 |
| PromptTemplates.ResolveTag | models/base.models.agentprompts.variables.go:91-119 | unknown ids and versions give their markers; a found version is its content with variables replaced; it panics exactly on version 0 of a prompt with no versions |
| PromptTemplates.Pieces | models/base.models.agentprompts.variables.go:91-119 | one resolved piece per segment |
| PromptTemplates.ConcatPanics | models/base.models.agentprompts.variables.go:91-119 | joining pieces panics exactly when one of them does |
| PromptTemplates.ConcatAppend | models/base.models.agentprompts.variables.go:91-119 | joining works piece by piece |
| PromptTemplates.ResolveAllPanics | models/base.models.agentprompts.variables.go:91-119 | resolution panics exactly when some tag does |
| PromptTemplates.ReplacePromptReferences | models/base.models.agentprompts.variables.go:91-119 | panics exactly when a tag does; otherwise the resolved text with no error |
| PromptTemplates.ResolveAllAppend | models/base.models.agentprompts.variables.go:91-119 | resolution works piece by piece over concatenated templates |
| PromptTemplates.ResolveAllIdentity | models/base.models.agentprompts.variables.go:91-119 | a template without prompt tags resolves to its text |
| PromptTemplates.ResolveAddedVersion | models/base.models.agentprompts.variables.go:91-119 | a reference to the latest or the new version resolves to the newly added content |

## Left out

- NATS transport: connecting, subscribing, publishing and request/reply are not modelled. Decoded messages are inputs and published updates are outputs. `StopToolJob` is only a publish call, so it is left out.
- Timers, goroutines and mutexes are left out. Each operation is one atomic step on immutable values.
- NatsTools.UpdateStatus: the send of the update on the job's `UpdatesChannel` (models/base.models.natstool.go:398) is left out. That channel is unbuffered (:44), and the update handler of `ListenForToolJobUpdates` calls `UpdateStatus` while it holds the manager's lock (:608-616). So in the program every job update blocks, with the manager locked, until some reader takes it off the channel. The model applies the update and returns.
- Overlapping template tags: the prompt pattern's attribute text may contain `<` and `"`, so text such as `<aic:prompt id="x" <aic:var name="y"/>` is matched by both patterns, the variable tag inside the prompt tag. The program then replaces variables and prompts in separate passes over the text; the model takes one cut into segments and does not represent such nested matches.
- Adapters.ValidateToolArguments: `jobData` is passed by value, but its `Arguments` map is shared with the caller. Each write (models/base.adapters.go:166-228) therefore also lands in the caller's map, even when a later parameter fails. The model returns the updated data and does not model the shared map.
- Strings are sequences of Unicode scalar values. Go strings can hold invalid UTF-8, which the model does not represent. Lengths Go takes with `len` are counted in UTF-8 bytes (`Utf8Length`).
- Configuration reads through viper are left out; the adapter base URL is a constant and `path.Join` is the `joinPath` parameter.
- JSON encoding and decoding is left out; malformed input is a `Malformed` message carrying the decoder's error text.
- Writing OpenAI definitions: `GetOpenAIFunctionDefinitions`, `GetOpenAIToolsForLib` and `WriteOpenAIFunctionDefinitionsToDisc` produce library types or files. Only `GetOpenAIFunctionParameters` and `NewOpenAIFunctionDefinition` are modelled.
- `ValidateMission` and `ValidateAIModel` call the validator library with no field rules worth modelling. `ValidateAgent` is modelled from its struct tags, and URL syntax is the `isUrl` parameter.
- Id generation through NID is left out; fresh ids are parameters (`id`, `mintId`).
- Token counting with tiktoken (`TokenCount` and its helpers) is a foreign library; message token counts are plain fields.
- Regular expressions are left out: templates arrive already cut into segments, and stored prompt contents are cut by the `tokenize` parameter.
- Floating-point rounding is left out; prices and units are exact reals.
- Case folding is ASCII only; `strings.ToLower` on other letters is not modelled.
- Files on disk: `ReadFileContentFromLocal` and `AddFileFromManagedFile` read files, so they are left out; `GetFiles` and the file-list constructor only wrap a slice.
- `GetFeaturesForCapability` is left out; it is not called by the modelled cost functions.
- Nil pointers inside lists and maps are left out: nil messages, nil content items, nil prompts and nil version pointers. A nil file inside a file item is modelled, because the code reaches it.
- MessageLists.SortByCreatedAt: `sort.Slice` is not stable; the model sorts stably, and its contracts state only sortedness and permutation, which both hold.
- 64-bit overflow of `CreatedAt - 1` and of the version counter is left out; integers are unbounded.
- One clock reading serves each operation where the code calls `time.Now()` more than once.
- The plain data holders (agent teams, runs, API keys, budgets, model services, adapter file info) have no behaviour beyond their fields.
