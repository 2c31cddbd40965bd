# Timetable Management System, modelled in Dafny

The Timetable Management System is a school timetable editor. A Node server
holds the authoritative state: the schedule, five master-data lists
(teachers, classes, subjects, rooms and events) and four settings records.
Browser clients connect over a WebSocket. A client applies each edit to its
own copy at once and sends the action to the server. The server applies the
action and broadcasts the full state to every open connection, and a client
that receives a snapshot replaces everything it holds. On top of this store
the client detects conflicts for each day and period, prints class and
teacher timetables, reports teacher workloads, analyses the timetable on a
dashboard, imports and exports master data as CSV and JSON, and offers
forms to edit entries, master data and settings.

This project restates that core as immutable datatypes and pure functions
and proves what the code promises about it:

- `wrappers`, `seqs`, `strings` and `jsonvalues` hold the generic pieces:
  options, filtering and grouping of sequences, JavaScript string
  functions on ASCII text, and JSON values with object spread.
- `entities` and `masterkinds` define the records and the five kinds of
  master data. `defaults` holds the sample data and default settings of
  the client and of the server.
- `conflicts` is the conflict detector.
- `actions` defines the action union and the list operations it uses.
- `loading` covers the default-filling merges applied at load time.
- `transport` and `socket` model the connection state machine and the
  send policy.
- `server` is the authoritative handler and its broadcast. `client` is the
  optimistic store. `sync` relates the two.
- `workload`, `condense` and `runs` model the workload report.
  `dashboard` models the dashboard's workload ranking and department
  spread; `teacherdays`, `gaps`, `classdays`, `roomload` and `advice`
  model its other analyses and its recommendations.
- `grid` and `templates` model the timetable grid and the two printed
  templates.
- `scheduleform` and `masterdata` model the entry and master-data forms.
  `importexport` models CSV validation and import, export and the full
  JSON backup.
- `settingsforms`, `unscheduled`, `searchselect` and `exportprint` model
  the smaller screens.

Ids, colours and uuids are drawn at random in the program. Here they are
parameters: a list of fresh ids, a colour pick or an id suffix. A confirm
dialog is a boolean parameter. A message on the wire is either delivered or
dropped.

## Model

| member | source | states |
|---|---|---|
| Entities.EventEntry | server.js:141-144 | an event placement has the day, period, event and at most one class, and no subject, teacher or room |
| Entities.EntryIds | server.js:149-155 | the ids of the entries, in order |
| Entities.FindTeacher | hooks/useTimetable.ts:141 | the lookup finds a stored teacher with the id, and fails exactly when no teacher has it |
| Entities.FindSubject | hooks/useTimetable.ts:139 | the lookup finds a stored subject with the id, and fails exactly when no subject has it |
| Entities.FindEvent | hooks/useTimetable.ts:140 | the lookup finds a stored event with the id, and fails exactly when no event has it |
| Entities.FindRoom | hooks/useTimetable.ts:142 | the lookup finds a stored room with the id, and fails exactly when no room has it |
| Entities.FindClass | hooks/useTimetable.ts:143 | the lookup finds a stored class with the id, and fails exactly when no class has it |
| Entities.EventOf | hooks/useTimetable.ts:176-178 | an entry's event is found only when its event id is set and resolves |
| Entities.EffectiveCapacity | hooks/useTimetable.ts:194 | a missing or zero capacity acts as 1, any other capacity as itself |
| Defaults.DefaultsDiffer | server.js:26-54 | the client's and the server's sample data differ in their lists but share the settings and calendar keys |
| JsonValues.Spread | server.js:167-178 | a shallow merge holds every key of either object, the patch winning |
| JsonValues.SpreadIsReplacement | server.js:167-178 | a merge equals a wholesale replacement exactly when the patch carries every key of the object |
| MasterKinds.KindsDistinct | components/ImportExportView.tsx:307-313 | the five kinds have five distinct state keys, none the schedule, and five distinct id prefixes |
| Strings.Split | components/ImportExportView.tsx:382 | splitting at a character gives at least one piece and no piece contains the character |
| Strings.SplitJoin | components/ImportExportView.tsx:382 | splitting a join of separator-free parts gives the parts back |
| Strings.JoinSplit | components/ImportExportView.tsx:190-191 | joining the pieces of a split restores the string |
| Strings.ParseIntOfRendering | components/SettingsPanel.tsx:24 | parsing the decimal rendering of an integer gives the integer back |
| Strings.LessIsStrictOrder | hooks/useTimetable.ts:136 | the default string order is a strict order |
| Strings.ParseIntDigits | components/SettingsPanel.tsx:24 | parseInt reads a string of decimal digits as its value |
| Strings.ParseIntNegative | components/SettingsPanel.tsx:24 | parseInt reads a minus sign followed by digits as the negated value |
| Strings.ParseIntNoDigits | components/SettingsPanel.tsx:24 | parseInt of text without any digit is not a number |
| Conflicts.SlotTeacherConflicts | hooks/useTimetable.ts:157-190 | a slot reports teacher t double-booked exactly when it holds two entries or more, t resolves and t is used at least twice, counting direct listings and the event's default teachers; the conflict names those entries |
| Conflicts.SlotRoomConflicts | hooks/useTimetable.ts:168-196 | a slot reports room r over capacity exactly when it holds two entries or more, r resolves and the entries in r outnumber capacity or 1 |
| Conflicts.SlotClassConflicts | hooks/useTimetable.ts:172-200 | a slot reports class c double-booked exactly when it holds two entries or more, c resolves and two entries name it |
| Conflicts.SlotTeacherTally | hooks/useTimetable.ts:162-190 | a slot's teacher conflicts about t are the verdict on t's tally, and none when the slot holds one entry |
| Conflicts.SlotRoomTally | hooks/useTimetable.ts:168-196 | a slot's room conflicts about r are the verdict on r's tally, and none when the slot holds one entry |
| Conflicts.SlotClassTally | hooks/useTimetable.ts:172-200 | a slot's class conflicts about c are the verdict on c's tally, and none when the slot holds one entry |
| Conflicts.TeacherTally | hooks/useTimetable.ts:163-184 | the teacher tally of t names each entry once per listing of t, directly or through its event |
| Conflicts.RoomTally | hooks/useTimetable.ts:168-171 | the room tally of r names the entries in room r, in order |
| Conflicts.ClassTally | hooks/useTimetable.ts:172-175 | the class tally of c names the entries of class c, in order |
| Conflicts.RoomCapacityBoundary | hooks/useTimetable.ts:194 | with capacity N, N entries in a room raise nothing and N + 1 raise exactly one conflict |
| Conflicts.RoomWithoutCapacity | hooks/useTimetable.ts:194 | a missing or zero capacity acts as 1, so two entries in the room conflict |
| Conflicts.EventTeacherCountsTwice | hooks/useTimetable.ts:163-184 | an event entry listing a teacher both directly and as an event default counts twice for that teacher |
| Conflicts.DetectMember | hooks/useTimetable.ts:149-156 | a conflict is reported exactly when it is reported for the entries of one occupied (day, period) slot |
| Conflicts.DetectFrom | hooks/useTimetable.ts:155-203 | every reported conflict comes from one occupied slot |
| Conflicts.DetectTo | hooks/useTimetable.ts:155-203 | every conflict of an occupied slot is reported |
| Conflicts.SlotConflictWithin | hooks/useTimetable.ts:157 | a slot's conflicts need two entries or more and name only entries of the slot |
| Conflicts.DetectWithinOneSlot | hooks/useTimetable.ts:145-204 | every reported conflict belongs to one slot of two entries or more and names only that slot's entries |
| Conflicts.DetectUsesLookups | hooks/useTimetable.ts:145-204 | detection reads only the teachers, rooms, classes and events besides the schedule |
| Conflicts.SharedTeacherConflict | hooks/useTimetable.ts:163-189 | two entries in one slot using the same resolvable teacher raise a teacher conflict naming both |
| Conflicts.SharedClassConflict | hooks/useTimetable.ts:172-200 | two entries in one slot naming the same resolvable class raise a class conflict naming both |
| Conflicts.InvolvedHas | hooks/useTimetable.ts:163-184 | every entry that uses teacher t is named in t's tally |
| Conflicts.InClassHas | hooks/useTimetable.ts:172-175 | every entry naming class c is named in c's tally |
| Actions.CollectionKey | hooks/useTimetable.ts:258-265 | every master-data list is stored under a top-level state key |
| Actions.SetCollection | server.js:157-161 | a list replaces exactly the collection of its own record type |
| Actions.BulkSize | server.js:139-145 | a bulk add creates one entry per affected class, or a single class-less entry when there is none |
| Actions.IdsNeeded | server.js:134-147 | only adds and bulk adds consume fresh ids |
| Actions.Stamp | server.js:135 | the stamped entry carries the fresh id and is otherwise the draft |
| Actions.BulkEntries | hooks/useTimetable.ts:230-241 | the bulk entries follow the affected classes in order, each with its own fresh id, the event and the slot |
| Actions.ReplaceById | hooks/useTimetable.ts:243-246 | entries with the id become the new entry and the others stay |
| Actions.RemoveById | hooks/useTimetable.ts:248-251 | no surviving entry carries the deleted id |
| Actions.MoveById | hooks/useTimetable.ts:253-256 | entries with the id get the new day and period and nothing else changes |
| Actions.IdsKept | server.js:148-156 | updates and moves keep every entry's id in place |
| Actions.AbsentIdNoOp | server.js:148-156 | an update, move or delete naming an absent id changes nothing |
| Actions.ReplaceIdempotent | server.js:148-150 | replacing twice with the same entry is replacing once |
| Actions.RemoveMembership | server.js:151-153 | a delete keeps exactly the entries with other ids |
| Actions.RemoveCount | server.js:151-153 | a delete removes as many entries as carry the id |
| Actions.RemoveConcat | server.js:151-153 | a delete keeps the survivors' relative order |
| Actions.MoveIsUpdate | server.js:154-156 | with unique ids, a move is an update to the moved entry |
| Actions.RemoveKeepsUnique | server.js:151-153 | a delete keeps entry ids unique |
| Actions.AppendKeepsUnique | server.js:134-147 | appending entries with fresh distinct ids keeps ids unique |
| Actions.AddMoveDeleteRestores | server.js:134-156 | adding an entry, moving it and deleting it restores the schedule |
| Loading.SpreadEntries | server.js:86-89 | spreading a value copies an object's own fields, an array's elements or a string's characters under their decimal indices, and nothing from null, numbers or booleans |
| Loading.ArrayOr | server.js:92-96 | a collection is the parsed array when it is one, and the default otherwise |
| Loading.LoadState | server.js:73-106 | an unusable or missing file gives the defaults; a usable one takes each array collection, and each singleton has exactly the keys of its default and of the file's object, the file's value winning and the default's value kept wherever the file lacks the key |
| Loading.LoadSavedState | server.js:81-98 | a saved state loads back unchanged exactly when each singleton carries every default key |
| Loading.InitializeObjectState | hooks/useTimetable.ts:72-87 | the result has exactly the default's keys; a key takes the loaded value when it is neither null nor missing nor a non-array where the default is an array, and keeps the default otherwise |
| Loading.InitializeRoundTrip | hooks/useTimetable.ts:72-87 | an object comes back unchanged exactly when it has the default's keys, no nulls and arrays where the default has them |
| Loading.InitializeIdempotent | hooks/useTimetable.ts:72-87 | filling an already filled object changes nothing |
| Loading.InitializeWithoutObject | hooks/useTimetable.ts:74 | without a loaded object the default is returned unchanged |
| Loading.OrEmpty | hooks/useTimetable.ts:209-214 | an array is kept, a missing or falsy value gives the empty list, and a truthy non-array is flagged |
| Loading.LoadFullState | hooks/useTimetable.ts:208-220 | the client replaces every collection and rebuilds every singleton key by key from its default, as initializeObjectState does, with exactly the default keys |
| Loading.ReceiveRoundTrip | hooks/useTimetable.ts:208-220 | a state's snapshot loads back as that state exactly when its singletons fit the client defaults |
| Loading.LoadEncoded | hooks/useTimetable.ts:208-220 | loading a snapshot keeps its collections and default-fills its singletons |
| Loading.ReceiveIdempotent | hooks/useTimetable.ts:208-220 | loading the same snapshot twice gives what loading it once gave |
| Loading.ClientDefaultsHaveNoNulls | constants.ts:90-144 | no client default singleton holds a null |
| Server.PushEvents | server.js:137-147 | the bulk add grows the schedule by one entry per affected class and keeps the earlier entries as a prefix |
| Server.PushEventsAppends | server.js:139-145 | pushing one entry per class in turn equals appending the list of class entries, each with its own fresh id, in class order |
| Server.ApplySchedule | server.js:134-156 | add appends the stamped draft, bulk add appends the event's entries, update replaces by id, delete removes by id, move relocates by id |
| Server.Apply | server.js:131-185 | schedule actions change only the schedule; a settings-like action spreads its patch over that object; the reset yields the pristine defaults; an unknown type changes nothing |
| Server.UpdateMasterDataGuard | server.js:157-166 | a master-data update with a key that is not a top-level key changes nothing, and otherwise changes only that key's collection |
| Server.ScheduleActionsKeepIdsUnique | server.js:134-156 | with fresh ids, every schedule action keeps entry ids unique |
| Server.Broadcast | server.js:188-196 | the broadcast carries the encoded current state and reaches at most the registered clients |
| Server.BroadcastReaches | server.js:190-194 | a client is sent the state exactly when its socket is open |
| Server.Receive | server.js:207-215 | a parsed frame is applied and followed by a broadcast of the new state; a frame that fails leaves state and clients unchanged and sends nothing |
| Server.UnknownStillBroadcasts | server.js:182-184 | an unknown action type still broadcasts the unchanged state |
| Server.Connect | server.js:200-205 | a new client is registered open and immediately sent the current state, which is unchanged |
| Server.SetReady | server.js:190-192 | a change of ready state keeps the state and the list of client ids |
| Server.Disconnect | server.js:217-220 | a closed client is removed and the state is unchanged |
| Server.DisconnectedGetsNothing | server.js:188-196 | after its close event a client is never sent anything |
| Server.Boot | server.js:56-67 | the startup state is the loaded state, and it shares the sample schedule array exactly when the schedule came from the defaults |
| Server.WorldApply | server.js:134-147 | adds and bulk adds push in place, so while the schedule is shared they also grow the sample array; nothing else changes the sample |
| Server.WorldMatchesApply | server.js:179-181 | the server as written agrees with the corrected reset on every action but the reset, and on the reset exactly when nothing was pushed onto the sample |
| Server.ResetKeepsPushedEntry | server.js:56-67 | with no database file, an add followed by a reset keeps the added entry; the corrected reset gives the pristine defaults |
| Socket.Connect | hooks/useTimetableSocket.ts:20-36 | an open or connecting current socket is closed, the status becomes connecting and a new connecting socket becomes current; older sockets are untouched |
| Socket.Mount | hooks/useTimetableSocket.ts:13-67 | on mount the status is connecting with one connecting socket |
| Socket.OnEvent | hooks/useTimetableSocket.ts:38-62 | open sets the status open, close sets it closed, an error changes nothing, and only the current socket's events count |
| Socket.Send | hooks/useTimetableSocket.ts:77-83 | an action goes out exactly when the current socket is open, and is dropped otherwise |
| Socket.Accept | hooks/useTimetableSocket.ts:43-52 | a frame is handed on exactly when it parses to an object with truthy settings |
| Socket.BroadcastAccepted | hooks/useTimetableSocket.ts:46 | a server broadcast of a state is always accepted |
| Socket.MountConsistent | hooks/useTimetableSocket.ts:65-67 | the mounted hook shows the status of its current socket |
| Socket.ConnectConsistent | hooks/useTimetableSocket.ts:20-36 | connecting keeps the shown status in step with the current socket |
| Socket.OnEventConsistent | hooks/useTimetableSocket.ts:38-62 | every socket event keeps the shown status in step with the current socket |
| Socket.SendIffShownOpen | hooks/useTimetableSocket.ts:77-83 | an action is sent exactly when the status shown is open |
| Socket.Run | hooks/useTimetableSocket.ts:38-62 | a run of socket events never adds or drops a socket |
| Socket.RunConsistent | hooks/useTimetableSocket.ts:38-62 | any run of events keeps the hook consistent |
| Socket.NoAutoReconnect | hooks/useTimetableSocket.ts:54-57 | once closed, no run of socket events reopens the connection |
| Socket.RetryReopens | hooks/useTimetableSocket.ts:85 | a retry leaves the closed status, and its socket's open event shows open |
| Client.Start | hooks/useTimetable.ts:118-132 | a mounted client holds the given store with its conflicts computed and a connection under way |
| Client.Commit | hooks/useTimetable.ts:305-307 | a new schedule, or a new teacher, room, class or event list, gets fresh conflicts, and its action is sent exactly as the socket allows |
| Client.AddEntry | hooks/useTimetable.ts:224-228 | the draft is appended under a fresh id and the server is sent the draft without it |
| Client.BulkAddEvent | hooks/useTimetable.ts:230-241 | one entry per affected class, or one class-less entry, is appended and the event is sent |
| Client.UpdateEntry | hooks/useTimetable.ts:243-246 | entries with the id are replaced and the update is sent |
| Client.DeleteEntry | hooks/useTimetable.ts:248-251 | entries with the id are removed and the delete is sent |
| Client.MoveEntry | hooks/useTimetable.ts:253-256 | entries with the id move to the new slot and the move is sent |
| Client.ReplaceMasterData | hooks/useTimetable.ts:258-307 | one master-data list is replaced and sent under its key with the schedule untouched; a teacher, room, class or event list recomputes the conflicts, while a subject list keeps the shown conflicts as they are, since detection (whose dependencies at line 204 omit subjects) never looks subjects up; settled conflicts stay settled either way |
| Client.WithSingleton | hooks/useTimetable.ts:273-291 | exactly the chosen settings-like object is replaced |
| Client.SingletonAction | hooks/useTimetable.ts:273-291 | the action carrying a settings-like object needs no ids and is not a schedule action |
| Client.ReplaceSingleton | hooks/useTimetable.ts:273-291 | the object is replaced whole locally, conflicts are kept and the action is sent |
| Client.ClearAll | hooks/useTimetable.ts:297-301 | the client loads its own defaults and sends the reset |
| Client.DismissConflicts | hooks/useTimetable.ts:303 | the conflicts are emptied without touching the store, and stay correct exactly when there were none |
| Client.ReceiveFrame | hooks/useTimetableSocket.ts:43-52 | an ignored frame changes nothing; an accepted snapshot replaces the whole store and recomputes conflicts |
| Client.RetryConnection | hooks/useTimetableSocket.ts:85 | a retry changes only the connection, which is connecting again |
| Client.OnSocket | hooks/useTimetableSocket.ts:38-62 | a socket event changes only the connection |
| Client.ReceiveAdoptsServerState | hooks/useTimetable.ts:208-220 | a fitting server state becomes the client's store, whatever the client held |
| Client.SameFrameSameStore | hooks/useTimetable.ts:208-220 | two clients receiving the same snapshot hold the same store and conflicts |
| Client.OfflineChangesStayLocal | hooks/useTimetable.ts:224-228 | a local add applies whatever the connection, and is sent exactly when the status is open |
| Client.SortedLabelsMembers | hooks/useTimetable.ts:134-137 | a label is listed exactly when it is non-empty and among the names |
| Client.SortedLabelsAscending | hooks/useTimetable.ts:136 | the labels are strictly ascending, so no label repeats |
| Client.DepartmentsMembers | hooks/useTimetable.ts:134-137 | a department is listed exactly when it is non-empty and some teacher belongs to it |
| Client.DepartmentsAscending | hooks/useTimetable.ts:136 | the departments are strictly ascending, so none repeats |
| Sync.ClientApply | hooks/useTimetable.ts:224-301 | a user operation sends its action exactly as the socket allows and keeps the conflicts current |
| Sync.LocalVersusServer | server.js:131-185 | with the same ids the client's local result equals the server's on schedule and master-data actions; a settings-like object agrees exactly when the patch keeps every previous key |
| Sync.SingletonAgreement | server.js:167-178 | a settings-like replacement agrees with the server's merge exactly when it keeps every previous key |
| Sync.OnlyNewIdsDiffer | server.js:134-147 | client and server schedules differ only in the ids of the entries just added |
| Sync.MergeKeepsFit | server.js:167-178 | merging a fitting patch over a fitting object fits |
| Sync.ServerDefaultFits | server.js:56-67 | the server's sample state fits the client's defaults |
| Sync.FitsItself | hooks/useTimetable.ts:72-87 | an object without nulls fits itself |
| Sync.CalendarsFit | constants.ts:119-129 | calendars with any holiday lists fit each other |
| Sync.SameSingletonsFit | hooks/useTimetable.ts:215-218 | fitting depends on the settings-like objects alone |
| Sync.MergeSingletonKeepsFit | server.js:167-178 | merging a fitting patch into one object keeps the state fitting |
| Sync.OthersKeepSingletons | server.js:134-166 | other actions leave the settings-like objects alone |
| Sync.ApplyKeepsFit | server.js:131-185 | every action with a fitting patch keeps the server's state fitting |
| Sync.NullPatchNotAdopted | hooks/useTimetable.ts:77 | a null sent for a known key is stored by the server but replaced by the default on the client |
| Sync.BroadcastSynchronises | server.js:207-215 | after an action every open client is sent the new state and takes it over exactly when it fits |
| Sync.RoundTrip | server.js:207-215 | after one round trip the sender and another open client hold the same store, which is the server's |
| Sync.RunKeepsFit | server.js:131-185 | across a run of fitting actions the server's state keeps fitting and every broadcast is taken over exactly |
| Sync.BulkEventSelfConflict | hooks/useTimetable.ts:163-189 | bulk-placing an event on two classes with a known teacher reports that teacher double-booked |
| Workload.Rank | components/TeacherWorkloadReport.tsx:93-106 | a department's rank is its last index in the department list, and it has none exactly when it is not listed |
| Workload.BeforeIsStrictOrder | components/TeacherWorkloadReport.tsx:104-111 | the department comparator is a strict order |
| Workload.BeforeTotal | components/TeacherWorkloadReport.tsx:104-111 | two different departments are always ordered one way or the other |
| Workload.DepartmentOrderSpec | components/TeacherWorkloadReport.tsx:95-111 | the sorted department keys are exactly the teachers' departments, each once, in comparator order |
| Workload.OrderKeepsDepartment | components/TeacherWorkloadReport.tsx:95-113 | teachers of one department keep their relative order |
| Workload.OrderIsPermutation | components/TeacherWorkloadReport.tsx:95-113 | the ordered teachers are a permutation of the teachers |
| Workload.OrderAscends | components/TeacherWorkloadReport.tsx:104-113 | departments never go backwards along the ordered teachers |
| Workload.OrderSorted | components/TeacherWorkloadReport.tsx:104-113 | the ordered teachers are sorted by the department comparator |
| Workload.OrderIsStableSort | components/TeacherWorkloadReport.tsx:95-113 | the department blocks equal a stable sort of the teachers by the comparator |
| Workload.NoDepartmentLast | components/TeacherWorkloadReport.tsx:104-111 | with the hook's department list, teachers without a department come last |
| Workload.TeachesIffCounted | components/TeacherWorkloadReport.tsx:118-121 | the report and the conflict detector agree on whether an entry involves a teacher |
| Workload.TeacherSchedule | components/TeacherWorkloadReport.tsx:118-121 | a teacher's entries are exactly the schedule entries listing them directly or through their event |
| Workload.ItemOf | components/TeacherWorkloadReport.tsx:133-136 | a row key resolves to a subject first, else an event, else nothing |
| Workload.ClassIdListSpec | components/TeacherWorkloadReport.tsx:138 | the class list holds exactly the set class ids of the group |
| Workload.MakeRow | components/TeacherWorkloadReport.tsx:132-154 | a group yields a row, under its key, exactly when the key resolves |
| Workload.MakeRowCounts | components/TeacherWorkloadReport.tsx:138-141 | a row counts each distinct class once and never more periods than entries, and at least one period when a class is set |
| Workload.RowsMembership | components/TeacherWorkloadReport.tsx:132-154 | a row exists for a key exactly when some group has that key and the key resolves |
| Workload.TeacherRowsSpec | components/TeacherWorkloadReport.tsx:118-154 | a teacher has a row for a key exactly when they teach an entry with that key and the key names a subject or an event |
| Workload.Classify | components/TeacherWorkloadReport.tsx:174-184 | below standard exactly when the weekly hours are below the minimum, overloaded exactly when not below and above a set maximum |
| Workload.ClassifyMonotone | components/TeacherWorkloadReport.tsx:177-184 | more periods never make a teacher less loaded |
| Workload.ReportFor | components/TeacherWorkloadReport.tsx:186-195 | a report belongs to its teacher and carries the teacher's department |
| Workload.TotalsBounded | components/TeacherWorkloadReport.tsx:156-171 | academic periods are among all counted periods, which are among the teacher's entries |
| Workload.Report | components/TeacherWorkloadReport.tsx:113-115 | one report per ordered teacher |
| Workload.ReportCoversTeachers | components/TeacherWorkloadReport.tsx:92-197 | every teacher gets exactly one report, and departments come in order |
| ClassNames.LastSlash | components/TeacherWorkloadReport.tsx:41 | the last slash is found exactly when the name has a slash |
| ClassNames.LastSlashOfMatch | components/TeacherWorkloadReport.tsx:41 | a slash followed only by digits is the last slash |
| ClassNames.Numbered | components/TeacherWorkloadReport.tsx:41-49 | a name reads as prefix and number exactly when it ends in a slash and digits, the prefix being everything before that slash |
| ClassNames.Shape | components/TeacherWorkloadReport.tsx:72-80 | a piece made from a consecutive run covers exactly the run's numbers |
| ClassNames.OrderedSpec | components/TeacherWorkloadReport.tsx:55 | a group's numbers, de-duplicated and sorted, are strictly ascending and hold the same numbers |
| ClassNames.Condense | components/TeacherWorkloadReport.tsx:35-36 | no names give the empty text |
| ClassNames.GroupCovers | components/TeacherWorkloadReport.tsx:55-80 | a group's pieces cover a number exactly when the group holds it |
| ClassNames.GroupHolds | components/TeacherWorkloadReport.tsx:40-49 | a prefix's group holds n exactly when some name reads as that prefix and n |
| ClassNames.CondenseCovers | components/TeacherWorkloadReport.tsx:35-86 | every number read from a name is covered by a piece of its prefix's group, and every covered number was read from a name |
| ClassNames.GroupRunsAscending | components/TeacherWorkloadReport.tsx:55-70 | a group's runs list its numbers once each in ascending order, and no run could be extended by the next |
| NumberRuns.SortInts | components/TeacherWorkloadReport.tsx:55 | the numeric sort is an ascending permutation |
| NumberRuns.RunsFromSpec | components/TeacherWorkloadReport.tsx:58-69 | the runs built from an open run and the rest split them into maximal consecutive runs |
| NumberRuns.RunsSpec | components/TeacherWorkloadReport.tsx:58-70 | the runs split the numbers into maximal consecutive runs |
| Dashboard.Loads | components/DashboardView.tsx:44-46 | every teacher with the number of entries listing them directly, in teacher order |
| Dashboard.RankingSpec | components/DashboardView.tsx:44-47 | the ranking lists every teacher once with their workload, never increases, and keeps equal workloads in input order |
| Dashboard.Quantile | components/DashboardView.tsx:49 | the quantile is a tenth of the staff rounded up |
| Dashboard.Busiest | components/DashboardView.tsx:50 | the busiest are a prefix of the ranking of quantile length, or all of it |
| Dashboard.LeastBusy | components/DashboardView.tsx:51 | the least busy are the last quantile of the ranking reversed, and the whole ranking reversed when the quantile is zero |
| Dashboard.ExtremesOf | components/DashboardView.tsx:49-51 | on a ranking the heads come first, the tails come last read backwards, and no tail outranks a head |
| Dashboard.ExtremesSpec | components/DashboardView.tsx:44-51 | with a non-empty staff the quantile is between 1 and the staff size, and nobody least busy has more periods than anybody busiest |
| Dashboard.LookupIsWorkload | components/DashboardView.tsx:58 | looking a teacher up in the ranking gives their workload |
| Dashboard.MinOf | components/DashboardView.tsx:72 | the minimum is a member no larger than any |
| Dashboard.MaxOf | components/DashboardView.tsx:73 | the maximum is a member no smaller than any |
| Dashboard.DeptStatOf | components/DashboardView.tsx:53-75 | a department's statistics name it and hold one workload per member |
| Dashboard.DepartmentBounds | components/DashboardView.tsx:53-75 | every member's workload lies between the department's minimum and maximum, and both bounds are attained |
| Dashboard.DepartmentStatsCover | components/DashboardView.tsx:53-75 | a department has statistics exactly when some teacher belongs to it |
| TeacherDays.LongRunsSpec | components/DashboardView.tsx:84-96 | the reported runs are exactly the maximal runs of four or more strictly consecutive periods |
| TeacherDays.ConsecutiveTeachingSpec | components/DashboardView.tsx:77-104 | a run is reported exactly for a teacher, a day of the week and a maximal run of four or more consecutive periods that day |
| PeriodGaps.CountGaps | components/DashboardView.tsx:110-114 | the counting loop counts the neighbouring periods exactly two apart |
| TeacherDays.GappedSpec | components/DashboardView.tsx:106-117 | the teachers with a gap are kept, each with their own count |
| TeacherDays.InefficientGapsSpec | components/DashboardView.tsx:106-117 | the list holds exactly the teachers with a gap, with their own counts, most gaps first |
| ClassDays.HeavyFromStreak | components/DashboardView.tsx:142-152 | from any position on, the scan fires exactly when a later streak of academic lessons reaches four |
| ClassDays.HeavyDaySpec | components/DashboardView.tsx:140-153 | the scan flags a day exactly when it holds four academic lessons in a row |
| ClassDays.AllAcademicIsHeavy | components/DashboardView.tsx:137-165 | a day of four or more lessons, all academic, is flagged for both cognitive load and balance |
| ClassDays.FlagsUpToSpec | components/DashboardView.tsx:137-165 | a class and day is flagged at most once, exactly when its test holds, in day order |
| ClassDays.CognitiveLoadSpec | components/DashboardView.tsx:137-155 | a class and day is listed exactly when that day, sorted by period, has four academic lessons in a row |
| ClassDays.AcademicBalanceSpec | components/DashboardView.tsx:157-165 | a class and day is listed exactly when it has entries and all are academic lessons |
| ClassDays.TimingSplits | components/DashboardView.tsx:167-172 | every academic lesson of a class falls in exactly one half of the day |
| RoomLoad.UsageRatios | components/DashboardView.tsx:195-196 | the integer tests agree with the ratio tests, and no room is both over- and under-used |
| RoomLoad.RoomUsagesSpec | components/DashboardView.tsx:185-196 | each room id is listed once with the entries using it, and the over- and under-used lists share no room |
| Advice.Push | components/DashboardView.tsx:199-204 | pushing adds the advice when there is one and nothing else |
| Advice.RecommendInOrder | components/DashboardView.tsx:199-204 | at most five pieces of advice, each kind at most once, in the fixed order |
| Advice.RecommendMembers | components/DashboardView.tsx:199-204 | each kind of advice is given exactly when its list is non-empty, naming that list's first item |
| Grid.GroupByKeySpec | components/TimetableGrid.tsx:62-68 | every key's list holds exactly the entries with that key, in schedule order |
| Grid.GroupStep | components/TimetableGrid.tsx:65-67 | pushing onto one key's list extends that list and no other |
| Grid.SlotKeyInjective | components/TimetableGrid.tsx:152-154 | two day-period keys are equal exactly when the days and the periods are |
| Grid.SlotFilter | components/TimetableGrid.tsx:152-154 | selecting by key is selecting by day and period |
| Grid.CellEntriesSpec | components/TimetableGrid.tsx:42-71 | each cell lists exactly the schedule entries the view shows at that day and period, in schedule order, and none without a selection |
| Grid.Choices | components/TimetableGrid.tsx:227-250 | the selector offers the view's collection in order |
| Grid.DefaultIsFirstChoice | components/TimetableGrid.tsx:73-83 | the starting selection is the first option, or none when there is none |
| Grid.ResolveTeachers | components/TimetableGrid.tsx:173-182 | the resolved teachers are stored teachers, no more than the ids |
| Grid.ResolveTeachersSpec | components/TimetableGrid.tsx:173-182 | one teacher per id that resolves, each the teacher the id names |
| Grid.TeacherLineSpec | components/TimetableGrid.tsx:168-194 | the teacher line is blank when no listed teacher resolves, names the single one that does, and reads multiple when two or more do |
| Grid.CardOf | components/TimetableGrid.tsx:156-158 | a card is drawn exactly when the entry's subject or event resolves |
| Grid.TeacherViewShowsCount | components/TimetableGrid.tsx:202-205 | in the teacher view a resolved class name never shows: the class-count label does, undefined for a subject |
| Grid.FindEntry | components/TimetableGrid.tsx:105 | the lookup finds a scheduled entry with the id, and fails exactly when none has it |
| Grid.ApplyDrop | components/TimetableGrid.tsx:92-132 | a drop that is neither a copy nor a move changes nothing |
| Grid.CopyDropSpec | components/TimetableGrid.tsx:104-109 | a copy appends the original with the fresh id and the target slot and leaves every other entry; copying an unscheduled id does nothing |
| Grid.MoveDropSpec | components/TimetableGrid.tsx:110-112 | a move drop is the move of the dragged id to the target slot |
| Grid.UnscheduledDropSpec | components/TimetableGrid.tsx:113-128 | dropping an unscheduled subject never touches the schedule and opens the editor with the subject, the class and the selected teacher or room |
| Templates.LastByKeySpec | components/TemplateA.tsx:35-37 | a day-period key is present exactly when some entry has it, and it holds the last such entry, since later writes overwrite earlier ones |
| Templates.SlotEntrySpec | components/TemplateA.tsx:35-93 | a printed cell shows the last entry at its day and period, and is empty when there is none |
| Templates.ClassSlotIsLastOfGridCell | components/TemplateA.tsx:29-37 | a printed class cell shows the last of the entries that the class grid view lists in that cell |
| Templates.ResolveSubjectsSpec | components/TemplateA.tsx:41-44 | one subject per id that resolves, each being the subject its id names; distinct ids give subjects with distinct ids |
| Templates.SubjectsStudiedSpec | components/TemplateA.tsx:30-44 | a subject is listed exactly when one of the class's entries names it, and no subject is listed twice |
| Templates.ResolveTeachersDistinct | components/TemplateA.tsx:140-144 | distinct teacher ids resolve to teachers with distinct ids |
| Templates.InChargeFrom | components/TemplateA.tsx:140-144 | every teacher in charge resolves from the teacher list of a direct entry of that class and subject |
| Templates.InChargeTo | components/TemplateA.tsx:140-144 | every teacher that resolves from such a list is in charge |
| Templates.TeachersInChargeSpec | components/TemplateA.tsx:140-146 | a teacher is in charge exactly when they resolve from the teacher list of an entry for that class and subject; nobody is listed twice |
| Templates.TeacherEntriesAreWorkloadSchedule | components/TemplateB.tsx:21-47 | template B prints the entries that the workload report counts for the teacher, and its total is their number, events included |
| Templates.TeacherSlotIsLastOfGridCell | components/TemplateB.tsx:20-28 | a printed teacher cell shows the last of the entries that the teacher grid view lists in that cell |
| Templates.AddTaughtStep | components/TemplateB.tsx:37-42 | one more period either increments the record with that subject id or appends a new record with one period; the summary stays a grouping and the total grows by one |
| Templates.TaughtStep | components/TemplateB.tsx:33-45 | counting one more entry keeps the summary in step with the grouping of the counted entries by subject id |
| Templates.SubjectsTaughtGroups | components/TemplateB.tsx:32-45 | the summary is the grouping of the counted entries by subject id, in order of first appearance, with one record per group holding the group's size |
| Templates.TaughtRecords | components/TemplateB.tsx:32-45 | each record's subject is the one its id names, no id repeats, and its periods are the number of counted entries naming it |
| Templates.TaughtListed | components/TemplateB.tsx:33-45 | a subject has a record exactly when a counted entry names a subject that resolves |
| Templates.TaughtWithinTotal | components/TemplateB.tsx:32-47 | the periods of the summary never exceed the printed total |
| Templates.TeacherLineASpec | components/TemplateA.tsx:94-100 | the teacher line throws only when no teacher resolves and the item does not either; it names teachers exactly when one resolves, and otherwise says "multiple" when the item affects teachers |
| Templates.CellA | components/TemplateA.tsx:89-126 | a template A cell exists exactly when its teacher line does not throw; the title is the shared title and the detail lines are absent exactly for events |
| Templates.ClassLineBSpec | components/TemplateB.tsx:101-103 | template B shows a resolved class's name, unlike the grid's teacher view; it throws only when there is no named class and the item does not resolve |
| Templates.CellB | components/TemplateB.tsx:92-129 | a template B cell exists exactly when its class line does not throw; the title is the shared title and the detail lines are absent exactly for events |
| ScheduleForm.Open | components/ScheduleModal.tsx:71-89 | the open effect alone shows an edited entry's fields, else the prefill over the empty form, else the empty form; the event form exactly when the edited entry names an event; the homeroom effect that follows is in Reopen |
| ScheduleForm.Reopen | components/ScheduleModal.tsx:71-99 | opening the mounted editor sets the form as the open effect does; for a new entry with a prefilled class the room becomes that class's homeroom exactly when the class or type differs from the editor last shown and the class has a homeroom, else it is the prefilled room or empty |
| ScheduleForm.PrefilledSaveAccepted | components/ScheduleModal.tsx:71-124 | a subject prefilled on a class different from the last one shown, whose class has a homeroom, is saved at once into that homeroom, while the bare prefill alone would be refused |
| ScheduleForm.SetText | components/ScheduleModal.tsx:101-103 | a text change sets only the named field |
| ScheduleForm.SetTeachers | components/ScheduleModal.tsx:101-103 | a teachers change sets only the teachers |
| ScheduleForm.FillHomeroom | components/ScheduleModal.tsx:92-99 | the homeroom effect changes at most the room |
| ScheduleForm.ChooseClassSpec | components/ScheduleModal.tsx:92-103 | choosing a class replaces the room exactly when a new subject entry gets a known class with a homeroom, and then by that homeroom |
| ScheduleForm.FillHomeroomIdempotent | components/ScheduleModal.tsx:92-99 | running the homeroom effect again changes nothing |
| ScheduleForm.SwitchType | components/ScheduleModal.tsx:127-130 | switching type empties the form |
| ScheduleForm.SaveRejectedSpec | components/ScheduleModal.tsx:105-119 | a save is refused exactly when a required field of the chosen type is empty |
| ScheduleForm.SavePayloadSpec | components/ScheduleModal.tsx:107-119 | a subject save writes its four fields and clears the event; an event save clears the subject and leaves empty optional fields absent |
| ScheduleForm.SaveTargetSpec | components/ScheduleModal.tsx:120-124 | an edit keeps the entry's id, day and period; a new entry takes the selected cell; with neither nothing is saved |
| ScheduleForm.SwitchThenSaveRejected | components/ScheduleModal.tsx:105-130 | saving straight after a type switch is refused |
| ScheduleForm.OpenSaveUnchanged | components/ScheduleModal.tsx:71-124 | opening an entry and saving it unchanged updates it to itself exactly when it is stable |
| ScheduleForm.ApplySave | App.tsx:69-76 | an update replaces the edited entry, an add appends the draft under a fresh id, and a refused save changes nothing |
| MasterData.DataTypeBijective | components/MasterDataView.tsx:9-17 | each kind of record has exactly one list view |
| MasterData.SaveList | components/MasterDataView.tsx:65-69 | a new record is appended to the list; an edit keeps the list's length |
| MasterData.DeleteListSpec | components/MasterDataView.tsx:79-81 | a delete removes exactly the records with that id and keeps every other id's records in order |
| MasterData.DeleteListMembership | components/MasterDataView.tsx:80 | a record survives a delete exactly when it was stored and carries another id |
| MasterData.EditListSpec | components/MasterDataView.tsx:68 | an edit that keeps the id replaces every record with that id by the new one, as many as there were, and keeps every other record in order |
| MasterData.AddThenDelete | components/MasterDataView.tsx:66-80 | deleting a freshly added record with a fresh id restores the list |
| MasterData.CodeTaken | components/MasterDataView.tsx:57 | a code is taken exactly when some stored subject carries it |
| MasterData.HandleSave | components/MasterDataView.tsx:50-70 | an accepted save replaces the list of the saved record's kind |
| MasterData.HandleSaveSpec | components/MasterDataView.tsx:50-70 | a new subject is rejected exactly when its code is taken, while an edit is never checked; a new subject or event is appended with the picked colours; an edit replaces by id |
| MasterData.PlacementSpec | components/MasterDataView.tsx:72-74 | a placement is requested exactly for a new event with a slot, and it places the event as saved, colours included |
| MasterData.ApplyOutcomeSpec | components/MasterDataView.tsx:57-74 | a rejected save changes nothing; an accepted one sends the list update and then the placement, adds the placed entries to the schedule and changes nothing else |
| MasterData.HandleDelete | components/MasterDataView.tsx:79-81 | a delete gives a list of the view's own kind |
| MasterData.DeleteTeacherSpec | components/MasterDataView.tsx:79-81 | a deleted teacher is gone and every other teacher stays, in order |
| MasterData.NewId | components/MasterDataModal.tsx:29-48 | a new id starts with its kind's two-character prefix |
| MasterData.InitialItem | components/MasterDataModal.tsx:35-92 | the form opens on a record of the requested kind, keeping the edited record's id when it has one and otherwise using a new id |
| MasterData.OpenKeepsNormal | components/MasterDataModal.tsx:50-90 | opening the form on a record gives that record back exactly when nothing needs filling in; a zero capacity, an unset flag or a missing list is filled in, and false flags are kept |
| MasterData.FormSave | components/MasterDataModal.tsx:150-174 | a submitted form hands on the edited record itself |
| MasterData.FormSaveSpec | components/MasterDataModal.tsx:150-171 | the form is refused exactly when a required field is empty, and a slot goes out exactly for a new event with a day and a period |
| MasterData.NewEventPlaced | components/MasterDataModal.tsx:167-173 | a new event saved from the form with a slot is appended with the picked colours and placed at that slot, after the list update |
| MasterData.InitialFlags | components/MasterDataModal.tsx:106-123 | only an event's form can open with select-all ticked |
| MasterData.ToggleAll | components/MasterDataModal.tsx:138-148 | after a select-all toggle the flag follows the box |
| MasterData.ToggleAgreesWithFlag | components/MasterDataModal.tsx:114-142 | after a toggle the flag agrees with the flag the form would compute from the new list, whenever there is at least one record |
| MasterData.ToggleTwice | components/MasterDataModal.tsx:138-148 | toggling on and then off empties the list; toggling on selects every id |
| ImportExport.BooleanRoundTrip | components/ImportExportView.tsx:377-381 | a flag written by an export is read back as itself, and an unset flag is read back as the default |
| ImportExport.MissingFlagIsTrue | components/ImportExportView.tsx:378-380 | a missing column reads as the text "undefined", which is true whatever the default |
| ImportExport.FlagCaseBlind | components/ImportExportView.tsx:378-380 | case does not matter, so the template's "FALSE" reads as false |
| ImportExport.ParseArray | components/ImportExportView.tsx:382 | every id read from a list cell is non-empty, trimmed and comma-free |
| ImportExport.ParseArrayJoin | components/ImportExportView.tsx:382 | reading an exported id list gives the list back when its ids are clean |
| ImportExport.Capacity | components/ImportExportView.tsx:387 | the stored capacity is never 0, and an empty or missing cell gives 1 |
| ImportExport.CapacityRoundTrip | components/ImportExportView.tsx:387 | reading an exported capacity gives the capacity that conflict detection uses for the room; text without a digit gives 1 |
| ImportExport.UnknownTeachers | components/ImportExportView.tsx:345-351 | one teacher-not-found problem per listed id that is not a known teacher, and no other problem |
| ImportExport.UnknownClasses | components/ImportExportView.tsx:360-366 | one class-not-found problem per listed id that is not a known class, and no other problem |
| ImportExport.ClassRefProblems | components/ImportExportView.tsx:341-351 | a class row has no reference problem exactly when its homeroom is empty or known and every advisor is known; each unknown advisor is reported |
| ImportExport.EventRefProblems | components/ImportExportView.tsx:352-366 | an event row has no reference problem exactly when every listed teacher and class is known; each unknown one is reported |
| ImportExport.RefProblems | components/ImportExportView.tsx:315-367 | the reference checks never report a missing or invalid id |
| ImportExport.RowProblemsSpec | components/ImportExportView.tsx:321-368 | a row has no problem exactly when it is valid; a missing id is the only problem reported for its row; a wrong prefix is reported exactly when the id is present and lacks it |
| ImportExport.RefsSpec | components/ImportExportView.tsx:341-367 | a row has no reference problem exactly when all its references resolve |
| ImportExport.AdvisorReports | components/ImportExportView.tsx:345-351 | an advisor is reported exactly when it is listed and unknown |
| ImportExport.EventTeacherReports | components/ImportExportView.tsx:353-359 | an event's teacher is reported exactly when it is listed and unknown |
| ImportExport.EventClassReports | components/ImportExportView.tsx:360-366 | an event's class is reported exactly when it is listed and unknown |
| ImportExport.Tag | components/ImportExportView.tsx:322 | each problem of a row is stamped with that row's line number |
| ImportExport.AllProblems | components/ImportExportView.tsx:321 | the problems are collected row by row, one list per row |
| ImportExport.ValidateReports | components/ImportExportView.tsx:321-368 | a reported error names the line of a row that has that problem, and every problem of every row is reported on its line, counting the header as line 1 |
| ImportExport.ValidateEmpty | components/ImportExportView.tsx:370-374 | the report is empty exactly when every row is valid |
| ImportExport.Process | components/ImportExportView.tsx:384-410 | processing gives a master-data list of the kind being imported |
| ImportExport.ProcessKeepsIds | components/ImportExportView.tsx:384-410 | one record per row, in row order, each carrying the row's id |
| ImportExport.ImportSpec | components/ImportExportView.tsx:289-424 | all or nothing: the list is replaced exactly when the file reads, has rows and every row is valid, and then by one record per row carrying the row's untrimmed id; a rejection lists at least one error |
| ImportExport.ImportInto | components/ImportExportView.tsx:412 | an import leaves the connection state alone |
| ImportExport.ImportIntoSpec | components/ImportExportView.tsx:370-412 | an import changes the store only when every row is valid, and then only the imported list; otherwise nothing is stored or sent |
| ImportExport.IdsRoundTrip | components/ImportExportView.tsx:382 | an exported id list reads back as the same ids, and an absent list as an empty one |
| ImportExport.TeacherRoundTrip | components/ImportExportView.tsx:384-408 | a teacher is read back exactly |
| ImportExport.RoomRoundTrip | components/ImportExportView.tsx:386-387 | a room is read back with the capacity that conflict detection uses |
| ImportExport.ClassRoundTrip | components/ImportExportView.tsx:388-389 | a class with clean advisor ids is read back with its advisors; an absent list reads as empty, an absent homeroom as empty |
| ImportExport.SubjectRoundTrip | components/ImportExportView.tsx:390-395 | a subject with both colours set is read back with its flag, and an unset flag as academic |
| ImportExport.EventRoundTrip | components/ImportExportView.tsx:396-406 | an event with both colours set and clean id lists is read back with its lists and flag; absent ones read as empty and counted |
| ImportExport.ExportedTeacherValid | components/ImportExportView.tsx:323-339 | an exported teacher row is valid when its id is trimmed and carries the teacher prefix |
| ImportExport.PlainIdValid | components/ImportExportView.tsx:323-339 | a row of a kind without references is valid when its id cell is trimmed and carries the kind's prefix |
| ImportExport.TeachersRoundTrip | components/ImportExportView.tsx:321-410 | exported teachers with trimmed, prefixed ids pass validation and are processed back unchanged |
| ImportExport.TeachersImportBack | components/ImportExportView.tsx:289-413 | a non-empty teacher export imports back as the same list |
| ImportExport.ReadAll | components/ImportExportView.tsx:259-266 | a full file yields the five master-data lists, in the order they are replaced, when each is present as an array |
| ImportExport.ReplaceAllStore | components/ImportExportView.tsx:269-271 | replacing the lists one by one leaves the store with each set in turn |
| ImportExport.ReplaceAllSent | components/ImportExportView.tsx:269-271 | one update per list is sent, in order, when the connection is open, and none when it is not |
| ImportExport.Updates | components/ImportExportView.tsx:269-271 | one master-data update per list, in order |
| ImportExport.ImportAll | components/ImportExportView.tsx:250-286 | a full import succeeds exactly when the file holds all five arrays and the user confirms; it fails exactly when an array is missing; otherwise nothing changes and nothing is sent |
| ImportExport.ImportAllStore | components/ImportExportView.tsx:268-271 | a confirmed full import replaces exactly the five master-data lists and keeps the schedule and settings |
| ImportExport.ImportAllSent | components/ImportExportView.tsx:268-271 | the five replacements are sent in the fixed order exactly when the client shows itself connected; otherwise none is sent |
| ImportExport.ExportAllRoundTrip | components/ImportExportView.tsx:233-273 | importing a full export, confirmed, leaves the store as it was |
| ImportExport.ParseBoolean | components/ImportExportView.tsx:377-381 | a value other than the default needs a cell that is not blank |
| ImportExport.ProblemsSpec | components/ImportExportView.tsx:323-339 | a row's id checks pass exactly when the id is present and carries the kind's prefix; a missing id is the row's only problem |
| ImportExport.ReplaceAll | components/ImportExportView.tsx:269-271 | replacing the master-data lists leaves the connection state and the schedule alone |
| SettingsForms.Resize | components/SettingsPanel.tsx:30-33 | the labels are resized to the new count, and a negative count gives none |
| SettingsForms.SetNumber | components/SettingsPanel.tsx:22-27 | the edited field holds the parsed number, 0 when the text holds none |
| SettingsForms.SetNumberSpec | components/SettingsPanel.tsx:22-38 | setting the periods per day to n leaves max(0, n) labels, keeps the truthy labels below both lengths, blanks the others and changes no other field; any other field leaves the labels alone |
| SettingsForms.ResizeTwice | components/SettingsPanel.tsx:29-35 | resizing twice to the same count is resizing once, and growing then shrinking back gives the once-resized labels |
| SettingsForms.SetPeriodTime | components/SettingsPanel.tsx:41-46 | editing a label adds the label list when it is missing and changes no other field |
| SettingsForms.SetPeriodTimeSpec | components/SettingsPanel.tsx:41-46 | editing the label of an existing period changes that label only |
| SettingsForms.EditSurvivesResize | components/SettingsPanel.tsx:24-46 | a non-empty label edited below the new count survives a resize |
| SettingsForms.AddHolidaySpec | components/AcademicCalendar.tsx:34-45 | an incomplete form is refused; a complete one appends exactly one holiday with the form's date and description and the fresh id, changes no other field and resets the form |
| SettingsForms.RemoveHolidaySpec | components/AcademicCalendar.tsx:47-52 | a removal drops exactly the holidays carrying that id, keeps the others and changes no other field |
| SettingsForms.AddThenRemove | components/AcademicCalendar.tsx:39-51 | removing a holiday just added under a fresh id gives back the earlier holidays |
| SettingsForms.SetField | components/AcademicCalendar.tsx:24-27 | editing a text field sets that field and changes no other |
| Unscheduled.Palette | components/UnscheduledItems.tsx:21-30 | the palette is missing exactly when no class has the selected id |
| Unscheduled.Payloads | components/UnscheduledItems.tsx:53-54 | one drag payload at most per subject, each naming the selected class |
| Unscheduled.PaletteConcat | components/UnscheduledItems.tsx:34-42 | offering distributes over a split of the subject list, so the palette keeps the subjects' order; a missing class offers nothing |
| Unscheduled.PaletteSpec | components/UnscheduledItems.tsx:32-42 | a subject is offered as often as it is stored when it matches the class's grade level, and never otherwise |
| Unscheduled.PayloadsSpec | components/UnscheduledItems.tsx:53-54 | each payload names an offered subject and the selected class |
| Unscheduled.OfferedToListed | components/UnscheduledItems.tsx:35-41 | for a list of trimmed, comma-free grade levels joined by commas, a subject is offered exactly to the non-empty levels in the list |
| Unscheduled.WholePartMatch | components/UnscheduledItems.tsx:38-41 | a subject for M.10 is not offered to M.1 |
| Unscheduled.UntrimmedNeverOffered | components/UnscheduledItems.tsx:40-41 | a class level with edge whitespace or a comma never matches, since every part is trimmed and comma-free |
| SearchSelect.SelectedOption | components/FloatingSearchableSelect.tsx:29 | in single mode the shown option is a stored option whose id is the value; in multiple mode there is none |
| SearchSelect.Choose | components/FloatingSearchableSelect.tsx:50-59 | choosing clears the search and keeps the options and the mode |
| SearchSelect.Remove | components/FloatingSearchableSelect.tsx:61-66 | removing keeps the options, the open state and the search |
| SearchSelect.Toggle | components/FloatingSearchableSelect.tsx:68-72 | a disabled widget does not toggle; otherwise the list opens or closes |
| SearchSelect.ToggleTwice | components/FloatingSearchableSelect.tsx:68-72 | toggling twice restores the widget |
| SearchSelect.ListedSpec | components/FloatingSearchableSelect.tsx:45-48 | an option is listed exactly when it is stored, its lower-cased name contains the lower-cased search and, in multiple mode, it is not chosen; with an empty search every unchosen option is listed |
| SearchSelect.ChooseListed | components/FloatingSearchableSelect.tsx:45-59 | choosing a listed option in multiple mode never creates a repeat and puts the id last; in single mode the value becomes the id and the list closes |
| SearchSelect.RemoveSpec | components/FloatingSearchableSelect.tsx:61-66 | removing an id drops all its copies and keeps the other ids with their counts |
| SearchSelect.ChooseThenRemove | components/FloatingSearchableSelect.tsx:50-66 | choosing an id not yet chosen and removing it again restores the value |
| SearchSelect.SelectedOptionsSpec | components/FloatingSearchableSelect.tsx:30-48 | the chips are the stored options whose id is chosen; with an empty search a stored option is either a chip or in the list |
| ExportPrint.GradeChoices | components/ExportPrintView.tsx:18 | the grade choices start with "all" |
| ExportPrint.DepartmentChoices | components/ExportPrintView.tsx:19 | the department choices are "all" followed by one choice per known department |
| ExportPrint.ToggleTick | components/ExportPrintView.tsx:24-26 | a tick flips the id's selection and leaves every other entry as it was |
| ExportPrint.ToggleTwice | components/ExportPrintView.tsx:24-26 | ticking twice restores whether every id is selected, and restores the map itself once the id has an entry |
| ExportPrint.SetAllSpec | components/ExportPrintView.tsx:34-40 | after a bulk selection the listed ids hold the chosen value and every other entry is as before |
| ExportPrint.SelectVisible | components/ExportPrintView.tsx:32-41 | selecting the visible records keeps both filters |
| ExportPrint.SelectVisibleClasses | components/ExportPrintView.tsx:21-41 | selecting the visible classes sets a stored class exactly when it passes the grade filter, and leaves every id not shown as it was |
| ExportPrint.SelectVisibleTeachers | components/ExportPrintView.tsx:22-41 | selecting the visible teachers sets a stored teacher exactly when they pass the department filter, and leaves every id not shown as it was |
| ExportPrint.VisibleSpec | components/ExportPrintView.tsx:21-22 | the "all" filter shows everything; any other filter shows exactly the exact matches |
| ExportPrint.GradeChoicesSpec | components/ExportPrintView.tsx:18 | a grade after "all" is offered exactly when some class has it and it is not empty; the grades are strictly ascending |
| ExportPrint.ClassReported | components/ExportPrintView.tsx:131-133 | a class is rendered exactly when it is stored and ticked |
| ExportPrint.TeacherReported | components/ExportPrintView.tsx:134-136 | a teacher is rendered exactly when they are stored and ticked |
| ExportPrint.ReportsSpec | components/ExportPrintView.tsx:130-137 | every class report precedes every teacher report; a class or teacher is rendered exactly when it is stored and ticked |
| ExportPrint.ReportsEnablePrint | components/ExportPrintView.tsx:50 | when anything is rendered, printing is enabled |
| ExportPrint.ReportsIgnoreFilters | components/ExportPrintView.tsx:130-137 | export states that tick the same stored ids render the same reports whatever their grade and department filters, and a ticked class or teacher hidden by the filter is still printed |
| ExportPrint.SharedTicks | components/ExportPrintView.tsx:14-26 | the selection map is shared, so a class and a teacher with the same id are ticked and unticked together |

## Left out

- I/O. This covers the WebSocket transport beyond delivered-or-dropped frames, the server's database file and its 15-second save timer, shutdown handling, `localStorage` on the client, FileReader, Blob downloads, and `alert`, `confirm` and `window.print`. None of these can be stated over pure data; a confirm is a boolean parameter.
- Randomness and clocks. `uuidv4`, `Math.random` and `Date.now` become parameters: a list of fresh ids, a colour pick, or the random suffix of `generateId` in `components/MasterDataModal.tsx`.
- Concurrency. Several clients interleaving, React state batching and effect ordering are not modelled; everything runs as one sequence of steps.
- The asynchronous close race in `connect` (`hooks/useTimetableSocket.ts:22-26`). An old socket's late close event is not modelled, because the model delivers events in order.
- Unknown top-level keys of a loaded database file. The state has exactly its ten known keys, so extra keys in the file are dropped rather than carried along.
- A server action whose handler throws part-way. This is modelled as changing nothing; a throw after part of the state was mutated is not reproduced.
- `updateMasterData` with a top-level key whose current value has another shape than the data (an array sent for `settings`, say). The data type cannot express it, so the state is left unchanged.
- Client.ReceiveFrame: a snapshot whose collection is a truthy value that is not an array is not modelled; only arrays, absent keys and falsy values are.
- JavaScript numbers. Settings read through `NumOr` treat a value that is not a number as absent, hours are not fractional, and `parseInt` is exact above 2^53 where JavaScript would round.
- Object key order. Object keys are assumed not to look like integers, so insertion order is kept; JavaScript would put integer-like keys first.
- Locale and Unicode. `localeCompare` and the default sort are both lexicographic order on characters. `toLowerCase` and `trim` act on ASCII only.
- Dashboard.Quantile: the busiest and least-busy lists take the exact tenth rounded up. `Math.ceil(n * 0.1)` in floating point gives one more for some multiples of ten (4 for 30).
- Dashboard figures that are floating point. Teacher mobility, averages, percentages and room-type utilisation are not modelled; where they feed a comparison, the integer sums and counts are.
- Translated labels and day names. They come from translation tables outside the model; the model keeps label keys and day indices.
- Presentational parts. Colours, class names, print styles, the template headers and footers, homeroom and advisor lines, the not-found text, the sidebar, placeholder and notification components, the report view, print settings, institution settings and the save/load screen are not modelled.
- CSV parsing and writing. PapaParse is taken as given: a CSV file arrives as a list of rows mapping column names to text, or fails to parse. The exact column set `Papa.unparse` writes is not modelled.
- Imported JSON is assumed well-typed. The items of a full JSON import are taken to be records of their kind.
- The CSV template download (`handleDownloadTemplate`), which only writes fixed sample rows.
- ScheduleForm.Open: it is the open effect alone and never fills the homeroom; ScheduleForm.Reopen adds the homeroom effect that follows an open. Choosing a class fills the homeroom in the same step. A change of the class list while the editor is closed, which also re-runs the effect on the hidden form, is not modelled, and neither is the preview card.
- Templates.SubjectsStudiedSpec: it states membership and that no subject repeats, not the first-appearance order.
- MasterData form selects. The day and period selects are `Option<nat>` rather than the text of the select, and `uniqueGradeLevels` and the form labels are not modelled.
- SettingsPanel edge cases. A truthy `periodTimes` that is not an array is read as empty. The holes left by writing past the end are `null` at once. The stale closure over `settings` in `handlePeriodTimeChange` is not modelled.
- AcademicCalendar: a `holidays` value that is not an array is read as empty.
- FloatingSearchableSelect events. Click-outside closing, DOM events and the placeholder are not modelled.
- ExportPrintView rendering. `window.print` is not modelled; the rendered templates are reports naming the class or teacher, and the templates themselves are modelled separately.
- UnscheduledItems drag data. The payload is a datatype; `dataTransfer` and `JSON.stringify` are not modelled.
- ClassNames.Condense: its own ensures covers only the empty list. What the rendering means is carried by `ClassNames.CondenseCovers` and the run lemmas.

## Findings

| source | as written | input that shows it | evidently intended | confidence | as-written member | corrected member |
|---|---|---|---|---|---|---|
| server.js:56-67,134-136,179-181 | `getInitialState` hands out the shared `DUMMY_SCHEDULE` array. `addSchedule` and `bulkAddScheduleForEvent` push into the current schedule in place, so while the state still holds that array they grow the sample data, and `clearAllData` hands the grown array out again | start with no database file, add one entry, then clear all data: the "cleared" schedule still holds the added entry (3 entries instead of the 2 sample ones) | clearing resets to the pristine sample state | not executed | Server.WorldApply, Server.ResetKeepsPushedEntry | Server.Apply |
