# lcd-board in Dafny

lcd-board is a shared whiteboard. Users register with a name, join a room, and draw with
tools (pen, eraser, selector, laser pointer and others). A Node server relays each user's
board events to the rest of the room. It caches the room's persistent drawing as an ordered,
doubly linked list of `DrawData` entries. That list is sent to every socket that joins. Rooms,
users and whiteboards are persisted in a database, and a search box turns a free-text query
into search filters.

This project models the core of that system and proves properties of the model:

- `types.dfy` (module `DrawTypes`): the board events — draw events with their
  `add`/`change`/`delete` actions and `DrawData` entries whose json is content, `null` or
  `undefined`, and preview events with `begin`/`move`/`end`. It also holds the client-side
  rule that an `end` discards its stroke's preview events.
- `draw_store.dfy` (module `DrawStore`): what one draw entry does to a room's ordered list,
  as a function on sequences (`ApplyEntry`, `ApplyEvent`), with its placement, membership,
  uniqueness and idempotence properties.
- `whiteboard_list.dfy` (modules `LinkedChain` and `Whiteboard`): the server's linked list
  itself. It is an arena of nodes with `prev`/`next` keys, `head`/`tail`, and the `idToNode`
  index, rewired in place as `processDrawEvent` does it for ids that are not names of
  inherited object properties. It is proved equal to
  `ApplyEntry` on the sequence it represents.
- `room_server.dfy` (module `RoomServer`): the server's `SocketServer`, which keeps users and
  rooms, membership, lazy room creation and the empty-room cleanup flag. It also holds the
  per-socket `Socket` guards for register, join, leave, event and disconnect.
- `database.dfy` (module `Database`): the decisions the database layer takes, with the SQL
  abstracted to statement records and the read results to row values. It covers the
  sequential write-transaction runner, the statements `saveRoomInfo` builds, `createRoom`, the
  `retrieveRoomInfo` row mapping, `register`/`registerGuest` eligibility, the
  `updateWhiteboard` lock/save decision, and the search parameters. A small table semantics
  (`Transaction`) gives save-then-read and register-then-register round trips.
- `search.dfy` (module `Search`): the character-level scanner of `parseSearch`, the
  flag reading, and the empty-result guard of `parseAndPerformSearch`.
- `client_events.dfy` (module `ClientEvents`) and `client.dfy` (module `Client`): the browser
  client. It covers the drawing tools' size bounds, mouse mapping, stroke bookkeeping and
  broadcast rules, the path↔group map, the drawing canvas, drawing members, and the client
  socket server that stamps outgoing events and replays a joined room's whiteboard.
- `guid.dfy` (module `Guid`): the identifier layout of `generateGUIDv4` and the filter of
  `log`.
- `wrappers.dfy` (module `Wrappers`): `Option`, `Result`, and JavaScript truthiness of an
  optional string.

JavaScript values that can be `null`, `undefined` or empty become `Option` values, and a
"truthy" string is `Some(s)` with `s != ""`. Socket emits become returned values or an
appended `outbox`. The random identifiers, the clock and the rendering library's answers
(the id of a newly created path, which paths an eraser hit) are parameters.

Where the code and its documentation disagree, the model follows the code:

- The list is documented as idempotent under redelivery. Re-sending one entry is idempotent
  (`DrawStore.ApplyEntryIdempotent`), but re-sending an event with several entries is not:
  the entries move each other (`DrawStore.EventRedeliveryReorders`).
- `setUserRoom` splices `users.indexOf(socketId)` without checking that it was found. For an
  unlisted socket, `splice(-1, 1)` removes the last user of the room (`RoomServer.SpliceMissing`).
  In the model, every user whose room is set is listed there (`RoomServer.Consistent`), so
  this case does not arise from the server's own operations.
- `onLeave` takes the socket out of its room on the server, but the socket keeps its own
  `room` field, so it still passes the room guard of `onEvent` (`RoomServer.Socket.OnLeave`).
- A pen's `end` event is broadcast after the pen has cleared its path, so it goes out with the
  group `<user>_<tool>_0` rather than the group of its stroke. `Client.DrawingTool.Handle`
  states the group that is actually sent (`SentPathId` in the state after processing).
- The list's arena is keyed by an allocation counter, not by the entry id. `processDrawEvent`
  links the new node before unlinking the old node of the same id, so for a moment two nodes
  hold one id. An arena keyed by id could not express that order of steps.

## Model

| member | source | states |
|---|---|---|
| DrawTypes.WithOrigin | src/Socket.ts:61-76 | stamping an event sets its `originUserId` to the socket id and changes nothing else, for draw and preview events alike |
| DrawTypes.LastBegin | src/types.ts:166-167 | finds the most recent `begin` among the shown preview events: it is a `begin` and no later event is one, or -1 when there is none |
| DrawTypes.ReceivePreview | src/types.ts:166-167 | `begin` and `move` are appended; an `end` keeps a prefix, cut at the latest `begin`, or nothing when there is no `begin` |
| DrawTypes.ReceiveAll | src/types.ts:131-169 | receiving events never shows more events than were shown and received, and shows nothing that was not one of them |
| DrawTypes.ReceiveMoves | src/types.ts:131-169 | `move` events are only added to the shown preview events, in order |
| DrawTypes.CompleteStrokeLeavesNoTrace | src/types.ts:166-167 | a whole stroke `begin`, `move`s, `end` leaves the shown preview events exactly as they were before it |
| DrawTypes.ReceiveAllAppend | src/types.ts:166-167 | receiving a sequence of preview events is receiving them one at a time, in order |
| DrawTypes.LastBeginAfterMoves | src/types.ts:166-167 | after a `begin` and any number of `move`s, the latest `begin` is that one |
| DrawStore.IndexOf | src/Socket.ts:158-162 | the position of the first entry with the id, or -1 exactly when no entry has it |
| DrawStore.Stored | src/Socket.ts:209 | the stored entry is the received one without its `aboveId` |
| DrawStore.Upserts | src/Socket.ts:158-160 | an entry is inserted exactly for `add` or `change` whose data is not `undefined` (`null` included) |
| DrawStore.InsertionPoint | src/Socket.ts:162 | the new node goes right after the first entry of a set, indexed `aboveId`; otherwise after the tail |
| DrawStore.Upserted | src/Socket.ts:158-181 | an upsert adds one entry for a new id and keeps the length for a known one |
| DrawStore.Removed | src/Socket.ts:190-207 | a removal drops one entry for a known id and nothing for an unknown one |
| DrawStore.ApplyEntry | src/Socket.ts:148-209 | an upsert adds an entry for a new id and keeps the count for a known one; `add` of `undefined` changes nothing; delete and change to `undefined` drop one entry of a known id |
| DrawStore.ApplyEvent | src/Socket.ts:148-210 | an `add` event never shrinks the list and grows it by at most one entry per datum; a `delete` event shrinks it by at most one per datum |
| DrawStore.ApplyEventSnoc | src/Socket.ts:148-210 | an event's entries are processed first to last |
| DrawStore.WithoutInsert | src/Socket.ts:162-178 | inserting a node for an id leaves every other id's entries as they were |
| DrawStore.WithoutRemove | src/Socket.ts:193-200 | unlinking a node for an id leaves every other id's entries as they were |
| DrawStore.RemoveAtIsWithout | src/Socket.ts:193-205 | with unique ids, unlinking an id's node is the same as filtering that id out |
| DrawStore.UpsertNormalForm | src/Socket.ts:158-207 | an upsert is: remove the id from wherever it was, insert the stored entry at one position |
| DrawStore.ApplyEntryKeepsOthers | src/Socket.ts:191-205 | every other id keeps its entry and its relative order through any add, change or delete |
| DrawStore.ApplyEntryUnique | src/Socket.ts:158-207 | processing an entry never creates a duplicate id |
| DrawStore.UpsertLeavesIdOnce | src/Socket.ts:158-181 | an add or change with data (a `null` placeholder included) leaves the id exactly once, holding the new entry without `aboveId` |
| DrawStore.UpsertShape | src/Socket.ts:158-207 | after an upsert, the other entries keep their order and the new entry sits at its position |
| DrawStore.UpsertAboveOther | src/Socket.ts:162-178 | an upsert whose `aboveId` names another present entry lands directly above it |
| DrawStore.UpsertAboveSelf | src/Socket.ts:162-207 | an upsert placed above its own id keeps its old position |
| DrawStore.UpsertOnTop | src/Socket.ts:162-178 | an upsert with `aboveId` unset or unknown becomes the tail |
| DrawStore.UpsertPlacement | src/Socket.ts:162-178 | placement in all cases: directly above `aboveId`, in place when it names itself, otherwise on top; on an empty list the entry is the whole list |
| DrawStore.RemovalCases | src/Socket.ts:184-207 | delete, and change to `undefined`, remove the id; add of `undefined`, and removing an absent id, change nothing |
| DrawStore.ApplyEntryMembership | src/Socket.ts:158-207 | which ids are present after an entry: the processed id according to its action, every other id as before |
| DrawStore.ApplyEntryIdempotent | src/Socket.ts:158-209 | re-delivering one entry right away changes nothing |
| DrawStore.UpsertPositionStable | src/Socket.ts:158-207 | a second upsert of the same entry lands where the first one did |
| DrawStore.AboveSurvives | src/Socket.ts:162-207 | an `aboveId` entry present before an upsert is still present after it |
| DrawStore.AboveAbsentStays | src/Socket.ts:162-207 | an `aboveId` unset or unknown before an upsert stays so after it |
| DrawStore.ApplyEventUnique | src/Socket.ts:148-210 | processing a whole event keeps ids unique |
| DrawStore.UntouchedEntryStays | src/types.ts:88-90 | a cached entry stays cached and unchanged through every event that does not name its id |
| DrawStore.NullThenDeleteScenario | src/types.ts:114-124 | add with content, change to `null` (kept with empty content), then delete (gone) |
| DrawStore.ApplyEventPair | src/Socket.ts:148-210 | a two-entry event is its first entry followed by its second |
| DrawStore.EventRedeliveryReorders | src/Socket.ts:148-210 | re-delivering a two-entry event gives a different order than delivering it once |
| LinkedChain.ElementsOf | src/Socket.ts:221-225 | the walk yields one element per chain node, in chain order |
| LinkedChain.IndexAgreement | src/Socket.ts:180-205 | an id is in `idToNode` exactly when it is in the walk, and the index names the node at its position |
| LinkedChain.Relink | src/Socket.ts:158-207 | the pointer surgery for one entry keeps the chain and the index well formed and changes the walk as `ApplyEntry` does |
| LinkedChain.UpsertNode | src/Socket.ts:158-181 | an add or change with data keeps the list well formed and yields `Upserted` of the walk |
| LinkedChain.DeleteNode | src/Socket.ts:190-207 | a delete keeps the list well formed and yields `Removed` of the walk |
| LinkedChain.LinkEntry | src/Socket.ts:162-178 | a new node is linked at the insertion point; the other nodes keep their order and elements |
| LinkedChain.LinkAfter | src/Socket.ts:163-178 | the new node goes after its predecessor and before that node's successor, or becomes head and tail of an empty list |
| LinkedChain.UnlinkEntry | src/Socket.ts:193-200 | unlinking joins the neighbours, repairs head and tail, and removes exactly that position from the walk |
| Whiteboard.DrawDataLinkedList.constructor | src/Socket.ts:253-265 | a new whiteboard is an empty, well-formed list |
| Whiteboard.DrawDataLinkedList.Elements | src/Socket.ts:221-225 | one element per chain node, none with an `aboveId`, each of them indexed in `idToNode` |
| Whiteboard.DrawDataLinkedList.ProcessEntry | src/Socket.ts:148-210 | one entry rewires the list in place; its walk becomes `ApplyEntry` of the old walk |
| Whiteboard.DrawDataLinkedList.Walk | src/Socket.ts:221-225 | the head-to-tail walk returns the list's elements in order, none with an `aboveId` |
| RoomServer.SpliceOne | src/Socket.ts:235-236 | `splice(i, 1)` removes one element unless the list is empty or `i` is past the end |
| RoomServer.Leave | src/Socket.ts:233-250 | leaving removes one entry from a non-empty room and arms cleanup when the room is left empty, keeping an armed cleanup |
| RoomServer.Join | src/Socket.ts:253-270 | joining appends the socket after the members in order and cancels the cleanup |
| RoomServer.MoveUser | src/Socket.ts:229-274 | a move keeps every room and adds at most the room joined |
| RoomServer.DropIfEmpty | src/Socket.ts:276-281 | only an existing room with no users is dropped, and it is dropped; every other room is unchanged |
| RoomServer.Consistent | src/Socket.ts:229-274 | every room a user names exists; users without rooms are trivially consistent |
| RoomServer.Registered | src/Socket.ts:118-124 | registering creates or updates exactly that socket's record with the name, keeping its room |
| RoomServer.SpliceFound | src/Socket.ts:235-236 | splicing out a listed socket removes exactly one occurrence of it |
| RoomServer.SpliceMissing | src/Socket.ts:235-236 | splicing at the -1 of an unlisted socket removes the room's last user |
| RoomServer.LeaveRemovesOnce | src/Socket.ts:233-250 | leaving removes the socket once and arms cleanup exactly when the room is left empty (or was already armed) |
| RoomServer.MoveEffect | src/Socket.ts:229-274 | after a move the socket is listed in its new room, whose cleanup is cancelled; rooms not named keep their members |
| RoomServer.LeaveKeepsOthers | src/Socket.ts:233-250 | other listed sockets stay listed when one leaves |
| RoomServer.MoveKeepsConsistent | src/Socket.ts:229-274 | `setUserRoom` keeps every user listed in the room it names |
| RoomServer.RegisterKeepsConsistent | src/Socket.ts:118-124 | `registerUser` leaves every user's room as it was |
| RoomServer.DropKeepsConsistent | src/Socket.ts:276-281 | dropping an empty room never strands a user |
| RoomServer.BadRoom | src/Socket.ts:215-217 | the error for a missing room is `Bad room id ` followed by that room |
| RoomServer.RecordedKeepsUnique | src/Socket.ts:131-211 | every board keeps at most one entry per id through recorded events |
| RoomServer.Recorded | src/Socket.ts:131-146 | recording keeps the set of boards and changes no board but the sender's room's |
| RoomServer.RecordedTouchesOneRoom | src/Socket.ts:131-146 | only the sender's room's board changes |
| RoomServer.RecordEntries | src/Socket.ts:148-210 | the loop applies the event's entries to one whiteboard, first to last |
| RoomServer.SocketServer.constructor | src/Socket.ts:86-94 | the server starts with no users and no rooms |
| RoomServer.SocketServer.RegisterUser | src/Socket.ts:118-124 | a socket gets a user record, created if missing, with the new username; rooms are untouched |
| RoomServer.SocketServer.UnregisterUser | src/Socket.ts:126-129 | exactly the socket's user record is dropped; rooms are untouched |
| RoomServer.SocketServer.ProcessDrawEvent | src/Socket.ts:131-211 | the event is applied to the sender's room's board; an unknown sender, a sender without a room, or a missing room changes no board |
| RoomServer.SocketServer.RecordInRoom | src/Socket.ts:148-210 | one room's board becomes `ApplyEvent` of its old contents; every other board is unchanged |
| RoomServer.SocketServer.GetRoomWhiteboard | src/Socket.ts:213-227 | the room's elements in list order, none with an `aboveId`; a missing room is an error naming it |
| RoomServer.SocketServer.SetUserRoom | src/Socket.ts:229-274 | the user's room becomes the argument, membership moves as `MoveUser` says, a new room starts with an empty whiteboard, and no existing whiteboard changes |
| RoomServer.SocketServer.MoveRooms | src/Socket.ts:233-270 | leave the old room, then join the new one; the whiteboards are untouched |
| RoomServer.SocketServer.LeaveRoom | src/Socket.ts:233-250 | the socket is spliced out of one room and that room's cleanup is armed if it is left empty |
| RoomServer.SocketServer.JoinRoom | src/Socket.ts:253-270 | the room is created with a fresh empty whiteboard if missing, the socket appended and cleanup cancelled |
| RoomServer.SocketServer.DeleteRoomIfEmpty | src/Socket.ts:276-281 | only an existing room with no users is dropped; every other room and every whiteboard is unchanged |
| RoomServer.Socket.constructor | src/Socket.ts:14-26 | a socket starts without a username or a room |
| RoomServer.Socket.OnRegister | src/Socket.ts:34-38 | the socket remembers its name and the server registers it |
| RoomServer.Socket.OnJoin | src/Socket.ts:40-52 | ignored without a username; otherwise the socket moves to the room and is sent its whiteboard, an error for the empty name |
| RoomServer.Socket.OnLeave | src/Socket.ts:54-59 | a socket in a room leaves it on the server; otherwise nothing changes |
| RoomServer.Socket.OnEvent | src/Socket.ts:61-76 | dropped without a room; otherwise relayed once, stamped with the socket id, and recorded only when it is a draw event |
| RoomServer.Socket.OnDisconnect | src/Socket.ts:28-32 | the socket leaves its room as `onLeave` does (spliced out, cleanup armed when the room empties; no socket in a room changes no room) and exactly its user record is dropped; every whiteboard is kept |
| Database.WriteTransaction | src/Database.ts:76-116 | success exactly when begin, every command and commit succeed; a failure reports the database error; the run always starts with `BEGIN` |
| Database.PerformWriteTransaction | src/Database.ts:76-116 | the counter-driven runner does what `WriteTransaction` says |
| Database.CommitOnlyAfterAllSucceed | src/Database.ts:76-116 | a commit is issued only after `BEGIN` and every command succeeded, in order |
| Database.StopsAtFirstFailure | src/Database.ts:93-103 | after the first failing command nothing else runs but a rollback |
| Database.EmptyTransactionCommits | src/Database.ts:76-116 | an empty command list commits straight after `BEGIN` |
| Database.Relabel | src/Database.ts:582-583 | renaming a stored whiteboard changes that row's name and lock and no other row |
| Database.Step | src/Database.ts:167-232 | a statement fails exactly when it inserts a key already present; no statement removes a room, a user or an account |
| Database.Transaction | src/Database.ts:76-116 | a committed transaction removes no room, user or account, and fails when its first statement fails |
| Database.RunnerAgreesWithTables | src/Database.ts:76-116 | every command succeeds exactly when the whole transaction applies to the tables |
| Database.PersistentFlag | src/Database.ts:338 | the persistent flag written for an active room is true exactly when `isPersistent` is explicitly true |
| Database.RoomSaveStatements | src/Database.ts:328-347 | exactly two statements: the room upsert, then the active-room upsert when active or the active-room delete when not |
| Database.SaveRoomInfo | src/Database.ts:328-348 | the queue built is `RoomSaveStatements` and runs as one write transaction |
| Database.NewRoom | src/Database.ts:274-291 | the default room: public, active, not persistent, owned by the user, no users, one unlocked `default` whiteboard |
| Database.CreateRoom | src/Database.ts:274-291 | the room comes back only when saving succeeded, with its whiteboards emptied if the whiteboard was not created |
| Database.Summaries | src/Database.ts:306 | one whiteboard summary per row, in order |
| Database.RetrieveRoomInfo | src/Database.ts:293-326 | no rows is "Room does not exist."; otherwise the first row's fields, empty users, persistence and popularity only for an active room, and no whiteboards for a single null-named row |
| Database.RoomRows | src/Database.ts:293-300 | the room query returns rows exactly for a stored room |
| Database.SaveThenRetrieve | src/Database.ts:328-348 | saving a room always applies, and reading it back gives the saved fields with no users, persistence and popularity only for an active room, and the whiteboards already stored |
| Database.CreatedRoomReadsBack | src/Database.ts:274-291 | a new room, saved where no room of its id was, reads back as the default room with popularity 0 and no stored whiteboards yet |
| Database.Register | src/Database.ts:154-181 | registration proceeds exactly when there is no user row or a guest row with no token, otherwise "Username taken." |
| Database.RegisterEligible | src/Database.ts:161-163 | a failed read refuses, no user row allows, and an existing row allows only a guest |
| Database.RegisterGuest | src/Database.ts:206-247 | the four outcomes: new guest, new token for an idle guest, taken by another guest session, taken by a registered account; a failed GuestUser read is the database error, and a failed User read falls through to the GuestUser read |
| Database.RegisterThenRegisterTaken | src/Database.ts:154-181 | once registered, the same name cannot be registered again |
| Database.RegisterEffect | src/Database.ts:161-178 | after the registration statements the name has a non-guest user row, a registered-account row and no guest row |
| Database.NewGuestEffect | src/Database.ts:206-247 | a new guest gets a user row marked guest and a guest row holding the token |
| Database.GuestHoldsName | src/Database.ts:206-247 | after a new guest session takes a name, registering it is "Username taken." and a second guest session is refused |
| Database.RegisteredHoldsName | src/Database.ts:206-247 | a registered name cannot be taken by a guest |
| Database.UpdateWhiteboard | src/Database.ts:569-612 | rejected unless a stored row has the given non-empty filename; a lock update exactly when the lock changes; a file write exactly when the stored or new value is unlocked |
| Database.FindBoard | src/Database.ts:575-577 | the first stored whiteboard with the name, or -1 exactly when none has it |
| Database.UpdateSetsLock | src/Database.ts:580-601 | after the planned update the stored row has the new filename and lock |
| Database.FindBoardRelabel | src/Database.ts:582-583 | relabelling a whiteboard under its own name keeps it findable at the same place |
| Database.TextOrNull | src/Database.ts:406-409 | the argument is text or `NULL`, and decodes to the filter when it is truthy and to no filter otherwise |
| Database.FlagOrNull | src/Database.ts:410-411 | the argument is a flag or `NULL`, and decodes to exactly the given flag, an explicit `false` included |
| Database.SearchArguments | src/Database.ts:403-412 | seven arguments, the username first |
| Database.Normalized | src/Database.ts:403-412 | normalisation keeps both flags and drops only falsy text filters |
| Database.SearchArgumentsRoundTrip | src/Database.ts:403-412 | the arguments decode back to the username and the normalised query, and two queries give the same arguments exactly when they normalise alike |
| Search.Trim | src/public/js/SearchUI.ts:117 | a slice that neither starts nor ends with white space, everything cut being white space |
| Search.TrimIdempotent | src/public/js/SearchUI.ts:117 | trimming twice is trimming once |
| Search.TrimClean | src/public/js/SearchUI.ts:117 | a string without surrounding white space is its own trim |
| Search.ScanQuery | src/public/js/SearchUI.ts:123-162 | the character loop computes the scanner's three texts |
| Search.ScanChar | src/public/js/SearchUI.ts:131-161 | after each character `wasWhitespace` says whether it was a space, at most one character is added to the names, and a `;` inside a section terminates it |
| Search.Scan | src/public/js/SearchUI.ts:130-162 | after a scan `wasWhitespace` says whether the last character was a space, and the names grow by at most one character per character read |
| Search.ScanAppend | src/public/js/SearchUI.ts:130-162 | scanning `a` then `b` is scanning `a + b` |
| Search.ScanKeepsNamesClean | src/public/js/SearchUI.ts:146-159 | no `;` ever enters the whiteboard or owner name, the scanner is never in both sections, and it only appends |
| Search.EmittedText | src/public/js/SearchUI.ts:139-145 | plain text arrives whole except a trailing space, behind one space when it followed one |
| Search.PlainText | src/public/js/SearchUI.ts:139-161 | plain text without section openers is copied with each space moved in front of the next character |
| Search.Section | src/public/js/SearchUI.ts:133-159 | `%name;` or `@name;` after white space puts `name` into the whiteboard or owner name and leaves the plain text alone |
| Search.SectionBody | src/public/js/SearchUI.ts:146-159 | inside a section every character up to `;` is copied into that section's name |
| Search.SpacesAfterSection | src/public/js/SearchUI.ts:139-140 | spaces right after a closing `;` are swallowed |
| Search.FirstFlagAbsent | src/public/js/SearchUI.ts:165-172 | a flag is unset exactly when no keyword match has its key |
| Search.Yes | src/public/js/SearchUI.ts:168 | an empty value means yes, a value starting with one of `yYtT1` means yes, and one starting with one of `nNfF0` means no |
| Search.FirstFlag | src/public/js/SearchUI.ts:165-172 | an unset flag means no match has its key |
| Search.FirstFlagWins | src/public/js/SearchUI.ts:165-172 | the first match for a key decides its flag: true exactly when its value starts with one of `yYtT1` |
| Search.ReadFlags | src/public/js/SearchUI.ts:165-172 | the loop over the keyword matches sets each flag from its first match only |
| Search.FirstFlagSnoc | src/public/js/SearchUI.ts:165-172 | a later match changes a flag only when no earlier match set it |
| Search.ParseSearch | src/public/js/SearchUI.ts:116-181 | trim, room id, scan, flags, then the keys present; equals the parsed query |
| Search.ParsedQuery | src/public/js/SearchUI.ts:116-181 | the room id is matched against the trimmed query, and every name found is trimmed |
| Search.ParsedNamesExcludeSemicolon | src/public/js/SearchUI.ts:174-178 | neither the whiteboard name nor the owner name of a parsed query contains `;` |
| Search.PerformSearch | src/public/js/SearchUI.ts:183-196 | a request goes out exactly when the parse has a key, carrying the parse; "Nothing to search." exactly for a non-blank query without keys |
| Search.BlankQuerySendsNothing | src/public/js/SearchUI.ts:188-196 | a blank query sends nothing and shows nothing |
| Search.EmptyQueryHasNoFilters | src/public/js/SearchUI.ts:116-181 | the empty query has no filter at all |
| ClientEvents.Stamp | src/public/js/SocketServer.ts:110-120 | a sent event carries the group and the user id, and every other field unchanged |
| ClientEvents.DefaultSize | src/public/js/DrawingTool.ts:47 | every tool starts with a size between its two set bounds |
| ClientEvents.MinSize | src/public/js/DrawingTool.ts:48 | every tool has a set, positive minimum size |
| ClientEvents.MaxSize | src/public/js/DrawingTool.ts:49 | every tool has a set, positive maximum size |
| ClientEvents.ClampSize | src/public/js/DrawingTool.ts:81-88 | the result is the size or one of the set bounds; at or above the maximum it is the maximum, and with bounds in order it never exceeds it |
| ClientEvents.ClampWithinBounds | src/public/js/DrawingTool.ts:81-88 | with both bounds set in order, a set size lies between them |
| ClientEvents.ClampMeaning | src/public/js/DrawingTool.ts:81-88 | a size strictly inside the bounds is kept; at or above the maximum it becomes the maximum |
| ClientEvents.ClampIdempotent | src/public/js/DrawingTool.ts:81-88 | setting a size twice is setting it once |
| ClientEvents.ToolBoundsInOrder | src/public/js/DrawingTool.ts:47-49 | every tool has both bounds, with its default size between them |
| ClientEvents.MouseActionBijective | src/public/js/DrawingTool.ts:111-131 | mousedown, mousedrag and mouseup map one-to-one to begin, move and end; any other type maps to nothing |
| ClientEvents.MouseAction | src/public/js/DrawingTool.ts:113-117 | a mapped mouse type is the one that starts its action; no other type is one of the three |
| ClientEvents.MouseEventAsBoardEvent | src/public/js/DrawingTool.ts:111-131 | an event exactly for the three mouse types, with the tool's id, color and size, the mouse point and time, no group or origin, and non-persistent only for the laser pointer |
| ClientEvents.KnownGroupsMeaning | src/public/js/DrawingTool.ts:268-297 | the delete edit lists exactly the groups of the selected paths that have one |
| ClientEvents.KnownGroups | src/public/js/DrawingTool.ts:268-297 | at most one group per selected item, none empty |
| ClientEvents.EraserBroadcastRule | src/public/js/DrawingTool.ts:384-425 | the eraser broadcasts `begin` and `end`, and a `move` exactly when some path was erased |
| ClientEvents.OnlySelectorBroadcastsEdits | src/public/js/DrawingTool.ts:299-345 | only the selector broadcasts edit events, and the selector broadcasts no stroke |
| ClientEvents.Broadcasts | src/public/js/DrawingTool.ts:214-239 | edits are broadcast only by the selector and the selector broadcasts only edits; an eraser `move` is broadcast exactly when it erased |
| ClientEvents.HexColorsMeaning | src/public/js/DrawingCanvas.ts:36-40 | exactly the valid `#rrggbb` colors are kept |
| ClientEvents.HexColorsAppend | src/public/js/DrawingCanvas.ts:36-40 | the colors are filtered one by one, keeping their order |
| ClientEvents.IsHexColor | src/public/js/DrawingCanvas.ts:38 | a valid colour is seven characters, one `#` at the start and none after |
| ClientEvents.HexColors | src/public/js/DrawingCanvas.ts:36-40 | the kept colours are valid and no more than given |
| Wrappers.FirstIndex | src/Socket.ts:235 | `Array.prototype.indexOf` (also used at src/public/js/DrawingCanvas.ts:71): the first position, or -1 exactly when absent |
| ClientEvents.DistinctGroupsMeaning | src/public/js/SocketServer.ts:42-50 | the replay's groups: every non-empty group of the whiteboard, once each |
| ClientEvents.DistinctGroups | src/public/js/SocketServer.ts:42-50 | there are no more replay groups than whiteboard events |
| ClientEvents.GroupEvents | src/public/js/SocketServer.ts:42-53 | a group's events all carry that group and are no more than the whiteboard's |
| ClientEvents.GroupEventsEmpty | src/public/js/SocketServer.ts:42-53 | a group that never occurs gets no events |
| ClientEvents.NatToString | src/public/js/SocketServer.ts:48 | a counter prints as decimal digits |
| ClientEvents.NatToStringRoundTrip | src/public/js/SocketServer.ts:48 | the printed counter reads back as itself, so worker names are distinct |
| Client.PenKeepsOnePathPerStroke | src/public/js/DrawingTool.ts:441-482 | a pen keeps its path through a stroke's moves while the base tool starts a new one each time, and an `end` clears or keeps the path for every tool |
| Client.PathAfter | src/public/js/DrawingTool.ts:214-239 | the path after an event is the old one, the new one, or none; only a stroke of a path-drawing tool changes it, and an `end` never starts one |
| Client.PathGroupMap.constructor | src/public/js/DrawingTool.ts:18-21 | both maps start empty |
| Client.PathGroupMap.Insert | src/public/js/DrawingTool.ts:25-28 | the path now maps to the group and the group to the path; every other entry is unchanged |
| Client.SocketServer.constructor | src/public/js/SocketServer.ts:74-87 | no username, no room, nothing sent, and the canvas's tools all send through this server; only the tools' channels and the canvas's server change |
| Client.SocketServer.Register | src/public/js/SocketServer.ts:89-95 | a truthy name is recorded and sent; anything else changes nothing |
| Client.SocketServer.Join | src/public/js/SocketServer.ts:97-103 | a truthy room is recorded and sent; anything else changes nothing |
| Client.SocketServer.SendBoardEvent | src/public/js/SocketServer.ts:110-120 | nothing is sent before a room is joined; otherwise the event goes out stamped with `user_pathId` and the user id |
| Client.SocketServer.OnBoardEvent | src/public/js/SocketServer.ts:58-65 | an event goes only to the member of a set origin that is not the client itself; that member's tool for the event handles it and its other tools are unchanged; no other member's tools change, and without a target nothing changes |
| Client.SocketServer.OnRoomWhiteboard | src/public/js/SocketServer.ts:35-56 | without the client's own member nothing happens, `groups` included; otherwise one new worker per distinct group, named `roomInitialiserWorker<k>` in first-appearance order, cloned (kind and size) from the member's tool for the group's first event, without a channel, each fed exactly its group's events in order; the path and group maps become `ReplayedPaths`, where each event that starts a pen worker's path records that path under the event's group |
| Client.ReplayedPathsRecord | src/public/js/DrawingTool.ts:448-455 | replaying removes no entry of either map, and every changed entry comes from a replayed stroke: its reply's new path id under its own group |
| Client.DrawingTool.constructor | src/public/js/DrawingTool.ts:53-73 | a new tool has its kind's name and default size, the requested id or a generated one, and no stroke state |
| Client.DrawingTool.Clone | src/public/js/DrawingTool.ts:75-79 | a fresh tool of the same kind, with the new id (else the old one), the same size (the selector's default), and no stroke state, its pressure factor reset to 1 |
| Client.DrawingTool.SetSize | src/public/js/DrawingTool.ts:81-88 | the size is clamped into the tool's bounds and kept when strictly inside them; no other field changes |
| Client.DrawingTool.ProcessMouseEvent | src/public/js/DrawingTool.ts:111-131 | an event exactly for the three mouse types, with this tool's id, color and size |
| Client.DrawingTool.ProcessKeyEvent | src/public/js/DrawingTool.ts:268-297 | only the selector and only delete or backspace on keydown yield a delete edit of the selected paths' groups |
| Client.DrawingTool.GetColor | src/public/js/DrawingTool.ts:93-97 | a variant's own colour wins, then the canvas's active colour, else black |
| Client.DrawingTool.CurrentDrawGroup | src/public/js/DrawingTool.ts:172-175 | the group is the tool id, `_`, then the path id, or `0` without a path |
| Client.DrawingTool.PenGroup | src/public/js/DrawingTool.ts:448-455 | only a pen starting a path records a group: the event's own group when truthy, else one from its channel, and it records one whenever either exists |
| Client.DrawingTool.ProcessBoardEvent | src/public/js/DrawingTool.ts:214-239 | the broadcast answer follows the tool's rule, the path follows `PathAfter`, and a pen's new path is mapped to its group |
| Client.DrawingTool.Handle | src/public/js/DrawingTool.ts:178-211 | `begin` counts a stroke, `end` clears the previous event and resets the factor, other actions store the event; a pen starting a path records it in both directions of the map; a broadcast goes out only when wanted, with a channel, for an event without origin, and leaves the channel's name, room and canvas alone |
| Client.DrawingTool.WantsBroadcast | src/public/js/DrawingTool.ts:207-210 | the drunk pen asks to broadcast every stroke; every other tool follows its broadcast rule, so only the selector sends edits |
| Client.DrawingTool.SentPathId | src/public/js/DrawingTool.ts:672-676 | a broadcast goes out under the tool id and `_`, and under the current draw group for every tool but the drunk pen |
| Client.DrawingTool.HandleMouseEvent | src/public/js/DrawingTool.ts:99-104 | a mapped mouse event is handled as `ProcessMouseEvent` builds it; any other leaves the tool, `groups` and the channel as they were |
| Client.DrawingTool.HandleKeyEvent | src/public/js/DrawingTool.ts:105-110 | a selector's delete key is handled as the delete edit of the selected items' known groups; any other key leaves the tool, `groups` and the channel as they were |
| Client.FirstToolWithId | src/public/js/DrawingMember.ts:25-31 | the first tool with the id, or -1 exactly when none has it |
| Client.DrawingMember.constructor | src/public/js/DrawingMember.ts:12-16 | the default tool has the member's id and its username or, without one, its id as name |
| Client.DrawingMember.Configure | src/public/js/DrawingMember.ts:18-23 | one fresh clone per canvas tool, in order, with id `member_tool` |
| Client.DrawingMember.ToolFor | src/public/js/DrawingMember.ts:25-31 | the chosen tool is the member's: the default one for an empty id, else a clone named `member_toolId` |
| Client.DrawingMember.GetDrawingTool | src/public/js/DrawingMember.ts:25-31 | the clone with id `member_toolId`, or the default tool when the id is empty or unmatched |
| Client.DrawingMember.Handle | src/public/js/DrawingMember.ts:33-36 | an event is handled, by the tool it names, exactly when it comes from this member; the member's other tools are unchanged, and otherwise nothing of the member or `groups` changes |
| Client.MembersByIdMeaning | src/public/js/DrawingCanvas.ts:57-63 | the map holds exactly the given ids, each to its last member |
| Client.MembersById | src/public/js/DrawingCanvas.ts:57-63 | every member is filed under its own id, and only given members are filed |
| Client.DrawingCanvas.constructor | src/public/js/DrawingCanvas.ts:19-26 | the tools are added, the colors filtered, the first tool active, the color black; of the tools only `canvas` and `channel` change |
| Client.DrawingCanvas.AddTools | src/public/js/DrawingCanvas.ts:29-35 | the tools are appended in order, each pointing at this canvas and its socket server; no other field of a tool changes |
| Client.DrawingCanvas.AddColors | src/public/js/DrawingCanvas.ts:36-40 | exactly the valid colors are appended, in order |
| Client.DrawingCanvas.SetDrawingMembers | src/public/js/DrawingCanvas.ts:57-63 | the map is rebuilt from the members, every member filed under its own id; each member keeps its default tool and gets fresh, distinct clones of the canvas's tools, without a channel and with the cloned size |
| Client.DrawingCanvas.GetDrawingMember | src/public/js/DrawingCanvas.ts:51-53 | a member is found exactly when its id is filed |
| Client.DrawingCanvas.SetActiveTool | src/public/js/DrawingCanvas.ts:69-73 | a listed tool becomes active at its first position; an unlisted one changes nothing |
| Client.DrawingCanvas.SetActiveToolIndex | src/public/js/DrawingCanvas.ts:66-73 | the tool at an index inside the list becomes the active tool; an index outside it fails (the source throws) and changes nothing |
| Client.DrawingCanvas.GetActiveTool | src/public/js/DrawingCanvas.ts:74-76 | the active tool is one of the canvas's tools |
| Client.DrawingCanvas.SetActiveColor | src/public/js/DrawingCanvas.ts:79-82 | only a valid color replaces the active one, so the active color stays valid |
| Client.DrawingCanvas.SetSocketServer | src/public/js/DrawingCanvas.ts:87-93 | the server is set and every tool's channel points at it; no other field of a tool changes |
| Guid.Substr | src/public/js/utils.ts:6 | `substr` clamps to the end of the string and copies the characters it covers |
| Guid.FormatGuid | src/public/js/utils.ts:4-8 | the identifier has 9 to 36 characters, and exactly 36 from 28 characters of source |
| Guid.GuidLayout | src/public/js/utils.ts:4-8 | with 28 characters of source: 36 characters, dashes at 8, 13, 18 and 23, `4000`, the variant `8`, and the source's characters in order |
| Guid.GuidAlwaysMarked | src/public/js/utils.ts:6 | whatever the source length, `-4000-8` is present no later than where the layout puts it |
| Guid.GuidSkipsIndex12 | src/public/js/utils.ts:6 | the source character at index 12 never reaches the identifier |
| Guid.GuidIsHex | src/public/js/utils.ts:4-8 | with an 11-digit clock and a hex random fraction, the identifier is 36 hex digits and dashes |
| Guid.LogFilter | src/public/js/utils.ts:10-15 | nothing prints with logging off; with the shipped settings exactly the calls not marked verbose print |
| Guid.LogPrints | src/public/js/utils.ts:10-15 | a call prints only with logging on, and always then unless it is marked verbose with verbose messages off |

## Left out

- Socket transport: socket.io connections, emits and room broadcasts are not modelled. A sent
  message is a returned value (`Socket.OnJoin`, `Socket.OnEvent`) or an entry appended to the
  client's `outbox`.
- The client and server disagree on the wire protocol: the client listens for `board event`
  and expects `room whiteboard` to be a list of board events, while the server emits `event`
  and a list of `DrawData`. Each side is modelled with its own types, and nothing is proved
  about the two together.
- Timers: the room cleanup timeout is the flag `cleanupArmed`. `deleteRoomIfEmpty` is an
  operation that may be called at any time, as the timer would.
- The database connection, SQL text, bcrypt hashing, crypto tokens and the drawing files on
  disk are out. Commands are statement records, read results are row values, and each
  command's success is a parameter. The order in which the `updateWhiteboard` callbacks fire
  is not modelled. `performReads` is left out because nothing calls it.
- Paper.js geometry is out: path creation, `simplify`, hit tests and `subtract` in the
  eraser, the selector's selection rectangle and the path removal of its delete edit, pressure
  and `adjustedSize`, fountain-pen smoothing, and the drunk pen's momentum. What the library
  answers (the new path's id, which paths were hit) is the `PaperReply` parameter.
- Regular expressions: the 24-character room-id pattern and the keyword pattern of
  `parseSearch` are the matcher parameters of `Search.ParseSearch`. The model assumes only
  that every match is text of the input (`Search.Sound`).
- Randomness and the clock: `Math.random`, `Date.now` and the generated tool ids are string
  parameters. `Guid.GuidIsHex` takes the clock as 11 hex digits.
- `Client.DrawingCanvas.constructor` requires at least one tool, because the source activates
  `drawingTools[0]` unconditionally and fails on an empty list.
- `Client.SocketServer.GetGroup` has no contract of its own; `SendBoardEvent` and
  `DrawingTool.Handle` state the group they send.
- The client's `deGroups` is a plain object, so group names such as `__proto__` or
  `toString` would hit inherited properties. The model treats it as a map.
- Whiteboard.DrawDataLinkedList.ProcessEntry: the server's `idToNode` (src/Socket.ts:256) is a
  plain object too, and `LinkedChain.UpsertNode` treats it as a map. An `aboveId` such as
  `toString` finds an inherited function at src/Socket.ts:162 and links the new tail after
  it, so the head-to-tail walk no longer reaches the node. An `id` such as `constructor`
  finds one at src/Socket.ts:155. For an add or change, src/Socket.ts:203 then throws after
  the node is linked, which skips the event's remaining entries. Neither behaviour is modelled.
- The `activate` calls of tool selection, the console output of `log`, and the connection
  status callbacks are left out.
- Client.DrawingTool.Handle: the drunk pen's point transformation is not modelled. Only
  its bookkeeping, its path and its broadcast (`<tool>_<drawCount>`) are stated.
- HTTP routing (App.ts), the UI and DOM code, the superseded client prototypes, the bootstrap
  and build scripts, and the data generator are not part of this model.
