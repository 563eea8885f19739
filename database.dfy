/**
 * The decision logic of the persistence layer: which statements each operation sends,
 * in which order, and how the rows that come back are turned into results.
 *
 * The SQL engine is replaced by `Tables`, an abstract value holding the rows of the
 * tables these operations touch, and `Step`, which says what one statement does to
 * them (or that it fails, as an insert of a duplicate key does). The connection's
 * per-command outcomes are parameters of the transaction runner.
 */
module Database {
  import opened Wrappers
  import opened DrawTypes

  /** The message every failed read or write reports. */
  const DbError := "A database error occured. Check backend logs for details."

  /** A value bound to a statement placeholder. */
  datatype SqlValue = Text(text: string) | Flag(flag: bool) | SqlNull

  /** The statements the modelled operations send, with their bound values. */
  datatype Statement =
    | RoomUpsert(roomId: string, displayName: string, isPublic: bool, owner: string)
    | ActiveRoomUpsert(roomId: string, persistent: bool)
    | ActiveRoomDelete(roomId: string)
    | UserUpsertRegistered(username: string)
    | RegisteredUserInsert(username: string, passwordHash: string)
    | ConnectionTokenInsert(username: string, token: string)
    | GuestUserDelete(username: string)
    | UserExpiryUpdate(username: string)
    | UserInsertGuest(username: string)
    | GuestUserInsert(username: string, token: string)
    | GuestTokenUpdate(token: string, username: string)
    | WhiteboardLockUpdate(newName: string, locked: bool, roomId: string, oldName: string)

  /** What a read hands to its callback: the rows, or the failure (rows missing). */
  datatype Read<R> = Rows(rows: seq<R>) | ReadFailed

  // ---------------------------------------------------------------------------
  // The write-transaction runner
  // ---------------------------------------------------------------------------

  /** A call made on the connection, in the order it is made. */
  datatype Call = BeginTx | Query(statement: Statement) | CommitTx | RollbackTx

  /** What the runner reports to its handler, with the calls it made. */
  datatype TxReport = TxReport(success: bool, error: Option<string>, calls: seq<Call>)

  function Queries(commands: seq<Statement>): (calls: seq<Call>)
    ensures |calls| == |commands|
    ensures forall i :: 0 <= i < |commands| ==> calls[i] == Query(commands[i])
  {
    if commands == [] then [] else [Query(commands[0])] + Queries(commands[1..])
  }

  /** The position of the first failing command, or the length when none fails. */
  function FirstFailure(ok: seq<bool>): (k: nat)
    ensures k <= |ok|
    ensures forall i :: 0 <= i < k ==> ok[i]
    ensures k < |ok| ==> !ok[k]
  {
    if ok == [] || !ok[0] then 0 else 1 + FirstFailure(ok[1..])
  }

  /**
   * What a write transaction does, given whether the transaction could be begun,
   * whether each command would succeed, and whether the commit would succeed: the
   * commands are sent one at a time in order; the first failure rolls back; after
   * the last command the transaction is committed, and a failed commit rolls back.
   */
  function WriteTransaction(commands: seq<Statement>, beginOk: bool, runOk: seq<bool>, commitOk: bool): (r: TxReport)
    requires |runOk| == |commands|
    ensures r.success <==> beginOk && (forall i :: 0 <= i < |runOk| ==> runOk[i]) && commitOk
    ensures r.error == if r.success then None else Some(DbError)
    ensures |r.calls| >= 1 && r.calls[0] == BeginTx
  {
    if !beginOk then TxReport(false, Some(DbError), [BeginTx])
    else
      var k := FirstFailure(runOk);
      if k < |commands| then TxReport(false, Some(DbError), [BeginTx] + Queries(commands[..k + 1]) + [RollbackTx])
      else if commitOk then TxReport(true, None, [BeginTx] + Queries(commands) + [CommitTx])
      else TxReport(false, Some(DbError), [BeginTx] + Queries(commands) + [CommitTx, RollbackTx])
  }

  /**
   * Runs `commands` inside a transaction, advancing a cursor through them; the
   * connection's answers are given as `beginOk`, `runOk` and `commitOk`.
   */
  method PerformWriteTransaction(commands: seq<Statement>, beginOk: bool, runOk: seq<bool>, commitOk: bool)
    returns (r: TxReport)
    requires |runOk| == |commands|
    ensures r == WriteTransaction(commands, beginOk, runOk, commitOk)
  {
    var calls := [BeginTx];
    if !beginOk {
      return TxReport(false, Some(DbError), calls);
    }
    var queueI := 0;
    while queueI < |commands|
      invariant queueI <= |commands|
      invariant forall i :: 0 <= i < queueI ==> runOk[i]
      invariant calls == [BeginTx] + Queries(commands[..queueI])
    {
      calls := calls + [Query(commands[queueI])];
      assert Queries(commands[..queueI + 1]) == Queries(commands[..queueI]) + [Query(commands[queueI])];
      if !runOk[queueI] {
        assert FirstFailure(runOk) == queueI;
        return TxReport(false, Some(DbError), calls + [RollbackTx]);
      }
      queueI := queueI + 1;
    }
    assert commands[..queueI] == commands;
    assert FirstFailure(runOk) == |commands|;
    calls := calls + [CommitTx];
    if !commitOk {
      return TxReport(false, Some(DbError), calls + [RollbackTx]);
    }
    return TxReport(true, None, calls);
  }

  /**
   * A commit is only ever requested after every command has succeeded, and only
   * after all of them were sent, in order.
   */
  lemma CommitOnlyAfterAllSucceed(commands: seq<Statement>, beginOk: bool, runOk: seq<bool>, commitOk: bool, j: nat)
    requires |runOk| == |commands|
    requires j < |WriteTransaction(commands, beginOk, runOk, commitOk).calls|
    requires WriteTransaction(commands, beginOk, runOk, commitOk).calls[j] == CommitTx
    ensures forall i :: 0 <= i < |runOk| ==> runOk[i]
    ensures j == |commands| + 1
    ensures WriteTransaction(commands, beginOk, runOk, commitOk).calls[..j] == [BeginTx] + Queries(commands)
  {
  }

  /**
   * A failing command stops the run: the commands sent are exactly those up to and
   * including the first failure, and the transaction is rolled back.
   */
  lemma StopsAtFirstFailure(commands: seq<Statement>, runOk: seq<bool>, commitOk: bool, k: nat)
    requires |runOk| == |commands|
    requires k < |runOk| && !runOk[k] && forall i :: 0 <= i < k ==> runOk[i]
    ensures WriteTransaction(commands, true, runOk, commitOk).calls
         == [BeginTx] + Queries(commands[..k + 1]) + [RollbackTx]
  {
  }

  /** With no commands, a begun transaction is committed straight away. */
  lemma EmptyTransactionCommits(beginOk: bool, commitOk: bool)
    requires beginOk
    ensures WriteTransaction([], beginOk, [], commitOk).calls[..2] == [BeginTx, CommitTx]
    ensures WriteTransaction([], beginOk, [], commitOk).success == commitOk
  {
    assert Queries([]) == [];
  }

  // ---------------------------------------------------------------------------
  // The tables, and what each statement does to them
  // ---------------------------------------------------------------------------

  datatype RoomRecord = RoomRecord(name: string, isPublic: bool, owner: string)
  datatype ActiveRecord = ActiveRecord(persistent: bool, popularity: int)
  datatype BoardRecord = BoardRecord(name: string, drawingFile: string, locked: bool)

  /** The rows of the tables the modelled operations read and write. */
  datatype Tables = Tables(
    users: map<string, bool>,             // User: username -> isGuest
    guests: map<string, Option<string>>,  // GuestUser: username -> connectionToken
    registered: map<string, string>,      // RegisteredUser: username -> passwordHash
    tokens: set<(string, string)>,        // RegisteredUserConnectionTokens
    rooms: map<string, RoomRecord>,       // Room
    active: map<string, ActiveRecord>,    // ActiveRoom
    boards: map<string, seq<BoardRecord>>) // Whiteboard rows of each room, in table order

  /** No statement of the model removes a room, a user or a registered account. */
  predicate Grows(t: Tables, t': Tables)
  {
    t.rooms.Keys <= t'.rooms.Keys && t.users.Keys <= t'.users.Keys && t.registered.Keys <= t'.registered.Keys
  }

  /** A board record renamed and relocked when its name is `oldName`. */
  function Relabel(bs: seq<BoardRecord>, oldName: string, newName: string, locked: bool): (r: seq<BoardRecord>)
    ensures |r| == |bs|
    ensures forall i :: 0 <= i < |bs| ==>
      r[i] == if bs[i].name == oldName then bs[i].(name := newName, locked := locked) else bs[i]
  {
    if bs == [] then []
    else
      var b := if bs[0].name == oldName then bs[0].(name := newName, locked := locked) else bs[0];
      [b] + Relabel(bs[1..], oldName, newName, locked)
  }

  /**
   * The effect of one statement, or None when the statement fails (an insert of a
   * key that already exists). Updates and deletes that match no row succeed and
   * change nothing; the expiry-date procedure touches none of these tables.
   */
  function Step(t: Tables, s: Statement): (r: Option<Tables>)
    ensures r.None? <==>
      || (s.RegisteredUserInsert? && s.username in t.registered)
      || (s.ConnectionTokenInsert? && (s.username, s.token) in t.tokens)
      || (s.UserInsertGuest? && s.username in t.users)
      || (s.GuestUserInsert? && s.username in t.guests)
    ensures r.Some? ==> Grows(t, r.value)
  {
    match s
    case RoomUpsert(id, name, isPublic, owner) =>
      Some(t.(rooms := t.rooms[id := RoomRecord(name, isPublic, owner)]))
    case ActiveRoomUpsert(id, persistent) =>
      var a := if id in t.active then t.active[id].(persistent := persistent) else ActiveRecord(persistent, 0);
      Some(t.(active := t.active[id := a]))
    case ActiveRoomDelete(id) =>
      Some(t.(active := t.active - {id}))
    case UserUpsertRegistered(u) =>
      Some(t.(users := t.users[u := false]))
    case RegisteredUserInsert(u, hash) =>
      if u in t.registered then None else Some(t.(registered := t.registered[u := hash]))
    case ConnectionTokenInsert(u, token) =>
      if (u, token) in t.tokens then None else Some(t.(tokens := t.tokens + {(u, token)}))
    case GuestUserDelete(u) =>
      Some(t.(guests := t.guests - {u}))
    case UserExpiryUpdate(_) =>
      Some(t)
    case UserInsertGuest(u) =>
      if u in t.users then None else Some(t.(users := t.users[u := true]))
    case GuestUserInsert(u, token) =>
      if u in t.guests then None else Some(t.(guests := t.guests[u := Some(token)]))
    case GuestTokenUpdate(token, u) =>
      if u in t.guests then Some(t.(guests := t.guests[u := Some(token)])) else Some(t)
    case WhiteboardLockUpdate(newName, locked, roomId, oldName) =>
      if roomId in t.boards then
        Some(t.(boards := t.boards[roomId := Relabel(t.boards[roomId], oldName, newName, locked)]))
      else Some(t)
  }

  /** A committed transaction's effect: every statement in order, or None if any fails. */
  function Transaction(t: Tables, commands: seq<Statement>): (r: Option<Tables>)
    ensures r.Some? ==> Grows(t, r.value)
    ensures commands != [] && Step(t, commands[0]).None? ==> r.None?
    decreases |commands|
  {
    if commands == [] then Some(t)
    else match Step(t, commands[0])
      case None => None
      case Some(t1) => Transaction(t1, commands[1..])
  }

  /** Whether each command succeeds when run against the state its predecessors left. */
  function Outcomes(t: Tables, commands: seq<Statement>): (ok: seq<bool>)
    ensures |ok| == |commands|
    decreases |commands|
  {
    if commands == [] then []
    else match Step(t, commands[0])
      case None => [false] + Outcomes(t, commands[1..])
      case Some(t1) => [true] + Outcomes(t1, commands[1..])
  }

  /**
   * Against these tables, the runner reports success exactly when every statement
   * applies (and the connection begins and commits).
   */
  lemma {:induction false} RunnerAgreesWithTables(t: Tables, commands: seq<Statement>)
    ensures (forall i :: 0 <= i < |commands| ==> Outcomes(t, commands)[i]) ==> Transaction(t, commands).Some?
    ensures Transaction(t, commands).Some? ==> forall i :: 0 <= i < |commands| ==> Outcomes(t, commands)[i]
    decreases |commands|
  {
    if commands != [] {
      var ok := Outcomes(t, commands);
      match Step(t, commands[0])
      case None =>
        assert !ok[0];
      case Some(t1) =>
        RunnerAgreesWithTables(t1, commands[1..]);
        assert forall i :: 1 <= i < |commands| ==> ok[i] == Outcomes(t1, commands[1..])[i - 1];
        if forall i :: 0 <= i < |commands[1..]| ==> Outcomes(t1, commands[1..])[i] {
          forall i | 0 <= i < |commands| ensures ok[i] {
            if i > 0 { assert ok[i] == Outcomes(t1, commands[1..])[i - 1]; }
          }
        } else {
          var j :| 0 <= j < |commands[1..]| && !Outcomes(t1, commands[1..])[j];
          assert !ok[j + 1];
        }
    }
  }

  // ---------------------------------------------------------------------------
  // Rooms
  // ---------------------------------------------------------------------------

  datatype WhiteboardSummary = WhiteboardSummary(name: Option<string>, locked: Option<bool>)

  /** A room's description; `isPersistent` and `popularity` may be absent. */
  datatype RoomInfo = RoomInfo(
    id: string,
    displayName: string,
    users: seq<string>,
    owner: string,
    isPublic: bool,
    isActive: bool,
    isPersistent: Option<bool>,
    popularity: Option<int>,
    whiteboards: seq<WhiteboardSummary>)

  /** JavaScript's `isPersistent || false`. */
  function PersistentFlag(isPersistent: Option<bool>): (b: bool)
    ensures b <==> isPersistent == Some(true)
  {
    isPersistent.Some? && isPersistent.value
  }

  /**
   * The statements that save a room: the room upsert, then either an active-room
   * upsert (for an active room) or an active-room delete.
   */
  function RoomSaveStatements(room: RoomInfo): (q: seq<Statement>)
    ensures |q| == 2
    ensures q[0] == RoomUpsert(room.id, room.displayName, room.isPublic, room.owner)
    ensures q[1].ActiveRoomUpsert? <==> room.isActive
    ensures q[1].ActiveRoomUpsert? ==> q[1] == ActiveRoomUpsert(room.id, PersistentFlag(room.isPersistent))
    ensures q[1].ActiveRoomDelete? <==> !room.isActive
    ensures q[1].ActiveRoomDelete? ==> q[1].roomId == room.id
  {
    [RoomUpsert(room.id, room.displayName, room.isPublic, room.owner)]
      + if room.isActive then [ActiveRoomUpsert(room.id, PersistentFlag(room.isPersistent))]
        else [ActiveRoomDelete(room.id)]
  }

  /** Builds the statements of a room save and runs them as one transaction. */
  method SaveRoomInfo(room: RoomInfo, beginOk: bool, runOk: seq<bool>, commitOk: bool)
    returns (queries: seq<Statement>, r: TxReport)
    requires |runOk| == 2
    ensures queries == RoomSaveStatements(room)
    ensures r == WriteTransaction(queries, beginOk, runOk, commitOk)
  {
    queries := [RoomUpsert(room.id, room.displayName, room.isPublic, room.owner)];
    if room.isActive {
      queries := queries + [ActiveRoomUpsert(room.id, PersistentFlag(room.isPersistent))];
    } else {
      queries := queries + [ActiveRoomDelete(room.id)];
    }
    r := PerformWriteTransaction(queries, beginOk, runOk, commitOk);
  }

  /** The room `createRoom` builds before saving it. */
  function NewRoom(id: string, username: string, name: string): (room: RoomInfo)
    ensures room.id == id && room.displayName == name && room.owner == username
    ensures room.users == [] && room.isPublic && room.isActive
    ensures room.isPersistent == Some(false) && room.popularity.None?
    ensures room.whiteboards == [WhiteboardSummary(Some("default"), Some(false))]
  {
    RoomInfo(id, name, [], username, true, true, Some(false), None,
             [WhiteboardSummary(Some("default"), Some(false))])
  }

  /** What `createRoom` hands to its handler: success, error and the room. */
  datatype Created = Created(success: bool, error: Option<string>, room: Option<RoomInfo>)

  /**
   * The outcome of creating a room, given the report of saving it and whether
   * creating its `default` whiteboard succeeded: the room comes back only when the
   * save succeeded, and without whiteboards when the whiteboard was not created.
   */
  function CreateRoom(id: string, username: string, name: string, saved: TxReport, whiteboardOk: bool): (c: Created)
    ensures c.success == saved.success && c.error == saved.error
    ensures c.room.Some? <==> saved.success
    ensures c.room.Some? ==> c.room.value.whiteboards == (if whiteboardOk then NewRoom(id, username, name).whiteboards else [])
    ensures c.room.Some? ==> c.room.value.(whiteboards := []) == NewRoom(id, username, name).(whiteboards := [])
  {
    var room := NewRoom(id, username, name);
    var room' := if whiteboardOk then room else room.(whiteboards := []);
    Created(saved.success, saved.error, if saved.success then Some(room') else None)
  }

  /** One row of the room query: the room joined with its activity and one whiteboard. */
  datatype RoomRow = RoomRow(
    roomID: string, name: string, isPublic: bool, ownerUsername: string, isActive: bool,
    persistent: Option<bool>, popularityRating: Option<int>,
    whiteboardName: Option<string>, locked: Option<bool>)

  function Summaries(rows: seq<RoomRow>): (ws: seq<WhiteboardSummary>)
    ensures |ws| == |rows|
    ensures forall i :: 0 <= i < |rows| ==> ws[i] == WhiteboardSummary(rows[i].whiteboardName, rows[i].locked)
  {
    seq(|rows|, i requires 0 <= i < |rows| => WhiteboardSummary(rows[i].whiteboardName, rows[i].locked))
  }

  /**
   * The room described by the rows of the room query: identity from the first row,
   * one whiteboard per row (none for a single row without a whiteboard), no users,
   * and the persistence and popularity only of an active room.
   */
  function RetrieveRoomInfo(read: Read<RoomRow>): (r: Result<RoomInfo>)
    ensures read.ReadFailed? ==> r == Failure(DbError)
    ensures read.Rows? && read.rows == [] ==> r == Failure("Room does not exist.")
    ensures r.Success? <==> read.Rows? && read.rows != []
    ensures r.Success? ==> var row := read.rows[0];
      && r.value.id == row.roomID && r.value.displayName == row.name
      && r.value.isPublic == row.isPublic && r.value.owner == row.ownerUsername
      && r.value.isActive == row.isActive && r.value.users == []
      && r.value.isPersistent == (if row.isActive then row.persistent else None)
      && r.value.popularity == (if row.isActive then row.popularityRating else None)
    ensures r.Success? ==>
      r.value.whiteboards == if |read.rows| == 1 && read.rows[0].whiteboardName.None? then [] else Summaries(read.rows)
  {
    match read
    case ReadFailed => Failure(DbError)
    case Rows(rows) =>
      if rows == [] then Failure("Room does not exist.")
      else
        var row := rows[0];
        var ws := Summaries(rows);
        var info := RoomInfo(row.roomID, row.name, [], row.ownerUsername, row.isPublic, row.isActive,
                             None, None, if |ws| == 1 && ws[0].name.None? then [] else ws);
        Success(if info.isActive then info.(isPersistent := row.persistent, popularity := row.popularityRating) else info)
  }

  /** The rows the room query returns for `id`: one per whiteboard, or one without a whiteboard. */
  function RoomRows(t: Tables, id: string): (rows: seq<RoomRow>)
    ensures id in t.rooms <==> rows != []
  {
    if id !in t.rooms then []
    else
      var r := t.rooms[id];
      var isActive := id in t.active;
      var persistent := if isActive then Some(t.active[id].persistent) else None;
      var popularity := if isActive then Some(t.active[id].popularity) else None;
      var bs := if id in t.boards then t.boards[id] else [];
      if bs == [] then [RoomRow(id, r.name, r.isPublic, r.owner, isActive, persistent, popularity, None, None)]
      else
        seq(|bs|, i requires 0 <= i < |bs| =>
          RoomRow(id, r.name, r.isPublic, r.owner, isActive, persistent, popularity, Some(bs[i].name), Some(bs[i].locked)))
  }

  /** The whiteboards stored for a room, as the room description lists them. */
  function StoredSummaries(t: Tables, id: string): seq<WhiteboardSummary>
  {
    var bs := if id in t.boards then t.boards[id] else [];
    seq(|bs|, i requires 0 <= i < |bs| => WhiteboardSummary(Some(bs[i].name), Some(bs[i].locked)))
  }

  /**
   * Saving a room and reading it back returns what was saved: the same identity,
   * name, owner, visibility and activity; an active room comes back persistent
   * exactly when it was saved persistent, with its earlier popularity (0 for a
   * newly active room). The users are never stored and the whiteboards are those
   * already stored for the room.
   */
  lemma SaveThenRetrieve(t: Tables, room: RoomInfo)
    ensures Transaction(t, RoomSaveStatements(room)).Some?
    ensures var t' := Transaction(t, RoomSaveStatements(room)).value;
      RetrieveRoomInfo(Rows(RoomRows(t', room.id))) == Success(room.(
        users := [],
        isPersistent := if room.isActive then Some(PersistentFlag(room.isPersistent)) else None,
        popularity := if !room.isActive then None
                      else if room.id in t.active then Some(t.active[room.id].popularity) else Some(0),
        whiteboards := StoredSummaries(t, room.id)))
  {
    var q := RoomSaveStatements(room);
    var t1 := Step(t, q[0]).value;
    var t2 := Step(t1, q[1]).value;
    assert Transaction(t, q) == Some(t2) by {
      assert q[1..][1..] == [];
      assert Transaction(t1, q[1..]) == Some(t2);
    }
    var rows := RoomRows(t2, room.id);
    var r := RetrieveRoomInfo(Rows(rows));
    assert t2.boards == t.boards;
    var want := room.(
        users := [],
        isPersistent := if room.isActive then Some(PersistentFlag(room.isPersistent)) else None,
        popularity := if !room.isActive then None
                      else if room.id in t.active then Some(t.active[room.id].popularity) else Some(0),
        whiteboards := StoredSummaries(t, room.id));
    assert r.value.whiteboards == want.whiteboards;
  }

  /**
   * A freshly created room, once saved, reads back as created: active, public, not
   * persistent, with popularity 0 when it was not active before.
   */
  lemma CreatedRoomReadsBack(t: Tables, id: string, username: string, name: string)
    requires id !in t.active && id !in t.boards
    ensures Transaction(t, RoomSaveStatements(NewRoom(id, username, name))).Some?
    ensures var t' := Transaction(t, RoomSaveStatements(NewRoom(id, username, name))).value;
      RetrieveRoomInfo(Rows(RoomRows(t', id)))
        == Success(NewRoom(id, username, name).(popularity := Some(0), whiteboards := []))
  {
    SaveThenRetrieve(t, NewRoom(id, username, name));
    assert StoredSummaries(t, id) == [];
  }

  // ---------------------------------------------------------------------------
  // Registration
  // ---------------------------------------------------------------------------

  /** The row the registration query returns: the user joined with its guest record. */
  datatype UserRow = UserRow(isGuest: bool, guestConnectionToken: Option<string>)

  /** A name may be registered when no user has it, or its guest holds no session token. */
  predicate RegisterEligible(read: Read<UserRow>): (b: bool)
    ensures read.ReadFailed? ==> !b
    ensures read == Rows([]) ==> b
    ensures b && read.rows != [] ==> read.rows[0].isGuest
  {
    read.Rows? && (read.rows == [] || (read.rows[0].isGuest && !Truthy(read.rows[0].guestConnectionToken)))
  }

  /**
   * The decision of `register`: either the statements of the registration
   * transaction, or `Username taken.` (also when the read failed).
   */
  function Register(username: string, passwordHash: string, token: string, read: Read<UserRow>): (r: Result<seq<Statement>>)
    ensures r.Success? <==> RegisterEligible(read)
    ensures r.Failure? ==> r.error == "Username taken."
    ensures r.Success? ==> r.value == [
      UserUpsertRegistered(username), RegisteredUserInsert(username, passwordHash),
      ConnectionTokenInsert(username, token), GuestUserDelete(username), UserExpiryUpdate(username)]
  {
    if RegisterEligible(read) then
      Success([UserUpsertRegistered(username), RegisteredUserInsert(username, passwordHash),
               ConnectionTokenInsert(username, token), GuestUserDelete(username), UserExpiryUpdate(username)])
    else Failure("Username taken.")
  }

  /** The guest row `registerGuest`'s second query returns. */
  datatype GuestRow = GuestRow(username: string, connectionToken: Option<string>)

  /**
   * The decision of `registerGuest`, from the User read and (only consulted when
   * that read did not come back empty) the GuestUser read.
   */
  function RegisterGuest(username: string, token: string, userRead: Read<bool>, guestRead: Read<GuestRow>): (r: Result<seq<Statement>>)
    ensures userRead == Rows([]) ==>
      r == Success([UserInsertGuest(username), GuestUserInsert(username, token), UserExpiryUpdate(username)])
    ensures userRead != Rows([]) && guestRead.Rows? && guestRead.rows != [] && guestRead.rows[0].connectionToken.None? ==>
      r == Success([UserExpiryUpdate(username), GuestTokenUpdate(token, username)])
    ensures userRead != Rows([]) && guestRead.Rows? && guestRead.rows != [] && guestRead.rows[0].connectionToken.Some? ==>
      r == Failure("Username taken by another guest session.")
    ensures userRead != Rows([]) && guestRead == Rows([]) ==>
      r == Failure("Username taken by a registered account.")
    ensures userRead != Rows([]) && guestRead.ReadFailed? ==> r == Failure(DbError)
  {
    if userRead == Rows([]) then
      Success([UserInsertGuest(username), GuestUserInsert(username, token), UserExpiryUpdate(username)])
    else match guestRead
      case ReadFailed => Failure(DbError)
      case Rows(rows) =>
        if rows != [] then
          if rows[0].connectionToken.None? then Success([UserExpiryUpdate(username), GuestTokenUpdate(token, username)])
          else Failure("Username taken by another guest session.")
        else Failure("Username taken by a registered account.")
  }

  /** The registration query's rows for a name. */
  function UserRows(t: Tables, u: string): seq<UserRow>
  {
    if u in t.users then [UserRow(t.users[u], if u in t.guests then t.guests[u] else None)] else []
  }

  /** The User query's rows (their isGuest column) for a name. */
  function UserFlags(t: Tables, u: string): seq<bool>
  {
    if u in t.users then [t.users[u]] else []
  }

  /** The GuestUser query's rows for a name. */
  function GuestRows(t: Tables, u: string): seq<GuestRow>
  {
    if u in t.guests then [GuestRow(u, t.guests[u])] else []
  }

  /** After a committed registration, registering the same name again is refused. */
  lemma RegisterThenRegisterTaken(t: Tables, u: string, hash: string, token: string, hash2: string, token2: string)
    requires Register(u, hash, token, Rows(UserRows(t, u))).Success?
    requires Transaction(t, Register(u, hash, token, Rows(UserRows(t, u))).value).Some?
    ensures var t' := Transaction(t, Register(u, hash, token, Rows(UserRows(t, u))).value).value;
      Register(u, hash2, token2, Rows(UserRows(t', u))) == Failure("Username taken.")
  {
    var q := Register(u, hash, token, Rows(UserRows(t, u))).value;
    var t' := Transaction(t, q).value;
    RegisterEffect(t, q, u, hash, token);
    assert t'.users[u] == false;
  }

  /** What the five registration statements leave behind, when they all apply. */
  lemma RegisterEffect(t: Tables, q: seq<Statement>, u: string, hash: string, token: string)
    requires q == [UserUpsertRegistered(u), RegisteredUserInsert(u, hash),
                   ConnectionTokenInsert(u, token), GuestUserDelete(u), UserExpiryUpdate(u)]
    requires Transaction(t, q).Some?
    ensures var t' := Transaction(t, q).value;
      u in t'.users && !t'.users[u] && u !in t'.guests && u in t'.registered
  {
    var t' := Transaction(t, q).value;
    var q1 := q[1..];
    var t1 := Step(t, q[0]).value;
    assert Transaction(t1, q1) == Some(t');
    var q2 := q1[1..];
    var t2 := Step(t1, q1[0]).value;
    assert Transaction(t2, q2) == Some(t');
    var q3 := q2[1..];
    var t3 := Step(t2, q2[0]).value;
    assert Transaction(t3, q3) == Some(t');
    var t4 := Step(t3, q3[0]).value;
    assert q3[1..][1..] == [];
    assert Transaction(t4, q3[1..]) == Some(t');
  }

  /** What the three new-guest statements leave behind, when they all apply. */
  lemma NewGuestEffect(t: Tables, q: seq<Statement>, u: string, token: string)
    requires q == [UserInsertGuest(u), GuestUserInsert(u, token), UserExpiryUpdate(u)]
    requires Transaction(t, q).Some?
    ensures var t' := Transaction(t, q).value;
      u in t'.users && t'.users[u] && u in t'.guests && t'.guests[u] == Some(token)
  {
    var t' := Transaction(t, q).value;
    var q1 := q[1..];
    var t1 := Step(t, q[0]).value;
    assert Transaction(t1, q1) == Some(t');
    var t2 := Step(t1, q1[0]).value;
    assert q1[1..][1..] == [];
    assert Transaction(t2, q1[1..]) == Some(t');
  }

  /**
   * After a guest session has been created under a name, both registering the
   * name and opening a second guest session under it are refused.
   */
  lemma GuestHoldsName(t: Tables, u: string, token: string, hash2: string, token2: string)
    requires token != ""
    requires UserFlags(t, u) == []
    requires Transaction(t, RegisterGuest(u, token, Rows(UserFlags(t, u)), Rows(GuestRows(t, u))).value).Some?
    ensures var t' := Transaction(t, RegisterGuest(u, token, Rows(UserFlags(t, u)), Rows(GuestRows(t, u))).value).value;
      && Register(u, hash2, token2, Rows(UserRows(t', u))) == Failure("Username taken.")
      && RegisterGuest(u, token2, Rows(UserFlags(t', u)), Rows(GuestRows(t', u)))
         == Failure("Username taken by another guest session.")
  {
    var q := RegisterGuest(u, token, Rows(UserFlags(t, u)), Rows(GuestRows(t, u))).value;
    NewGuestEffect(t, q, u, token);
  }

  /** After a registration, a guest session under the same name is refused. */
  lemma RegisteredHoldsName(t: Tables, u: string, hash: string, token: string, token2: string)
    requires Register(u, hash, token, Rows(UserRows(t, u))).Success?
    requires Transaction(t, Register(u, hash, token, Rows(UserRows(t, u))).value).Some?
    ensures var t' := Transaction(t, Register(u, hash, token, Rows(UserRows(t, u))).value).value;
      RegisterGuest(u, token2, Rows(UserFlags(t', u)), Rows(GuestRows(t', u)))
        == Failure("Username taken by a registered account.")
  {
    var q := Register(u, hash, token, Rows(UserRows(t, u))).value;
    RegisterEffect(t, q, u, hash, token);
  }

  // ---------------------------------------------------------------------------
  // Whiteboard update
  // ---------------------------------------------------------------------------

  /** A whiteboard as the client sends it for saving. */
  datatype WhiteboardDoc = WhiteboardDoc(
    roomId: string, name: string, locked: bool, filename: Option<string>, drawDataList: seq<DrawData>)

  /** The stored row for a whiteboard: its drawing file and its lock. */
  datatype WhiteboardRow = WhiteboardRow(drawingFile: Option<string>, locked: bool)

  /** What an accepted update does: an optional lock update, and an optional file write. */
  datatype UpdatePlan = UpdatePlan(lockUpdate: Option<Statement>, fileWrite: Option<(string, seq<DrawData>)>)

  /**
   * The decision of `updateWhiteboard`. The update is accepted only when the stored
   * row exists and names the same, non-empty drawing file. The lock is written iff
   * it changes; the drawing data is written iff the stored board was unlocked or
   * the new state is unlocked, so a board that stays locked keeps its data.
   */
  function UpdateWhiteboard(oldName: string, wb: WhiteboardDoc, read: Read<WhiteboardRow>): (r: Result<UpdatePlan>)
    ensures r.Success? <==>
      read.Rows? && read.rows != [] && Truthy(wb.filename) && read.rows[0].drawingFile == wb.filename
    ensures r.Failure? ==> r.error == if read.ReadFailed? then DbError else "whiteboard input is invalid"
    ensures r.Success? ==>
      && (r.value.lockUpdate.Some? <==> wb.locked != read.rows[0].locked)
      && (r.value.lockUpdate.Some? ==>
            r.value.lockUpdate.value == WhiteboardLockUpdate(wb.name, wb.locked, wb.roomId, oldName))
      && (r.value.fileWrite.Some? <==> !read.rows[0].locked || !wb.locked)
      && (r.value.fileWrite.Some? ==> r.value.fileWrite.value == (wb.filename.value, wb.drawDataList))
  {
    match read
    case ReadFailed => Failure(DbError)
    case Rows(rows) =>
      if rows != [] && rows[0].drawingFile == wb.filename && Truthy(wb.filename) then
        var stored := rows[0];
        Success(UpdatePlan(
          if wb.locked != stored.locked then Some(WhiteboardLockUpdate(wb.name, wb.locked, wb.roomId, oldName)) else None,
          if !stored.locked || !wb.locked then Some((wb.filename.value, wb.drawDataList)) else None))
      else Failure("whiteboard input is invalid")
  }

  /** Index of the first stored whiteboard named `name`, or -1. */
  function FindBoard(bs: seq<BoardRecord>, name: string): (i: int)
    ensures -1 <= i < |bs|
    ensures i >= 0 ==> bs[i].name == name
    ensures forall j :: 0 <= j < |bs| && (i < 0 || j < i) ==> bs[j].name != name
  {
    if bs == [] then -1
    else if bs[|bs| - 1].name == name && FindBoard(bs[..|bs| - 1], name) < 0 then |bs| - 1
    else FindBoard(bs[..|bs| - 1], name)
  }

  /** The whiteboard query's rows for a room and name. */
  function BoardRows(t: Tables, roomId: string, name: string): seq<WhiteboardRow>
  {
    var bs := if roomId in t.boards then t.boards[roomId] else [];
    var i := FindBoard(bs, name);
    if i < 0 then [] else [WhiteboardRow(Some(bs[i].drawingFile), bs[i].locked)]
  }

  /**
   * Applying an accepted update that keeps the board's name: the stored board ends
   * up with the requested lock, and keeps its drawing file.
   */
  lemma UpdateSetsLock(t: Tables, wb: WhiteboardDoc)
    requires UpdateWhiteboard(wb.name, wb, Rows(BoardRows(t, wb.roomId, wb.name))).Success?
    ensures var plan := UpdateWhiteboard(wb.name, wb, Rows(BoardRows(t, wb.roomId, wb.name))).value;
      var t' := if plan.lockUpdate.Some? then Step(t, plan.lockUpdate.value).value else t;
      && BoardRows(t', wb.roomId, wb.name) == [WhiteboardRow(wb.filename, wb.locked)]
  {
    var plan := UpdateWhiteboard(wb.name, wb, Rows(BoardRows(t, wb.roomId, wb.name))).value;
    var bs := t.boards[wb.roomId];
    var i := FindBoard(bs, wb.name);
    if plan.lockUpdate.Some? {
      var t' := Step(t, plan.lockUpdate.value).value;
      var bs' := Relabel(bs, wb.name, wb.name, wb.locked);
      assert t'.boards[wb.roomId] == bs';
      FindBoardRelabel(bs, wb.name, wb.locked);
    }
  }

  lemma FindBoardRelabel(bs: seq<BoardRecord>, name: string, locked: bool)
    ensures FindBoard(Relabel(bs, name, name, locked), name) == FindBoard(bs, name)
  {

  }

  // ---------------------------------------------------------------------------
  // Room search parameters
  // ---------------------------------------------------------------------------

  /** The filters of a room search; every one may be absent. */
  datatype SearchQuery = SearchQuery(
    roomId: Option<string>,
    roomName: Option<string>,
    owner: Option<string>,
    whiteboardName: Option<string>,
    isPublic: Option<bool>,
    isActive: Option<bool>)

  /** JavaScript's `s || null` for an optional string. */
  function TextOrNull(s: Option<string>): (v: SqlValue)
    ensures TextOf(v) == (if Truthy(s) then s else None)
    ensures v.Text? || v == SqlNull
  {
    if Truthy(s) then Text(s.value) else SqlNull
  }

  /** `b === undefined ? null : b` for an optional flag. */
  function FlagOrNull(b: Option<bool>): (v: SqlValue)
    ensures FlagOf(v) == b
    ensures v.Flag? || v == SqlNull
  {
    if b.Some? then Flag(b.value) else SqlNull
  }

  /** The arguments of the room filter procedure: the username first, then the six filters. */
  function SearchArguments(username: string, q: SearchQuery): (args: seq<SqlValue>)
    ensures |args| == 7 && args[0] == Text(username)
  {
    [Text(username), TextOrNull(q.roomId), TextOrNull(q.roomName), TextOrNull(q.owner),
     TextOrNull(q.whiteboardName), FlagOrNull(q.isPublic), FlagOrNull(q.isActive)]
  }

  /** A query with its empty strings dropped: the filters the procedure actually sees. */
  function Normalized(q: SearchQuery): (n: SearchQuery)
    ensures n.isPublic == q.isPublic && n.isActive == q.isActive
  {
    SearchQuery(
      if Truthy(q.roomId) then q.roomId else None,
      if Truthy(q.roomName) then q.roomName else None,
      if Truthy(q.owner) then q.owner else None,
      if Truthy(q.whiteboardName) then q.whiteboardName else None,
      q.isPublic, q.isActive)
  }

  /** The text an argument carries, if it is one. */
  function TextOf(v: SqlValue): Option<string>
  {
    if v.Text? then Some(v.text) else None
  }

  /** The flag an argument carries, if it is one. */
  function FlagOf(v: SqlValue): Option<bool>
  {
    if v.Flag? then Some(v.flag) else None
  }

  /** Reads the username and filters back from the procedure's arguments. */
  function DecodeArguments(args: seq<SqlValue>): (d: Option<(string, SearchQuery)>)
  {
    if |args| != 7 || !args[0].Text? then None
    else Some((args[0].text, SearchQuery(TextOf(args[1]), TextOf(args[2]), TextOf(args[3]),
                                         TextOf(args[4]), FlagOf(args[5]), FlagOf(args[6]))))
  }

  /**
   * The arguments lose exactly the empty strings: decoding them gives back the
   * username and the normalised query (an explicit `false` flag survives), and two
   * queries give the same arguments iff they normalise to the same query.
   */
  lemma SearchArgumentsRoundTrip(username: string, q: SearchQuery, q': SearchQuery)
    ensures DecodeArguments(SearchArguments(username, q)) == Some((username, Normalized(q)))
    ensures SearchArguments(username, q) == SearchArguments(username, q') <==> Normalized(q) == Normalized(q')
  {
    var a, a' := SearchArguments(username, q), SearchArguments(username, q');
    if a == a' {
      assert DecodeArguments(a) == DecodeArguments(a');
    }
  }
}
