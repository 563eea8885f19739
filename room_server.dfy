/**
 * The drawing server's registry: the users known by socket id, the rooms by name
 * (each with its member list, its cached whiteboard and a pending-cleanup flag),
 * and the per-socket handlers that feed them.
 *
 * Room membership is first stated on values (`Membership`, `MoveUser`, `Consistent`),
 * then kept by the `SocketServer` class, whose methods are proved to change the
 * registry exactly as those functions say.
 */
module RoomServer {
  import opened Wrappers
  import opened DrawTypes
  import opened DrawStore
  import opened Whiteboard

  // ---------------------------------------------------------------------------
  // Membership on values
  // ---------------------------------------------------------------------------

  /**
   * `xs.splice(i, 1)`: removes one element at `i`, where a negative `i` counts back
   * from the end (so -1 removes the last element) and an `i` past the end removes nothing.
   */
  function SpliceOne(xs: seq<string>, i: int): (r: seq<string>)
    ensures |r| == if xs == [] || i >= |xs| then |xs| else |xs| - 1
  {
    var start := if i >= 0 then i else if |xs| + i < 0 then 0 else |xs| + i;
    if start < |xs| then xs[..start] + xs[start + 1..] else xs
  }

  /** A room's member list and whether its deletion is scheduled. */
  datatype Membership = Membership(users: seq<string>, cleanupArmed: bool)

  /** A socket leaves: its entry is spliced out; a room left empty schedules its cleanup. */
  function Leave(m: Membership, s: string): (r: Membership)
    ensures |r.users| == if m.users == [] then 0 else |m.users| - 1
    ensures r.cleanupArmed <==> m.cleanupArmed || r.users == []
  {
    var users := SpliceOne(m.users, FirstIndex(m.users, s));
    Membership(users, if users == [] then true else m.cleanupArmed)
  }

  /** A socket joins: it is appended, and a scheduled cleanup is cancelled. */
  function Join(m: Membership, s: string): (r: Membership)
    ensures |r.users| == |m.users| + 1 && r.users[..|m.users|] == m.users && r.users[|m.users|] == s
    ensures !r.cleanupArmed
  {
    Membership(m.users + [s], false)
  }

  /**
   * `setUserRoom` on values: leave the room the user was in (when that name is truthy),
   * then join `to` (when truthy), creating an empty room of that name if there is none.
   */
  function MoveUser(ms: map<string, Membership>, s: string, from: Option<string>, to: Option<string>): (r: map<string, Membership>)
    requires Truthy(from) ==> from.value in ms
    ensures ms.Keys <= r.Keys <= ms.Keys + (if Truthy(to) then {to.value} else {})
  {
    var left := if Truthy(from) then ms[from.value := Leave(ms[from.value], s)] else ms;
    if Truthy(to) then left[to.value := Join(if to.value in left then left[to.value] else Membership([], false), s)]
    else left
  }

  /** `deleteRoomIfEmpty` on values: only an existing room with no users is dropped. */
  function DropIfEmpty(ms: map<string, Membership>, room: Option<string>): (r: map<string, Membership>)
    ensures r.Keys <= ms.Keys && forall id :: id in r ==> r[id] == ms[id]
    ensures forall id :: id in ms && id !in r ==> Truthy(room) && id == room.value && ms[id].users == []
    ensures Truthy(room) && room.value in ms && ms[room.value].users == [] ==> room.value !in r
  {
    if Truthy(room) && room.value in ms && |ms[room.value].users| == 0 then ms - {room.value} else ms
  }

  /** Every user whose room is set is listed in that room, and that room exists. */
  ghost predicate Consistent(users: map<string, LegacyUser>, ms: map<string, Membership>): (b: bool)
    ensures b ==> forall s :: s in users && Truthy(users[s].room) ==> users[s].room.value in ms
    ensures (forall s :: s in users ==> !Truthy(users[s].room)) ==> b
  {
    forall s :: s in users && Truthy(users[s].room) ==>
      users[s].room.value in ms && s in ms[users[s].room.value].users
  }

  /** The user record after `registerUser`: created empty if missing, then named. */
  function Registered(users: map<string, LegacyUser>, s: string, name: string): (r: map<string, LegacyUser>)
    ensures r.Keys == users.Keys + {s} && r[s].username == Some(name)
    ensures r[s].room == if s in users then users[s].room else None
    ensures forall t :: t in users && t != s ==> r[t] == users[t]
  {
    var u := if s in users then users[s] else LegacyUser(None, None);
    users[s := u.(username := Some(name))]
  }

  /** Splicing out the position `indexOf` found removes exactly one occurrence. */
  lemma {:induction false} SpliceFound(xs: seq<string>, x: string)
    requires x in xs
    ensures var r := SpliceOne(xs, FirstIndex(xs, x));
      |r| == |xs| - 1 && multiset(r) == multiset(xs) - multiset{x}
  {
    var i := FirstIndex(xs, x);
    assert i >= 0 by {
      var j :| 0 <= j < |xs| && xs[j] == x;
    }
    assert xs == xs[..i] + [x] + xs[i + 1..];
    calc {
      multiset(xs);
      multiset(xs[..i]) + multiset{x} + multiset(xs[i + 1..]);
      multiset(xs[..i] + xs[i + 1..]) + multiset{x};
    }
  }

  /** `splice(indexOf(x), 1)` for an `x` that is not listed removes the last element. */
  lemma {:induction false} SpliceMissing(xs: seq<string>, x: string)
    requires x !in xs && xs != []
    ensures SpliceOne(xs, FirstIndex(xs, x)) == xs[..|xs| - 1]
  {
  }

  /** Leaving takes the socket off the list once and schedules cleanup iff the room is left empty. */
  lemma {:induction false} LeaveRemovesOnce(m: Membership, s: string)
    requires s in m.users
    ensures multiset(Leave(m, s).users) == multiset(m.users) - multiset{s}
    ensures Leave(m, s).cleanupArmed <==> m.cleanupArmed || |m.users| == 1
  {
    SpliceFound(m.users, s);
  }

  /**
   * After a move the socket is listed in the room it joined, that room's cleanup is
   * cancelled, and every room other than the two named keeps its membership.
   */
  lemma {:induction false} MoveEffect(ms: map<string, Membership>, s: string, from: Option<string>, to: Option<string>)
    requires Truthy(from) ==> from.value in ms
    ensures var r := MoveUser(ms, s, from, to);
      && r.Keys == ms.Keys + (if Truthy(to) then {to.value} else {})
      && (Truthy(to) ==> s in r[to.value].users && !r[to.value].cleanupArmed)
      && (forall id :: id in ms && (!Truthy(from) || id != from.value) && (!Truthy(to) || id != to.value) ==> r[id] == ms[id])
  {
    var r := MoveUser(ms, s, from, to);
    if Truthy(to) {
      assert r[to.value].users[|r[to.value].users| - 1] == s;
    }
  }

  /** A listed id other than the one spliced out stays listed. */
  lemma {:induction false} LeaveKeepsOthers(m: Membership, s: string, t: string)
    requires s in m.users && t != s && t in m.users
    ensures t in Leave(m, s).users
  {
    SpliceFound(m.users, s);
    assert t in multiset(m.users) - multiset{s};
  }

  /** `setUserRoom` keeps every user listed in the room it names. */
  lemma {:induction false} MoveKeepsConsistent(users: map<string, LegacyUser>, ms: map<string, Membership>, s: string, to: Option<string>)
    requires Consistent(users, ms) && s in users
    ensures Truthy(users[s].room) ==> users[s].room.value in ms
    ensures Consistent(users[s := users[s].(room := to)], MoveUser(ms, s, users[s].room, to))
  {
    var from := users[s].room;
    var users' := users[s := users[s].(room := to)];
    var r := MoveUser(ms, s, from, to);
    MoveEffect(ms, s, from, to);
    forall t | t in users' && Truthy(users'[t].room)
      ensures users'[t].room.value in r && t in r[users'[t].room.value].users
    {
      if t != s {
        var id := users[t].room.value;
        var left := if Truthy(from) then ms[from.value := Leave(ms[from.value], s)] else ms;
        if Truthy(from) && id == from.value {
          LeaveKeepsOthers(ms[id], s, t);
        }
        assert t in left[id].users;
        if Truthy(to) && id == to.value {
          assert left[id].users <= r[id].users;
        }
      }
    }
  }

  /** `registerUser` leaves every user's room as it was. */
  lemma RegisterKeepsConsistent(users: map<string, LegacyUser>, ms: map<string, Membership>, s: string, name: string)
    requires Consistent(users, ms)
    ensures Consistent(Registered(users, s, name), ms)
    ensures forall t :: t in users ==> t in Registered(users, s, name) && Registered(users, s, name)[t].room == users[t].room
  {
  }

  /** No user names a room whose member list is empty, so dropping such a room keeps every user's room in place. */
  lemma {:induction false} DropKeepsConsistent(users: map<string, LegacyUser>, ms: map<string, Membership>, room: Option<string>)
    requires Consistent(users, ms)
    ensures Consistent(users, DropIfEmpty(ms, room))
  {
    if Truthy(room) && room.value in ms && |ms[room.value].users| == 0 {
      forall t | t in users && Truthy(users[t].room)
        ensures users[t].room.value != room.value
      {
        assert t in ms[users[t].room.value].users;
      }
    }
  }

  /** `getRoomWhiteboard`'s error text for a room that does not exist. */
  function BadRoom(roomId: string): (msg: string)
    ensures msg == "Bad room id " + roomId
    ensures |msg| > |roomId| && msg[|msg| - |roomId|..] == roomId
  {
    "Bad room id " + roomId
  }

  /**
   * `processDrawEvent` on values: the event is recorded on the board of the sender's
   * room, and dropped when the sender is unknown, has no room, or names a missing room.
   */
  function Recorded(boards: map<string, seq<DrawData>>, users: map<string, LegacyUser>, s: string, e: DrawEvent): (r: map<string, seq<DrawData>>)
    ensures r.Keys == boards.Keys
    ensures forall id :: id in boards && (s !in users || users[s].room != Some(id)) ==> r[id] == boards[id]
  {
    if s in users && Truthy(users[s].room) && users[s].room.value in boards then
      var id := users[s].room.value;
      boards[id := ApplyEvent(boards[id], e.action, e.data)]
    else boards
  }

  /** Joining a room that does not exist yet creates it with an empty board. */
  function WithRoom(boards: map<string, seq<DrawData>>, room: Option<string>): map<string, seq<DrawData>>
  {
    if Truthy(room) && room.value !in boards then boards[room.value := []] else boards
  }

  /** Every board keeps at most one element per id through any sequence of recorded events. */
  lemma {:induction false} RecordedKeepsUnique(boards: map<string, seq<DrawData>>, users: map<string, LegacyUser>, s: string, e: DrawEvent)
    requires forall id :: id in boards ==> UniqueIds(boards[id])
    ensures var r := Recorded(boards, users, s, e);
      r.Keys == boards.Keys && forall id :: id in r ==> UniqueIds(r[id])
  {
    if s in users && Truthy(users[s].room) && users[s].room.value in boards {
      ApplyEventUnique(boards[users[s].room.value], e.action, e.data);
    }
  }

  /** Only the sender's room's board changes. */
  lemma RecordedTouchesOneRoom(boards: map<string, seq<DrawData>>, users: map<string, LegacyUser>, s: string, e: DrawEvent, id: string)
    requires id in boards && !(s in users && users[s].room == Some(id))
    ensures Recorded(boards, users, s, e)[id] == boards[id]
  {
  }

  /** Two maps with the same keys and the same value at every key are equal. */
  lemma SameMap<V>(m: map<string, V>, m': map<string, V>)
    requires m'.Keys == m.Keys
    requires forall id :: id in m ==> m'[id] == m[id]
    ensures m' == m
  {
  }

  /** Two maps that agree everywhere but at `k` differ by one update. */
  lemma MapUpdate<V>(m: map<string, V>, m': map<string, V>, k: string, v: V)
    requires m'.Keys == m.Keys && k in m && m'[k] == v
    requires forall id :: id in m && id != k ==> m'[id] == m[id]
    ensures m' == m[k := v]
  {
  }

  // ---------------------------------------------------------------------------
  // The server's registry
  // ---------------------------------------------------------------------------

  /**
   * A room: the sockets in it, whether a cleanup timer is pending, and its cached
   * whiteboard. Only the server's map holds a room, so updating a room in place is
   * modelled as replacing its map entry; the whiteboard is a shared object.
   */
  datatype LegacyRoom = LegacyRoom(membership: Membership, whiteboard: DrawDataLinkedList)

  /** The membership part of every room. */
  function MembershipsOf(rooms: map<string, LegacyRoom>): (ms: map<string, Membership>)
    ensures ms.Keys == rooms.Keys
  {
    map id | id in rooms :: rooms[id].membership
  }

  lemma MembershipsOfUpdate(rooms: map<string, LegacyRoom>, k: string, r: LegacyRoom)
    ensures MembershipsOf(rooms[k := r]) == MembershipsOf(rooms)[k := r.membership]
  {
  }

  lemma MembershipsOfRemove(rooms: map<string, LegacyRoom>, k: string)
    ensures MembershipsOf(rooms - {k}) == MembershipsOf(rooms) - {k}
  {
  }

  /** The whiteboard of every room. */
  function WhiteboardsOf(rooms: map<string, LegacyRoom>): (w: map<string, DrawDataLinkedList>)
    ensures w.Keys == rooms.Keys
  {
    map id | id in rooms :: rooms[id].whiteboard
  }

  lemma WhiteboardsOfUpdate(rooms: map<string, LegacyRoom>, k: string, r: LegacyRoom)
    ensures WhiteboardsOf(rooms[k := r]) == WhiteboardsOf(rooms)[k := r.whiteboard]
  {
  }

  /** Replacing a room by one with the same whiteboard leaves the whiteboards as they were. */
  lemma WhiteboardsOfKeep(rooms: map<string, LegacyRoom>, k: string, r: LegacyRoom)
    requires k in rooms && r.whiteboard == rooms[k].whiteboard
    ensures WhiteboardsOf(rooms[k := r]) == WhiteboardsOf(rooms)
  {
    SameMap(WhiteboardsOf(rooms), WhiteboardsOf(rooms[k := r]));
  }

  lemma WhiteboardsOfRemove(rooms: map<string, LegacyRoom>, k: string)
    ensures WhiteboardsOf(rooms - {k}) == WhiteboardsOf(rooms) - {k}
  {
  }

  ghost function Objects(w: map<string, DrawDataLinkedList>): set<DrawDataLinkedList>
  {
    set id | id in w :: w[id]
  }

  /** Every room has a whiteboard of its own, and every whiteboard is well formed. */
  ghost predicate Separate(w: map<string, DrawDataLinkedList>)
    reads w.Values
  {
    && (forall id {:trigger w[id].Valid()} :: id in w ==> w[id].Valid())
    && (forall a, b :: a in w && b in w && a != b ==> w[a] != w[b])
  }

  /** The elements of every room's whiteboard, in list order. */
  ghost function Contents(w: map<string, DrawDataLinkedList>): (c: map<string, seq<DrawData>>)
    reads w.Values
    requires Separate(w)
    ensures c.Keys == w.Keys
  {
    map id | id in w :: w[id].Elements()
  }

  /** A new room with a whiteboard of its own keeps the whiteboards separate. */
  lemma SeparateAdd(w: map<string, DrawDataLinkedList>, k: string, wb: DrawDataLinkedList)
    requires Separate(w) && k !in w && wb.Valid()
    requires forall id :: id in w ==> w[id] != wb
    ensures Separate(w[k := wb])
  {
  }

  /** Dropping a room keeps the other rooms' whiteboards separate. */
  lemma SeparateRemove(w: map<string, DrawDataLinkedList>, k: string)
    requires Separate(w)
    ensures Separate(w - {k})
  {
  }

  /** The loop of `processDrawEvent`: the entries go to one whiteboard, first to last. */
  method RecordEntries(wb: DrawDataLinkedList, action: DrawEventAction, data: seq<DrawData>)
    requires wb.Valid()
    modifies wb
    ensures wb.Valid()
    ensures wb.Elements() == ApplyEvent(old(wb.Elements()), action, data)
  {
    var i := 0;
    while i < |data|
      invariant 0 <= i <= |data|
      invariant wb.Valid()
      invariant wb.Elements() == ApplyEvent(old(wb.Elements()), action, data[..i])
    {
      ApplyEventSnoc(old(wb.Elements()), action, data[..i], data[i]);
      assert data[..i + 1] == data[..i] + [data[i]];
      wb.ProcessEntry(action, data[i]);
      i := i + 1;
    }
    assert data[..i] == data;
  }

  /** The server: the user record of every registered socket, and the rooms by name. */
  class SocketServer {
    var users: map<string, LegacyUser>
    var rooms: map<string, LegacyRoom>

    ghost function Whiteboards(): set<DrawDataLinkedList>
      reads this
    {
      WhiteboardsOf(rooms).Values
    }

    /**
     * Every room has a whiteboard of its own and a non-empty name, and every user whose
     * room is set is listed in that room.
     */
    ghost predicate Valid()
      reads this, Whiteboards()
    {
      && "" !in rooms
      && Separate(WhiteboardsOf(rooms))
      && Consistent(users, MembershipsOf(rooms))
    }

    /** The elements of every room's whiteboard, in list order. */
    ghost function Boards(): (b: map<string, seq<DrawData>>)
      reads this, Whiteboards()
      requires Valid()
      ensures b.Keys == rooms.Keys
    {
      Contents(WhiteboardsOf(rooms))
    }

    constructor ()
      ensures Valid() && users == map[] && rooms == map[]
    {
      users := map[];
      rooms := map[];
    }

    /** `registerUser`: a socket gets a user record, whose username is then set. */
    method RegisterUser(socketId: string, username: string)
      requires Valid()
      modifies this
      ensures Valid()
      ensures users == Registered(old(users), socketId, username)
      ensures rooms == old(rooms)
    {
      RegisterKeepsConsistent(users, MembershipsOf(rooms), socketId, username);
      if socketId !in users {
        users := users[socketId := LegacyUser(None, None)];
      }
      users := users[socketId := users[socketId].(username := Some(username))];
    }

    /** `unregisterUser`: the record of a known socket is dropped; rooms are not touched. */
    method UnregisterUser(socketId: string)
      requires Valid()
      modifies this
      ensures Valid()
      ensures users == old(users) - {socketId}
      ensures rooms == old(rooms)
    {
      if socketId !in users {
        return;
      }
      users := users - {socketId};
    }

    /**
     * `processDrawEvent`: each entry of the event is applied, in order, to the whiteboard
     * of the sender's room; an unknown sender, a sender with no room and a missing room
     * leave every board as it was.
     */
    method ProcessDrawEvent(socketId: string, event: DrawEvent)
      requires Valid()
      modifies Whiteboards()
      ensures Valid()
      ensures Boards() == Recorded(old(Boards()), users, socketId, event)
    {
      if socketId !in users {
        return;
      }
      var user := users[socketId];
      if !Truthy(user.room) {
        return;
      }
      if user.room.value !in rooms {
        return;
      }
      RecordInRoom(user.room.value, event);
    }

    /** The part of `processDrawEvent` after its guards: one room's board takes the event. */
    method RecordInRoom(roomId: string, event: DrawEvent)
      requires Valid() && roomId in rooms
      modifies rooms[roomId].whiteboard
      ensures Valid()
      ensures Boards() == old(Boards())[roomId := ApplyEvent(old(Boards())[roomId], event.action, event.data)]
    {
      var wb := rooms[roomId].whiteboard;
      ghost var w := WhiteboardsOf(rooms);
      RecordEntries(wb, event.action, event.data);
      assert Separate(w) by {
        forall id | id in w && id != roomId
          ensures w[id].Valid()
        {
          assert w[id] != wb;
        }
      }
      ghost var b0, b1 := old(Boards()), Boards();
      forall id | id in w && id != roomId
        ensures b1[id] == b0[id]
      {
        assert w[id] != wb;
      }
      MapUpdate(b0, b1, roomId, wb.Elements());
    }

    /**
     * `getRoomWhiteboard`: the elements of the room's whiteboard in list order, without
     * their `aboveId`; a room that does not exist is an error naming it.
     */
    method GetRoomWhiteboard(roomId: string) returns (r: Result<seq<DrawData>>)
      requires Valid()
      ensures roomId !in rooms ==> r == Failure(BadRoom(roomId))
      ensures roomId in rooms ==> r == Success(Boards()[roomId])
      ensures r.Success? ==> forall i :: 0 <= i < |r.value| ==> r.value[i].aboveId == None
    {
      if roomId !in rooms {
        return Failure(BadRoom(roomId));
      }
      var list := rooms[roomId].whiteboard.Walk();
      return Success(list);
    }

    /**
     * `setUserRoom`: the socket leaves the room its user names (when that name is truthy),
     * then joins `room` (when truthy), which is created with a new, empty whiteboard if it
     * does not exist; the user record then names `room`. No whiteboard is modified, and
     * every room keeps its whiteboard.
     */
    method SetUserRoom(socketId: string, room: Option<string>)
      requires Valid() && socketId in users
      modifies this
      ensures Valid()
      ensures users == old(users)[socketId := old(users[socketId]).(room := room)]
      ensures MembershipsOf(rooms) == MoveUser(old(MembershipsOf(rooms)), socketId, old(users[socketId].room), room)
      ensures forall id :: id in old(rooms) ==> id in rooms && rooms[id].whiteboard == old(rooms[id].whiteboard)
      ensures Truthy(room) && room.value !in old(rooms) ==>
        fresh(rooms[room.value].whiteboard) && rooms[room.value].whiteboard.Elements() == []
    {
      var user := users[socketId];
      ghost var users0, ms0 := users, MembershipsOf(rooms);
      MoveRooms(socketId, user.room, room);
      users := users[socketId := user.(room := room)];
      assert Consistent(users, MembershipsOf(rooms)) by {
        MoveKeepsConsistent(users0, ms0, socketId, room);
      }
    }

    /** The room half of `setUserRoom`: leave the room `from` names, then join `to`. */
    method MoveRooms(socketId: string, from: Option<string>, to: Option<string>)
      requires Separate(WhiteboardsOf(rooms)) && "" !in rooms
      requires Truthy(from) ==> from.value in rooms
      modifies this
      ensures Separate(WhiteboardsOf(rooms)) && "" !in rooms
      ensures users == old(users)
      ensures MembershipsOf(rooms) == MoveUser(old(MembershipsOf(rooms)), socketId, from, to)
      ensures forall id :: id in old(rooms) ==> id in rooms && rooms[id].whiteboard == old(rooms[id].whiteboard)
      ensures Truthy(to) && to.value !in old(rooms) ==>
        fresh(rooms[to.value].whiteboard) && rooms[to.value].whiteboard.Elements() == []
    {
      ghost var ms0 := MembershipsOf(rooms);
      if Truthy(from) {
        LeaveRoom(socketId, from.value);
      }
      assert MembershipsOf(rooms) == if Truthy(from) then ms0[from.value := Leave(ms0[from.value], socketId)] else ms0;
      if Truthy(to) {
        JoinRoom(socketId, to.value);
      }
    }

    /**
     * The leave half of `setUserRoom`: the socket is spliced out of the room's list, and
     * the room's cleanup timer is armed if the room is left empty.
     */
    method LeaveRoom(socketId: string, roomId: string)
      requires Separate(WhiteboardsOf(rooms)) && roomId in rooms
      modifies this
      ensures Separate(WhiteboardsOf(rooms))
      ensures users == old(users) && WhiteboardsOf(rooms) == old(WhiteboardsOf(rooms))
      ensures MembershipsOf(rooms) == old(MembershipsOf(rooms))[roomId := Leave(old(MembershipsOf(rooms))[roomId], socketId)]
      ensures rooms.Keys == old(rooms).Keys && forall id :: id in rooms ==> rooms[id].whiteboard == old(rooms[id].whiteboard)
    {
      var r := rooms[roomId].(membership := Leave(rooms[roomId].membership, socketId));
      MembershipsOfUpdate(rooms, roomId, r);
      WhiteboardsOfKeep(rooms, roomId, r);
      rooms := rooms[roomId := r];
    }

    /**
     * The join half of `setUserRoom`: the room is created with a new, empty whiteboard if
     * it does not exist, the socket is appended, and any cleanup timer is cancelled.
     */
    method JoinRoom(socketId: string, roomId: string)
      requires Separate(WhiteboardsOf(rooms))
      modifies this
      ensures Separate(WhiteboardsOf(rooms))
      ensures users == old(users)
      ensures var ms := old(MembershipsOf(rooms));
        MembershipsOf(rooms) == ms[roomId := Join(if roomId in ms then ms[roomId] else Membership([], false), socketId)]
      ensures forall id :: id in old(rooms) ==> id in rooms && rooms[id].whiteboard == old(rooms[id].whiteboard)
      ensures roomId !in old(rooms) ==> fresh(rooms[roomId].whiteboard) && rooms[roomId].whiteboard.Elements() == []
    {
      var r: LegacyRoom;
      if roomId !in rooms {
        var wb := new DrawDataLinkedList();
        SeparateAdd(WhiteboardsOf(rooms), roomId, wb);
        r := LegacyRoom(Membership([], false), wb);
      } else {
        r := rooms[roomId];
      }
      r := r.(membership := Join(r.membership, socketId));
      MembershipsOfUpdate(rooms, roomId, r);
      WhiteboardsOfUpdate(rooms, roomId, r);
      rooms := rooms[roomId := r];
    }

    /**
     * `deleteRoomIfEmpty`, run when a room's cleanup timer fires: the room is dropped
     * only if it exists and has no users; every other room keeps its members and its
     * whiteboard, and no whiteboard is modified.
     */
    method DeleteRoomIfEmpty(room: Option<string>)
      requires Valid()
      modifies this
      ensures Valid()
      ensures users == old(users)
      ensures MembershipsOf(rooms) == DropIfEmpty(old(MembershipsOf(rooms)), room)
      ensures forall id :: id in rooms ==> rooms[id].whiteboard == old(rooms[id].whiteboard)
    {
      if Truthy(room) && room.value in rooms && |rooms[room.value].membership.users| == 0 {
        MembershipsOfRemove(rooms, room.value);
        WhiteboardsOfRemove(rooms, room.value);
        SeparateRemove(WhiteboardsOf(rooms), room.value);
        DropKeepsConsistent(users, MembershipsOf(rooms), room);
        rooms := rooms - {room.value};
      }
    }
  }

  // ---------------------------------------------------------------------------
  // The per-connection handlers
  // ---------------------------------------------------------------------------

  /**
   * One connection and what it remembers about itself: the username it registered
   * and the room it last joined. The transport (socket.io rooms, emits) is not modelled:
   * the handlers return what they would send.
   */
  class Socket {
    const id: string
    const server: SocketServer
    var username: Option<string>
    var room: Option<string>

    /** A socket with a truthy username or room has a user record on the server. */
    ghost predicate Valid()
      reads this, server, server.Whiteboards()
    {
      && server.Valid()
      && (Truthy(username) ==> id in server.users)
      && (Truthy(room) ==> id in server.users)
    }

    constructor (id: string, server: SocketServer)
      requires server.Valid()
      ensures Valid() && this.id == id && this.server == server
      ensures username == None && room == None
    {
      this.id := id;
      this.server := server;
      username := None;
      room := None;
    }

    /** `onRegister`: the socket remembers the name and the server records it. */
    method OnRegister(name: string)
      requires Valid()
      modifies this, server
      ensures Valid()
      ensures username == Some(name) && room == old(room)
      ensures server.users == Registered(old(server.users), id, name) && server.rooms == old(server.rooms)
    {
      username := Some(name);
      server.RegisterUser(id, name);
    }

    /**
     * `onJoin`: ignored unless the socket has a truthy username; otherwise the socket
     * moves to `roomName` on the server and is sent that room's whiteboard, which fails
     * for the empty name since no room of that name is ever created.
     */
    method OnJoin(roomName: string) returns (sent: Option<Result<seq<DrawData>>>)
      requires Valid()
      modifies this, server
      ensures Valid()
      ensures !Truthy(old(username)) ==> sent == None && room == old(room) && server.users == old(server.users) && server.rooms == old(server.rooms)
      ensures Truthy(old(username)) ==>
        && room == Some(roomName)
        && server.users == old(server.users)[id := old(server.users[id]).(room := Some(roomName))]
        && MembershipsOf(server.rooms) == MoveUser(old(MembershipsOf(server.rooms)), id, old(server.users[id].room), Some(roomName))
        && sent.Some?
        && (roomName == "" ==> sent.value == Failure(BadRoom(roomName)))
        && (roomName != "" ==> sent.value == Success(server.Boards()[roomName]))
    {
      if !Truthy(username) {
        return None;
      }
      room := Some(roomName);
      server.SetUserRoom(id, Some(roomName));
      var board := server.GetRoomWhiteboard(roomName);
      return Some(board);
    }

    /**
     * `onLeave`: a socket whose room is truthy is taken out of its room on the server.
     * The socket keeps its own `room`, so it still passes the room check of `OnEvent`.
     */
    method OnLeave()
      requires Valid()
      modifies server
      ensures Valid()
      ensures !Truthy(room) ==> server.users == old(server.users) && server.rooms == old(server.rooms)
      ensures Truthy(room) ==>
        && server.users == old(server.users)[id := old(server.users[id]).(room := None)]
        && MembershipsOf(server.rooms) == MoveUser(old(MembershipsOf(server.rooms)), id, old(server.users[id].room), None)
      ensures forall r :: r in old(server.rooms) ==> r in server.rooms && server.rooms[r].whiteboard == old(server.rooms[r].whiteboard)
    {
      if Truthy(room) {
        server.SetUserRoom(id, None);
      }
    }

    /**
     * `onEvent`: an event from a socket without a truthy room is dropped; otherwise it is
     * stamped with the socket's id and relayed to the room, and a draw event is also
     * recorded on the server.
     */
    method OnEvent(event: BoardEvent) returns (relayed: Option<BoardEvent>)
      requires Valid()
      modifies server.Whiteboards()
      ensures Valid()
      ensures !Truthy(room) ==> relayed == None && server.Boards() == old(server.Boards())
      ensures Truthy(room) ==> relayed == Some(event.WithOrigin(id))
      ensures Truthy(room) && event.Draw? ==>
        server.Boards() == Recorded(old(server.Boards()), server.users, id, event.WithOrigin(id).draw)
      ensures event.Preview? ==> server.Boards() == old(server.Boards())
    {
      if !Truthy(room) {
        return None;
      }
      var stamped := event.WithOrigin(id);
      if stamped.Draw? {
        server.ProcessDrawEvent(id, stamped.draw);
      }
      return Some(stamped);
    }

    /**
     * `onDisconnect`: leave the room, then drop the user record. The room effect is
     * `onLeave`'s: the socket is spliced out of its room's list, and a room left empty
     * arms its cleanup.
     */
    method OnDisconnect()
      requires Valid()
      modifies server
      ensures server.Valid()
      ensures id !in server.users
      ensures forall s :: s in server.users ==> s in old(server.users) && server.users[s] == old(server.users[s])
      ensures server.users == old(server.users) - {id}
      ensures !Truthy(room) ==> server.rooms == old(server.rooms)
      ensures Truthy(room) ==>
        MembershipsOf(server.rooms) == MoveUser(old(MembershipsOf(server.rooms)), id, old(server.users[id].room), None)
      ensures forall r :: r in old(server.rooms) ==> r in server.rooms && server.rooms[r].whiteboard == old(server.rooms[r].whiteboard)
    {
      OnLeave();
      server.UnregisterUser(id);
    }
  }
}
