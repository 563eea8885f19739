/**
 * The browser client's objects: the drawing tools, the path/group registry the
 * tools share, the drawing canvas that owns the tools, colours and member list,
 * the per-user drawing members, and the wrapper around the client's socket.
 *
 * The drawing library (paper) is not modelled: where a tool asks it for something,
 * its answer is a parameter (`PaperReply`). The socket's emits are appended to the
 * wrapper's `outbox`.
 */
module Client {
  import opened Wrappers
  import opened DrawTypes
  import opened ClientEvents

  /** What the client's socket emits. */
  datatype Emit = RegisterEmit(username: string) | JoinEmit(room: string) | BoardEventEmit(event: ClientEvent)

  /**
   * The drawing library's answers while a tool processes one event: the id the next
   * new path gets, and, for each item the eraser hits, whether it is a path other
   * than the eraser's own pointer.
   */
  datatype PaperReply = PaperReply(newPathId: nat, hits: seq<bool>)

  /** Where a tool's current path stands after it processed `e`. */
  function PathAfter(kind: ToolKind, e: ClientEvent, path: Option<nat>, newPathId: nat): (r: Option<nat>)
    ensures r == path || r == Some(newPathId) || r == None
    ensures r != path ==> e.Stroke? && kind != SelectorTool && kind != EraserTool && kind != LaserPointerTool
    ensures e.Stroke? && e.action == End ==> r == None || r == path
  {
    if e.Edit? then path
    else
      match kind
      case BaseTool | DynamicPenTool | FountainPenTool | DrunkPenTool =>
        if e.action == End then None else Some(newPathId)
      case PenTool =>
        if e.action == End then None
        else if e.action == Begin || path.None? then Some(newPathId)
        else path
      case _ => path
  }

  /** The pen keeps one path for a whole stroke; the other path-drawing tools start a new path per segment. */
  lemma PenKeepsOnePathPerStroke(e: ClientEvent, path: Option<nat>, newPathId: nat)
    requires e.Stroke? && e.action == Move && path.Some?
    ensures PathAfter(PenTool, e, path, newPathId) == path
    ensures PathAfter(BaseTool, e, path, newPathId) == Some(newPathId)
    ensures forall k :: PathAfter(k, e.(action := End), path, newPathId) == path || PathAfter(k, e.(action := End), path, newPathId) == None
  {
  }

  /**
   * `PathGroupMap`: which group each path belongs to, and which path carries each
   * group. Both directions are overwritten by a later insert.
   */
  class PathGroupMap {
    var pathToGroup: map<nat, string>
    var groupToPath: map<string, nat>

    constructor ()
      ensures pathToGroup == map[] && groupToPath == map[]
    {
      pathToGroup := map[];
      groupToPath := map[];
    }

    function GetGroup(pathId: nat): Option<string>
      reads this
    {
      if pathId in pathToGroup then Some(pathToGroup[pathId]) else None
    }

    function GetPathRef(group: string): Option<nat>
      reads this
    {
      if group in groupToPath then Some(groupToPath[group]) else None
    }

    /** Records that `pathId` carries `group`, in both directions, overwriting what was there. */
    method Insert(pathId: nat, group: string)
      modifies this
      ensures pathToGroup == old(pathToGroup)[pathId := group]
      ensures groupToPath == old(groupToPath)[group := pathId]
      ensures GetGroup(pathId) == Some(group) && GetPathRef(group) == Some(pathId)
      ensures forall p :: p != pathId ==> GetGroup(p) == old(GetGroup(p))
      ensures forall g :: g != group ==> GetPathRef(g) == old(GetPathRef(g))
    {
      pathToGroup := pathToGroup[pathId := group];
      groupToPath := groupToPath[group := pathId];
    }
  }

  /**
   * The client's socket wrapper: who the user is (`userId` is the socket's id), the
   * room joined, and what has been emitted.
   */
  class SocketServer {
    const userId: string
    var username: Option<string>
    var room: Option<string>
    var canvas: DrawingCanvas?
    var outbox: seq<Emit>

    /** A new socket, with the canvas of its user interface (if any) wired to it. */
    constructor (userId: string, canvas: DrawingCanvas?)
      modifies canvas, (set t | canvas != null && t in canvas.drawingTools)`channel
      ensures this.userId == userId && this.canvas == canvas
      ensures username == None && room == None && outbox == []
      ensures canvas != null ==>
        && canvas.socketServer == this && canvas.drawingTools == old(canvas.drawingTools)
        && forall t :: t in canvas.drawingTools ==> t.channel == this
      ensures canvas != null ==>
        && canvas.activeDrawingToolIndex == old(canvas.activeDrawingToolIndex)
        && canvas.drawingColors == old(canvas.drawingColors) && canvas.activeColor == old(canvas.activeColor)
        && canvas.drawingMembersMap == old(canvas.drawingMembersMap)
    {
      this.userId := userId;
      username, room := None, None;
      this.canvas := canvas;
      outbox := [];
      new;
      if canvas != null {
        canvas.SetSocketServer(this);
      }
    }

    /** `register`: a falsy name is ignored; otherwise it is recorded and emitted. */
    method Register(name: Option<string>)
      modifies this
      ensures room == old(room) && canvas == old(canvas)
      ensures !Truthy(name) ==> username == old(username) && outbox == old(outbox)
      ensures Truthy(name) ==> username == name && outbox == old(outbox) + [RegisterEmit(name.value)]
    {
      if Truthy(name) {
        username := name;
        outbox := outbox + [RegisterEmit(name.value)];
      }
    }

    /** `join`: a falsy room is ignored; otherwise it is recorded and emitted. */
    method Join(r: Option<string>)
      modifies this
      ensures username == old(username) && canvas == old(canvas)
      ensures !Truthy(r) ==> room == old(room) && outbox == old(outbox)
      ensures Truthy(r) ==> room == r && outbox == old(outbox) + [JoinEmit(r.value)]
    {
      if Truthy(r) {
        room := r;
        outbox := outbox + [JoinEmit(r.value)];
      }
    }

    /** The globally unique group of a path: the user's id, `_`, the path's id. */
    function GetGroup(pathId: string): string
    {
      userId + "_" + pathId
    }

    /** `sendBoardEvent`: nothing before a room is joined; then the event goes out stamped with its group and sender. */
    method SendBoardEvent(e: ClientEvent, pathId: string)
      modifies this
      ensures username == old(username) && room == old(room) && canvas == old(canvas)
      ensures !Truthy(room) ==> outbox == old(outbox)
      ensures Truthy(room) ==> outbox == old(outbox) + [BoardEventEmit(Stamp(e, GetGroup(pathId), userId))]
    {
      if !Truthy(room) {
        return;
      }
      outbox := outbox + [BoardEventEmit(Stamp(e, GetGroup(pathId), userId))];
    }

    /**
     * The `board event` listener: an event is routed only when its sender is set and
     * is not this client; it goes to the member of that id, if the canvas has one.
     */
    method OnBoardEvent(e: ClientEvent, groups: PathGroupMap, reply: PaperReply) returns (target: DrawingMember?)
      modifies groups, if canvas != null then canvas.MemberTools() else {}
      ensures target != null ==>
        && Truthy(e.originUserId) && e.originUserId != Some(userId) && canvas != null
        && old(canvas.GetDrawingMember(e.originUserId.value)) == Some(target)
      ensures target == null ==>
        !Truthy(e.originUserId) || e.originUserId == Some(userId) || canvas == null
        || canvas.GetDrawingMember(e.originUserId.value).None?
      ensures target != null && target.id == e.originUserId.value ==>
        old(target.ToolFor(e.toolId)).handled == old(target.ToolFor(e.toolId).handled) + [e]
      ensures target != null && target.id != e.originUserId.value ==>
        forall t :: t in old(target.Tools()) ==> t.handled == old(t.handled)
      ensures target != null && target.id != e.originUserId.value ==>
        unchanged(groups) && forall t :: t in old(target.Tools()) ==> unchanged(t)
      ensures target != null ==>
        forall t :: t in old(target.Tools()) && t != old(target.ToolFor(e.toolId)) ==> unchanged(t)
      ensures target != null ==>
        forall t :: t in old(canvas.MemberTools()) && t !in old(target.Tools()) ==> unchanged(t)
      ensures target == null ==> unchanged(groups)
      ensures target == null && canvas != null ==> forall t :: t in old(canvas.MemberTools()) ==> unchanged(t)
    {
      target := null;
      if e.originUserId != Some(userId) && Truthy(e.originUserId) && canvas != null {
        var m := canvas.GetDrawingMember(e.originUserId.value);
        if m.Some? {
          target := m.value;
          assert target in canvas.drawingMembersMap.Values;
          var _ := target.Handle(e, groups, reply);
        }
      }
    }

    /**
     * The `room whiteboard` listener: when the client's own member exists, each event
     * with a group is fed, in order, to a worker tool of its own group. A group's worker
     * is a clone of the member's tool for the event's tool id, named
     * `roomInitialiserWorker<k>` where `k` counts the groups seen before it.
     */
    method OnRoomWhiteboard(whiteboard: seq<ClientEvent>, groups: PathGroupMap, replies: seq<PaperReply>, randomId: string)
      returns (workers: map<string, DrawingTool>, cnt: nat)
      requires |replies| == |whiteboard|
      modifies groups
      ensures canvas == null || canvas.GetDrawingMember(userId).None? ==> workers == map[] && cnt == 0 && unchanged(groups)
      ensures canvas != null && canvas.GetDrawingMember(userId).Some? ==>
        && cnt == |DistinctGroups(whiteboard)|
        && (forall g :: g in workers <==> g in DistinctGroups(whiteboard))
        && forall g :: g in workers ==>
          && fresh(workers[g]) && workers[g].channel == null
          && workers[g].id == "roomInitialiserWorker" + NatToString(FirstIndex(DistinctGroups(whiteboard), g))
          && workers[g].handled == GroupEvents(whiteboard, g) && GroupEvents(whiteboard, g) != []
          && ClonedFrom(workers[g], canvas.GetDrawingMember(userId).value.ToolFor(GroupEvents(whiteboard, g)[0].toolId))
      ensures canvas != null && canvas.GetDrawingMember(userId).Some? ==>
        (groups.pathToGroup, groups.groupToPath) ==
          ReplayedPaths(canvas.GetDrawingMember(userId).value, whiteboard, replies, old(groups.pathToGroup), old(groups.groupToPath))
    {
      workers, cnt := map[], 0;
      if canvas == null {
        return;
      }
      var me := canvas.GetDrawingMember(userId);
      if me.None? {
        return;
      }
      var member := me.value;
      for i := 0 to |whiteboard|
        invariant Replayed(member, workers, cnt, whiteboard[..i])
        invariant forall g :: g in workers ==> fresh(workers[g])
        invariant (groups.pathToGroup, groups.groupToPath) ==
          ReplayedPaths(member, whiteboard[..i], replies[..i], old(groups.pathToGroup), old(groups.groupToPath))
      {
        assert whiteboard[..i + 1] == whiteboard[..i] + [whiteboard[i]];
        assert whiteboard[..i + 1][..i] == whiteboard[..i] && replies[..i + 1][..i] == replies[..i];
        workers, cnt := ReplayOne(member, workers, cnt, whiteboard[..i], whiteboard[i], groups, replies[i], randomId);
      }
      assert whiteboard[..|whiteboard|] == whiteboard && replies[..|replies|] == replies;
    }
  }

  /** A worker is a clone of `base`: the same kind, and the size `clone` gives it. */
  ghost predicate ClonedFrom(worker: DrawingTool, base: DrawingTool)
    reads worker, base
  {
    && worker.kind == base.kind
    && worker.size == if base.kind == SelectorTool then DefaultSize(SelectorTool) else base.size
  }

  /**
   * The replay's state after `events`: one worker per distinct group, named after the
   * number of groups before it, cloned from `member`'s tool for the group's first event,
   * that has handled exactly its group's events.
   */
  ghost predicate Replayed(member: DrawingMember, workers: map<string, DrawingTool>, cnt: nat, events: seq<ClientEvent>)
    reads member, member.Tools(), set g | g in workers :: workers[g]
  {
    && cnt == |DistinctGroups(events)|
    && (forall g :: g in workers <==> g in DistinctGroups(events))
    && (forall g :: g in workers ==> WorkerOf(member, workers[g], g, events))
    && forall g, h :: g in workers && h in workers && g != h ==> workers[g] != workers[h]
  }

  /** The worker of group `g` after `events`: its name, its origin, and the events it has handled. */
  ghost predicate WorkerOf(member: DrawingMember, tool: DrawingTool, g: string, events: seq<ClientEvent>)
    reads member, member.Tools(), tool
  {
    && g != "" && g in DistinctGroups(events) && tool.channel == null && tool !in member.Tools()
    && tool.id == "roomInitialiserWorker" + NatToString(FirstIndex(DistinctGroups(events), g))
    && tool.handled == GroupEvents(events, g) && GroupEvents(events, g) != []
    && ClonedFrom(tool, member.ToolFor(GroupEvents(events, g)[0].toolId))
    && (tool.kind == PenTool ==> (tool.path.None? <==> PenIdle(GroupEvents(events, g))))
  }

  /** A pen that has handled `events` has no current path: it drew no stroke, or its last stroke event was an `end`. */
  ghost predicate PenIdle(events: seq<ClientEvent>)
    decreases |events|
  {
    if events == [] then true
    else if events[|events| - 1].Stroke? then events[|events| - 1].action == End
    else PenIdle(events[..|events| - 1])
  }

  /**
   * Whether replaying `e` after `before` records a path: its group's worker is a pen
   * (cloned from the member's tool for the group's first event) and `e` starts its path.
   */
  ghost predicate StartsPenPath(member: DrawingMember, before: seq<ClientEvent>, e: ClientEvent)
    reads member
  {
    && Truthy(e.group) && e.Stroke?
    && GroupEvents(before + [e], e.group.value) != []
    && member.ToolFor(GroupEvents(before + [e], e.group.value)[0].toolId).kind == PenTool
    && (e.action == Begin || PenIdle(GroupEvents(before, e.group.value)))
  }

  /**
   * The path and group maps after replaying `events` with their `replies`, from the maps
   * `p2g` and `g2p`: every event that starts a pen path records it under the event's group.
   */
  ghost function ReplayedPaths(member: DrawingMember, events: seq<ClientEvent>, replies: seq<PaperReply>,
                               p2g: map<nat, string>, g2p: map<string, nat>): (r: (map<nat, string>, map<string, nat>))
    requires |replies| == |events|
    reads member
    decreases |events|
  {
    if events == [] then (p2g, g2p)
    else
      var n := |events| - 1;
      var r := ReplayedPaths(member, events[..n], replies[..n], p2g, g2p);
      if StartsPenPath(member, events[..n], events[n])
      then (r.0[replies[n].newPathId := events[n].group.value], r.1[events[n].group.value := replies[n].newPathId])
      else r
  }

  /**
   * Replaying keeps every entry's key and changes an entry only to what some stroke
   * event recorded: its reply's new path id, under its own group.
   */
  lemma {:induction false} ReplayedPathsRecord(member: DrawingMember, events: seq<ClientEvent>, replies: seq<PaperReply>,
                                               p2g: map<nat, string>, g2p: map<string, nat>)
    requires |replies| == |events|
    ensures p2g.Keys <= ReplayedPaths(member, events, replies, p2g, g2p).0.Keys
    ensures g2p.Keys <= ReplayedPaths(member, events, replies, p2g, g2p).1.Keys
    ensures var a := ReplayedPaths(member, events, replies, p2g, g2p).0;
      forall p :: p in a && (p !in p2g || a[p] != p2g[p]) ==>
        exists i :: 0 <= i < |events| && events[i].Stroke? && replies[i].newPathId == p && events[i].group == Some(a[p])
    ensures var b := ReplayedPaths(member, events, replies, p2g, g2p).1;
      forall g :: g in b && (g !in g2p || b[g] != g2p[g]) ==>
        exists i :: 0 <= i < |events| && events[i].Stroke? && events[i].group == Some(g) && replies[i].newPathId == b[g]
    decreases |events|
  {
    if events != [] {
      var n := |events| - 1;
      ReplayedPathsRecord(member, events[..n], replies[..n], p2g, g2p);
      var r := ReplayedPaths(member, events[..n], replies[..n], p2g, g2p);
      var a := ReplayedPaths(member, events, replies, p2g, g2p).0;
      var b := ReplayedPaths(member, events, replies, p2g, g2p).1;
      forall p | p in a && (p !in p2g || a[p] != p2g[p])
        ensures exists i :: 0 <= i < |events| && events[i].Stroke? && replies[i].newPathId == p && events[i].group == Some(a[p])
      {
        if StartsPenPath(member, events[..n], events[n]) && p == replies[n].newPathId {
          assert events[n].Stroke? && events[n].group == Some(a[p]);
        } else {
          assert p in r.0 && a[p] == r.0[p];
          var i :| 0 <= i < n && events[..n][i].Stroke? && replies[..n][i].newPathId == p && events[..n][i].group == Some(r.0[p]);
          assert events[i] == events[..n][i] && replies[i] == replies[..n][i];
        }
      }
      forall g | g in b && (g !in g2p || b[g] != g2p[g])
        ensures exists i :: 0 <= i < |events| && events[i].Stroke? && events[i].group == Some(g) && replies[i].newPathId == b[g]
      {
        if StartsPenPath(member, events[..n], events[n]) && g == events[n].group.value {
          assert events[n].group == Some(g) && replies[n].newPathId == b[g];
        } else {
          assert g in r.1 && b[g] == r.1[g];
          var i :| 0 <= i < n && events[..n][i].Stroke? && events[..n][i].group == Some(g) && replies[..n][i].newPathId == r.1[g];
          assert events[i] == events[..n][i] && replies[i] == replies[..n][i];
        }
      }
    }
  }

  /** One step of the replay: the event goes to its group's worker, which is cloned first if the group is new. */
  method ReplayOne(member: DrawingMember, workers: map<string, DrawingTool>, cnt: nat, ghost before: seq<ClientEvent>,
                   e: ClientEvent, groups: PathGroupMap, reply: PaperReply, randomId: string)
    returns (workers': map<string, DrawingTool>, cnt': nat)
    requires Replayed(member, workers, cnt, before)
    modifies groups, set g | g in workers :: workers[g]
    ensures Replayed(member, workers', cnt', before + [e])
    ensures forall g :: g in workers' ==> (g in workers && workers'[g] == workers[g]) || fresh(workers'[g])
    ensures StartsPenPath(member, before, e) ==>
      && groups.pathToGroup == old(groups.pathToGroup)[reply.newPathId := e.group.value]
      && groups.groupToPath == old(groups.groupToPath)[e.group.value := reply.newPathId]
    ensures !StartsPenPath(member, before, e) ==>
      groups.pathToGroup == old(groups.pathToGroup) && groups.groupToPath == old(groups.groupToPath)
  {
    if !Truthy(e.group) {
      UngroupedReplayed(member, workers, cnt, before, e);
      return workers, cnt;
    }
    if e.group.value in workers {
      workers', cnt' := workers, cnt;
      ReplayToWorker(member, workers, cnt, before, e, groups, reply);
    } else {
      workers', cnt' := ReplayToNewWorker(member, workers, cnt, before, e, groups, reply, randomId);
    }
  }

  /** An event without a group changes no worker. */
  lemma UngroupedReplayed(member: DrawingMember, workers: map<string, DrawingTool>, cnt: nat, before: seq<ClientEvent>, e: ClientEvent)
    requires Replayed(member, workers, cnt, before) && !Truthy(e.group)
    ensures Replayed(member, workers, cnt, before + [e])
  {
    ReplayStep(before, e);
    forall h | h in workers
      ensures WorkerOf(member, workers[h], h, before + [e])
    {
      assert WorkerOf(member, workers[h], h, before);
      assert e.group != Some(h);
    }
  }

  /** The event goes to the worker its group already has. */
  method ReplayToWorker(ghost member: DrawingMember, workers: map<string, DrawingTool>, cnt: nat, ghost before: seq<ClientEvent>,
                        e: ClientEvent, groups: PathGroupMap, reply: PaperReply)
    requires Replayed(member, workers, cnt, before) && e.group.Some? && e.group.value in workers
    modifies groups, workers[e.group.value]
    ensures Replayed(member, workers, cnt, before + [e])
    ensures StartsPenPath(member, before, e) ==>
      && groups.pathToGroup == old(groups.pathToGroup)[reply.newPathId := e.group.value]
      && groups.groupToPath == old(groups.groupToPath)[e.group.value := reply.newPathId]
    ensures !StartsPenPath(member, before, e) ==>
      groups.pathToGroup == old(groups.pathToGroup) && groups.groupToPath == old(groups.groupToPath)
  {
    ReplayStep(before, e);
    var g := e.group.value;
    var tool := workers[g];
    assert tool !in member.Tools();
    assert WorkerOf(member, tool, g, before);
    assert GroupEvents(before + [e], g)[0] == GroupEvents(before, g)[0];
    assert GroupEvents(before + [e], g) == GroupEvents(before, g) + [e];
    PenIdleSnoc(GroupEvents(before, g), e);
    Feed(tool, e, groups, reply);
    forall h | h in workers
      ensures WorkerOf(member, workers[h], h, before + [e])
    {
      var base := member.ToolFor(GroupEvents(before, h)[0].toolId);
      assert base != tool;
      if h != g {
        assert workers[h] != tool;
      }
    }
  }

  /** The first event of a new group starts a pen path exactly when it is a stroke and the member's tool for it is a pen. */
  lemma NewGroupStartsPenPath(member: DrawingMember, before: seq<ClientEvent>, e: ClientEvent)
    requires Truthy(e.group) && e.group.value !in DistinctGroups(before)
    ensures StartsPenPath(member, before, e) <==> e.Stroke? && member.ToolFor(e.toolId).kind == PenTool
  {
    ReplayStep(before, e);
    GroupEventsEmpty(before, e.group.value);
    assert GroupEvents(before + [e], e.group.value) == [e];
  }

  /** A pen that has handled one event is idle unless that event begins or continues a stroke. */
  lemma PenIdleOne(e: ClientEvent)
    ensures PenIdle([e]) == (e.Stroke? ==> e.action == End)
  {
    assert [e][..0] == [];
  }

  /** A pen's idleness after one more event. */
  lemma PenIdleSnoc(events: seq<ClientEvent>, e: ClientEvent)
    ensures PenIdle(events + [e]) == if e.Stroke? then e.action == End else PenIdle(events)
  {
    assert (events + [e])[..|events|] == events;
  }

  /** A new group gets a worker of its own, cloned from the member's tool for the event, which then handles the event. */
  method ReplayToNewWorker(member: DrawingMember, workers: map<string, DrawingTool>, cnt: nat, ghost before: seq<ClientEvent>,
                           e: ClientEvent, groups: PathGroupMap, reply: PaperReply, randomId: string)
    returns (workers': map<string, DrawingTool>, cnt': nat)
    requires Replayed(member, workers, cnt, before) && Truthy(e.group) && e.group.value !in workers
    modifies groups
    ensures Replayed(member, workers', cnt', before + [e])
    ensures forall g :: g in workers' ==> (g in workers && workers'[g] == workers[g]) || fresh(workers'[g])
    ensures StartsPenPath(member, before, e) ==>
      && groups.pathToGroup == old(groups.pathToGroup)[reply.newPathId := e.group.value]
      && groups.groupToPath == old(groups.groupToPath)[e.group.value := reply.newPathId]
    ensures !StartsPenPath(member, before, e) ==>
      groups.pathToGroup == old(groups.pathToGroup) && groups.groupToPath == old(groups.groupToPath)
  {
    var g := e.group.value;
    var tool := NewWorker(member, e, groups, reply, "roomInitialiserWorker" + NatToString(cnt), randomId);
    NewGroupStartsPenPath(member, before, e);
    NewWorkerReplayed(member, workers, cnt, before, e, tool);
    workers', cnt' := workers[g := tool], cnt + 1;
  }

  /** A fresh clone of the member's tool for `e`, under `name`, that has handled `e`. */
  method NewWorker(member: DrawingMember, e: ClientEvent, groups: PathGroupMap, reply: PaperReply, name: string, randomId: string)
    returns (tool: DrawingTool)
    modifies groups
    ensures fresh(tool) && tool.channel == null && tool.handled == [e] && ClonedFrom(tool, member.ToolFor(e.toolId))
    ensures name != "" ==> tool.id == name
    ensures tool.kind == PenTool ==> (tool.path.None? <==> PenIdle([e]))
    ensures tool.kind == PenTool && e.Stroke? && Truthy(e.group) ==>
      && groups.pathToGroup == old(groups.pathToGroup)[reply.newPathId := e.group.value]
      && groups.groupToPath == old(groups.groupToPath)[e.group.value := reply.newPathId]
    ensures !(tool.kind == PenTool && e.Stroke? && Truthy(e.group)) ==>
      groups.pathToGroup == old(groups.pathToGroup) && groups.groupToPath == old(groups.groupToPath)
  {
    var base := member.GetDrawingTool(e.toolId);
    tool := base.Clone(name, randomId);
    Feed(tool, e, groups, reply);
    PenIdleOne(e);
  }

  /** Adding a worker that has handled just the event of a new group keeps the replay's state. */
  lemma NewWorkerReplayed(member: DrawingMember, workers: map<string, DrawingTool>, cnt: nat, before: seq<ClientEvent>, e: ClientEvent, tool: DrawingTool)
    requires Replayed(member, workers, cnt, before) && Truthy(e.group) && e.group.value !in workers
    requires tool !in workers.Values && tool !in member.Tools() && tool.channel == null && tool.handled == [e]
    requires tool.id == "roomInitialiserWorker" + NatToString(cnt)
    requires ClonedFrom(tool, member.ToolFor(e.toolId))
    requires tool.kind == PenTool ==> (tool.path.None? <==> PenIdle([e]))
    ensures Replayed(member, workers[e.group.value := tool], cnt + 1, before + [e])
  {
    var g := e.group.value;
    var w := workers[g := tool];
    assert DistinctGroups(before + [e]) == DistinctGroups(before) + [g] by {
      ReplayStep(before, e);
    }
    forall h | h in w
      ensures WorkerOf(member, w[h], h, before + [e])
    {
      if h == g {
        NewWorkerOf(member, tool, before, e);
      } else {
        OtherWorkerKept(member, workers[h], h, before, e);
      }
    }
    forall h, k | h in w && k in w && h != k
      ensures w[h] != w[k]
    {
      if h == g {
        assert w[k] in workers.Values;
      } else if k == g {
        assert w[h] in workers.Values;
      }
    }
  }

  /** A fresh clone that has handled just the first event of a new group is that group's worker. */
  lemma NewWorkerOf(member: DrawingMember, tool: DrawingTool, before: seq<ClientEvent>, e: ClientEvent)
    requires Truthy(e.group) && e.group.value !in DistinctGroups(before)
    requires tool !in member.Tools() && tool.channel == null && tool.handled == [e]
    requires tool.id == "roomInitialiserWorker" + NatToString(|DistinctGroups(before)|)
    requires ClonedFrom(tool, member.ToolFor(e.toolId))
    requires tool.kind == PenTool ==> (tool.path.None? <==> PenIdle([e]))
    ensures WorkerOf(member, tool, e.group.value, before + [e])
  {
    ReplayStep(before, e);
    FirstIndexAppend(DistinctGroups(before), e.group.value);
    GroupEventsEmpty(before, e.group.value);
    assert GroupEvents(before + [e], e.group.value) == [e];
  }

  /** A worker of an earlier group is still that group's worker after an event of a new group. */
  lemma OtherWorkerKept(member: DrawingMember, tool: DrawingTool, h: string, before: seq<ClientEvent>, e: ClientEvent)
    requires WorkerOf(member, tool, h, before) && h in DistinctGroups(before)
    requires Truthy(e.group) && e.group.value !in DistinctGroups(before)
    ensures WorkerOf(member, tool, h, before + [e])
  {
    ReplayStep(before, e);
    FirstIndexAppend(DistinctGroups(before), e.group.value);
  }

  /** A worker, which has no channel, handles one event and broadcasts nothing. */
  method Feed(tool: DrawingTool, e: ClientEvent, groups: PathGroupMap, reply: PaperReply)
    requires tool.channel == null
    modifies tool, groups
    ensures tool.handled == old(tool.handled) + [e] && tool.channel == null && tool.size == old(tool.size)
    ensures tool.path == PathAfter(tool.kind, e, old(tool.path), reply.newPathId)
    ensures tool.kind == PenTool && e.Stroke? && Truthy(e.group) && (e.action == Begin || old(tool.path).None?) ==>
      && groups.pathToGroup == old(groups.pathToGroup)[reply.newPathId := e.group.value]
      && groups.groupToPath == old(groups.groupToPath)[e.group.value := reply.newPathId]
    ensures !(tool.kind == PenTool && e.Stroke? && Truthy(e.group) && (e.action == Begin || old(tool.path).None?)) ==>
      groups.pathToGroup == old(groups.pathToGroup) && groups.groupToPath == old(groups.groupToPath)
  {
    tool.Handle(e, groups, reply);
  }

  /** How one more event extends the distinct groups and each group's events. */
  lemma ReplayStep(before: seq<ClientEvent>, e: ClientEvent)
    ensures DistinctGroups(before + [e]) ==
      (if Truthy(e.group) && e.group.value !in DistinctGroups(before) then DistinctGroups(before) + [e.group.value]
       else DistinctGroups(before))
    ensures forall g :: (GroupEvents(before + [e], g) ==
      if e.group == Some(g) then GroupEvents(before, g) + [e] else GroupEvents(before, g))
  {
    assert (before + [e])[..|before + [e]| - 1] == before;
  }

  /** Appending a new element leaves the positions of the others alone and puts it last. */
  lemma FirstIndexAppend(s: seq<string>, x: string)
    requires x !in s
    ensures FirstIndex(s + [x], x) == |s|
    ensures forall y :: y in s ==> FirstIndex(s + [x], y) == FirstIndex(s, y)
  {
    var t := s + [x];
    assert t[|s|] == x;
    assert forall j :: 0 <= j < |s| ==> t[j] == s[j] && t[j] != x;
    forall y | y in s
      ensures FirstIndex(s + [x], y) == FirstIndex(s, y)
    {
      var k := FirstIndex(s, y);
      assert (s + [x])[k] == y;
    }
  }

  /**
   * A drawing tool. All tool classes share these fields; `kind` selects the variant's
   * behaviour. `handled` records every event given to `handle`, in order.
   */
  class DrawingTool {
    const kind: ToolKind
    const id: string
    const name: string
    var size: real
    var drawCount: nat
    var previousDrawEvent: Option<ClientEvent>
    var sizeAdjustmentFactor: real
    var path: Option<nat>
    var canvas: DrawingCanvas?
    var channel: SocketServer?
    ghost var handled: seq<ClientEvent>

    /**
     * A new tool of the given kind. A variant given no id takes its default id; the base
     * tool then takes the random id it draws.
     */
    constructor (kind: ToolKind, baseName: string, requestedId: string, randomId: string)
      ensures this.kind == kind && name == KindName(kind, baseName)
      ensures id == if requestedId != "" then requestedId else DefaultId(kind, randomId)
      ensures size == DefaultSize(kind) && drawCount == 0 && previousDrawEvent == None
      ensures sizeAdjustmentFactor == 1.0 && path == None
      ensures canvas == null && channel == null && handled == []
    {
      this.kind := kind;
      name := KindName(kind, baseName);
      id := if requestedId != "" then requestedId else DefaultId(kind, randomId);
      size := DefaultSize(kind);
      drawCount := 0;
      previousDrawEvent := None;
      sizeAdjustmentFactor := 1.0;
      path := None;
      canvas := null;
      channel := null;
      handled := [];
    }

    /**
     * `clone`: a fresh tool of the same kind and name, under `newId` (or this tool's id
     * when `newId` is empty). Every variant but the selector copies the size.
     */
    method Clone(newId: string, randomId: string) returns (c: DrawingTool)
      ensures fresh(c) && c.kind == kind && c.name == KindName(kind, name)
      ensures c.id == if newId != "" then newId else if id != "" then id else DefaultId(kind, randomId)
      ensures c.size == if kind == SelectorTool then DefaultSize(kind) else size
      ensures c.drawCount == 0 && c.previousDrawEvent == None && c.path == None && c.sizeAdjustmentFactor == 1.0
      ensures c.canvas == null && c.channel == null && c.handled == []
    {
      c := new DrawingTool(kind, name, if newId != "" then newId else id, randomId);
      if kind != SelectorTool {
        c.size := size;
      }
    }

    /** `setSize`: the size is clamped into the tool's own bounds. */
    method SetSize(s: real)
      modifies this
      ensures size == ClampSize(s, MinSize(kind), MaxSize(kind))
      ensures MinSize(kind).value <= size <= MaxSize(kind).value
      ensures s < MaxSize(kind).value && s > MinSize(kind).value ==> size == s
      ensures drawCount == old(drawCount) && previousDrawEvent == old(previousDrawEvent) && path == old(path)
      ensures canvas == old(canvas) && channel == old(channel) && handled == old(handled)
      ensures sizeAdjustmentFactor == old(sizeAdjustmentFactor)
    {
      ToolBoundsInOrder(kind);
      ClampWithinBounds(s, MinSize(kind), MaxSize(kind));
      var max, min := MaxSize(kind), MinSize(kind);
      if max.Some? && max.value != 0.0 && s >= max.value {
        size := max.value;
      } else if min.Some? && min.value != 0.0 && s <= min.value {
        size := min.value;
      } else {
        size := s;
      }
    }

    /** The colour of the tool's strokes: the variant's own, else the canvas's active colour, else black. */
    function GetColor(): (c: string)
      reads this, canvas
      ensures FixedColor(kind).Some? ==> c == FixedColor(kind).value
      ensures FixedColor(kind).None? && canvas != null ==> c == canvas.activeColor
      ensures FixedColor(kind).None? && canvas == null ==> c == "#000000"
    {
      if FixedColor(kind).Some? then FixedColor(kind).value
      else if canvas != null then canvas.activeColor
      else "#000000"
    }

    /** `processMouseEventAsBoardEvent`, with the tool's own id, colour and size. */
    function ProcessMouseEvent(m: MouseEvent): (r: Option<ClientEvent>)
      reads this, canvas
      ensures r.Some? <==> MouseAction(m.kind).Some?
      ensures r.Some? ==>
        && r.value.Stroke? && r.value.toolId == id && r.value.color == GetColor() && r.value.size == size
        && (r.value.persistent <==> kind != LaserPointerTool)
    {
      MouseEventAsBoardEvent(kind, id, GetColor(), size, m)
    }

    /**
     * `processKeyEventAsBoardEvent`: only the selector reacts, and only to a delete or
     * backspace key going down; it asks to delete the groups of the selected items.
     */
    method ProcessKeyEvent(k: KeyEvent, groups: PathGroupMap, selected: seq<nat>) returns (r: Option<ClientEvent>)
      ensures r.Some? <==> kind == SelectorTool && IsDeleteKey(k)
      ensures r.Some? ==> r.value == Edit(EditDelete, k.timeStamp, KnownGroups(groups.pathToGroup, selected), id, true, None, None)
    {
      if kind != SelectorTool || !IsDeleteKey(k) {
        return None;
      }
      var groupIds: seq<string> := [];
      for i := 0 to |selected|
        invariant groupIds == KnownGroups(groups.pathToGroup, selected[..i])
      {
        assert selected[..i + 1][..i] == selected[..i];
        var g := groups.GetGroup(selected[i]);
        if g.Some? && g.value != "" {
          groupIds := groupIds + [g.value];
        }
      }
      assert selected[..|selected|] == selected;
      r := Some(Edit(EditDelete, k.timeStamp, groupIds, id, true, None, None));
    }

    /** The group of the path being drawn: the tool's id, `_`, the path's id (0 when there is none). */
    function CurrentDrawGroup(): (g: string)
      reads this
      ensures |g| > |id| + 1 && g[..|id| + 1] == id + "_"
      ensures path.None? ==> g == id + "_0"
    {
      id + "_" + (if path.Some? then NatToString(path.value) else "0")
    }

    /** The group the pen records for the path it starts on `e`, if it starts one and can name it. */
    function PenGroup(e: ClientEvent, newPathId: nat): (g: Option<string>)
      reads this, channel
      ensures g.Some? ==> kind == PenTool && e.Stroke? && (e.action == Begin || path.None?)
      ensures g.Some? && Truthy(e.group) ==> g == e.group
      ensures g.Some? && !Truthy(e.group) ==> channel != null
      ensures kind == PenTool && e.Stroke? && (e.action == Begin || path.None?) && (Truthy(e.group) || channel != null) ==> g.Some?
    {
      if kind == PenTool && e.Stroke? && (e.action == Begin || path.None?) then
        if Truthy(e.group) then Some(e.group.value)
        else if channel != null then Some(channel.GetGroup(id + "_" + NatToString(newPathId)))
        else None
      else None
    }

    /**
     * `processBoardEvent`: the variant's drawing step, reduced to the path it leaves
     * current, the group the pen records, and whether the event is to be broadcast.
     */
    method ProcessBoardEvent(e: ClientEvent, groups: PathGroupMap, reply: PaperReply) returns (broadcast: bool)
      modifies this, groups
      ensures broadcast == Broadcasts(kind, e, AnyErased(reply.hits))
      ensures path == PathAfter(kind, e, old(path), reply.newPathId)
      ensures old(PenGroup(e, reply.newPathId)).Some? ==>
        && groups.pathToGroup == old(groups.pathToGroup)[reply.newPathId := old(PenGroup(e, reply.newPathId)).value]
        && groups.groupToPath == old(groups.groupToPath)[old(PenGroup(e, reply.newPathId)).value := reply.newPathId]
      ensures old(PenGroup(e, reply.newPathId)).None? ==>
        groups.pathToGroup == old(groups.pathToGroup) && groups.groupToPath == old(groups.groupToPath)
      ensures size == old(size) && drawCount == old(drawCount) && previousDrawEvent == old(previousDrawEvent)
      ensures sizeAdjustmentFactor == old(sizeAdjustmentFactor) && handled == old(handled)
      ensures canvas == old(canvas) && channel == old(channel)
    {
      if e.Edit? {
        return kind == SelectorTool;
      }
      match kind {
        case SelectorTool =>
          broadcast := false;
        case EraserTool =>
          if e.action == End {
            return true;
          }
          var removed := false;
          for j := 0 to |reply.hits|
            invariant removed <==> exists k :: 0 <= k < j && reply.hits[k]
          {
            if reply.hits[j] {
              removed := true;
            }
          }
          broadcast := e.action != Move || removed;
        case PenTool =>
          if e.action == Begin || path.None? {
            path := Some(reply.newPathId);
            if Truthy(e.group) {
              groups.Insert(reply.newPathId, e.group.value);
            } else if channel != null {
              groups.Insert(reply.newPathId, channel.GetGroup(CurrentDrawGroup()));
            }
          }
          if e.action == End {
            path := None;
          }
          broadcast := true;
        case LaserPointerTool =>
          broadcast := true;
        case _ =>
          path := if e.action == End then None else Some(reply.newPathId);
          broadcast := true;
      }
    }

    /** Whether `handle` asks for `e` to be broadcast: the drunk pen broadcasts every stroke. */
    function WantsBroadcast(e: ClientEvent, reply: PaperReply): (b: bool)
      ensures kind == DrunkPenTool ==> (b <==> e.Stroke?)
      ensures b && e.Edit? ==> kind == SelectorTool
      ensures kind != DrunkPenTool ==> (b <==> Broadcasts(kind, e, AnyErased(reply.hits)))
    {
      if kind == DrunkPenTool then e.Stroke? else Broadcasts(kind, e, AnyErased(reply.hits))
    }

    /** The path id a broadcast goes out under: the drunk pen numbers its strokes instead. */
    function SentPathId(): (p: string)
      reads this
      ensures |p| > |id| + 1 && p[..|id| + 1] == id + "_"
      ensures kind != DrunkPenTool ==> p == CurrentDrawGroup()
    {
      if kind == DrunkPenTool then id + "_" + NatToString(drawCount) else CurrentDrawGroup()
    }

    /**
     * `handle`: processes `e`, keeps the stroke bookkeeping (a `begin` counts a stroke,
     * an `end` forgets the previous event and resets the pressure factor, anything else
     * becomes the previous event), and broadcasts the event only when processing asks
     * for it, a channel is set, and the event did not come from another user.
     */
    method Handle(e: ClientEvent, groups: PathGroupMap, reply: PaperReply)
      modifies this, groups, if Truthy(e.originUserId) || channel == null then {} else {channel}
      ensures handled == old(handled) + [e]
      ensures size == old(size) && canvas == old(canvas) && channel == old(channel)
      ensures e.Stroke? ==> drawCount == old(drawCount) + (if e.action == Begin then 1 else 0)
      ensures e.Stroke? ==> previousDrawEvent == (if e.action == End then None else Some(e))
      ensures e.Stroke? ==> sizeAdjustmentFactor == (if e.action == End then 1.0 else old(sizeAdjustmentFactor))
      ensures e.Edit? ==>
        && drawCount == old(drawCount) && previousDrawEvent == old(previousDrawEvent)
        && sizeAdjustmentFactor == old(sizeAdjustmentFactor)
      ensures path == PathAfter(kind, e, old(path), reply.newPathId)
      ensures old(PenGroup(e, reply.newPathId)).Some? ==>
        && groups.pathToGroup == old(groups.pathToGroup)[reply.newPathId := old(PenGroup(e, reply.newPathId)).value]
        && groups.groupToPath == old(groups.groupToPath)[old(PenGroup(e, reply.newPathId)).value := reply.newPathId]
      ensures kind == DrunkPenTool || old(PenGroup(e, reply.newPathId)).None? ==>
        groups.pathToGroup == old(groups.pathToGroup) && groups.groupToPath == old(groups.groupToPath)
      ensures channel != null ==>
        && channel.room == old(channel.room) && channel.username == old(channel.username) && channel.canvas == old(channel.canvas)
        && channel.outbox == old(channel.outbox) +
             if WantsBroadcast(e, reply) && !Truthy(e.originUserId) && Truthy(channel.room)
             then [BoardEventEmit(Stamp(e, channel.GetGroup(SentPathId()), channel.userId))]
             else []
    {
      if kind == DrunkPenTool {
        if e.Stroke? {
          path := if e.action == End then None else Some(reply.newPathId);
          KeepStrokeState(e);
        }
        handled := handled + [e];
        SendIfWanted(e, SentPathId(), e.Stroke?);
      } else {
        var broadcast := ProcessBoardEvent(e, groups, reply);
        KeepStrokeState(e);
        handled := handled + [e];
        SendIfWanted(e, SentPathId(), broadcast);
      }
    }

    /** The stroke bookkeeping of `handle`; an edit leaves it alone. */
    method KeepStrokeState(e: ClientEvent)
      modifies this
      ensures e.Stroke? ==> drawCount == old(drawCount) + (if e.action == Begin then 1 else 0)
      ensures e.Stroke? ==> previousDrawEvent == (if e.action == End then None else Some(e))
      ensures e.Stroke? ==> sizeAdjustmentFactor == (if e.action == End then 1.0 else old(sizeAdjustmentFactor))
      ensures e.Edit? ==>
        && drawCount == old(drawCount) && previousDrawEvent == old(previousDrawEvent)
        && sizeAdjustmentFactor == old(sizeAdjustmentFactor)
      ensures size == old(size) && path == old(path) && canvas == old(canvas) && channel == old(channel)
      ensures handled == old(handled)
    {
      if e.Stroke? {
        if e.action == Begin {
          drawCount := drawCount + 1;
        }
        if e.action == End {
          previousDrawEvent := None;
          sizeAdjustmentFactor := 1.0;
        } else {
          previousDrawEvent := Some(e);
        }
      }
    }

    /** The broadcast step of `handle`: only wanted events that no other user sent go out, and only through a set channel. */
    method SendIfWanted(e: ClientEvent, pathId: string, wanted: bool)
      modifies if Truthy(e.originUserId) || channel == null then {} else {channel}
      ensures channel != null ==>
        && channel.room == old(channel.room) && channel.username == old(channel.username) && channel.canvas == old(channel.canvas)
        && channel.outbox == old(channel.outbox) +
             if wanted && !Truthy(e.originUserId) && Truthy(channel.room)
             then [BoardEventEmit(Stamp(e, channel.GetGroup(pathId), channel.userId))]
             else []
    {
      if wanted && channel != null && !Truthy(e.originUserId) {
        channel.SendBoardEvent(e, pathId);
      }
    }

    /** `handleMouseEvent`: a mouse event that maps to a stroke is handled; any other is dropped. */
    method HandleMouseEvent(m: MouseEvent, groups: PathGroupMap, reply: PaperReply) returns (e: Option<ClientEvent>)
      modifies this, groups, channel
      ensures e == old(ProcessMouseEvent(m))
      ensures e.None? ==> handled == old(handled) && drawCount == old(drawCount)
      ensures e.None? ==> unchanged(this) && unchanged(groups) && (channel != null ==> unchanged(channel))
      ensures e.Some? ==> handled == old(handled) + [e.value]
    {
      e := ProcessMouseEvent(m);
      if e.Some? {
        Handle(e.value, groups, reply);
      }
    }

    /** `handleKeyEvent`: a key event that maps to an edit is handled; any other is dropped. */
    method HandleKeyEvent(k: KeyEvent, groups: PathGroupMap, selected: seq<nat>, reply: PaperReply) returns (e: Option<ClientEvent>)
      modifies this, groups, channel
      ensures e.Some? <==> kind == SelectorTool && IsDeleteKey(k)
      ensures e.None? ==> handled == old(handled)
      ensures e.None? ==> unchanged(this) && unchanged(groups) && (channel != null ==> unchanged(channel))
      ensures e.Some? ==> handled == old(handled) + [e.value] && e.value.Edit?
      ensures e.Some? ==> e.value == Edit(EditDelete, k.timeStamp, old(KnownGroups(groups.pathToGroup, selected)), id, true, None, None)
    {
      e := ProcessKeyEvent(k, groups, selected);
      if e.Some? {
        Handle(e.value, groups, reply);
      }
    }
  }

  /** The first position in `tools` of a tool whose id is `wanted`, or -1. */
  function FirstToolWithId(tools: seq<DrawingTool>, wanted: string): (k: int)
    ensures -1 <= k < |tools|
    ensures k >= 0 ==> tools[k].id == wanted
    ensures forall j :: 0 <= j < |tools| && (k < 0 || j < k) ==> tools[j].id != wanted
    decreases |tools|
  {
    if tools == [] then -1
    else if tools[0].id == wanted then 0
    else
      var k := FirstToolWithId(tools[1..], wanted);
      if k < 0 then -1 else k + 1
  }

  /**
   * One participant of the room as the canvas draws them: a default tool named after
   * the user, and one clone of every canvas tool.
   */
  class DrawingMember {
    const id: string
    const username: Option<string>
    var drawingTool: DrawingTool
    var drawingTools: seq<DrawingTool>

    constructor (id: string, username: Option<string>, randomId: string)
      ensures this.id == id && this.username == username && drawingTools == []
      ensures fresh(drawingTool) && drawingTool.kind == BaseTool && drawingTool.channel == null
      ensures drawingTool.name == if Truthy(username) then username.value else id
      ensures drawingTool.id == if id != "" then id else randomId
    {
      this.id := id;
      this.username := username;
      drawingTool := new DrawingTool(BaseTool, if Truthy(username) then username.value else id, id, randomId);
      drawingTools := [];
    }

    /** The tools the member draws with. */
    ghost function Tools(): set<DrawingTool>
      reads this
    {
      {drawingTool} + set t | t in drawingTools
    }

    /** The channels of the member's tools. */
    ghost function Channels(): set<SocketServer>
      reads this, Tools()
    {
      set t | t in Tools() && t.channel != null :: t.channel
    }

    /** The member's tool list holds one clone per canvas tool, in order, under `<member id>_<tool id>`. */
    ghost predicate Configured(tools: seq<DrawingTool>)
      reads this
    {
      && |drawingTools| == |tools|
      && forall k :: 0 <= k < |tools| ==>
        drawingTools[k].id == id + "_" + tools[k].id && drawingTools[k].kind == tools[k].kind
    }

    /**
     * The member's tool list holds, position by position, distinct clones of `tools`
     * without a channel, with the size `clone` gives them.
     */
    ghost predicate ClonesOf(tools: seq<DrawingTool>)
      reads this, drawingTools, tools
    {
      && |drawingTools| == |tools|
      && (forall k :: 0 <= k < |tools| ==>
        && drawingTools[k].channel == null
        && drawingTools[k].size == (if tools[k].kind == SelectorTool then DefaultSize(SelectorTool) else tools[k].size))
      && forall a, b :: 0 <= a < b < |drawingTools| ==> drawingTools[a] != drawingTools[b]
    }

    /** `configureUsingDrawingTools`: the tool list is replaced by fresh clones of `tools`. */
    method Configure(tools: seq<DrawingTool>, randomId: string)
      modifies this
      ensures Configured(tools) && drawingTool == old(drawingTool)
      ensures forall k :: 0 <= k < |tools| ==>
        && fresh(drawingTools[k]) && drawingTools[k].channel == null
        && drawingTools[k].size == (if tools[k].kind == SelectorTool then DefaultSize(SelectorTool) else tools[k].size)
      ensures forall a, b :: 0 <= a < b < |drawingTools| ==> drawingTools[a] != drawingTools[b]
      ensures ClonesOf(tools) && fresh(drawingTools)
    {
      drawingTools := [];
      for i := 0 to |tools|
        invariant drawingTool == old(drawingTool)
        invariant |drawingTools| == i
        invariant forall k :: 0 <= k < i ==>
          && drawingTools[k].id == id + "_" + tools[k].id && drawingTools[k].kind == tools[k].kind
          && fresh(drawingTools[k]) && drawingTools[k].channel == null
          && drawingTools[k].size == (if tools[k].kind == SelectorTool then DefaultSize(SelectorTool) else tools[k].size)
        invariant forall a, b :: 0 <= a < b < i ==> drawingTools[a] != drawingTools[b]
      {
        var c := tools[i].Clone(id + "_" + tools[i].id, randomId);
        drawingTools := drawingTools + [c];
      }
    }

    /** The tool `getDrawingTool` picks for `toolId`. */
    function ToolFor(toolId: string): (t: DrawingTool)
      reads this
      ensures t in Tools()
      ensures t != drawingTool ==> toolId != "" && t in drawingTools && t.id == id + "_" + toolId
      ensures toolId == "" ==> t == drawingTool
    {
      var k := if toolId != "" then FirstToolWithId(drawingTools, id + "_" + toolId) else -1;
      if k >= 0 then drawingTools[k] else drawingTool
    }

    /**
     * `getDrawingTool`: the first clone named `<member id>_<toolId>`, or the default tool
     * when `toolId` is empty or no clone has that name.
     */
    method GetDrawingTool(toolId: string) returns (t: DrawingTool)
      ensures t == ToolFor(toolId)
      ensures t != drawingTool ==> toolId != "" && t in drawingTools && t.id == id + "_" + toolId
      ensures toolId == "" ==> t == drawingTool
    {
      if toolId != "" {
        for i := 0 to |drawingTools|
          invariant FirstToolWithId(drawingTools[..i], id + "_" + toolId) == -1
          invariant forall j :: 0 <= j < i ==> drawingTools[j].id != id + "_" + toolId
        {
          if drawingTools[i].id == id + "_" + toolId {
            assert FirstToolWithId(drawingTools, id + "_" + toolId) == i;
            return drawingTools[i];
          }
          assert drawingTools[..i + 1] == drawingTools[..i] + [drawingTools[i]];
        }
        assert FirstToolWithId(drawingTools, id + "_" + toolId) == -1;
      }
      t := drawingTool;
    }

    /** `handle`: an event is passed to the matching tool only when this member sent it. */
    method Handle(e: ClientEvent, groups: PathGroupMap, reply: PaperReply) returns (used: DrawingTool?)
      modifies Tools(), groups, if Truthy(e.originUserId) then {} else Channels()
      ensures used == null <==> e.originUserId != Some(id)
      ensures used != null ==> used == old(ToolFor(e.toolId)) && used.handled == old(used.handled) + [e]
      ensures used == null ==> forall t :: t in old(Tools()) ==> t.handled == old(t.handled)
      ensures used == null ==> unchanged(groups) && forall t :: t in old(Tools()) ==> unchanged(t)
      ensures used != null ==> forall t :: t in old(Tools()) && t != used ==> unchanged(t)
    {
      used := null;
      if e.originUserId == Some(id) {
        used := GetDrawingTool(e.toolId);
        used.Handle(e, groups, reply);
      }
    }
  }

  /** The members by id: each id maps to the last member in `members` that has it. */
  function MembersById(members: seq<DrawingMember>): (r: map<string, DrawingMember>)
    ensures forall k :: k in r ==> r[k].id == k && r[k] in members
    decreases |members|
  {
    if members == [] then map[]
    else
      var m := members[|members| - 1];
      MembersById(members[..|members| - 1])[m.id := m]
  }

  /** The map holds exactly the members' ids, each mapped to the last member with that id. */
  lemma {:induction false} MembersByIdMeaning(members: seq<DrawingMember>)
    ensures forall id :: id in MembersById(members) <==> exists i :: 0 <= i < |members| && members[i].id == id
    ensures forall i :: 0 <= i < |members| && (forall j :: i < j < |members| ==> members[j].id != members[i].id) ==>
      members[i].id in MembersById(members) && MembersById(members)[members[i].id] == members[i]
    decreases |members|
  {
    if members != [] {
      var ms := members[..|members| - 1];
      MembersByIdMeaning(ms);
      forall id
        ensures id in MembersById(members) <==> exists i :: 0 <= i < |members| && members[i].id == id
      {
        if exists i :: 0 <= i < |members| && members[i].id == id {
          var i :| 0 <= i < |members| && members[i].id == id;
          if i < |ms| {
            assert ms[i].id == id;
          }
        }
        if exists i :: 0 <= i < |ms| && ms[i].id == id {
          var i :| 0 <= i < |ms| && ms[i].id == id;
          assert members[i].id == id;
        }
      }
      forall i | 0 <= i < |members| && (forall j :: i < j < |members| ==> members[j].id != members[i].id)
        ensures members[i].id in MembersById(members) && MembersById(members)[members[i].id] == members[i]
      {
        if i < |ms| {
          assert forall j :: i < j < |ms| ==> ms[j] == members[j];
          assert members[|members| - 1].id != members[i].id;
        }
      }
    }
  }

  /**
   * The drawing canvas: its tools and which one is active, its colours and which one
   * is active, the room's members by id, and the socket its tools broadcast through.
   */
  class DrawingCanvas {
    var drawingMembersMap: map<string, DrawingMember>
    var drawingTools: seq<DrawingTool>
    var activeDrawingToolIndex: nat
    var drawingColors: seq<string>
    var activeColor: string
    var socketServer: SocketServer?

    /** The active index names a tool, or is the initial 0. */
    ghost predicate Valid()
      reads this
    {
      activeDrawingToolIndex == 0 || activeDrawingToolIndex < |drawingTools|
    }

    /** The tools of every member on the canvas. */
    ghost function MemberTools(): set<DrawingTool>
      reads this, drawingMembersMap.Values
    {
      set m, t | m in drawingMembersMap.Values && t in m.Tools() :: t
    }

    /** A canvas with the given tools and the valid ones of the given colours; the first tool is made active. */
    constructor (tools: seq<DrawingTool>, colors: seq<string>)
      requires |tools| > 0
      modifies (set t | t in tools)`canvas, (set t | t in tools)`channel
      ensures Valid() && drawingTools == tools && activeDrawingToolIndex == 0
      ensures drawingColors == HexColors(colors) && activeColor == "#000000"
      ensures socketServer == null && drawingMembersMap == map[]
      ensures forall t :: t in tools ==> t.canvas == this && t.channel == null
    {
      drawingMembersMap := map[];
      drawingTools := [];
      activeDrawingToolIndex := 0;
      drawingColors := [];
      activeColor := "#000000";
      socketServer := null;
      new;
      AddTools(tools);
      AddColors(colors);
    }

    /** `addTools`: the tools are appended in order, each wired to this canvas and its socket. */
    method AddTools(tools: seq<DrawingTool>)
      requires Valid()
      modifies this, (set t | t in tools)`canvas, (set t | t in tools)`channel
      ensures Valid() && drawingTools == old(drawingTools) + tools
      ensures activeDrawingToolIndex == old(activeDrawingToolIndex) && drawingColors == old(drawingColors)
      ensures activeColor == old(activeColor) && socketServer == old(socketServer)
      ensures drawingMembersMap == old(drawingMembersMap)
      ensures forall t :: t in tools ==> t.canvas == this && t.channel == socketServer
    {
      for i := 0 to |tools|
        invariant Valid() && drawingTools == old(drawingTools) + tools[..i]
        invariant activeDrawingToolIndex == old(activeDrawingToolIndex) && drawingColors == old(drawingColors)
        invariant activeColor == old(activeColor) && socketServer == old(socketServer)
        invariant drawingMembersMap == old(drawingMembersMap)
        invariant forall j :: 0 <= j < i ==> tools[j].canvas == this && tools[j].channel == socketServer
      {
        tools[i].canvas := this;
        tools[i].channel := socketServer;
        drawingTools := drawingTools + [tools[i]];
        assert tools[..i + 1] == tools[..i] + [tools[i]];
      }
      assert tools[..|tools|] == tools;
    }

    /** `addColors`: the valid colours are appended in order; the others are dropped. */
    method AddColors(colors: seq<string>)
      modifies this
      ensures drawingColors == old(drawingColors) + HexColors(colors)
      ensures drawingTools == old(drawingTools) && activeDrawingToolIndex == old(activeDrawingToolIndex)
      ensures activeColor == old(activeColor) && socketServer == old(socketServer)
      ensures drawingMembersMap == old(drawingMembersMap)
    {
      for i := 0 to |colors|
        invariant drawingColors == old(drawingColors) + HexColors(colors[..i])
        invariant drawingTools == old(drawingTools) && activeDrawingToolIndex == old(activeDrawingToolIndex)
        invariant activeColor == old(activeColor) && socketServer == old(socketServer)
        invariant drawingMembersMap == old(drawingMembersMap)
      {
        assert colors[..i + 1][..i] == colors[..i];
        if IsHexColor(colors[i]) {
          drawingColors := drawingColors + [colors[i]];
        }
      }
      assert colors[..|colors|] == colors;
    }

    /** `getDrawingMember`: the member of that id, or none. */
    function GetDrawingMember(id: string): (r: Option<DrawingMember>)
      reads this
      ensures r.Some? <==> id in drawingMembersMap
    {
      if id in drawingMembersMap then Some(drawingMembersMap[id]) else None
    }

    /**
     * `setDrawingMembers`: the member map is rebuilt from `members` (the last member of
     * an id wins), and every member is configured with the canvas's tools.
     */
    method SetDrawingMembers(members: seq<DrawingMember>, randomId: string)
      modifies this, set m | m in members
      ensures drawingMembersMap == MembersById(members)
      ensures forall k :: k in drawingMembersMap ==> drawingMembersMap[k].id == k
      ensures forall m :: m in members ==> m.Configured(drawingTools) && m.drawingTool == old(m.drawingTool)
      ensures forall m :: m in members ==> m.ClonesOf(drawingTools) && fresh(m.drawingTools)
      ensures drawingTools == old(drawingTools) && activeDrawingToolIndex == old(activeDrawingToolIndex)
      ensures drawingColors == old(drawingColors) && activeColor == old(activeColor) && socketServer == old(socketServer)
    {
      drawingMembersMap := map[];
      for i := 0 to |members|
        invariant drawingMembersMap == MembersById(members[..i])
        invariant forall m :: m in members ==> m.drawingTool == old(m.drawingTool)
        invariant forall j :: 0 <= j < i ==>
          members[j].Configured(drawingTools) && members[j].ClonesOf(drawingTools) && fresh(members[j].drawingTools)
        invariant drawingTools == old(drawingTools) && activeDrawingToolIndex == old(activeDrawingToolIndex)
        invariant drawingColors == old(drawingColors) && activeColor == old(activeColor) && socketServer == old(socketServer)
      {
        assert members[..i + 1][..i] == members[..i];
        var m := members[i];
        drawingMembersMap := drawingMembersMap[m.id := m];
        m.Configure(drawingTools, randomId);
        forall j | 0 <= j < i + 1
          ensures members[j].Configured(drawingTools) && members[j].ClonesOf(drawingTools) && fresh(members[j].drawingTools)
        {
          if members[j] != m {
            assert j < i;
          }
        }
      }
      assert members[..|members|] == members;
      forall m | m in members
        ensures m.Configured(drawingTools) && m.ClonesOf(drawingTools) && fresh(m.drawingTools)
      {
        var j :| 0 <= j < |members| && members[j] == m;
      }
    }

    /** `setActiveTool`: a listed tool becomes active (at its first position); any other tool changes nothing. */
    method SetActiveTool(tool: DrawingTool)
      requires Valid()
      modifies this
      ensures Valid()
      ensures tool in drawingTools ==> activeDrawingToolIndex == FirstIndex(drawingTools, tool) && GetActiveTool() == Some(tool)
      ensures tool !in drawingTools ==> activeDrawingToolIndex == old(activeDrawingToolIndex)
      ensures drawingTools == old(drawingTools) && drawingColors == old(drawingColors) && activeColor == old(activeColor)
      ensures socketServer == old(socketServer) && drawingMembersMap == old(drawingMembersMap)
    {
      var idx := FirstIndex(drawingTools, tool);
      if idx != -1 {
        activeDrawingToolIndex := idx;
      }
    }

    /**
     * `setActiveToolIndex`: the tool at `index` is made active. An index outside the
     * tool list reads `undefined`, and activating it throws: `ok` is false and nothing
     * changes.
     */
    method SetActiveToolIndex(index: int) returns (ok: bool)
      requires Valid()
      modifies this
      ensures Valid()
      ensures drawingTools == old(drawingTools) && drawingColors == old(drawingColors) && activeColor == old(activeColor)
      ensures socketServer == old(socketServer) && drawingMembersMap == old(drawingMembersMap)
      ensures ok <==> 0 <= index < |drawingTools|
      ensures ok ==> GetActiveTool() == Some(drawingTools[index]) && activeDrawingToolIndex <= index
      ensures !ok ==> activeDrawingToolIndex == old(activeDrawingToolIndex)
    {
      if !(0 <= index < |drawingTools|) {
        return false;
      }
      SetActiveTool(drawingTools[index]);
      ok := true;
    }

    /** `getActiveTool`: the tool at the active index, which exists once any tool was added. */
    function GetActiveTool(): (r: Option<DrawingTool>)
      reads this
      requires Valid()
      ensures |drawingTools| > 0 <==> r.Some?
      ensures r.Some? ==> r.value in drawingTools
    {
      if activeDrawingToolIndex < |drawingTools| then Some(drawingTools[activeDrawingToolIndex]) else None
    }

    /** `setActiveColor`: only a valid hex colour replaces the active colour. */
    method SetActiveColor(color: string)
      modifies this
      ensures activeColor == if IsHexColor(color) then color else old(activeColor)
      ensures IsHexColor(old(activeColor)) ==> IsHexColor(activeColor)
      ensures drawingTools == old(drawingTools) && activeDrawingToolIndex == old(activeDrawingToolIndex)
      ensures drawingColors == old(drawingColors) && socketServer == old(socketServer)
      ensures drawingMembersMap == old(drawingMembersMap)
    {
      if IsHexColor(color) {
        activeColor := color;
      }
    }

    /** `setSocketServer`: the socket is recorded and every tool is wired to it. */
    method SetSocketServer(sock: SocketServer)
      modifies this, (set t | t in drawingTools)`channel
      ensures socketServer == sock && drawingTools == old(drawingTools)
      ensures forall t :: t in drawingTools ==> t.channel == sock
      ensures activeDrawingToolIndex == old(activeDrawingToolIndex) && drawingColors == old(drawingColors)
      ensures activeColor == old(activeColor) && drawingMembersMap == old(drawingMembersMap)
    {
      socketServer := sock;
      for i := 0 to |drawingTools|
        invariant socketServer == sock && drawingTools == old(drawingTools)
        invariant forall j :: 0 <= j < i ==> drawingTools[j].channel == sock
        invariant activeDrawingToolIndex == old(activeDrawingToolIndex) && drawingColors == old(drawingColors)
        invariant activeColor == old(activeColor) && drawingMembersMap == old(drawingMembersMap)
      {
        drawingTools[i].channel := socketServer;
      }
    }
  }
}
