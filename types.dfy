/**
 * The event and data definitions shared by the drawing server: draw events that
 * change the cached whiteboard, preview events that only drive transient feedback,
 * and the per-socket user record.
 */
module DrawTypes {
  import opened Wrappers

  /**
   * The `json` field of a draw entry. `Null` is drawing data with no content (an
   * empty element); `Undefined` means no data at all (the element does not exist).
   */
  datatype Json = Undefined | Null | Content(text: string)

  /** One element: its GUID, the GUID it should be stacked directly above, and its data. */
  datatype DrawData = DrawData(id: string, aboveId: Option<string>, json: Json)

  /** The three actions a draw event may take, and no others. */
  datatype DrawEventAction = Add | Delete | Change

  /** A persistent draw action over a list of entries. */
  datatype DrawEvent = DrawEvent(
    originUserId: Option<string>,
    action: DrawEventAction,
    toolId: Option<string>,
    data: seq<DrawData>)

  /** The stage of a preview (in-progress stroke) event. */
  datatype DrawPreviewAction = Begin | Move | End

  datatype Point = Point(x: real, y: real)

  /** One snapshot of an in-progress stroke; never stored by the server. */
  datatype DrawPreviewEvent = DrawPreviewEvent(
    originUserId: Option<string>,
    action: DrawPreviewAction,
    timeStamp: real,
    point: Point,
    toolId: string,
    color: string,
    size: real,
    adjustedSize: Option<real>)

  /** What a socket sends and receives: a draw event (`kind: "draw"`) or a preview (`kind: "preview"`). */
  datatype BoardEvent = Draw(draw: DrawEvent) | Preview(preview: DrawPreviewEvent)
  {
    function OriginUserId(): Option<string>
    {
      match this
      case Draw(d) => d.originUserId
      case Preview(p) => p.originUserId
    }

    /** The same event with its `originUserId` overwritten. */
    function WithOrigin(id: string): (e: BoardEvent)
      ensures e.OriginUserId() == Some(id)
      ensures e.Draw? == Draw? && (Draw? ==> e.draw == draw.(originUserId := Some(id)))
      ensures Preview? ==> e.preview == preview.(originUserId := Some(id))
    {
      match this
      case Draw(d) => Draw(d.(originUserId := Some(id)))
      case Preview(p) => Preview(p.(originUserId := Some(id)))
    }
  }

  /** What the server keeps per registered socket. */
  datatype LegacyUser = LegacyUser(username: Option<string>, room: Option<string>)

  // ---------------------------------------------------------------------------
  // Preview protocol: what a client keeps of one user's preview stream.
  // ---------------------------------------------------------------------------

  /** Index of the most recent `begin` in `pending`, or -1 when there is none. */
  function LastBegin(pending: seq<DrawPreviewEvent>): (k: int)
    ensures -1 <= k < |pending|
    ensures k >= 0 ==> pending[k].action == Begin
    ensures forall i :: k < i < |pending| ==> pending[i].action != Begin
  {
    if pending == [] then -1
    else if pending[|pending| - 1].action == Begin then |pending| - 1
    else LastBegin(pending[..|pending| - 1])
  }

  /**
   * The preview events still shown after `e` arrives: `begin` and `move` are kept;
   * `end` discards every earlier event back to and including the latest `begin`,
   * and is itself discarded.
   */
  function ReceivePreview(pending: seq<DrawPreviewEvent>, e: DrawPreviewEvent): (r: seq<DrawPreviewEvent>)
    ensures e.action != End ==> r == pending + [e]
    ensures e.action == End ==> r <= pending
    ensures e.action == End && (exists i :: 0 <= i < |pending| && pending[i].action == Begin) ==>
      |r| < |pending| && pending[|r|].action == Begin
      && forall i :: |r| < i < |pending| ==> pending[i].action != Begin
    ensures e.action == End && (forall i :: 0 <= i < |pending| ==> pending[i].action != Begin) ==> r == []
  {
    if e.action != End then pending + [e]
    else
      var k := LastBegin(pending);
      if k < 0 then [] else pending[..k]
  }

  /** The events still shown after each of `es` arrives in turn. */
  function ReceiveAll(pending: seq<DrawPreviewEvent>, es: seq<DrawPreviewEvent>): (r: seq<DrawPreviewEvent>)
    ensures |r| <= |pending| + |es|
    ensures forall x :: x in r ==> x in pending || x in es
    decreases |es|
  {
    if es == [] then pending else ReceiveAll(ReceivePreview(pending, es[0]), es[1..])
  }

  lemma {:induction false} ReceiveMoves(pending: seq<DrawPreviewEvent>, moves: seq<DrawPreviewEvent>)
    requires forall i :: 0 <= i < |moves| ==> moves[i].action == Move
    ensures ReceiveAll(pending, moves) == pending + moves
    decreases |moves|
  {
    if moves != [] {
      ReceiveMoves(pending + [moves[0]], moves[1..]);
      assert pending + [moves[0]] + moves[1..] == pending + moves;
    }
  }

  /**
   * A whole stroke — `begin`, any number of `move`s, `end` — leaves nothing of itself
   * behind: the events shown before it are exactly the events shown after it.
   */
  lemma {:induction false} CompleteStrokeLeavesNoTrace(
    pending: seq<DrawPreviewEvent>, begin: DrawPreviewEvent,
    moves: seq<DrawPreviewEvent>, end: DrawPreviewEvent)
    requires begin.action == Begin && end.action == End
    requires forall i :: 0 <= i < |moves| ==> moves[i].action == Move
    ensures ReceiveAll(pending, [begin] + moves + [end]) == pending
  {
    var stroke := [begin] + moves + [end];
    assert stroke[0] == begin && stroke[1..] == moves + [end];
    ReceiveMoves(pending + [begin], moves);
    ReceiveAllAppend(pending + [begin], moves, end);
    var shown := pending + [begin] + moves;
    assert LastBegin(shown) == |pending| by {
      LastBeginAfterMoves(pending + [begin], moves);
    }
    assert shown[..|pending|] == pending;
  }

  lemma {:induction false} ReceiveAllAppend(pending: seq<DrawPreviewEvent>, es: seq<DrawPreviewEvent>, e: DrawPreviewEvent)
    ensures ReceiveAll(pending, es + [e]) == ReceivePreview(ReceiveAll(pending, es), e)
    decreases |es|
  {
    if es == [] {
      assert [e][1..] == [];
    } else {
      assert (es + [e])[0] == es[0] && (es + [e])[1..] == es[1..] + [e];
      ReceiveAllAppend(ReceivePreview(pending, es[0]), es[1..], e);
    }
  }

  lemma {:induction false} LastBeginAfterMoves(s: seq<DrawPreviewEvent>, moves: seq<DrawPreviewEvent>)
    requires s != [] && s[|s| - 1].action == Begin
    requires forall i :: 0 <= i < |moves| ==> moves[i].action == Move
    ensures LastBegin(s + moves) == |s| - 1
    decreases |moves|
  {
    if moves != [] {
      var m := moves[..|moves| - 1];
      assert (s + moves)[..|s + moves| - 1] == s + m;
      LastBeginAfterMoves(s, m);
    }
  }
}
