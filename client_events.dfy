/**
 * The browser client's side of the drawing protocol: the board events its drawing
 * tools produce and consume, the per-tool constants, and the pure decisions the
 * tools, the canvas and the socket wrapper take (size clamping, mouse and key
 * mapping, what gets broadcast, colour validation, group bookkeeping).
 */
module ClientEvents {
  import opened Wrappers
  import opened DrawTypes

  /** The edit actions an edit event may carry; only a delete does anything. */
  datatype EditAction = EditDelete | EditOther(name: string)

  /**
   * A board event as the client sees it: a stroke snapshot (`begin`/`move`/`end`) or
   * an edit of existing items. `group` and `originUserId` are filled in when the
   * event is sent; an event that arrives from another client carries both.
   */
  datatype ClientEvent =
    | Stroke(action: DrawPreviewAction, timeStamp: real, point: Point, toolId: string, color: string,
             size: real, persistent: bool, group: Option<string>, originUserId: Option<string>)
    | Edit(editAction: EditAction, timeStamp: real, params: seq<string>, toolId: string,
           persistent: bool, group: Option<string>, originUserId: Option<string>)

  /** The event as it goes over the wire: stamped with its group and its sender. */
  function Stamp(e: ClientEvent, group: string, userId: string): (r: ClientEvent)
    ensures r.group == Some(group) && r.originUserId == Some(userId)
    ensures r.Stroke? == e.Stroke? && r.toolId == e.toolId && r.timeStamp == e.timeStamp
    ensures r.Stroke? ==> r.action == e.action && r.point == e.point && r.color == e.color && r.size == e.size
    ensures r.Edit? ==> r.editAction == e.editAction && r.params == e.params
  {
    e.(group := Some(group), originUserId := Some(userId))
  }

  // ---------------------------------------------------------------------------
  // Tools and their constants.

  /** The tool classes of the client: the plain base tool and its seven variants. */
  datatype ToolKind = BaseTool | SelectorTool | EraserTool | PenTool | DynamicPenTool
                    | FountainPenTool | LaserPointerTool | DrunkPenTool

  /** The display name of a variant; the base tool is named by whoever creates it. */
  function KindName(kind: ToolKind, baseName: string): string
  {
    match kind
    case BaseTool => baseName
    case SelectorTool => "Selector"
    case EraserTool => "Eraser"
    case PenTool => "Pen"
    case DynamicPenTool => "Dynamic Pen"
    case FountainPenTool => "Fountain Pen"
    case LaserPointerTool => "Laser Pointer"
    case DrunkPenTool => "Drunk Pen"
  }

  /** The id a variant takes when it is given none; the base tool then draws a random one. */
  function DefaultId(kind: ToolKind, randomId: string): string
  {
    match kind
    case BaseTool => randomId
    case SelectorTool => "SELECTOR"
    case EraserTool => "THANOS_SNAP"
    case PenTool => "PEN"
    case DynamicPenTool => "D_PEN"
    case FountainPenTool => "F_PEN"
    case LaserPointerTool => "THE_SUN_IS_A_DEADLY_LASER"
    case DrunkPenTool => "DONT_DRINK_AND_DRIVE"
  }

  /** The size a new tool starts with. */
  function DefaultSize(kind: ToolKind): (r: real)
    ensures Bound(MinSize(kind)) && Bound(MaxSize(kind))
    ensures MinSize(kind).value <= r <= MaxSize(kind).value
  {
    match kind
    case EraserTool => 30.0
    case LaserPointerTool => 5.0
    case _ => 2.0
  }

  /** The smallest size `setSize` lets through. */
  function MinSize(kind: ToolKind): (r: Option<real>)
    ensures r.Some? && r.value > 0.0
  {
    match kind
    case EraserTool => Some(10.0)
    case LaserPointerTool => Some(5.0)
    case _ => Some(2.0)
  }

  /** The largest size `setSize` lets through. */
  function MaxSize(kind: ToolKind): (r: Option<real>)
    ensures r.Some? && r.value > 0.0
  {
    match kind
    case EraserTool => Some(1000.0)
    case LaserPointerTool => Some(20.0)
    case _ => Some(30.0)
  }

  /** A size bound counts only when it is set and non-zero (a zero bound is falsy). */
  predicate Bound(b: Option<real>)
  {
    b.Some? && b.value != 0.0
  }

  /** `setSize`: a size at or above the maximum becomes the maximum, else one at or below the minimum becomes the minimum. */
  function ClampSize(size: real, min: Option<real>, max: Option<real>): (r: real)
    ensures r == size || (Bound(max) && r == max.value) || (Bound(min) && r == min.value)
    ensures Bound(max) && size >= max.value ==> r == max.value
    ensures Bound(max) && (!Bound(min) || min.value <= max.value) ==> r <= max.value
  {
    if Bound(max) && size >= max.value then max.value
    else if Bound(min) && size <= min.value then min.value
    else size
  }

  /** With both bounds set and in order, a clamped size lies between them. */
  lemma ClampWithinBounds(size: real, min: Option<real>, max: Option<real>)
    requires Bound(min) && Bound(max) && min.value <= max.value
    ensures min.value <= ClampSize(size, min, max) <= max.value
  {
  }

  /** A size strictly between the bounds is kept as it is; a size beyond a bound is replaced by it. */
  lemma ClampMeaning(size: real, min: Option<real>, max: Option<real>)
    ensures (!Bound(max) || size < max.value) && (!Bound(min) || size > min.value) ==> ClampSize(size, min, max) == size
    ensures Bound(max) && size >= max.value ==> ClampSize(size, min, max) == max.value
  {
  }

  /** Clamping twice is clamping once, whenever the bounds are in order. */
  lemma ClampIdempotent(size: real, min: Option<real>, max: Option<real>)
    requires Bound(min) && Bound(max) ==> min.value <= max.value
    ensures ClampSize(ClampSize(size, min, max), min, max) == ClampSize(size, min, max)
  {
  }

  /** Every tool's own bounds are set and in order, and its default size lies between them. */
  lemma ToolBoundsInOrder(kind: ToolKind)
    ensures Bound(MinSize(kind)) && Bound(MaxSize(kind))
    ensures MinSize(kind).value <= DefaultSize(kind) <= MaxSize(kind).value
  {
  }

  /** The fixed colour of the variants that ignore the canvas colour. */
  function FixedColor(kind: ToolKind): Option<string>
  {
    match kind
    case SelectorTool => Some("#e9e9ff77")
    case EraserTool => Some("gray")
    case LaserPointerTool => Some("red")
    case _ => None
  }

  // ---------------------------------------------------------------------------
  // Mouse and key events.

  /** A mouse event as the drawing library reports it. */
  datatype MouseEvent = MouseEvent(kind: string, timeStamp: real, point: Point)

  /** A key event as the drawing library reports it. */
  datatype KeyEvent = KeyEvent(kind: string, key: string, timeStamp: real)

  /** The stroke action of a mouse event type; any other type yields no event. */
  function MouseAction(kind: string): (r: Option<DrawPreviewAction>)
    ensures r.Some? ==> MouseKind(r.value) == kind
    ensures r.None? ==> kind != "mousedown" && kind != "mousedrag" && kind != "mouseup"
  {
    if kind == "mousedown" then Some(Begin)
    else if kind == "mousedrag" then Some(Move)
    else if kind == "mouseup" then Some(End)
    else None
  }

  /** The mouse event type that starts each stroke action. */
  function MouseKind(a: DrawPreviewAction): string
  {
    match a
    case Begin => "mousedown"
    case Move => "mousedrag"
    case End => "mouseup"
  }

  /** The three mouse event types and the three stroke actions correspond one to one. */
  lemma MouseActionBijective(kind: string, a: DrawPreviewAction)
    ensures MouseAction(MouseKind(a)) == Some(a)
    ensures MouseAction(kind).Some? ==> MouseKind(MouseAction(kind).value) == kind
    ensures MouseAction(kind).None? <==> kind !in {"mousedown", "mousedrag", "mouseup"}
  {
  }

  /** The stroke event a tool makes of a mouse event. */
  function MouseEventAsBoardEvent(kind: ToolKind, toolId: string, color: string, size: real, m: MouseEvent): (r: Option<ClientEvent>)
    ensures r.Some? <==> MouseAction(m.kind).Some?
    ensures r.Some? ==>
      && r.value.Stroke? && r.value.action == MouseAction(m.kind).value
      && r.value.point == m.point && r.value.timeStamp == m.timeStamp
      && r.value.toolId == toolId && r.value.color == color && r.value.size == size
      && r.value.group == None && r.value.originUserId == None
      && (r.value.persistent <==> kind != LaserPointerTool)
  {
    match MouseAction(m.kind)
    case None => None
    case Some(a) => Some(Stroke(a, m.timeStamp, m.point, toolId, color, size, kind != LaserPointerTool, None, None))
  }

  /** Whether a selector key event asks to delete the selection. */
  predicate IsDeleteKey(k: KeyEvent)
  {
    k.kind == "keydown" && (k.key == "delete" || k.key == "backspace")
  }

  /**
   * The groups of the selected items, in selection order, skipping items that have no
   * group (or an empty one).
   */
  function KnownGroups(pathToGroup: map<nat, string>, selected: seq<nat>): (r: seq<string>)
    ensures |r| <= |selected|
    ensures forall i :: 0 <= i < |r| ==> r[i] != ""
    decreases |selected|
  {
    if selected == [] then []
    else
      var rest := KnownGroups(pathToGroup, selected[..|selected| - 1]);
      var p := selected[|selected| - 1];
      if p in pathToGroup && pathToGroup[p] != "" then rest + [pathToGroup[p]] else rest
  }

  /** A group is listed exactly when some selected item has it, and no listed group is empty. */
  lemma {:induction false} KnownGroupsMeaning(pathToGroup: map<nat, string>, selected: seq<nat>, g: string)
    ensures g in KnownGroups(pathToGroup, selected) <==>
      g != "" && exists i :: 0 <= i < |selected| && selected[i] in pathToGroup && pathToGroup[selected[i]] == g
    decreases |selected|
  {
    if selected != [] {
      var s' := selected[..|selected| - 1];
      KnownGroupsMeaning(pathToGroup, s', g);
      if g != "" && exists i :: 0 <= i < |s'| && s'[i] in pathToGroup && pathToGroup[s'[i]] == g {
        var i :| 0 <= i < |s'| && s'[i] in pathToGroup && pathToGroup[s'[i]] == g;
        assert selected[i] == s'[i];
      }
      if g != "" && exists i :: 0 <= i < |selected| && selected[i] in pathToGroup && pathToGroup[selected[i]] == g {
        var i :| 0 <= i < |selected| && selected[i] in pathToGroup && pathToGroup[selected[i]] == g;
        if i < |s'| {
          assert s'[i] == selected[i];
        }
      }
    }
  }

  // ---------------------------------------------------------------------------
  // What a tool broadcasts.

  /** Whether some hit of the eraser is a path other than the eraser's own pointer. */
  predicate AnyErased(hits: seq<bool>)
  {
    exists i :: 0 <= i < |hits| && hits[i]
  }

  /**
   * The `broadcast` flag of a tool's event processing. The base tool and the pens
   * broadcast strokes and ignore edits; the selector broadcasts edits and not its
   * selection strokes; the eraser broadcasts `begin` and `end`, and a `move` only when
   * it erased something.
   */
  function Broadcasts(kind: ToolKind, e: ClientEvent, erased: bool): (b: bool)
    ensures b && e.Edit? ==> kind == SelectorTool
    ensures b && kind == SelectorTool ==> e.Edit?
    ensures kind == EraserTool && e.Stroke? && e.action == Move ==> (b <==> erased)
  {
    match kind
    case SelectorTool => e.Edit?
    case EraserTool => e.Stroke? && (e.action != Move || erased)
    case _ => e.Stroke?
  }

  /** The eraser's rule: `begin` and `end` always go out, a `move` only when a path was erased, an edit never. */
  lemma EraserBroadcastRule(e: ClientEvent, hits: seq<bool>)
    ensures e.Stroke? && e.action != Move ==> Broadcasts(EraserTool, e, AnyErased(hits))
    ensures e.Stroke? && e.action == Move ==> (Broadcasts(EraserTool, e, AnyErased(hits)) <==> true in hits)
    ensures e.Edit? ==> !Broadcasts(EraserTool, e, AnyErased(hits))
  {
    if true in hits {
      var i :| 0 <= i < |hits| && hits[i];
    }
  }

  /** Only the selector ever broadcasts an edit, and it never broadcasts a stroke. */
  lemma OnlySelectorBroadcastsEdits(kind: ToolKind, e: ClientEvent, erased: bool)
    ensures e.Edit? ==> (Broadcasts(kind, e, erased) <==> kind == SelectorTool)
    ensures e.Stroke? && kind == SelectorTool ==> !Broadcasts(kind, e, erased)
  {
  }

  // ---------------------------------------------------------------------------
  // The canvas: colours and tool positions.

  predicate IsHexDigit(c: char)
  {
    '0' <= c <= '9' || 'a' <= c <= 'f' || 'A' <= c <= 'F'
  }

  /** A colour the canvas accepts: `#` and six hex digits of either case, nothing else. */
  predicate IsHexColor(s: string): (b: bool)
    ensures b ==> |s| == 7 && s[0] == '#' && '#' !in s[1..]
  {
    |s| == 7 && s[0] == '#' && forall i :: 1 <= i < 7 ==> IsHexDigit(s[i])
  }

  /** The accepted colours of `colors`, in order. */
  function HexColors(colors: seq<string>): (r: seq<string>)
    ensures |r| <= |colors|
    ensures forall i :: 0 <= i < |r| ==> IsHexColor(r[i])
    decreases |colors|
  {
    if colors == [] then []
    else
      var rest := HexColors(colors[..|colors| - 1]);
      var c := colors[|colors| - 1];
      if IsHexColor(c) then rest + [c] else rest
  }

  /** Exactly the valid colours survive, each of them valid, none longer than the input. */
  lemma {:induction false} HexColorsMeaning(colors: seq<string>)
    ensures |HexColors(colors)| <= |colors|
    ensures forall c :: c in HexColors(colors) <==> c in colors && IsHexColor(c)
    decreases |colors|
  {
    if colors != [] {
      var cs := colors[..|colors| - 1];
      HexColorsMeaning(cs);
      assert colors == cs + [colors[|colors| - 1]];
    }
  }

  /** Filtering is compatible with appending: adding colours adds their valid ones at the end. */
  lemma {:induction false} HexColorsAppend(a: seq<string>, b: seq<string>)
    ensures HexColors(a + b) == HexColors(a) + HexColors(b)
    decreases |b|
  {
    if b == [] {
      assert a + b == a;
    } else {
      var b' := b[..|b| - 1];
      assert (a + b)[..|a + b| - 1] == a + b';
      HexColorsAppend(a, b');
    }
  }


  // ---------------------------------------------------------------------------
  // Whiteboard replay: one worker tool per distinct group.

  /** The non-empty groups of `events`, each once, in order of first appearance. */
  function DistinctGroups(events: seq<ClientEvent>): (r: seq<string>)
    ensures |r| <= |events|
    decreases |events|
  {
    if events == [] then []
    else
      var rest := DistinctGroups(events[..|events| - 1]);
      var g := events[|events| - 1].group;
      if Truthy(g) && g.value !in rest then rest + [g.value] else rest
  }

  /** The events of `events` whose group is `g`, in order. */
  function GroupEvents(events: seq<ClientEvent>, g: string): (r: seq<ClientEvent>)
    ensures |r| <= |events|
    ensures forall i :: 0 <= i < |r| ==> r[i].group == Some(g)
    decreases |events|
  {
    if events == [] then []
    else
      var rest := GroupEvents(events[..|events| - 1], g);
      var e := events[|events| - 1];
      if e.group == Some(g) then rest + [e] else rest
  }

  /** No group is listed twice, and the list holds exactly the non-empty groups of the events. */
  lemma {:induction false} DistinctGroupsMeaning(events: seq<ClientEvent>)
    ensures forall i, j :: 0 <= i < j < |DistinctGroups(events)| ==> DistinctGroups(events)[i] != DistinctGroups(events)[j]
    ensures forall g :: g in DistinctGroups(events) <==> g != "" && exists i :: 0 <= i < |events| && events[i].group == Some(g)
    decreases |events|
  {
    if events != [] {
      var es := events[..|events| - 1];
      DistinctGroupsMeaning(es);
      forall g
        ensures g in DistinctGroups(events) <==> g != "" && exists i :: 0 <= i < |events| && events[i].group == Some(g)
      {
        if g != "" && exists i :: 0 <= i < |events| && events[i].group == Some(g) {
          var i :| 0 <= i < |events| && events[i].group == Some(g);
          if i < |es| {
            assert es[i] == events[i];
          }
        }
        if g != "" && exists i :: 0 <= i < |es| && es[i].group == Some(g) {
          var i :| 0 <= i < |es| && es[i].group == Some(g);
          assert events[i] == es[i];
        }
      }
    }
  }

  /** A group that has no event yet has no events in the group's list either. */
  lemma {:induction false} GroupEventsEmpty(events: seq<ClientEvent>, g: string)
    requires g !in DistinctGroups(events) && g != ""
    ensures GroupEvents(events, g) == []
    decreases |events|
  {
    if events != [] {
      var es := events[..|events| - 1];
      var rest := DistinctGroups(es);
      assert g !in rest;
      GroupEventsEmpty(es, g);
    }
  }

  // ---------------------------------------------------------------------------
  // Decimal numbers, as template strings print them.

  function DigitChar(d: nat): char
    requires d < 10
  {
    "0123456789"[d]
  }

  /** The decimal text of `n`, without leading zeros. */
  function NatToString(n: nat): (s: string)
    ensures |s| >= 1 && forall i :: 0 <= i < |s| ==> '0' <= s[i] <= '9'
    decreases n
  {
    if n < 10 then [DigitChar(n)] else NatToString(n / 10) + [DigitChar(n % 10)]
  }

  /** The value a string of decimal digits denotes. */
  function DecimalValue(s: string): nat
    requires forall i :: 0 <= i < |s| ==> '0' <= s[i] <= '9'
    decreases |s|
  {
    if s == [] then 0 else 10 * DecimalValue(s[..|s| - 1]) + (s[|s| - 1] as int - '0' as int)
  }

  /** Reading back the decimal text of `n` gives `n`: distinct counters print differently. */
  lemma {:induction false} NatToStringRoundTrip(n: nat)
    ensures DecimalValue(NatToString(n)) == n
    decreases n
  {
    if n >= 10 {
      var s := NatToString(n);
      NatToStringRoundTrip(n / 10);
      assert s[..|s| - 1] == NatToString(n / 10);
    }
  }
}
