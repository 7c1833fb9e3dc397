/** The base class of the Stark engine's UI windows: visibility gating,
    mouse-position translation, dispatch of mouse events to the window's
    hooks, and the search for the game object under the mouse cursor. */
module StarkWindow {
  import opened Wrappers
  import opened Geometry
  import opened CursorRules

  /** A game-world object that render entries belong to, by identity. */
  datatype Item = Item(id: nat)

  /** One drawn element of a window. `owner` is the object it draws (possibly
      none); `hits` maps every window-relative point the element covers to
      that point in the owner's own coordinates, which is what the element's
      containment test reports. */
  datatype RenderEntry = RenderEntry(owner: Option<Item>, hits: map<Point, Point>)
  {
    predicate ContainsPoint(pos: Point) {
      pos in hits
    }
  }

  /** The queries the window makes of the user-interface service: the actions
      an object offers at a point of it, and the object's title there. */
  datatype UserInterface = UserInterface(
    actionsPossible: (Item, Point) -> seq<Action>,
    itemTitle: (Item, Point) -> string)

  /** What `render` asks of the graphics driver and of the window's drawing
      hook, in order. */
  datatype RenderCall = SetViewport(viewport: Rect, unscaled: bool) | OnRender

  /** A call of one of the window's mouse hooks, with the position passed. */
  datatype MouseHook = OnMouseMove(pos: Point) | OnClick(pos: Point) | OnRightClick(pos: Point)

  /** The shared mouse cursor: the shape shown, the hint text beside it, and
      the mouse position read in the game's resolution or in screen pixels. */
  class Cursor {
    var cursorType: CursorType
    var mouseHint: string
    var mousePosition: Point
    var unscaledMousePosition: Point

    function GetMousePosition(unscaled: bool): (p: Point)
      reads this`mousePosition, this`unscaledMousePosition
      ensures p == if unscaled then unscaledMousePosition else mousePosition
    {
      if unscaled then unscaledMousePosition else mousePosition
    }

    method SetCursorType(t: CursorType)
      modifies this`cursorType
      ensures cursorType == t
    {
      cursorType := t;
    }

    method SetMouseHint(hint: string)
      modifies this`mouseHint
      ensures mouseHint == hint
    {
      mouseHint := hint;
    }
  }

  /** Entry `i` contains `pos` and no entry after it does. Entries are ordered
      from the farthest from the camera to the nearest, so this is the nearest
      entry under the point. */
  predicate NearestHit(entries: seq<RenderEntry>, pos: Point, i: int) {
    0 <= i < |entries| && entries[i].ContainsPoint(pos)
    && forall j :: i < j < |entries| ==> !entries[j].ContainsPoint(pos)
  }

  /** The index of the nearest render entry containing `pos`, if any. */
  function HitIndex(entries: seq<RenderEntry>, pos: Point): (r: Option<nat>)
    ensures r.Some? ==> NearestHit(entries, pos, r.value)
    ensures r.None? ==> forall j :: 0 <= j < |entries| ==> !entries[j].ContainsPoint(pos)
  {
    if |entries| == 0 then None
    else if entries[|entries| - 1].ContainsPoint(pos) then Some(|entries| - 1)
    else HitIndex(entries[..|entries| - 1], pos)
  }

  /** The outcome of a mouse-over update: the object kept under the cursor,
      the cursor shape and the hint text. */
  datatype Hover = Hover(item: Option<Item>, cursorType: CursorType, hint: string)

  /** The mouse-over outcome for window point `pos`. The nearest entry under
      the point gives the candidate object; it is kept only when it offers at
      least one action, and then the cursor follows its actions and the hint
      is its title. Otherwise there is no object, the cursor is passive and
      the hint is empty. */
  function HoverFor(entries: seq<RenderEntry>, pos: Point, ui: UserInterface): (h: Hover)
    ensures h.item.None? <==> h.cursorType == Passive
    ensures h.item.None? ==> h.hint == ""
    ensures h.item.Some? <==>
      exists i :: NearestHit(entries, pos, i) && entries[i].owner.Some?
        && |ui.actionsPossible(entries[i].owner.value, entries[i].hits[pos])| > 0
    ensures forall i :: NearestHit(entries, pos, i) && h.item.Some? ==>
      var rel := entries[i].hits[pos];
      entries[i].owner == h.item
      && h.cursorType == CursorFor(ui.actionsPossible(h.item.value, rel))
      && h.hint == ui.itemTitle(h.item.value, rel)
  {
    match HitIndex(entries, pos)
    case None => Hover(None, Passive, "")
    case Some(i) =>
      var rel := entries[i].hits[pos];
      match entries[i].owner
      case None => Hover(None, Passive, "")
      case Some(o) =>
        var actions := ui.actionsPossible(o, rel);
        if |actions| == 0 then Hover(None, Passive, "")
        else Hover(Some(o), CursorFor(actions), ui.itemTitle(o, rel))
  }

  class Window {
    const cursor: Cursor
    var unscaled: bool
    var visible: bool
    /** The window's rectangle on the screen. */
    var position: Rect
    /** Drawn elements, from the farthest from the camera to the nearest. */
    var renderEntries: seq<RenderEntry>
    var objectUnderCursor: Option<Item>
    var objectRelativePosition: Point

    /** A new window is hidden, scaled and has no object under the cursor. */
    constructor (cursor: Cursor)
      ensures this.cursor == cursor
      ensures !unscaled && !visible && objectUnderCursor == None
      ensures position == Rect(0, 0, 0, 0) && renderEntries == []
    {
      this.cursor := cursor;
      unscaled := false;
      visible := false;
      objectUnderCursor := None;
      position := Rect(0, 0, 0, 0);
      renderEntries := [];
      objectRelativePosition := Point(0, 0);
    }

    /** Nothing is drawn while the window is hidden; otherwise the viewport is
        set to the window's rectangle and then the window draws itself. */
    method Render() returns (calls: seq<RenderCall>)
      ensures !visible ==> calls == []
      ensures visible ==> calls == [SetViewport(position, unscaled), OnRender]
    {
      if !visible {
        return [];
      }
      calls := [SetViewport(position, unscaled), OnRender];
    }

    function IsVisible(): (b: bool)
      reads this`visible
      ensures b == visible
    {
      visible
    }

    /** The mouse position on the screen, read at the window's scaling. */
    function GetScreenMousePosition(): (p: Point)
      reads this`unscaled, cursor`mousePosition, cursor`unscaledMousePosition
      ensures p == cursor.GetMousePosition(unscaled)
    {
      cursor.GetMousePosition(unscaled)
    }

    /** The mouse position relative to the window's top-left corner: adding
        the corner back gives the screen position. */
    function GetMousePosition(): (p: Point)
      reads this`unscaled, this`position, cursor`mousePosition, cursor`unscaledMousePosition
      ensures Add(p, position.TopLeft()) == GetScreenMousePosition()
    {
      SubAddRoundTrip(cursor.GetMousePosition(unscaled), position.TopLeft());
      Sub(cursor.GetMousePosition(unscaled), position.TopLeft())
    }

    /** A hidden window never has the mouse inside; a visible one has it when
        the screen mouse position lies in its rectangle, which (for a
        rectangle whose size fits 16 bits) is when the window-relative
        position lies within the window's width and height. */
    function IsMouseInside(): (b: bool)
      reads this`visible, this`unscaled, this`position, cursor`mousePosition, cursor`unscaledMousePosition
      ensures !visible ==> !b
      ensures visible ==> (b <==> Contains(position, GetScreenMousePosition()))
      ensures b && position.SizeFits() ==> WithinSize(position, GetMousePosition())
      ensures visible && WithinSize(position, GetMousePosition()) ==> b
    {
      ContainsRelative(position, cursor.GetMousePosition(unscaled));
      visible && Contains(position, cursor.GetMousePosition(unscaled))
    }

    /** Passes a mouse move to the window's hook, with the window-relative
        position, exactly when the window is visible and the mouse inside. */
    method HandleMouseMove() returns (hook: Option<MouseHook>)
      ensures !visible ==> hook == None
      ensures hook.Some? <==> IsMouseInside()
      ensures hook.Some? ==> hook.value == OnMouseMove(GetMousePosition())
    {
      if !visible {
        return None;
      }
      hook := None;
      if IsMouseInside() {
        hook := Some(OnMouseMove(GetMousePosition()));
      }
    }

    /** As `HandleMouseMove`, for a left click. */
    method HandleClick() returns (hook: Option<MouseHook>)
      ensures !visible ==> hook == None
      ensures hook.Some? <==> IsMouseInside()
      ensures hook.Some? ==> hook.value == OnClick(GetMousePosition())
    {
      if !visible {
        return None;
      }
      hook := None;
      if IsMouseInside() {
        hook := Some(OnClick(GetMousePosition()));
      }
    }

    /** As `HandleMouseMove`, for a right click. */
    method HandleRightClick() returns (hook: Option<MouseHook>)
      ensures !visible ==> hook == None
      ensures hook.Some? <==> IsMouseInside()
      ensures hook.Some? ==> hook.value == OnRightClick(GetMousePosition())
    {
      if !visible {
        return None;
      }
      hook := None;
      if IsMouseInside() {
        hook := Some(OnRightClick(GetMousePosition()));
      }
    }

    method SetCursor(t: CursorType)
      modifies cursor`cursorType
      ensures cursor.cursorType == t
    {
      cursor.SetCursorType(t);
    }

    method SetCursorHint(hint: string)
      modifies cursor`mouseHint
      ensures cursor.mouseHint == hint
    {
      cursor.SetMouseHint(hint);
    }

    /** Finds the nearest object under the mouse that offers an action, keeps
        it as the object under the cursor, and sets the cursor shape and hint
        to match; with no such object the cursor turns passive and the hint
        is cleared. */
    method UpdateItems(ui: UserInterface)
      modifies this`objectUnderCursor, this`objectRelativePosition, cursor`cursorType, cursor`mouseHint
      ensures var h := HoverFor(renderEntries, GetMousePosition(), ui);
        objectUnderCursor == h.item && cursor.cursorType == h.cursorType && cursor.mouseHint == h.hint
      ensures match HitIndex(renderEntries, GetMousePosition())
        case Some(i) => objectRelativePosition == renderEntries[i].hits[GetMousePosition()]
        case None => objectRelativePosition == old(objectRelativePosition)
    {
      var pos := GetMousePosition();
      objectUnderCursor := None;

      ghost var hit: Option<nat> := None;
      var i := |renderEntries| - 1;
      while i >= 0
        invariant -1 <= i < |renderEntries|
        invariant objectUnderCursor == None && hit == None
        invariant objectRelativePosition == old(objectRelativePosition)
        invariant forall j :: i < j < |renderEntries| ==> !renderEntries[j].ContainsPoint(pos)
      {
        if renderEntries[i].ContainsPoint(pos) {
          objectUnderCursor := renderEntries[i].owner;
          objectRelativePosition := renderEntries[i].hits[pos];
          hit := Some(i);
          break;
        }
        i := i - 1;
      }
      assert hit == HitIndex(renderEntries, pos);

      var actionsPossible: seq<Action> := [];
      if objectUnderCursor.Some? {
        actionsPossible := ui.actionsPossible(objectUnderCursor.value, objectRelativePosition);
      }

      if |actionsPossible| == 0 {
        objectUnderCursor := None;
      }

      var mouseHint := "";
      if objectUnderCursor.Some? {
        SetCursorDependingOnActionsAvailable(actionsPossible);
        mouseHint := ui.itemTitle(objectUnderCursor.value, objectRelativePosition);
      } else {
        cursor.SetCursorType(Passive);
      }
      cursor.SetMouseHint(mouseHint);
    }

    /** Sets the cursor for the actions an object offers: passive for none,
        eye, mouth or hand when exactly one entry is Look, Talk or Use, and
        active otherwise. */
    method SetCursorDependingOnActionsAvailable(actionsAvailable: seq<Action>)
      modifies cursor`cursorType
      ensures cursor.cursorType == CursorFor(actionsAvailable)
    {
      if |actionsAvailable| == 0 {
        cursor.SetCursorType(Passive);
        return;
      }

      var count: nat := 0;
      var cursorType: CursorType := Active;
      for i := 0 to |actionsAvailable|
        invariant count == VerbCount(actionsAvailable[..i])
        invariant count > 0 ==> cursorType == VerbCursor(LastVerb(actionsAvailable[..i]).value)
      {
        assert actionsAvailable[..i + 1][..i] == actionsAvailable[..i];
        match actionsAvailable[i]
        case Look =>
          cursorType := Eye;
          count := count + 1;
        case Talk =>
          cursorType := Mouth;
          count := count + 1;
        case Use =>
          cursorType := Hand;
          count := count + 1;
        case Other(_) =>
      }
      assert actionsAvailable[..|actionsAvailable|] == actionsAvailable;

      if count == 1 {
        cursor.SetCursorType(cursorType);
      } else {
        cursor.SetCursorType(Active);
      }
    }
  }
}
