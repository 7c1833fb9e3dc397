# Stark UI window and primitive shape descriptor, in Dafny

This project models two small pieces of the ResidualVM 3D adventure-game
interpreter.

- **The Stark engine's UI window base class** (`engines/stark/ui/window.cpp`).
  A window does nothing while hidden. Mouse events reach the window's hooks
  only when the mouse lies inside the window's rectangle, and the hooks get the
  window-relative position. Each update searches the window's render entries
  from the nearest to the camera to the farthest. The first entry that
  contains the mouse gives the object under the cursor. That object is kept
  only if it offers some action. The cursor shape and hint are set from the
  object's actions: passive when there are none; eye, mouth or hand when
  exactly one entry is Look, Talk or Use; active otherwise.
- **The primitive drawer's shape descriptor** (`engine/primitives.h`,
  `PrimitiveObject`). Its getters return stored fields. Each setter changes one
  field, or the y coordinate of one point, and nothing else.

Modules:

- `Geometry` (`geometry.dfy`): the engine's points with 16-bit coordinates,
  subtraction and addition that wrap around as 16-bit stores do, and half-open
  rectangles. `Point` and `Rect` here stand for `Common::Point` and
  `Common::Rect`, whose definitions are not part of this model. Two things
  about them are assumed. A point's coordinates are `int16`.
  `Rect::contains(p)` means `left <= p.x < right && top <= p.y < bottom`.
- `CursorRules` (`cursor_rules.dfy`): the cursor-choice rule as functions on
  action lists, with the lemmas that characterise it.
- `StarkWindow` (`window.dfy`): the shared `Cursor` object, which holds the
  cursor shape, the hint and the mouse position, and the `Window` class.
- `Primitives` (`primitives.dfy`): the `PrimitiveObject` class.
- `Wrappers` (`wrappers.dfy`): `Option`, standing for a possibly null object reference.

Everything outside the two files becomes a parameter or a recorded call:

- The user-interface service (`getActionsPossibleForObject`, `getItemTitle`)
  is a `UserInterface` value. It holds two total functions, which
  `UpdateItems` takes as a parameter.
- A render entry is a value with an optional owner and a map. The map sends
  each window point the entry covers to that point in the owner's own
  coordinates. `containsPoint` is membership in this map, and the relative
  position it reports is the map's value.
- The graphics driver's `setViewport` and the `onRender`, `onMouseMove`,
  `onClick` and `onRightClick` hooks are virtual or foreign. `Render` and the
  three handlers return the calls they would make, in order.
- Action codes are `Look`, `Talk`, `Use` or `Other(code)`. Their numeric
  values are in the pattern table, which is not part of this model.

## Model

| member | source | states |
|---|---|---|
| `StarkWindow.Window.constructor` | engines/stark/ui/window.cpp:36-42 | a new window is hidden, scaled, has no object under the cursor, an empty rectangle and no render entries |
| `StarkWindow.Window.Render` | engines/stark/ui/window.cpp:47-55 | a hidden window issues no call; a visible one sets the viewport to its rectangle and scaling, then calls its render hook |
| `StarkWindow.Window.IsMouseInside` | engines/stark/ui/window.cpp:57-64 | false whenever the window is hidden; otherwise true iff the screen mouse position is in the rectangle; for a rectangle whose size fits 16 bits, that is iff the window-relative position lies within the width and height |
| `StarkWindow.Window.IsVisible` | engines/stark/ui/window.cpp:66-68 | returns the visibility flag |
| `StarkWindow.Window.GetMousePosition` | engines/stark/ui/window.cpp:70-73 | the window-relative mouse position plus the window's top-left corner is the screen mouse position, even with 16-bit wrap-around |
| `StarkWindow.Window.GetScreenMousePosition` | engines/stark/ui/window.cpp:75-77 | the cursor's mouse position read at the window's scaling |
| `StarkWindow.Window.SetCursor` | engines/stark/ui/window.cpp:79-81 | the shared cursor shows the given shape afterwards |
| `StarkWindow.Window.SetCursorHint` | engines/stark/ui/window.cpp:83-85 | the shared cursor shows the given hint afterwards |
| `StarkWindow.Window.HandleMouseMove` | engines/stark/ui/window.cpp:87-95 | no hook call while hidden; the move hook is called iff the mouse is inside, with the window-relative position |
| `StarkWindow.Window.HandleClick` | engines/stark/ui/window.cpp:97-105 | no hook call while hidden; the click hook is called iff the mouse is inside, with the window-relative position |
| `StarkWindow.Window.HandleRightClick` | engines/stark/ui/window.cpp:107-115 | no hook call while hidden; the right-click hook is called iff the mouse is inside, with the window-relative position |
| `StarkWindow.HitIndex` | engines/stark/ui/window.cpp:123-132 | the reverse scan selects an entry containing the point with no later (nearer) entry containing it; with no selection, no entry contains the point |
| `StarkWindow.HoverFor` | engines/stark/ui/window.cpp:117-153 | an object is kept iff the nearest entry under the point has an owner offering at least one action; then the cursor follows that owner's actions and the hint is its title; otherwise the cursor is passive and the hint empty; the cursor is passive iff no object is kept |
| `StarkWindow.Window.UpdateItems` | engines/stark/ui/window.cpp:117-154 | the object under the cursor, cursor shape and hint become the mouse-over outcome for the window-relative mouse position; on a hit the object-relative position is the one the nearest entry reports |
| `StarkWindow.Window.SetCursorDependingOnActionsAvailable` | engines/stark/ui/window.cpp:156-186 | the cursor shape becomes the one the action list calls for, counting Look, Talk and Use entries in a loop |
| `CursorRules.VerbCursor` | engines/stark/ui/window.cpp:165-178 | Look gives the eye, Talk the mouth and Use the hand, never passive or active |
| `CursorRules.VerbCount` | engines/stark/ui/window.cpp:162-179 | the count of Look, Talk and Use positions is zero iff there is no such entry; its other values are characterised by the lemmas below |
| `CursorRules.LastVerb` | engines/stark/ui/window.cpp:163-178 | present iff the count is non-zero; when present it is a Look, Talk or Use entry of the list with no such entry after it, i.e. the last one seen |
| `CursorRules.CursorFor` | engines/stark/ui/window.cpp:157-160 | the cursor is passive iff the action list is empty |
| `CursorRules.OnlyVerbCounted` | engines/stark/ui/window.cpp:164-181 | a list with exactly one Look, Talk or Use position has count one, and that entry is the last one seen |
| `CursorRules.CountOneHasOnlyVerb` | engines/stark/ui/window.cpp:164-181 | a count of one comes from exactly one Look, Talk or Use position |
| `CursorRules.CountAtLeastTwo` | engines/stark/ui/window.cpp:164-185 | the count is two or more iff two distinct positions hold Look, Talk or Use; duplicates count separately |
| `CursorRules.SingleVerbCursor` | engines/stark/ui/window.cpp:164-182 | a list whose only Look, Talk or Use entry is at position i selects that entry's eye, mouth or hand cursor |
| `CursorRules.ActiveCursor` | engines/stark/ui/window.cpp:162-185 | a non-empty list gives the active cursor iff it has no Look, Talk or Use entry or two or more of them |
| `CursorRules.VerbCursorIffOnlyVerb` | engines/stark/ui/window.cpp:164-185 | the cursor is eye, mouth or hand iff exactly one position holds Look, Talk or Use |
| `Geometry.Wrap16` | engines/stark/ui/window.cpp:72 | a value in 16-bit range is kept; any other differs from its truncation by a multiple of 65536 |
| `Geometry.SubAddRoundTrip` | engines/stark/ui/window.cpp:70-77 | subtracting a point and adding it back is the identity under 16-bit wrap-around |
| `Geometry.ContainsRelative` | engines/stark/ui/window.cpp:57-73 | an offset from the top-left corner within the width and height comes from a point inside; a point inside gives the exact offset when the size fits 16 bits |
| `Primitives.PrimitiveObject.GetP1` | engine/primitives.h:42 | returns the stored first point |
| `Primitives.PrimitiveObject.GetP2` | engine/primitives.h:43 | returns the stored second point |
| `Primitives.PrimitiveObject.GetP3` | engine/primitives.h:44 | returns the stored third point |
| `Primitives.PrimitiveObject.GetP4` | engine/primitives.h:45 | returns the stored fourth point |
| `Primitives.PrimitiveObject.SetPoint1Y` | engine/primitives.h:46 | the first point's y becomes the argument truncated to 16 bits, exactly the argument when it fits; its x and all other fields are unchanged |
| `Primitives.PrimitiveObject.SetPoint2Y` | engine/primitives.h:47 | the second point's y becomes the argument truncated to 16 bits, exactly the argument when it fits; its x and all other fields are unchanged |
| `Primitives.PrimitiveObject.SetPoint3Y` | engine/primitives.h:48 | the third point's y becomes the argument truncated to 16 bits, exactly the argument when it fits; its x and all other fields are unchanged |
| `Primitives.PrimitiveObject.SetPoint4Y` | engine/primitives.h:49 | the fourth point's y becomes the argument truncated to 16 bits, exactly the argument when it fits; its x and all other fields are unchanged |
| `Primitives.PrimitiveObject.GetType` | engine/primitives.h:50 | returns the stored type code |
| `Primitives.PrimitiveObject.SetColor` | engine/primitives.h:51 | afterwards the colour read back is the one set; no other field changes |
| `Primitives.PrimitiveObject.GetColor` | engine/primitives.h:52 | returns the stored colour |
| `Primitives.PrimitiveObject.IsFilled` | engine/primitives.h:53 | returns the stored filled flag |
| `Primitives.PrimitiveObject.IsBitmap` | engine/primitives.h:55 | true iff the type code is 2 |
| `Primitives.PrimitiveObject.GetBitmapHandle` | engine/primitives.h:56 | requires a bitmap to be present and returns it |

## Left out

- `Window::~Window` and `PrimitiveObject`'s constructor and destructor: the window's destructor is empty, and the descriptor's are declared without bodies, so the descriptor's initial field values are not modelled.
- `PrimitiveObject::createRectangle`, `createBitmap`, `createLine`, `createPolygon` and `draw` are declared without bodies. No type code other than 2 (bitmap) is given a meaning.
- Colour: `engine/color.h` is not part of this model. A colour is taken to be three 8-bit channels, and the descriptor only stores and returns it.
- `StarkWindow.Window.Render`: the `Gfx::Driver` and the window's `onRender` hook are not modelled. The method returns the calls it would make instead of making them.
- `StarkWindow.Window.HandleMouseMove`, `HandleClick`, `HandleRightClick`: the hooks are virtual and their bodies live in subclasses. Each handler returns the hook call it would make. What a hook then changes is not modelled.
- `StarkWindow.Window.GetScreenMousePosition`: the cursor's conversion between screen pixels and the game's resolution is not part of this model. The cursor holds both readings, and the window's scaling flag picks one.
- `StarkWindow.Window.UpdateItems`: a render entry's containment test is external and may write the object-relative position even when it misses. The model writes that position only on a hit.
- `StarkWindow.Window.UpdateItems`: the service singleton lookup becomes the `ui` parameter. The localisation flag passed to `getItemTitle` is fixed in the source and is not a parameter of the model's title function.
- `StarkWindow.Window.SetCursorDependingOnActionsAvailable`: the action counter is a 32-bit unsigned integer in the source. The model counts with an unbounded natural, which differs only for lists of more than 2^32 entries.
- `engines/stark/resources/item.h`, `floorface.h` and `fmv.h` are declarations of the resource hierarchy. The loading goes through an external stream reader, and the geometry is floating-point. None of them is modelled.
