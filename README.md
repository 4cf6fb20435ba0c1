# Canvas editor scene engine in Dafny

This project models the scene-editing engine of a Konva/React canvas editor
(Next-Konva) and proves properties of it. Two source files make up the core:

- **`src/app/components/Canvas.tsx`**: the shapes on the canvas, the current
  selection, cut and paste, pan and zoom, the property panel, and the event
  handlers that change them.
- **`src/app/hooks/useHistory.ts`**: the bounded undo/redo history.

The model works on plain data instead of Konva nodes. Whatever Konva, the
browser or the clock supplies at run time is a parameter: node positions and
scales, pointer positions, marquee hits, `Math.random()` and `Date.now()`.

The modules follow the component's structure:

| module | file | what it holds |
|---|---|---|
| `Wrappers` | Wrappers.dfy | `Option` and `FindFirst`, the model of `Array.prototype.find` by id behind the transformer-node and panel-copy lookups |
| `Shapes` | Shapes.dfy | the `Shape` record of `types.d.ts` (six kinds, optional attributes as `Option`) and real-number helpers (`Math.round`, clamps) |
| `Geometry` | Geometry.dfy | `isOverlap`, `isOverlapping`, `snapToGrid` |
| `SceneEdits` | SceneEdits.dfy | arrow-key nudge, drag end, transform-end bake, delete, flip, Ctrl rotation reset |
| `Selection` | Selection.dfy | click selection, marquee normalisation, the selection's top-left corner |
| `Clipboard` | Clipboard.dfy | cut anchor and paste |
| `RightBar` | RightBar.dfy | property-panel clamps, `getCommonProperty`, save, group position |
| `Grouping` | Grouping.dfy | `areShapesGrouped` and the group/ungroup toggle |
| `Viewport` | Viewport.dfy | wheel zoom, pan clamp, pointer and world coordinates |
| `Placement` | Placement.dfy | the shapes a drop creates and the location marker |
| `History` | History.dfy | `useHistory`, as pure stack functions and as a class with the hook's mutable state |
| `StaleCaptures` | StaleCaptures.dfy | two handlers modelled as written next to their corrected form (see Findings) |
| `CanvasEditor` | Editor.dfy | class `Canvas`: the component's state fields and one method per handler, calling the pure functions above |

The pure parts of `Canvas.tsx` are functions on `seq<Shape>`: the collision
tests and the `map`/`filter` bodies passed to `setShapes`. The handlers update
component state step by step, so `CanvasEditor.Canvas` models them as methods.
Each method states the new value of every field it changes and keeps
`Valid()`:

- the history's own invariant holds;
- the zoom stays within (0.18, 5);
- every shape, in the scene, in the panel and in every history entry, has the
  attributes its kind requires;
- the selection names only shapes of the scene.

`History.History` is the hook as a class. Its two stack fields and its
`canUndo`/`canRedo` flags are updated in place. Each method is proved against
the pure step function of the same name.

## Model

| member | source | states |
|---|---|---|
| Shapes.MovedKeepsWellTyped | src/app/types/types.d.ts:1-97 | moving shapes (changing only x and y) keeps every attribute their kind's interface requires |
| Shapes.ClampBetween | src/app/components/Canvas.tsx:976-986 | `Math.max(lo, Math.min(hi, v))` is at least `lo`, at most `hi` when `lo <= hi`, is `v` inside the interval, `lo` below it and `hi` above it |
| Shapes.RoundHalfUp | src/app/components/Canvas.tsx:825-826 | `Math.round(v)` is the integer n with n - 1/2 <= v < n + 1/2 |
| Shapes.RoundHalfUpUnique | src/app/components/Canvas.tsx:825-826 | that integer is unique |
| Shapes.DecimalString | src/app/components/Canvas.tsx:228 | a counter is written as a non-empty string of decimal digits |
| Geometry.RootComparisons | src/app/components/Canvas.tsx:1024-1025 | comparing squared distances without `Math.sqrt` agrees with comparing the distance itself, strict and non-strict |
| Geometry.IsOverlapSymmetric | src/app/components/Canvas.tsx:1011-1049 | `isOverlap(a, b) == isOverlap(b, a)` for every pair of kinds |
| Geometry.OnlyBoxesAndRoundsOverlap | src/app/components/Canvas.tsx:1045-1048 | a pair that involves a text or location shape never overlaps |
| Geometry.RectPairOverlapIsSharedPoint | src/app/components/Canvas.tsx:1012-1019 | two rectangles or SVG images of positive size overlap iff the boxes extending right and down from their stored positions share a point |
| Geometry.RoundPairOverlap | src/app/components/Canvas.tsx:1021-1026 | two circles or stars overlap iff the squared centre distance is below the squared radius sum |
| Geometry.RoundBoxOverlap | src/app/components/Canvas.tsx:1028-1047 | a circle or star meets a rectangle or SVG image iff some point of its centred box lies strictly within the radius, in either argument order |
| Geometry.DropIgnoresTextAndLocations | src/app/components/Canvas.tsx:159-192 | a scene of only text and location shapes never blocks a drop |
| Geometry.SnapCoord | src/app/components/Canvas.tsx:824-828 | a snapped coordinate is a multiple of 10, and the input lies in the half-open interval (r - 5, r + 5] |
| Geometry.SnapToGrid | src/app/components/Canvas.tsx:824-828 | both coordinates of a snapped point are on the grid and within 5 of the input |
| Geometry.SnapIsNearest | src/app/components/Canvas.tsx:824-828 | no multiple of 10 is closer to the input than its snapped value |
| Geometry.SnapKeepsGridPoints | src/app/components/Canvas.tsx:824-828 | a coordinate already on the grid does not move |
| Geometry.SnapIdempotent | src/app/components/Canvas.tsx:824-828 | snapping a snapped point is the identity |
| SceneEdits.Step | src/app/components/Canvas.tsx:965-968 | ArrowLeft/ArrowRight move the candidate 10 units to smaller/larger x, ArrowUp/ArrowDown 10 units to smaller/larger y, the other coordinate kept; any other key leaves the point where it was |
| SceneEdits.NudgeTarget | src/app/components/Canvas.tsx:970-987 | each coordinate of the stepped point is clamped between the kind's margins (half the size for rectangles and SVG images, the radius for circles and stars): kept inside, set to the near edge outside, the other axis kept; text and location shapes are not clamped |
| SceneEdits.NudgeShape | src/app/components/Canvas.tsx:959-1003 | an unselected shape is returned as it is; a selected one moves to its target unless it collides there, and only x and y change |
| SceneEdits.Nudge | src/app/components/Canvas.tsx:953-1010 | ids and order are kept and only positions change; unselected shapes are unchanged; a selected shape whose clamped target collides with no shape moves there, and a shape that changed is selected, sits at its target and collides with nothing |
| SceneEdits.NudgeVetoesCollisions | src/app/components/Canvas.tsx:989-1001 | a shape whose target collides with any other shape, selected ones at their old positions included, stays where it was |
| SceneEdits.NudgeStaysOnCanvas | src/app/components/Canvas.tsx:971-987 | a selected shape that fits the canvas and starts inside its margins is still inside them after the nudge |
| SceneEdits.FirstCollision | src/app/components/Canvas.tsx:796-809 | none iff no other shape collides with the candidate; otherwise the first colliding shape in scene order |
| SceneEdits.DragEndShape | src/app/components/Canvas.tsx:789-818 | the dragged shape goes to the (snapped) drop point, or to (other.x - 100, other.y) for the first shape it collides with there; other shapes are unchanged |
| SceneEdits.DragEnd | src/app/components/Canvas.tsx:775-823 | ids and order are kept, only positions change, every other shape is unchanged; the dragged shape lands on the (snapped) drop point when nothing collides there, otherwise at (other.x - 100, other.y) of the first colliding shape |
| SceneEdits.DragEndSnapsFreeDrop | src/app/components/Canvas.tsx:791-793 | with snapping on, a dragged shape that meets no other shape ends on a grid point within 5 of the drop |
| SceneEdits.DragEndCollisionFallback | src/app/components/Canvas.tsx:810-816 | a dragged shape that lands on another shape is placed 100 units left of the FIRST colliding shape in scene order (every earlier shape misses it), at its y; that shape is not the dragged one |
| SceneEdits.AtLeastFive | src/app/components/Canvas.tsx:1069 | `Math.max(5, v)` is at least 5 and equals `v` whenever v >= 5 |
| SceneEdits.Bake | src/app/components/Canvas.tsx:1056-1134 | takes the node's position and rotation, keeps id, kind, group, scale, fill, text, fontFamily, strokeWidth and numPoints; rectangles, locations and SVGs get width/height = max(5, |size x scale|), text gets fontSize from the mean scale, circles radius and stars innerRadius and outerRadius (from `radius`) from the mean absolute scale, each at least 5, and every other size attribute is kept |
| SceneEdits.TransformEnd | src/app/components/Canvas.tsx:1050-1141 | each shape with a transformed node is exactly its `Bake` with the first node of that id; shapes without one are unchanged; every baked size is at least 5, and kinds, groups and ids are kept |
| SceneEdits.RemoveSelected | src/app/components/Canvas.tsx:1203-1205 | the result holds exactly the shapes whose id is not selected |
| SceneEdits.RemoveSelectedCount | src/app/components/Canvas.tsx:1203-1205 | a delete keeps every unselected shape exactly as many times as the scene held it and drops every selected one |
| SceneEdits.RemoveSelectedConcat | src/app/components/Canvas.tsx:1203-1205 | the survivors keep their scene order: filtering a concatenation is concatenating the filtered parts |
| SceneEdits.RemoveSelectedKeepsOthers | src/app/components/Canvas.tsx:1200-1210 | after a delete every remaining id was in the scene and is not selected, and well-typed shapes stay well-typed |
| SceneEdits.EffectiveScale | src/app/components/Canvas.tsx:1385 | the effective scale is never 0, and a present non-zero scale is kept as it is |
| SceneEdits.FlipShape | src/app/components/Canvas.tsx:1381-1406 | the flipped axis gets an explicit non-zero scale equal to the negated effective scale (`(scale ? scale : 1) * -1`), and every other attribute is unchanged |
| SceneEdits.Flip | src/app/components/Canvas.tsx:1381-1406 | selected shapes are flipped on the axis and the others are unchanged |
| SceneEdits.FlipTwice | src/app/components/Canvas.tsx:1381-1406 | flipping twice restores each selected shape with its effective scale, and changes no other shape |
| SceneEdits.ResetRotation | src/app/components/Canvas.tsx:936-942 | selected shapes get rotation 0 and nothing else changes |
| Selection.RemoveId | src/app/components/Canvas.tsx:752 | the selection without any copy of `id`, every other id kept with its multiplicity |
| Selection.ClickSelect | src/app/components/Canvas.tsx:740-774 | a plain click on an unselected shape selects only it; a plain click on a selected shape changes nothing; a modifier click removes every copy of a selected id (the selection shrinks) or appends an unselected one after the old selection |
| Selection.ModifierClickTwice | src/app/components/Canvas.tsx:746-773 | two modifier clicks on the same shape restore the set of selected ids |
| Selection.Normalise | src/app/components/Canvas.tsx:436-441 | the normalised marquee box has the same corners and a non-negative size |
| Selection.NormaliseIdempotent | src/app/components/Canvas.tsx:436-441 | normalising twice is normalising once |
| Selection.SelectedShapes | src/app/components/Canvas.tsx:872-875 | the panel holds exactly the scene's shapes whose id is selected |
| Selection.SelectedShapesCount | src/app/components/Canvas.tsx:872-875 | the panel holds every selected shape exactly as many times as the scene does, and no unselected one |
| Selection.SelectedShapesConcat | src/app/components/Canvas.tsx:872-875 | the panel lists the selected shapes in scene order: filtering a concatenation is concatenating the filtered parts |
| Selection.SelectionCorner | src/app/components/Canvas.tsx:901-910 | none iff no shape is selected; otherwise the smallest x and smallest y among the selected shapes, each attained |
| Selection.SelectionCornerUnique | src/app/components/Canvas.tsx:901-910 | there is at most one such corner |
| Selection.SelectionCornerShifts | src/app/components/Canvas.tsx:548-590 | moving every selected shape by the same offset moves the corner by that offset |
| Clipboard.CutAnchor | src/app/components/Canvas.tsx:1451-1463 | the cut anchor is (0, 0) with nothing selected, and otherwise the smallest x and smallest y of the selected shapes |
| Clipboard.PasteCoord | src/app/components/Canvas.tsx:1472-1473 | only the upper side is clamped: a sum beyond the canvas becomes canvas size minus 50 |
| Clipboard.PasteTarget | src/app/components/Canvas.tsx:1465-1473 | on each axis the cut shape's coordinate plus the anchor offset, or canvas size minus 50 where that sum passes the canvas size |
| Clipboard.PasteShape | src/app/components/Canvas.tsx:1470-1488 | a pasted shape changes at most its position |
| Clipboard.Paste | src/app/components/Canvas.tsx:1464-1500 | only cut shapes move, each to its target unless it collides there, and ids are kept |
| Clipboard.PasteMovesByOffset | src/app/components/Canvas.tsx:1464-1500 | a shape the paste moved was cut, moved by the anchor offset or to canvas size minus 50 on each axis, and collides with no other shape |
| Clipboard.PasteMovesFreeShape | src/app/components/Canvas.tsx:1471-1488 | a cut shape whose offset target stays within the canvas and meets no other shape is moved exactly by the offset |
| RightBar.ClampInput | src/app/components/Canvas.tsx:606-646 | x and y are clamped to [50, 3950], width and height to [1, 500] and the radii to [0, 100]: in-range values are kept, lower ones become the lower bound and higher ones the upper bound; other fields are not clamped |
| RightBar.ApplyInput | src/app/components/Canvas.tsx:625-659 | `fill` and `text` take the raw string and other fields the clamped number; `fontFamily` and every other field are unchanged |
| RightBar.InputChange | src/app/components/Canvas.tsx:592-661 | every shape in the panel gets the input |
| RightBar.GetCommonProperty | src/app/components/Canvas.tsx:676-703 | blank iff the panel is empty or the shapes disagree on the field; otherwise the first shape's string, or its number rounded |
| RightBar.ClampGroupCoord | src/app/components/Canvas.tsx:559-574 | a group-moved coordinate is kept inside [50, 3950], becomes 50 below it and 3950 above it |
| RightBar.ShiftSelected | src/app/components/Canvas.tsx:554-584 | each selected shape moves by the delta with both coordinates clamped by ClampGroupCoord (kept inside [50, 3950], 50 below, 3950 above); other shapes are unchanged; ids are kept |
| RightBar.GroupPosition | src/app/components/Canvas.tsx:911-929 | defined iff more than one id is selected and some selected shape exists, and then equal to the selection corner |
| RightBar.GroupDelta | src/app/components/Canvas.tsx:548-551 | the offset takes the group's corner to the typed value on the input's axis, and is 0 on the other axis |
| RightBar.GroupMove | src/app/components/Canvas.tsx:543-591 | nothing changes without a group position; otherwise the selected shapes move by the group delta, each coordinate then clamped to [50, 3950] |
| RightBar.GroupMoveSetsCorner | src/app/components/Canvas.tsx:543-591 | when no shape meets the clamp, typing v into the group's x input puts the group's corner at (v, old y) |
| Wrappers.FindFirst | src/app/components/Canvas.tsx:665 | `find` by id (here `editShapes.find`, and the transformer lookup at line 1055): none iff no element has the id; otherwise the first element in order with that id, no earlier one carrying it |
| RightBar.SaveEdits | src/app/components/Canvas.tsx:662-669 | a shape with an edited copy is replaced by exactly the first copy with its id (`find`), the others are unchanged; ids are kept |
| RightBar.EditThenSave | src/app/components/Canvas.tsx:592-669 | with unique ids, editing a field and saving changes that field of exactly the selected shapes |
| RightBar.SaveUneditedIsIdentity | src/app/components/Canvas.tsx:662-669 | with unique ids, saving an unedited panel leaves the scene as it is |
| Grouping.GroupIdOf | src/app/components/Canvas.tsx:1417-1420 | none when no shape has the id; otherwise the group of the first shape in scene order with that id |
| Grouping.GroupIdOfUniform | src/app/components/Canvas.tsx:1417-1420 | when every shape with the id has group g, the lookup answers g |
| Grouping.SetGroup | src/app/components/Canvas.tsx:1429-1446 | selected shapes get the group, and the others are unchanged |
| Grouping.NewGroupId | src/app/components/Canvas.tsx:1428 | a new group id is truthy (non-empty) |
| Grouping.ToggleGroup | src/app/components/Canvas.tsx:1423-1450 | if the selection is one group it is ungrouped (null), otherwise all of it joins one new group; unselected shapes are unchanged |
| Grouping.GroupThenUngroup | src/app/components/Canvas.tsx:1416-1450 | grouping makes the selection one group, toggling again sets the group of exactly those shapes to null, and shapes that had no group end as they started |
| Viewport.ZoomedScale | src/app/components/Canvas.tsx:318-319 | scrolling up multiplies the scale by 1.5 and scrolling down divides it by 1.5; a positive scale stays positive |
| Viewport.AnchoredOffset | src/app/components/Canvas.tsx:326-329 | a new stage offset is `pointer - world * scale` when that is at most 0, and 0 when it is positive |
| Viewport.Zoom | src/app/components/Canvas.tsx:308-336 | a zoom is taken only when the new scale lies strictly between 0.18 and 5, and then each offset is AnchoredOffset of the pointer and the world point under it (0 when positive); otherwise nothing changes |
| Viewport.ZoomKeepsScaleInBounds | src/app/components/Canvas.tsx:331-334 | from a scale in (0.18, 5), the initial 1 included, every wheel step stays in that interval |
| Viewport.ZoomKeepsPointerAnchored | src/app/components/Canvas.tsx:321-329 | on each axis on which the offset is not capped, the world point under the pointer stays under it |
| Viewport.PanClamp | src/app/components/Canvas.tsx:378-401 | each stage coordinate follows the pointer inside [container - canvas x scale, 0], becomes the lower bound when the pointer would go below it, and max(0, lower bound) when it would go above 0 |
| Viewport.RenderedOffset | src/app/components/Canvas.tsx:1852-1853 | the stage is drawn at its offset when that is at most 0, and at 0 when it is positive |
| Viewport.ScreenWorldRoundTrip | src/app/components/Canvas.tsx:206-209 | the drop handler's pointer conversion inverts the stage transform as drawn, both ways round |
| Viewport.PointerToWorld | src/app/components/Canvas.tsx:523-525 | the world point, scaled and shifted by the stage position, is the pointer |
| Placement.NewShape | src/app/components/Canvas.tsx:224-276 | "Rect" gives a 100x100 blue (#0000ff) rectangle, "Shape" a 100x100 SVG image without fill, "Text" a yellow (#ffff00) "Hello" text of size 30 in Calibri; each at the point, with id prefix plus counter, no group, rotation 0, scale 1 and no radius, stroke or point count; other payloads give nothing |
| Placement.Drop | src/app/components/Canvas.tsx:193-285 | blocked iff the point is on a shape (checked before the payload); ignored iff not blocked and the payload is unknown; otherwise the new shape |
| Placement.DropTwiceIsBlocked | src/app/components/Canvas.tsx:159-192 | a rectangle or SVG image just placed refuses a second drop at the same point |
| Placement.PlacedTextNeverBlocks | src/app/components/Canvas.tsx:159-192 | a placed text shape changes no later drop's outcome |
| Placement.DecimalStringInjective | src/app/components/Canvas.tsx:228 | distinct counters give distinct strings |
| Placement.NewIdsDistinct | src/app/components/Canvas.tsx:226-272 | drops with different counters or payloads give different ids |
| Placement.LocationMarker | src/app/components/Canvas.tsx:481-501 | the marker is the marquee taken to world coordinates (corner, and size times scale equals screen size), with id "location_" plus the random text, blue fill, stroke 2, rotation 0, scale 1 and no group |
| History.Init | src/app/hooks/useHistory.ts:7-10 | the stacks start as the initial state alone, with an empty redo stack |
| History.AddStep | src/app/hooks/useHistory.ts:12-21 | the state becomes the top, the undo stack is the last 50 of old stack plus state, and redo is cleared |
| History.UndoStep | src/app/hooks/useHistory.ts:23-30 | with one entry left, undo returns null and changes nothing; otherwise the top moves onto the redo stack and the entry below it is returned |
| History.RedoStep | src/app/hooks/useHistory.ts:32-39 | with an empty redo stack, redo returns null and changes nothing; otherwise its top moves back onto the undo stack and is returned |
| History.UndoThenRedo | src/app/hooks/useHistory.ts:23-39 | undo followed by redo restores both stacks and returns the state that was current |
| History.RedoThenUndo | src/app/hooks/useHistory.ts:23-39 | redo followed by undo restores both stacks and returns the state that was current |
| History.UndoAfterAdd | src/app/hooks/useHistory.ts:12-30 | after adding a state, undo returns the state that was current before it |
| History.AddEvictsOldest | src/app/hooks/useHistory.ts:13-16 | adding to a full undo stack drops exactly its oldest entry |
| History.StepKeepsValid | src/app/hooks/useHistory.ts:12-39 | each operation keeps at least one undo entry and at most 50 entries across both stacks |
| History.RunKeepsValid | src/app/hooks/useHistory.ts:12-39 | any sequence of add, undo and redo keeps that invariant |
| History.History.constructor | src/app/hooks/useHistory.ts:6-10 | the hook starts with the initial stacks and both flags false |
| History.History.AddState | src/app/hooks/useHistory.ts:12-21 | the stacks become `AddStep` of the old ones, with the flags matching them |
| History.History.Undo | src/app/hooks/useHistory.ts:23-30 | returns and leaves what `UndoStep` of the old stacks says, with the flags matching them |
| History.History.Redo | src/app/hooks/useHistory.ts:32-39 | returns and leaves what `RedoStep` of the old stacks says, with the flags matching them |
| StaleCaptures.RecordEditAsWritten | src/app/components/Canvas.tsx:1799-1806 | as written, the debounced save pushes the pre-edit scene |
| StaleCaptures.RecordEdit | src/app/components/Canvas.tsx:1799-1806 | as intended, the save pushes the edited scene |
| StaleCaptures.RedoAfterEditAsWritten | src/app/components/Canvas.tsx:1799-1820 | as written, redo after undoing an edit hands back the pre-edit scene |
| StaleCaptures.RedoAfterEdit | src/app/components/Canvas.tsx:1799-1820 | as intended, undo goes back to the previous state and redo restores the edited scene and the stacks |
| StaleCaptures.DeleteKeyAsWritten | src/app/components/Canvas.tsx:930-952 | as written, Delete replaces the scene with a filter of the scene captured when the selection last changed |
| StaleCaptures.DeleteKeyDropsNewShapes | src/app/components/Canvas.tsx:930-952 | as written, an unselected shape dropped after the selection was made disappears on Delete; filtering the current scene keeps it |
| CanvasEditor.KeyOf | src/app/components/Canvas.tsx:965-968 | exactly the four arrow key names map to an arrow key |
| CanvasEditor.Canvas.constructor | src/app/components/Canvas.tsx:72-136 | the component's initial state: empty scene, counter 1, nothing selected, no cut, scale 1 at (0, 0), snapping on, history holding the empty scene |
| CanvasEditor.Canvas.SyncEditShapes | src/app/components/Canvas.tsx:872-877 | the panel holds exactly the selected shapes of the scene |
| CanvasEditor.Canvas.Drop | src/app/components/Canvas.tsx:193-285 | a placed shape is appended, the counter advances and the new scene is recorded; a blocked or unknown drop changes nothing |
| CanvasEditor.Canvas.DragEnd | src/app/components/Canvas.tsx:775-823 | the scene becomes `DragEnd` of the old one and that scene is recorded |
| CanvasEditor.Canvas.TransformEnd | src/app/components/Canvas.tsx:1050-1141 | the scene becomes `TransformEnd` of the old one and that scene is recorded |
| CanvasEditor.Canvas.DeleteSelected | src/app/components/Canvas.tsx:1200-1210 | with a selection, its shapes are removed, the selection is cleared and the scene recorded; without one nothing changes |
| CanvasEditor.Canvas.ResetRotation | src/app/components/Canvas.tsx:936-942 | with a selection, the selected shapes' rotation becomes 0 (not recorded) |
| CanvasEditor.Canvas.Nudge | src/app/components/Canvas.tsx:953-1010 | with a selection, the scene becomes `Nudge` of the old one (not recorded) |
| CanvasEditor.Canvas.Flip | src/app/components/Canvas.tsx:1381-1406 | the scene becomes `Flip` of the old one (not recorded) |
| CanvasEditor.Canvas.ToggleGroup | src/app/components/Canvas.tsx:1423-1450 | the scene becomes `ToggleGroup` of the old one and the selection and panel are emptied |
| CanvasEditor.Canvas.Cut | src/app/components/Canvas.tsx:1451-1463 | the cut is pending, holds the selection and records its anchor |
| CanvasEditor.Canvas.Paste | src/app/components/Canvas.tsx:1464-1500 | a pending cut moves the cut shapes by paste point minus cut anchor; either way the cut is cleared |
| CanvasEditor.Canvas.ClearCutMemory | src/app/components/Canvas.tsx:1544-1548 | the cut is no longer pending and holds no ids; the scene is untouched |
| CanvasEditor.Canvas.ContextMenu | src/app/components/Canvas.tsx:515-526 | the paste point becomes the pointer in world coordinates |
| CanvasEditor.Canvas.KeyDown | src/app/components/Canvas.tsx:930-1010 | the listeners in registration order (Delete and Ctrl, the nudge, then Ctrl+X/V of lines 1501-1519 and Escape of lines 1520-1559); only Delete records or changes the selection |
| CanvasEditor.Canvas.ShapeClick | src/app/components/Canvas.tsx:740-774 | the selection becomes `ClickSelect` of the old one, and the panel follows whenever it changed |
| CanvasEditor.Canvas.StageClick | src/app/components/Canvas.tsx:527-539 | a click on the empty stage clears the selection and the panel |
| CanvasEditor.Canvas.MouseDown | src/app/components/Canvas.tsx:337-368 | on the stage, the right button starts panning from the pointer's world point and any other button starts a marquee at the pointer |
| CanvasEditor.Canvas.MouseMove | src/app/components/Canvas.tsx:369-427 | panning moves the stage by `PanClamp`; a marquee stretches from its start to the pointer |
| CanvasEditor.Canvas.MouseUp | src/app/components/Canvas.tsx:428-514 | ending a pan only clears the panning flag, and with no gesture nothing changes (scene, selection, panel copies, history all kept); a marquee selects the hits, adds a location marker when location drawing is on (then turns it off), records the scene and resyncs the panel |
| CanvasEditor.Canvas.Wheel | src/app/components/Canvas.tsx:308-336 | the view becomes `Zoom` of the old one |
| CanvasEditor.Canvas.InputChange | src/app/components/Canvas.tsx:592-661 | only the panel's copies change |
| CanvasEditor.Canvas.Save | src/app/components/Canvas.tsx:662-669 | the scene becomes `SaveEdits` of the old scene and panel (not recorded) |
| CanvasEditor.Canvas.GroupPositionChange | src/app/components/Canvas.tsx:543-591 | without a group position nothing changes; otherwise the scene becomes `GroupMove` of the old one |
| CanvasEditor.Canvas.ToggleSnap | src/app/components/Canvas.tsx:1410-1412 | snapping is switched |
| CanvasEditor.Canvas.SetDrawLocation | src/app/page.tsx:17-22 | location drawing is set |
| CanvasEditor.Canvas.Undo | src/app/components/Canvas.tsx:1807-1813 | the history takes `UndoStep`; a returned scene replaces the current one and clears the selection |
| CanvasEditor.Canvas.Redo | src/app/components/Canvas.tsx:1814-1820 | the history takes `RedoStep`; a returned scene replaces the current one and clears the selection |

## Left out

- Align and distribute (`handleAlign`, `DistributeShapes`) and the marquee hit test: they read Konva client rectangles. `MouseUp` takes the hit ids as a parameter.
- Drag-move and drag-bound functions, and tooltips, menus, rulers, the grid, the background image and cursor styles: they work on live Konva nodes or only draw.
- SVG and JSON export and import: they need trigonometry on floats, Blobs, FileReader and the DOM.
- Timing of the debounced history save: the 50 ms timer, and coalescing several edits into one push, are not modelled. Each edit that schedules a save records its scene once.
- Which edits are recorded: only drop, drag end, transform end, delete and the end of a marquee push a history entry. Flip, group, paste, nudge, rotation reset, panel save and group move change the scene without one, as in the source.
- Listener re-registration: the keydown listeners run in the order they are registered when the component mounts. The model does not capture which render's closures they hold, except for the two cases under Findings.
- The Ctrl+X listener's dependencies omit `shapes`, so the cut anchor can be computed from an older scene. `Cut` uses the current scene.
- `NaN`, `Infinity` and floating-point rounding: numbers are reals. An empty selection's `Math.min()` of `Infinity` cannot arise, because `getBoundingBox` is called only with more than one id, and `GroupPosition` then needs a selected shape.
- The SVG image handle of the drop payload is not a field of `Shape`.
- `Math.random()` and `Date.now()` become the `token` and `now` parameters. The container width (`window.innerWidth - 230`) and height become `MouseMove` parameters.
- Placement.LocationMarker: a marquee dragged up or left keeps its negative width or height, as the source stores it. No contract bounds it.
- RightBar.GroupMoveSetsCorner: proved only when no selected shape meets the [50, 3950] clamp. A clamped move can leave the corner elsewhere.
- RightBar.EditThenSave and RightBar.SaveUneditedIsIdentity: proved under unique ids. With duplicate ids, `find` returns the first copy for every shape with that id.
- CanvasEditor.Canvas.KeyDown: its contract names only what changes the history, the selection and the cut state. Each listener's full effect is stated by the method it calls.

## Findings

| source | as written | input that shows it | evidently intended | confidence | as-written member | corrected member |
|---|---|---|---|---|---|---|
| src/app/components/Canvas.tsx:1799-1806 | `saveStateDebounced` is memoised over the render's `shapes`. The handler that calls it right after `setShapes` schedules a push of the scene from before the edit. | After a drop, drag a shape, press undo, then redo: redo hands back the scene from before the drag, so the drag cannot be redone. | The edited scene is pushed (as `handleDrop` does with `addState(updatedShapes)`), so undo then redo restores the edit. | not executed | StaleCaptures.RedoAfterEditAsWritten | StaleCaptures.RedoAfterEdit |
| src/app/components/Canvas.tsx:930-952 | The Delete listener is re-registered only when `selectedIds` changes, so `deleteSelectedShapes` filters the scene captured then. | Select shape A, drop a new shape B, press Delete: B disappears as well as A, although B is not selected. | The selected shapes are removed from the current scene. | not executed | StaleCaptures.DeleteKeyDropsNewShapes | SceneEdits.RemoveSelected |

`CanvasEditor.Canvas` uses the corrected form of both. Edits that push a
history entry record the edited scene, and `DeleteSelected` filters the
current scene.
