/**
 * The editing state of the `Canvas` component (src/app/components/Canvas.tsx)
 * and its event handlers, with the undo history of
 * src/app/hooks/useHistory.ts. Each handler applies the pure scene operation
 * of its module and says which parts of the state it replaces.
 */
module CanvasEditor {
  import opened Wrappers
  import opened Shapes
  import opened Geometry
  import opened SceneEdits
  import opened Selection
  import opened Grouping
  import opened Clipboard
  import opened RightBar
  import opened Viewport
  import opened Placement
  import opened History

  /** The cut-and-paste state: pending cut, the cut ids, the cut anchor and the last context-menu point (world coordinates). */
  datatype Clip = Clip(isCut: bool, cutShapes: seq<string>, cutPoint: Point, pastePoint: Point)

  /** The pointer gesture in progress: panning (right button) or marquee selection (other buttons). */
  datatype Gesture = Gesture(isPanning: bool, isSelecting: bool, selectionRect: Option<Box>, lastPos: Point)

  /** Every scene in a history stack has the attributes its shapes' kinds require. */
  predicate ScenesWellTyped(scenes: seq<seq<Shape>>) {
    forall k :: 0 <= k < |scenes| ==> AllWellTyped(scenes[k])
  }

  /** Pushing a well-typed scene keeps every stacked scene well-typed. */
  lemma AddKeepsScenesWellTyped(h: Stacks<seq<Shape>>, s: seq<Shape>)
    requires ScenesWellTyped(h.undo) && AllWellTyped(s)
    ensures ScenesWellTyped(AddStep(h, s).undo) && ScenesWellTyped(AddStep(h, s).redo)
  {
    var pushed := h.undo + [s];
    var r := AddStep(h, s);
    var j := |h.undo| + 1 - |r.undo|;
    forall k | 0 <= k < |r.undo| ensures AllWellTyped(r.undo[k]) {
      assert r.undo[k] == pushed[j + k];
    }
  }

  /** Undo and redo move scenes between the stacks, so they stay well-typed, and so does the scene they hand back. */
  lemma StepsKeepScenesWellTyped(h: Stacks<seq<Shape>>)
    requires ScenesWellTyped(h.undo) && ScenesWellTyped(h.redo)
    ensures var u := UndoStep(h);
      ScenesWellTyped(u.after.undo) && ScenesWellTyped(u.after.redo) &&
      (u.result.Some? ==> AllWellTyped(u.result.value))
    ensures var d := RedoStep(h);
      ScenesWellTyped(d.after.undo) && ScenesWellTyped(d.after.redo) &&
      (d.result.Some? ==> AllWellTyped(d.result.value))
  {
  }

  /** With nothing selected, the panel holds no shape. */
  lemma NothingSelected(shapes: seq<Shape>)
    ensures SelectedShapes(shapes, []) == []
  {
  }

  /** Appending a well-typed shape keeps the scene well-typed and every id it had. */
  lemma AppendKeepsScene(shapes: seq<Shape>, s: Shape)
    requires AllWellTyped(shapes) && WellTyped(s)
    ensures AllWellTyped(shapes + [s])
    ensures forall id :: id in Ids(shapes) ==> id in Ids(shapes + [s])
  {
    var next := shapes + [s];
    forall id | id in Ids(shapes) ensures id in Ids(next) {
      var i :| 0 <= i < |shapes| && Ids(shapes)[i] == id;
      assert Ids(next)[i] == id;
    }
  }

  /** Grouping or ungrouping changes only `groupId`, so every shape keeps its kind's attributes. */
  lemma ToggleGroupKeepsWellTyped(shapes: seq<Shape>, sel: seq<string>, now: nat)
    requires AllWellTyped(shapes)
    ensures AllWellTyped(Grouping.ToggleGroup(shapes, sel, now))
  {
    var r := Grouping.ToggleGroup(shapes, sel, now);
    forall i | 0 <= i < |r| ensures WellTyped(r[i]) {
      assert WellTyped(shapes[i]);
    }
  }

  /** `e.key` of a keydown event as the arrow-key handler reads it. */
  function KeyOf(key: string): (k: Key)
    ensures k != OtherKey <==> key in {"ArrowLeft", "ArrowRight", "ArrowUp", "ArrowDown"}
  {
    if key == "ArrowLeft" then ArrowLeft
    else if key == "ArrowRight" then ArrowRight
    else if key == "ArrowUp" then ArrowUp
    else if key == "ArrowDown" then ArrowDown
    else OtherKey
  }

  class Canvas {
    const canvasWidth: real
    const canvasHeight: real
    const history: History<seq<Shape>>
    var shapes: seq<Shape>
    var nextId: nat
    var selectedIds: seq<string>
    /** The property panel's working copies of the selected shapes. */
    var editShapes: seq<Shape>
    var clip: Clip
    var view: View
    var gesture: Gesture
    var snapEnabled: bool
    /** The `isDrawRectangle` flag of the page: the next marquee also places a location marker. */
    var drawLocation: bool

    /**
     * The history is consistent, the zoom is within its range, every shape
     * (in the scene, the panel and the history) has its kind's attributes,
     * the selection names shapes of the scene, and a marquee in progress has
     * a rectangle.
     */
    predicate Valid()
      reads this, history
    {
      && history.Valid()
      && ScaleInBounds(view.scale)
      && AllWellTyped(shapes) && AllWellTyped(editShapes)
      && (forall id :: id in selectedIds ==> id in Ids(shapes))
      && (gesture.isSelecting ==> gesture.selectionRect.Some?)
      && ScenesWellTyped(history.undoStack) && ScenesWellTyped(history.redoStack)
    }

    /** The component's initial state for a canvas of the given size (5000 by 5000 on the page). */
    constructor (canvasWidth: real, canvasHeight: real)
      ensures Valid() && fresh(history)
      ensures this.canvasWidth == canvasWidth && this.canvasHeight == canvasHeight
      ensures shapes == [] && nextId == 1 && selectedIds == [] && editShapes == []
      ensures clip == Clip(false, [], Point(0.0, 0.0), Point(0.0, 0.0))
      ensures view == View(1.0, Point(0.0, 0.0))
      ensures gesture == Gesture(false, false, None, Point(0.0, 0.0))
      ensures snapEnabled && !drawLocation
      ensures history.State() == Init([])
    {
      this.canvasWidth := canvasWidth;
      this.canvasHeight := canvasHeight;
      history := new History<seq<Shape>>([]);
      shapes := [];
      nextId := 1;
      selectedIds := [];
      editShapes := [];
      clip := Clip(false, [], Point(0.0, 0.0), Point(0.0, 0.0));
      view := View(1.0, Point(0.0, 0.0));
      gesture := Gesture(false, false, None, Point(0.0, 0.0));
      snapEnabled := true;
      drawLocation := false;
    }

    /** The effect that re-reads the panel's shapes after the scene or the selection changed. */
    method SyncEditShapes()
      requires AllWellTyped(shapes)
      modifies this`editShapes
      ensures editShapes == SelectedShapes(shapes, selectedIds)
      ensures AllWellTyped(editShapes)
    {
      editShapes := SelectedShapes(shapes, selectedIds);
      forall k | 0 <= k < |editShapes| ensures WellTyped(editShapes[k]) {
        assert editShapes[k] in shapes;
      }
    }

    /** The scene becomes `next` and the panel follows it; nothing is recorded. */
    method Replace(next: seq<Shape>)
      requires Valid() && AllWellTyped(next)
      requires forall id :: id in selectedIds ==> id in Ids(next)
      modifies this`shapes, this`editShapes
      ensures Valid()
      ensures shapes == next && editShapes == SelectedShapes(next, selectedIds)
    {
      shapes := next;
      SyncEditShapes();
    }

    /** The scene becomes `next`, is recorded in the history, and the panel follows it. */
    method Commit(next: seq<Shape>)
      requires Valid() && AllWellTyped(next)
      requires forall id :: id in selectedIds ==> id in Ids(next)
      modifies this`shapes, this`editShapes, history
      ensures Valid()
      ensures shapes == next && editShapes == SelectedShapes(next, selectedIds)
      ensures history.State() == AddStep(old(history.State()), next)
    {
      shapes := next;
      AddKeepsScenesWellTyped(history.State(), shapes);
      history.AddState(shapes);
      SyncEditShapes();
    }

    /** Nothing is selected, so the panel is empty. */
    method ClearSelection()
      requires Valid()
      modifies this`selectedIds, this`editShapes
      ensures Valid()
      ensures selectedIds == [] && editShapes == []
    {
      selectedIds := [];
      NothingSelected(shapes);
      editShapes := [];
    }

    // ------------------------------------------------------------ drop and drag

    /**
     * `handleDrop` at `local` (the pointer within the stage element): the
     * point is taken to world coordinates; a placed shape is appended, the
     * counter advances and the new scene is recorded.
     */
    method Drop(local: Point, payload: string)
      requires Valid()
      modifies this`shapes, this`editShapes, this`nextId, history
      ensures Valid()
      ensures var out := Placement.Drop(old(shapes), old(nextId), payload, ScreenToWorld(local, view));
        && (out.Placed? ==>
              shapes == old(shapes) + [out.shape] && nextId == old(nextId) + 1 &&
              history.State() == AddStep(old(history.State()), shapes) &&
              editShapes == SelectedShapes(shapes, selectedIds))
        && (!out.Placed? ==>
              shapes == old(shapes) && nextId == old(nextId) && editShapes == old(editShapes) &&
              history.State() == old(history.State()))
    {
      var out := Placement.Drop(shapes, nextId, payload, ScreenToWorld(local, view));
      if out.Placed? {
        var next := shapes + [out.shape];
        AppendKeepsScene(shapes, out.shape);
        nextId := nextId + 1;
        Commit(next);
      }
    }

    /** `handleDragEnd(e, id)` with the node's final position `drop`; the scene is recorded. */
    method DragEnd(id: string, drop: Point)
      requires Valid()
      modifies this`shapes, this`editShapes, history
      ensures Valid()
      ensures shapes == SceneEdits.DragEnd(old(shapes), id, drop, snapEnabled)
      ensures history.State() == AddStep(old(history.State()), shapes)
      ensures editShapes == SelectedShapes(shapes, selectedIds)
    {
      var next := SceneEdits.DragEnd(shapes, id, drop, snapEnabled);
      MovedKeepsWellTyped(shapes, next);
      Commit(next);
    }

    /** `handleTransformEnd` with the transformer's nodes; the scene is recorded. */
    method TransformEnd(nodes: seq<NodeState>)
      requires Valid()
      modifies this`shapes, this`editShapes, history
      ensures Valid()
      ensures shapes == SceneEdits.TransformEnd(old(shapes), nodes)
      ensures history.State() == AddStep(old(history.State()), shapes)
      ensures editShapes == SelectedShapes(shapes, selectedIds)
    {
      var next := SceneEdits.TransformEnd(shapes, nodes);
      Commit(next);
    }

    // ------------------------------------------------------------ keyboard and menu edits

    /** `deleteSelectedShapes`: with a selection, its shapes are removed, the selection cleared and the scene recorded. */
    method DeleteSelected()
      requires Valid()
      modifies this`shapes, this`editShapes, this`selectedIds, history
      ensures Valid()
      ensures |old(selectedIds)| == 0 ==>
        shapes == old(shapes) && history.State() == old(history.State()) && editShapes == old(editShapes)
      ensures |old(selectedIds)| > 0 ==>
        && shapes == RemoveSelected(old(shapes), old(selectedIds))
        && history.State() == AddStep(old(history.State()), shapes)
        && selectedIds == [] && editShapes == []
      ensures selectedIds == []
    {
      if |selectedIds| > 0 {
        var next := RemoveSelected(shapes, selectedIds);
        RemoveSelectedKeepsOthers(shapes, selectedIds);
        ClearSelection();
        Commit(next);
        NothingSelected(next);
      }
    }

    /** The Ctrl key with a selection: the selected shapes' rotation becomes 0 (not recorded). */
    method ResetRotation()
      requires Valid()
      modifies this`shapes, this`editShapes
      ensures Valid()
      ensures |selectedIds| == 0 ==> shapes == old(shapes) && editShapes == old(editShapes)
      ensures |selectedIds| > 0 ==>
        shapes == SceneEdits.ResetRotation(old(shapes), selectedIds) && editShapes == SelectedShapes(shapes, selectedIds)
    {
      if |selectedIds| > 0 {
        var next := SceneEdits.ResetRotation(shapes, selectedIds);
        Replace(next);
      }
    }

    /** The arrow-key listener, which runs for every key while something is selected (not recorded). */
    method Nudge(key: Key)
      requires Valid()
      modifies this`shapes, this`editShapes
      ensures Valid()
      ensures |selectedIds| == 0 ==> shapes == old(shapes) && editShapes == old(editShapes)
      ensures |selectedIds| > 0 ==>
        shapes == SceneEdits.Nudge(old(shapes), selectedIds, key, canvasWidth, canvasHeight) &&
        editShapes == SelectedShapes(shapes, selectedIds)
    {
      if |selectedIds| > 0 {
        var next := SceneEdits.Nudge(shapes, selectedIds, key, canvasWidth, canvasHeight);
        MovedKeepsWellTyped(shapes, next);
        Replace(next);
      }
    }

    /** The context menu's horizontal or vertical flip of the selected shapes (not recorded). */
    method Flip(axis: Axis)
      requires Valid()
      modifies this`shapes, this`editShapes
      ensures Valid()
      ensures shapes == SceneEdits.Flip(old(shapes), selectedIds, axis)
      ensures editShapes == SelectedShapes(shapes, selectedIds)
    {
      var next := SceneEdits.Flip(shapes, selectedIds, axis);
      Replace(next);
    }

    /** `handleGroup` at time `now`: group or ungroup the selection, then clear it (not recorded). */
    method ToggleGroup(now: nat)
      requires Valid()
      modifies this`shapes, this`selectedIds, this`editShapes
      ensures Valid()
      ensures shapes == Grouping.ToggleGroup(old(shapes), old(selectedIds), now)
      ensures selectedIds == [] && editShapes == []
    {
      var next := Grouping.ToggleGroup(shapes, selectedIds, now);
      ToggleGroupKeepsWellTyped(shapes, selectedIds, now);
      ClearSelection();
      Replace(next);
      NothingSelected(next);
    }

    /** `handleCut`: marks the selection as cut and records its anchor. */
    method Cut()
      requires Valid()
      modifies this`clip
      ensures Valid()
      ensures clip == old(clip).(isCut := true, cutShapes := selectedIds, cutPoint := CutAnchor(shapes, selectedIds))
    {
      clip := clip.(isCut := true, cutShapes := selectedIds, cutPoint := CutAnchor(shapes, selectedIds));
    }

    /**
     * `handlePaste`: with a pending cut, the cut shapes move by the offset
     * from the cut anchor to the paste point; the cut is cleared either way
     * (not recorded).
     */
    method Paste()
      requires Valid()
      modifies this`shapes, this`editShapes, this`clip
      ensures Valid()
      ensures old(clip).isCut ==>
        shapes == Clipboard.Paste(old(shapes), old(clip).cutShapes,
                                  Point(old(clip).pastePoint.x - old(clip).cutPoint.x,
                                        old(clip).pastePoint.y - old(clip).cutPoint.y),
                                  canvasWidth, canvasHeight) &&
        editShapes == SelectedShapes(shapes, selectedIds)
      ensures !old(clip).isCut ==> shapes == old(shapes) && editShapes == old(editShapes)
      ensures clip == old(clip).(isCut := false, cutShapes := [])
    {
      if clip.isCut {
        var delta := Point(clip.pastePoint.x - clip.cutPoint.x, clip.pastePoint.y - clip.cutPoint.y);
        var next := Clipboard.Paste(shapes, clip.cutShapes, delta, canvasWidth, canvasHeight);
        MovedKeepsWellTyped(shapes, next);
        Replace(next);
      }
      clip := clip.(isCut := false, cutShapes := []);
    }

    /** Escape, or a click outside the stage: the pending cut is forgotten. */
    method ClearCutMemory()
      requires Valid()
      modifies this`clip
      ensures Valid()
      ensures clip == old(clip).(isCut := false, cutShapes := [])
    {
      clip := clip.(isCut := false, cutShapes := []);
    }

    /** `handleContextMenu`: the paste point becomes the pointer in world coordinates. */
    method ContextMenu(pointer: Point)
      requires Valid()
      modifies this`clip
      ensures Valid()
      ensures clip == old(clip).(pastePoint := PointerToWorld(pointer, view))
    {
      clip := clip.(pastePoint := PointerToWorld(pointer, view));
    }

    /**
     * The keydown listeners in the order they are registered: Delete and
     * Ctrl, the arrow-key nudge (every key), Ctrl+X and Ctrl+V, Escape.
     */
    method KeyDown(key: string, ctrl: bool)
      requires Valid()
      modifies this`shapes, this`editShapes, this`selectedIds, this`clip, history
      ensures Valid()
      ensures key != "Delete" ==> selectedIds == old(selectedIds) && history.State() == old(history.State())
      ensures key == "Delete" ==> selectedIds == []
      ensures key == "Delete" && |old(selectedIds)| > 0 ==>
        history.State() == AddStep(old(history.State()), RemoveSelected(old(shapes), old(selectedIds)))
      ensures key == "Escape" || (key == "v" && ctrl) ==> !clip.isCut && clip.cutShapes == []
      ensures key == "x" && ctrl ==> clip.isCut && clip.cutShapes == old(selectedIds)
    {
      if key == "Delete" {
        DeleteSelected();
      }
      if key == "Control" && |selectedIds| > 0 {
        ResetRotation();
      }
      Nudge(KeyOf(key));
      if key == "x" && ctrl {
        Cut();
      }
      if key == "v" && ctrl {
        Paste();
      }
      if key == "Escape" {
        ClearCutMemory();
      }
    }

    // ------------------------------------------------------------ selection and pointer

    /** `handleShapeClick(e, id)` on a shape of the scene. */
    method ShapeClick(id: string, modifier: bool)
      requires Valid() && id in Ids(shapes)
      modifies this`selectedIds, this`editShapes
      ensures Valid()
      ensures selectedIds == ClickSelect(old(selectedIds), id, modifier)
      ensures !modifier && id in old(selectedIds) ==> editShapes == old(editShapes)
      ensures modifier || id !in old(selectedIds) ==> editShapes == SelectedShapes(shapes, selectedIds)
    {
      if !modifier && id in selectedIds {
        return;
      }
      selectedIds := ClickSelect(selectedIds, id, modifier);
      SyncEditShapes();
    }

    /** `onClickTap`: a click on the empty stage clears the selection. */
    method StageClick(onStage: bool)
      requires Valid()
      modifies this`selectedIds, this`editShapes
      ensures Valid()
      ensures onStage ==> selectedIds == [] && editShapes == []
      ensures !onStage ==> selectedIds == old(selectedIds) && editShapes == old(editShapes)
    {
      if onStage {
        ClearSelection();
      }
    }

    /** `handleMouseDown` on the empty stage: the right button starts panning, any other a marquee at the pointer. */
    method MouseDown(onStage: bool, rightButton: bool, pointer: Point)
      requires Valid()
      modifies this`gesture
      ensures Valid()
      ensures !onStage ==> gesture == old(gesture)
      ensures onStage && rightButton ==>
        gesture == old(gesture).(isPanning := true, lastPos := PointerToWorld(pointer, view))
      ensures onStage && !rightButton ==>
        gesture == old(gesture).(isSelecting := true, selectionRect := Some(Box(pointer.x, pointer.y, 0.0, 0.0)))
    {
      if !onStage {
        return;
      }
      if rightButton {
        gesture := gesture.(isPanning := true, lastPos := PointerToWorld(pointer, view));
      } else {
        gesture := gesture.(isSelecting := true, selectionRect := Some(Box(pointer.x, pointer.y, 0.0, 0.0)));
      }
    }

    /**
     * `handleMouseMove`: while panning, the stage follows the pointer within
     * the pan bounds of the container; while selecting, the marquee stretches
     * from its start to the pointer.
     */
    method MouseMove(pointer: Point, containerWidth: real, containerHeight: real)
      requires Valid()
      modifies this`view, this`gesture
      ensures Valid()
      ensures view == if old(gesture).isPanning
        then old(view).(pos := PanClamp(pointer, old(gesture).lastPos, old(view).scale, canvasWidth, canvasHeight,
                                        containerWidth, containerHeight))
        else old(view)
      ensures old(gesture).isSelecting ==>
        var start := old(gesture).selectionRect.value;
        gesture == old(gesture).(selectionRect := Some(Box(start.x, start.y, pointer.x - start.x, pointer.y - start.y)))
      ensures !old(gesture).isSelecting ==> gesture == old(gesture)
    {
      if gesture.isPanning {
        view := view.(pos := PanClamp(pointer, gesture.lastPos, view.scale, canvasWidth, canvasHeight,
                                      containerWidth, containerHeight));
      }
      if gesture.isSelecting {
        var start := gesture.selectionRect.value;
        gesture := gesture.(selectionRect := Some(Box(start.x, start.y, pointer.x - start.x, pointer.y - start.y)));
      }
    }

    /**
     * `handleMouseUp`: ends panning; or ends a marquee, selecting `hits` (the
     * ids whose drawn boxes meet the marquee), adding a location marker when
     * location drawing is on, and recording the scene.
     */
    method MouseUp(hits: seq<string>, token: string)
      requires Valid()
      requires forall id :: id in hits ==> id in Ids(shapes)
      modifies this`shapes, this`editShapes, this`selectedIds, this`gesture, this`drawLocation, history
      ensures Valid()
      ensures old(gesture).isPanning ==>
        gesture == old(gesture).(isPanning := false) && shapes == old(shapes) && selectedIds == old(selectedIds) &&
        editShapes == old(editShapes) && drawLocation == old(drawLocation) && history.State() == old(history.State())
      ensures !old(gesture).isPanning && old(gesture).isSelecting ==>
        && selectedIds == hits
        && shapes == (if old(drawLocation)
                      then old(shapes) + [LocationMarker(old(gesture).selectionRect.value, view, token)]
                      else old(shapes))
        && !drawLocation
        && history.State() == AddStep(old(history.State()), shapes)
        && gesture == old(gesture).(isSelecting := false, selectionRect := None)
        && editShapes == SelectedShapes(shapes, selectedIds)
      ensures !old(gesture).isPanning && !old(gesture).isSelecting ==>
        shapes == old(shapes) && selectedIds == old(selectedIds) && gesture == old(gesture) &&
        editShapes == old(editShapes) && drawLocation == old(drawLocation) && history.State() == old(history.State())
    {
      if gesture.isPanning {
        gesture := gesture.(isPanning := false);
      } else if gesture.isSelecting {
        var next := shapes;
        if drawLocation {
          var marker := LocationMarker(gesture.selectionRect.value, view, token);
          AppendKeepsScene(shapes, marker);
          next := shapes + [marker];
          drawLocation := false;
        }
        EndMarquee(hits, next);
      }
    }

    /** The marquee ends: `hits` become the selection and `next` the recorded scene. */
    method EndMarquee(hits: seq<string>, next: seq<Shape>)
      requires Valid() && AllWellTyped(next)
      requires forall id :: id in hits ==> id in Ids(next)
      modifies this`shapes, this`editShapes, this`selectedIds, this`gesture, history
      ensures Valid()
      ensures selectedIds == hits && shapes == next && editShapes == SelectedShapes(next, hits)
      ensures gesture == old(gesture).(isSelecting := false, selectionRect := None)
      ensures history.State() == AddStep(old(history.State()), next)
    {
      shapes := next;
      selectedIds := hits;
      gesture := gesture.(isSelecting := false, selectionRect := None);
      AddKeepsScenesWellTyped(history.State(), shapes);
      history.AddState(shapes);
      SyncEditShapes();
    }

    /** `handleWheel`: zoom about the pointer, within the scale bounds. */
    method Wheel(pointer: Point, deltaY: real)
      requires Valid()
      modifies this`view
      ensures Valid()
      ensures view == Zoom(old(view), pointer, deltaY)
    {
      ZoomKeepsScaleInBounds(view, pointer, deltaY);
      view := Zoom(view, pointer, deltaY);
    }

    // ------------------------------------------------------------ property panel

    /** `handleInputChange`: the panel's copies take the input (the scene is untouched until saved). */
    method InputChange(f: Field, raw: string, parsed: real)
      requires Valid()
      modifies this`editShapes
      ensures Valid()
      ensures editShapes == RightBar.InputChange(old(editShapes), f, raw, parsed)
    {
      editShapes := RightBar.InputChange(editShapes, f, raw, parsed);
    }

    /** `handleSave`: the panel's copies replace their shapes in the scene (not recorded). */
    method Save()
      requires Valid()
      modifies this`shapes, this`editShapes
      ensures Valid()
      ensures shapes == SaveEdits(old(shapes), old(editShapes))
      ensures editShapes == SelectedShapes(shapes, selectedIds)
    {
      var next := SaveEdits(shapes, editShapes);
      Replace(next);
    }

    /** `handleGroupPositionChange` for the `groupX` (`onX`) or `groupY` input (not recorded). */
    method GroupPositionChange(onX: bool, value: real)
      requires Valid()
      modifies this`shapes, this`editShapes
      ensures Valid()
      ensures GroupPosition(old(shapes), selectedIds).None? ==> shapes == old(shapes) && editShapes == old(editShapes)
      ensures GroupPosition(old(shapes), selectedIds).Some? ==>
        shapes == GroupMove(old(shapes), selectedIds, onX, value) && editShapes == SelectedShapes(shapes, selectedIds)
    {
      if GroupPosition(shapes, selectedIds).Some? {
        var next := GroupMove(shapes, selectedIds, onX, value);
        MovedKeepsWellTyped(shapes, next);
        Replace(next);
      }
    }

    /** The toolbar's snap toggle. */
    method ToggleSnap()
      requires Valid()
      modifies this`snapEnabled
      ensures Valid()
      ensures snapEnabled == !old(snapEnabled)
    {
      snapEnabled := !snapEnabled;
    }

    /** The page's location-drawing switch (`handleDrawRectangle`). */
    method SetDrawLocation(on: bool)
      requires Valid()
      modifies this`drawLocation
      ensures Valid()
      ensures drawLocation == on
    {
      drawLocation := on;
    }

    // ------------------------------------------------------------ history

    /** `handleUndo`: a restored scene replaces the current one and the selection is cleared. */
    method Undo()
      requires Valid()
      modifies this`shapes, this`editShapes, this`selectedIds, history
      ensures Valid()
      ensures var step := UndoStep(old(history.State()));
        && history.State() == step.after
        && (step.result.Some? ==> shapes == step.result.value && selectedIds == [] && editShapes == [])
        && (step.result.None? ==> shapes == old(shapes) && selectedIds == old(selectedIds) && editShapes == old(editShapes))
    {
      StepsKeepScenesWellTyped(history.State());
      var r := history.Undo();
      if r.Some? {
        ClearSelection();
        Replace(r.value);
        NothingSelected(r.value);
      }
    }

    /** `handleRedo`: a re-applied scene replaces the current one and the selection is cleared. */
    method Redo()
      requires Valid()
      modifies this`shapes, this`editShapes, this`selectedIds, history
      ensures Valid()
      ensures var step := RedoStep(old(history.State()));
        && history.State() == step.after
        && (step.result.Some? ==> shapes == step.result.value && selectedIds == [] && editShapes == [])
        && (step.result.None? ==> shapes == old(shapes) && selectedIds == old(selectedIds) && editShapes == old(editShapes))
    {
      StepsKeepScenesWellTyped(history.State());
      var r := history.Redo();
      if r.Some? {
        ClearSelection();
        Replace(r.value);
        NothingSelected(r.value);
      }
    }
  }
}
