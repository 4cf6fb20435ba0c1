/**
 * Two handlers of src/app/components/Canvas.tsx read the scene through a
 * closure captured at an earlier render. Each is modelled here twice: as
 * written, with the input that shows the discrepancy, and as evidently
 * intended; the editor model uses the intended form.
 */
module StaleCaptures {
  import opened Wrappers
  import opened Shapes
  import opened SceneEdits
  import opened History

  // ---------------------------------------------------------------- debounced save

  /**
   * The debounced save as written: the timer pushes the scene of the render
   * the handler belongs to, i.e. the scene from before the edit.
   */
  function RecordEditAsWritten<T>(h: Stacks<T>, before: T, after: T): (r: Stacks<T>)
    ensures |r.undo| > 0 && Top(r.undo) == before && r.redo == []
  {
    AddStep(h, before)
  }

  /** The save as intended (and as the drop handler does it): the edited scene is pushed. */
  function RecordEdit<T>(h: Stacks<T>, before: T, after: T): (r: Stacks<T>)
    ensures |r.undo| > 0 && Top(r.undo) == after && r.redo == []
  {
    AddStep(h, after)
  }

  /** As written, undoing an edit and redoing it yields the pre-edit scene: the edit cannot be redone. */
  lemma RedoAfterEditAsWritten<T>(h: Stacks<T>, before: T, after: T)
    requires ValidStacks(h)
    ensures UndoStep(RecordEditAsWritten(h, before, after)).result == Some(Top(h.undo))
    ensures RedoStep(UndoStep(RecordEditAsWritten(h, before, after)).after).result == Some(before)
  {
    UndoAfterAdd(h, before);
    UndoThenRedo(AddStep(h, before));
  }

  /**
   * As intended, undoing an edit goes back to the state current before it
   * was recorded, and redoing it restores the edited scene and the stacks.
   */
  lemma RedoAfterEdit<T>(h: Stacks<T>, before: T, after: T)
    requires ValidStacks(h)
    ensures UndoStep(RecordEdit(h, before, after)).result == Some(Top(h.undo))
    ensures RedoStep(UndoStep(RecordEdit(h, before, after)).after) == StepResult(Some(after), RecordEdit(h, before, after))
  {
    UndoAfterAdd(h, after);
    UndoThenRedo(AddStep(h, after));
  }

  // ---------------------------------------------------------------- Delete key

  /**
   * The Delete key as written: the listener is re-registered only when the
   * selection changes, so it filters `captured`, the scene at the last
   * selection change, and that result replaces the current scene.
   */
  function DeleteKeyAsWritten(captured: seq<Shape>, sel: seq<string>): (r: seq<Shape>)
    ensures forall s :: s in r ==> s in captured
  {
    RemoveSelected(captured, sel)
  }

  /**
   * A shape dropped after the selection was made (and so absent from the
   * captured scene) disappears when Delete is pressed, although it is not
   * selected; filtering the current scene keeps it.
   */
  lemma DeleteKeyDropsNewShapes(captured: seq<Shape>, sel: seq<string>, dropped: Shape)
    requires dropped !in captured && dropped.id !in sel
    ensures dropped !in DeleteKeyAsWritten(captured, sel)
    ensures dropped in RemoveSelected(captured + [dropped], sel)
  {
    assert dropped in captured + [dropped];
  }
}
