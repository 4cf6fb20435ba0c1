/**
 * The undo/redo history of src/app/hooks/useHistory.ts: an undo stack whose
 * top is the current state (never emptied below the initial entry), a redo
 * stack that a new state clears, and a cap of 50 entries on the undo stack.
 */
module History {
  import opened Wrappers

  const MaxHistory: nat := 50

  /** The two stacks; the last element of each sequence is its top. */
  datatype Stacks<T> = Stacks(undo: seq<T>, redo: seq<T>)

  /** What `undo` or `redo` hands back (`null` is `None`) and the stacks afterwards. */
  datatype StepResult<T> = StepResult(result: Option<T>, after: Stacks<T>)

  /** The stacks every sequence of operations keeps: the current state is present and both stacks together hold at most 50 entries. */
  predicate ValidStacks<T>(h: Stacks<T>) {
    1 <= |h.undo| && |h.undo| + |h.redo| <= MaxHistory
  }

  function Top<T>(s: seq<T>): T
    requires |s| > 0
  {
    s[|s| - 1]
  }

  /** The hook's starting stacks: the initial state alone. */
  function Init<T>(initial: T): (r: Stacks<T>)
    ensures ValidStacks(r) && Top(r.undo) == initial && |r.undo| == 1 && r.redo == []
  {
    Stacks([initial], [])
  }

  /**
   * `addState`: the state becomes the top; when that makes 51 entries the
   * oldest is dropped; the redo stack is cleared.
   */
  function AddStep<T>(h: Stacks<T>, s: T): (r: Stacks<T>)
    ensures |r.undo| == if |h.undo| + 1 > MaxHistory then |h.undo| else |h.undo| + 1
    ensures r.undo == (h.undo + [s])[|h.undo| + 1 - |r.undo|..]
    ensures Top(r.undo) == s && r.redo == []
  {
    var pushed := h.undo + [s];
    Stacks(if |pushed| > MaxHistory then pushed[1..] else pushed, [])
  }

  /**
   * `undo`: refused (nothing changes, `null`) while only the current state is
   * left; otherwise the top moves onto the redo stack and the entry below it,
   * the state to restore, is returned.
   */
  function UndoStep<T>(h: Stacks<T>): (r: StepResult<T>)
    ensures |h.undo| <= 1 ==> r == StepResult(None, h)
    ensures |h.undo| > 1 ==>
      r.result == Some(h.undo[|h.undo| - 2]) &&
      r.after.undo == h.undo[..|h.undo| - 1] && r.after.redo == h.redo + [Top(h.undo)]
  {
    if |h.undo| <= 1 then StepResult(None, h)
    else
      var popped := Top(h.undo);
      var undo := h.undo[..|h.undo| - 1];
      StepResult(Some(Top(undo)), Stacks(undo, h.redo + [popped]))
  }

  /**
   * `redo`: refused while the redo stack is empty; otherwise its top moves
   * back onto the undo stack and is returned.
   */
  function RedoStep<T>(h: Stacks<T>): (r: StepResult<T>)
    ensures |h.redo| == 0 ==> r == StepResult(None, h)
    ensures |h.redo| > 0 ==>
      r.result == Some(Top(h.redo)) &&
      r.after.undo == h.undo + [Top(h.redo)] && r.after.redo == h.redo[..|h.redo| - 1]
  {
    if |h.redo| == 0 then StepResult(None, h)
    else
      var next := Top(h.redo);
      StepResult(Some(next), Stacks(h.undo + [next], h.redo[..|h.redo| - 1]))
  }

  /** Undo followed by redo restores the stacks exactly and hands back the state that was current. */
  lemma UndoThenRedo<T>(h: Stacks<T>)
    requires |h.undo| > 1
    ensures RedoStep(UndoStep(h).after) == StepResult(Some(Top(h.undo)), h)
  {
    assert UndoStep(h).after.undo + [Top(h.undo)] == h.undo;
    assert (h.redo + [Top(h.undo)])[..|h.redo|] == h.redo;
  }

  /** Redo followed by undo restores the stacks exactly and hands back the state that was current. */
  lemma RedoThenUndo<T>(h: Stacks<T>)
    requires |h.undo| >= 1 && |h.redo| > 0
    ensures UndoStep(RedoStep(h).after) == StepResult(Some(Top(h.undo)), h)
  {
    var a := RedoStep(h).after;
    assert a.undo[..|a.undo| - 1] == h.undo;
    assert a.redo + [Top(h.redo)] == h.redo;
  }

  /** After a new state, undo hands back the state that was current before it. */
  lemma UndoAfterAdd<T>(h: Stacks<T>, s: T)
    requires ValidStacks(h)
    ensures UndoStep(AddStep(h, s)).result == Some(Top(h.undo))
  {
    var a := AddStep(h, s);
    assert |a.undo| >= 2;
    assert a.undo[|a.undo| - 2] == (h.undo + [s])[|h.undo| - 1];
  }

  /** Adding to a full undo stack evicts exactly its oldest entry. */
  lemma AddEvictsOldest<T>(h: Stacks<T>, s: T)
    requires |h.undo| == MaxHistory
    ensures AddStep(h, s).undo == h.undo[1..] + [s]
  {
  }

  /** The operations a user can perform on the history. */
  datatype Op<T> = Add(state: T) | Undo | Redo

  /** The stacks after a sequence of operations, the results of undo and redo discarded. */
  function Run<T>(h: Stacks<T>, ops: seq<Op<T>>): Stacks<T>
    decreases |ops|
  {
    if ops == [] then h
    else
      var next := match ops[0]
        case Add(s) => AddStep(h, s)
        case Undo => UndoStep(h).after
        case Redo => RedoStep(h).after;
      Run(next, ops[1..])
  }

  /** Every operation keeps the stacks valid. */
  lemma StepKeepsValid<T>(h: Stacks<T>, op: Op<T>)
    requires ValidStacks(h)
    ensures op.Add? ==> ValidStacks(AddStep(h, op.state))
    ensures op.Undo? ==> ValidStacks(UndoStep(h).after)
    ensures op.Redo? ==> ValidStacks(RedoStep(h).after)
  {
  }

  /** From the initial stacks, any sequence of operations leaves the current state in place and at most 50 entries in all. */
  lemma {:induction false} RunKeepsValid<T>(h: Stacks<T>, ops: seq<Op<T>>)
    requires ValidStacks(h)
    ensures ValidStacks(Run(h, ops))
    decreases |ops|
  {
    if ops != [] {
      StepKeepsValid(h, ops[0]);
      var next := match ops[0]
        case Add(s) => AddStep(h, s)
        case Undo => UndoStep(h).after
        case Redo => RedoStep(h).after;
      RunKeepsValid(next, ops[1..]);
    }
  }

  /**
   * The hook's mutable state: the two stacks (React refs) and the
   * `canUndo`/`canRedo` flags the toolbar reads.
   */
  class History<T> {
    var undoStack: seq<T>
    var redoStack: seq<T>
    var canUndo: bool
    var canRedo: bool

    predicate Valid()
      reads this
    {
      ValidStacks(State()) && canUndo == (|undoStack| > 1) && canRedo == (|redoStack| > 0)
    }

    function State(): Stacks<T>
      reads this
    {
      Stacks(undoStack, redoStack)
    }

    constructor (initial: T)
      ensures Valid() && State() == Init(initial)
      ensures !canUndo && !canRedo
    {
      undoStack := [initial];
      redoStack := [];
      canUndo := false;
      canRedo := false;
    }

    method AddState(s: T)
      requires Valid()
      modifies this
      ensures Valid() && State() == AddStep(old(State()), s)
    {
      undoStack := undoStack + [s];
      if |undoStack| > MaxHistory {
        undoStack := undoStack[1..];
      }
      canUndo := |undoStack| > 1;
      redoStack := [];
      canRedo := false;
    }

    method Undo() returns (r: Option<T>)
      requires Valid()
      modifies this
      ensures Valid()
      ensures r == UndoStep(old(State())).result && State() == UndoStep(old(State())).after
    {
      if |undoStack| <= 1 {
        return None;
      }
      var prev := undoStack[|undoStack| - 1];
      undoStack := undoStack[..|undoStack| - 1];
      redoStack := redoStack + [prev];
      canUndo := |undoStack| > 1;
      canRedo := true;
      r := Some(undoStack[|undoStack| - 1]);
    }

    method Redo() returns (r: Option<T>)
      requires Valid()
      modifies this
      ensures Valid()
      ensures r == RedoStep(old(State())).result && State() == RedoStep(old(State())).after
    {
      if |redoStack| == 0 {
        return None;
      }
      var next := redoStack[|redoStack| - 1];
      redoStack := redoStack[..|redoStack| - 1];
      undoStack := undoStack + [next];
      canRedo := |redoStack| > 0;
      canUndo := |undoStack| > 1;
      r := Some(next);
    }
  }
}
