/**
 * `HumanAnatomyViewer/window/UndoRedoManager`: two stacks of commands and a
 * flag that is set while a command's undo or redo code runs, so that an
 * `add` made from inside that code is ignored.
 *
 * The stacks are sequences with the top last. Every command on the undo
 * stack can be undone and every command on the redo stack can be redone:
 * a command is pushed only after that check, so `undo` and `redo` never
 * reach a null code block; `add` runs the new command's redo code without
 * the check, after it has updated the stacks.
 */
module UndoRedo {
  import opened Wrappers
  import opened Commands

  /** The two stacks, tops last. */
  datatype History = History(undo: seq<Command>, redo: seq<Command>)

  function Top(s: seq<Command>): Command
    requires s != []
  {
    s[|s| - 1]
  }

  function Pop(s: seq<Command>): seq<Command>
    requires s != []
  {
    s[..|s| - 1]
  }

  /** Undo entries can be undone, redo entries can be redone. */
  predicate Valid(h: History)
  {
    && (forall i :: 0 <= i < |h.undo| ==> h.undo[i].CanUndo())
    && (forall i :: 0 <= i < |h.redo| ==> h.redo[i].CanRedo())
  }

  /** `add(c)` outside undo and redo. */
  function Added(h: History, c: Command): History
  {
    History(if c.CanUndo() then h.undo + [c] else [], [])
  }

  /** `undo()`. */
  function Undone(h: History): History
  {
    if h.undo == [] then h
    else
      var c := Top(h.undo);
      History(Pop(h.undo), if c.CanRedo() then h.redo + [c] else [])
  }

  /** `redo()`. */
  function Redone(h: History): History
  {
    if h.redo == [] then h
    else
      var c := Top(h.redo);
      History(if c.CanUndo() then h.undo + [c] else [], Pop(h.redo))
  }

  /** The code `undo()` runs, if any. */
  function UndoAction(h: History): Option<Action>
  {
    if h.undo == [] then None else Top(h.undo).undoRunnable
  }

  /** The code `redo()` runs, if any. */
  function RedoAction(h: History): Option<Action>
  {
    if h.redo == [] then None else Top(h.redo).redoRunnable
  }

  /** The actions a run of code adds to the record: none when the code is null. */
  function Ran(r: Result<Action, Fault>): seq<Action>
  {
    if r.Ok? then [r.value] else []
  }

  /** `add` keeps the stacks valid, and a new command always empties the redo stack. */
  lemma AddedValid(h: History, c: Command)
    requires Valid(h)
    ensures Valid(Added(h, c))
    ensures Added(h, c).redo == []
    ensures c.CanUndo() ==> |Added(h, c).undo| == |h.undo| + 1 && Top(Added(h, c).undo) == c
    ensures !c.CanUndo() ==> Added(h, c).undo == []
  {
  }

  /** `undo` and `redo` keep the stacks valid. */
  lemma UndoneRedoneValid(h: History)
    requires Valid(h)
    ensures Valid(Undone(h)) && Valid(Redone(h))
  {
    if h.undo != [] {
      var u := Undone(h);
      assert forall i :: 0 <= i < |u.undo| ==> u.undo[i] == h.undo[i];
    }
    if h.redo != [] {
      var r := Redone(h);
      assert forall i :: 0 <= i < |r.redo| ==> r.redo[i] == h.redo[i];
    }
  }

  /**
   * Undoing a redoable command and then redoing it restores both stacks;
   * the runs are the command's undo code and then its redo code.
   */
  lemma RedoAfterUndo(h: History)
    requires Valid(h) && h.undo != [] && Top(h.undo).CanRedo()
    ensures Redone(Undone(h)) == h
    ensures UndoAction(h) == Top(h.undo).undoRunnable && RedoAction(Undone(h)) == Top(h.undo).redoRunnable
  {
    assert Pop(h.undo) + [Top(h.undo)] == h.undo;
    assert Pop(Undone(h).redo) == h.redo;
  }

  /** Redoing an undoable command and then undoing it restores both stacks. */
  lemma UndoAfterRedo(h: History)
    requires Valid(h) && h.redo != [] && Top(h.redo).CanUndo()
    ensures Undone(Redone(h)) == h
    ensures RedoAction(h) == Top(h.redo).redoRunnable && UndoAction(Redone(h)) == Top(h.redo).undoRunnable
  {
    assert Pop(h.redo) + [Top(h.redo)] == h.redo;
    assert Pop(Redone(h).undo) == h.undo;
  }

  /** Last in, first out: the `undo` after `add(c)` acts on `c`, and leaves the undo stack as it was before. */
  lemma UndoAfterAdd(h: History, c: Command)
    requires c.CanUndo()
    ensures UndoAction(Added(h, c)) == c.undoRunnable
    ensures Undone(Added(h, c)) == History(h.undo, if c.CanRedo() then [c] else [])
  {
    assert Pop(h.undo + [c]) == h.undo;
  }

  class UndoRedoManager {
    var undoStack: seq<Command>
    var redoStack: seq<Command>
    var inUndoRedo: bool
    /** The actions the commands' code has performed, in order. */
    var ran: seq<Action>

    function State(): History
      reads this
    {
      History(undoStack, redoStack)
    }

    constructor()
      ensures State() == History([], []) && !inUndoRedo && ran == []
    {
      undoStack := [];
      redoStack := [];
      inUndoRedo := false;
      ran := [];
    }

    /** `canUndo`: the undo stack is not empty, which is exactly when `undo` changes something. */
    function CanUndo(): (b: bool)
      reads this
      ensures b <==> Undone(State()) != State()
    {
      undoStack != []
    }

    /** `canRedo`: the redo stack is not empty, which is exactly when `redo` changes something. */
    function CanRedo(): (b: bool)
      reads this
      ensures b <==> Redone(State()) != State()
    {
      redoStack != []
    }

    /**
     * `add`: ignored while undo or redo code runs; otherwise the stacks are
     * updated and then the command's redo code runs, failing when it is null.
     */
    method Add(c: Command) returns (r: Result<(), Fault>)
      requires Valid(State())
      modifies this
      ensures Valid(State())
      ensures old(inUndoRedo) ==> unchanged(this) && r == Ok(())
      ensures !old(inUndoRedo) ==>
        && State() == Added(old(State()), c)
        && !inUndoRedo
        && ran == old(ran) + Ran(c.Redo())
        && (r.Err? <==> !c.CanRedo())
    {
      AddedValid(State(), c);
      if inUndoRedo {
        return Ok(());
      }
      if c.CanUndo() {
        undoStack := undoStack + [c];
      } else {
        undoStack := [];
      }
      redoStack := [];
      var run := c.Redo();
      if run.Err? {
        return Err(run.error);
      }
      ran := ran + [run.value];
      return Ok(());
    }

    /** `undo`: pops the top command, runs its undo code, and moves it to the redo stack if it can be redone. */
    method Undo()
      requires Valid(State())
      modifies this
      ensures Valid(State())
      ensures State() == Undone(old(State()))
      ensures old(undoStack) == [] ==> unchanged(this)
      ensures old(undoStack) != [] ==> !inUndoRedo
      ensures ran == old(ran) + (if old(undoStack) == [] then [] else [UndoAction(old(State())).value])
    {
      UndoneRedoneValid(State());
      if undoStack == [] {
        return;
      }
      inUndoRedo := true;
      var cmd := Top(undoStack);
      undoStack := Pop(undoStack);
      var run := cmd.Undo();
      ran := ran + [run.value];
      if cmd.CanRedo() {
        redoStack := redoStack + [cmd];
      } else {
        redoStack := [];
      }
      inUndoRedo := false;
    }

    /** `redo`: pops the top command, runs its redo code, and moves it to the undo stack if it can be undone. */
    method Redo()
      requires Valid(State())
      modifies this
      ensures Valid(State())
      ensures State() == Redone(old(State()))
      ensures old(redoStack) == [] ==> unchanged(this)
      ensures old(redoStack) != [] ==> !inUndoRedo
      ensures ran == old(ran) + (if old(redoStack) == [] then [] else [RedoAction(old(State())).value])
    {
      UndoneRedoneValid(State());
      if redoStack == [] {
        return;
      }
      inUndoRedo := true;
      var cmd := Top(redoStack);
      redoStack := Pop(redoStack);
      var run := cmd.Redo();
      ran := ran + [run.value];
      if cmd.CanUndo() {
        undoStack := undoStack + [cmd];
      } else {
        undoStack := [];
      }
      inUndoRedo := false;
    }
  }
}
