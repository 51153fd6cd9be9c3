/**
 * `HumanAnatomyViewer/window/SimpleCommand`, the one implementation of the
 * `Command` interface: a name and two code blocks, either of which may be
 * null. Running a code block is modelled as the `Action` it performs; a
 * null block fails with a `NullPointerException`.
 */
module Commands {
  import opened Wrappers

  /** What running a stored code block does, by an opaque label. */
  datatype Action = Action(tag: nat)

  /** Running a null code block. */
  datatype Fault = NullPointer

  /** The three final fields; `None` stands for a null runnable. */
  datatype Command = Command(name: string, undoRunnable: Option<Action>, redoRunnable: Option<Action>)
  {
    /** `canUndo`: undo code was supplied. */
    predicate CanUndo() { undoRunnable.Some? }

    /** `canRedo`: redo code was supplied. */
    predicate CanRedo() { redoRunnable.Some? }

    /** `undo()`: runs exactly the undo code, which must not be null. */
    function Undo(): (r: Result<Action, Fault>)
      ensures r.Ok? <==> CanUndo()
      ensures r.Ok? ==> Some(r.value) == undoRunnable
    {
      if undoRunnable.Some? then Ok(undoRunnable.value) else Err(NullPointer)
    }

    /** `redo()`: runs exactly the redo code, which must not be null. */
    function Redo(): (r: Result<Action, Fault>)
      ensures r.Ok? <==> CanRedo()
      ensures r.Ok? ==> Some(r.value) == redoRunnable
    {
      if redoRunnable.Some? then Ok(redoRunnable.value) else Err(NullPointer)
    }
  }
}
