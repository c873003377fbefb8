/** The slice of the Bubble Tea runtime that the four screens touch.

    The runtime runs commands concurrently and feeds their results back as
    messages; here a command is only a tag saying what was asked for. */
module Tea {

  /** What an Update asks the runtime to do next.
      - NoCmd: nothing (Go's nil command)
      - Quit: stop the program (tea.Quit)
      - Fetch: load the note list (list.go's fetchItems)
      - Delegated: a command produced inside a bubbles widget, opaque here */
  datatype Cmd = NoCmd | Quit | Fetch | Delegated(tag: nat)

  /** The (model, command) pair every Update returns. */
  datatype Step<M> = Step(model: M, cmd: Cmd)
}
