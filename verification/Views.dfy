/** A top-level window as the event handlers see it. */
module Views {
  import opened Lists

  /** The flags of one window; `enabled` is the enabled bit of its scene node. */
  datatype Window = Window(mapped: bool, minimized: bool, pinned: bool, urgent: bool,
                           workspace: int, enabled: bool)

  /** A freshly created window: not mapped, its scene node enabled by default. */
  const NEW_WINDOW := Window(false, false, false, false, 0, true)

  class View {
    var mapped: bool
    var minimized: bool
    var pinned: bool
    var urgent: bool
    var workspace: int
    var enabled: bool
    var app: Option<string>   // set by the client

    constructor ()
      ensures Flags() == NEW_WINDOW
    {
      mapped, minimized, pinned, urgent := false, false, false, false;
      workspace := 0;
      enabled := true;
      app := None;
    }

    function Flags(): Window
      reads this
    {
      Window(mapped, minimized, pinned, urgent, workspace, enabled)
    }
  }
}
