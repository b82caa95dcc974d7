/** Concrete situations: a workspace holding one container with one focused window. */
module Scenarios {
  import opened Sway
  import opened Autotiling

  function Window(focused: bool, percent: Option<real>): Node
  {
    Node(focused, Con, NoLayout, percent, Rect(800, 600), [])
  }

  /** A workspace whose only child is a parent container holding `child`. */
  function Desktop(width: int, height: int, layout: NodeLayout, child: Node): Node
  {
    Node(false, NodeType.Workspace, SplitH, Some(1.0), Rect(1920, 1080),
         [Node(false, Con, layout, Some(1.0), Rect(width, height), [child])])
  }

  /** A wide parent is split horizontally: already SplitH means nothing to do,
      SplitV is switched with "splith". */
  lemma WideParent()
    ensures Decide({}, IpcError, Reply(Desktop(1920, 1080, SplitH, Window(true, Some(0.5))))) == Skip
    ensures Decide({}, IpcError, Reply(Desktop(1920, 1080, SplitV, Window(true, Some(0.5))))) == Run("splith")
  {
  }

  /** A tall parent already in SplitV needs nothing; a square one gets "splith". */
  lemma TallAndSquareParents()
    ensures Decide({}, IpcError, Reply(Desktop(1080, 1920, SplitV, Window(true, None)))) == Skip
    ensures Decide({}, IpcError, Reply(Desktop(1000, 1000, SplitV, Window(true, None)))) == Run("splith")
  {
  }

  /** Allow-list {2, 4} with workspace 3 focused: no command, however the tree looks. */
  lemma WorkspaceOutsideAllowList(tree: Reply<Node>)
    ensures Decide({2, 4}, Reply([Workspace.Workspace(2, false), Workspace.Workspace(3, true)]), tree) == Skip
  {
  }

  /** A fullscreen window (percent 1.5) is never split. */
  lemma FullscreenNeverSplit()
    ensures Decide({}, IpcError, Reply(Desktop(1080, 1920, SplitH, Window(true, Some(1.5))))) == Skip
  {
  }

  /** The stacked and tabbed test is on the focused window's own layout, not
      on its container's: a window in a wide tabbed container is split. */
  lemma TabbedContainerStillSplit()
    ensures Decide({}, IpcError, Reply(Desktop(1920, 1080, Tabbed, Window(true, Some(0.5))))) == Run("splith")
  {
  }
}
