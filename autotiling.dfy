/** The split-orientation decision taken on every focus change: whether to
    act at all, and if so which split command to send for the focused
    window's parent container. */
module Autotiling {
  import opened Sway

  /** Why a decision could not be taken. The two query failures carry the
      context the daemon attaches to the IPC error. */
  datatype Error = WorkspacesQueryFailed | TreeQueryFailed | FocusedNotFound | NoParent

  /** The text the daemon attaches to each error. */
  function Message(e: Error): string
  {
    match e
    case WorkspacesQueryFailed => "get_workspaces() failed"
    case TreeQueryFailed => "get_tree() failed"
    case FocusedNotFound => "Could not find the focused node"
    case NoParent => "No parent"
  }

  /** Result of one decision: leave the layout alone, send one command, or fail. */
  datatype Outcome = Skip | Run(command: string) | Fail(error: Error)

  /** The number of the first workspace flagged as focused, if any. */
  function FocusedWorkspaceNum(ws: seq<Workspace>): (r: Option<int>)
    ensures r.None? <==> forall i :: 0 <= i < |ws| ==> !ws[i].focused
    ensures r.Some? ==> exists i :: 0 <= i < |ws| && ws[i].focused && ws[i].num == r.value &&
                                    forall j :: 0 <= j < i ==> !ws[j].focused
  {
    if ws == [] then None
    else if ws[0].focused then Some(ws[0].num)
    else
      var r := FocusedWorkspaceNum(ws[1..]);
      assert forall i :: 0 <= i < |ws[1..]| ==> ws[1..][i] == ws[i + 1];
      r
  }

  /** The allow-list gate: an empty list admits every workspace without
      asking for the workspace list at all. */
  predicate GatePasses(allow: set<int>, ws: Reply<seq<Workspace>>)
  {
    allow == {} ||
    (ws.Reply? && FocusedWorkspaceNum(ws.value).Some? && FocusedWorkspaceNum(ws.value).value in allow)
  }

  predicate IsFocused(n: Node)
  {
    n.focused
  }

  /** The parent predicate handed to the search: some direct child is focused. */
  predicate HasFocusedChild(n: Node)
  {
    exists i :: 0 <= i < |n.nodes| && n.nodes[i].focused
  }

  /** A missing percent counts as 1.0, which is not fullscreen. */
  predicate IsFullscreen(n: Node)
  {
    (match n.percent case Some(x) => x case None => 1.0) > 1.0
  }

  /** Floating, fullscreen, stacked and tabbed windows are never re-split. */
  predicate Eligible(n: Node)
  {
    !(n.nodeType == FloatingCon || IsFullscreen(n) || n.layout == Stacked || n.layout == Tabbed)
  }

  /** The layout that keeps the parent's children close to square. */
  function SplitFor(r: Rect): (l: NodeLayout)
    ensures l == SplitV <==> r.height > r.width
    ensures l == SplitH <==> r.height <= r.width
  {
    if r.height > r.width then SplitV else SplitH
  }

  function CommandFor(l: NodeLayout): string
  {
    match l
    case SplitV => "splitv"
    case SplitH => "splith"
    case _ => "nop"
  }

  /** The layout a command sets, the inverse of CommandFor on the split layouts. */
  function LayoutOf(command: string): NodeLayout
  {
    if command == "splitv" then SplitV
    else if command == "splith" then SplitH
    else NoLayout
  }

  /** The whole decision, checks in the daemon's order: allow-list gate,
      focused node, eligibility, parent, orientation, redundancy guard. */
  function Decide(allow: set<int>, ws: Reply<seq<Workspace>>, tree: Reply<Node>): (r: Outcome)
    ensures r.Run? ==> r.command == "splitv" || r.command == "splith"
    ensures r.Run? ==> GatePasses(allow, ws) && tree.Reply?
    ensures allow != {} && ws.IpcError? ==> r == Fail(WorkspacesQueryFailed)
  {
    if allow != {} && ws.IpcError? then Fail(WorkspacesQueryFailed)
    else if !GatePasses(allow, ws) then Skip
    else if tree.IpcError? then Fail(TreeQueryFailed)
    else
      var root := tree.value;
      match Find(root, IsFocused)
      case None => Fail(FocusedNotFound)
      case Some(focused) =>
        if !Eligible(focused) then Skip
        else
          match Find(root, HasFocusedChild)
          case None => Fail(NoParent)
          case Some(parent) =>
            var newLayout := SplitFor(parent.rect);
            if newLayout == parent.layout then Skip
            else Run(CommandFor(newLayout))
  }

  // ---------------------------------------------------------------------
  // The workspace gate

  /** With a non-empty allow-list, a focused workspace outside it, or no
      focused workspace at all, means no command and no error, whatever the tree. */
  lemma GateClosedSkips(allow: set<int>, list: seq<Workspace>, tree: Reply<Node>)
    requires allow != {}
    requires (forall i :: 0 <= i < |list| ==> !list[i].focused) ||
             (exists i :: 0 <= i < |list| && list[i].focused && list[i].num !in allow &&
                          forall j :: 0 <= j < i ==> !list[j].focused)
    ensures Decide(allow, Reply(list), tree) == Skip
  {
  }

  /** An empty allow-list skips the gate: the workspace reply, even a failed
      one, has no influence on the decision. */
  lemma EmptyAllowListIgnoresWorkspaces(ws1: Reply<seq<Workspace>>, ws2: Reply<seq<Workspace>>, tree: Reply<Node>)
    ensures Decide({}, ws1, tree) == Decide({}, ws2, tree)
  {
  }

  /** Once the gate lets the event through, the rest of the decision is the
      same as with no allow-list at all. */
  lemma OpenGateDefersToTree(allow: set<int>, ws: Reply<seq<Workspace>>, tree: Reply<Node>)
    requires GatePasses(allow, ws)
    ensures Decide(allow, ws, tree) == Decide({}, IpcError, tree)
  {
  }

  // ---------------------------------------------------------------------
  // Focused node, eligibility, parent

  lemma TreeQueryFailureFails(allow: set<int>, ws: Reply<seq<Workspace>>)
    requires GatePasses(allow, ws)
    ensures Decide(allow, ws, IpcError) == Fail(TreeQueryFailed)
    ensures Message(Decide(allow, ws, IpcError).error) == "get_tree() failed"
  {
  }

  lemma MissingFocusFails(allow: set<int>, ws: Reply<seq<Workspace>>, root: Node)
    requires GatePasses(allow, ws)
    requires Find(root, IsFocused).None?
    ensures Decide(allow, ws, Reply(root)) == Fail(FocusedNotFound)
    ensures Message(Decide(allow, ws, Reply(root)).error) == "Could not find the focused node"
  {
  }

  /** A floating, stacked, tabbed or fullscreen focused node yields no command
      and no error; the parent is not even looked for, so a missing parent
      does not turn this into an error. */
  lemma IneligibleFocusSkips(allow: set<int>, ws: Reply<seq<Workspace>>, root: Node, f: Node)
    requires GatePasses(allow, ws)
    requires Find(root, IsFocused) == Some(f)
    requires f.nodeType == FloatingCon || f.layout == Stacked || f.layout == Tabbed ||
             (f.percent.Some? && f.percent.value > 1.0)
    ensures Decide(allow, ws, Reply(root)) == Skip
  {
  }

  /** With no parent to be found, the outcome tells eligibility apart: an
      eligible focused node reports the missing parent, an ineligible one is
      skipped. A node without a percent counts as not fullscreen. */
  lemma NoParentOnlyForEligible(allow: set<int>, ws: Reply<seq<Workspace>>, root: Node, f: Node)
    requires GatePasses(allow, ws)
    requires Find(root, IsFocused) == Some(f)
    requires Find(root, HasFocusedChild).None?
    ensures Decide(allow, ws, Reply(root)) == Fail(NoParent) <==>
              f.nodeType != FloatingCon && f.layout != Stacked && f.layout != Tabbed &&
              (f.percent.None? || f.percent.value <= 1.0)
    ensures Decide(allow, ws, Reply(root)) == Fail(NoParent) || Decide(allow, ws, Reply(root)) == Skip
    ensures Decide(allow, ws, Reply(root)).Fail? ==> Message(Decide(allow, ws, Reply(root)).error) == "No parent"
  {
  }

  // ---------------------------------------------------------------------
  // Orientation and the redundancy guard

  /** Once an eligible focused node and its parent are found, a command is
      sent exactly when the parent is not already in the layout its shape
      asks for: split vertically when strictly taller than wide, otherwise
      horizontally. */
  lemma OrientationDecides(allow: set<int>, ws: Reply<seq<Workspace>>, root: Node, f: Node, parent: Node)
    requires GatePasses(allow, ws)
    requires Find(root, IsFocused) == Some(f) && Eligible(f)
    requires Find(root, HasFocusedChild) == Some(parent)
    ensures parent.rect.height > parent.rect.width ==>
              Decide(allow, ws, Reply(root)) == (if parent.layout == SplitV then Skip else Run("splitv"))
    ensures parent.rect.height <= parent.rect.width ==>
              Decide(allow, ws, Reply(root)) == (if parent.layout == SplitH then Skip else Run("splith"))
  {
  }

  /** Whatever command is sent is the split the parent's shape asks for, the
      parent has a focused child and belongs to the tree, and the focused node
      it was chosen for is eligible. */
  lemma CommandMatchesParent(allow: set<int>, ws: Reply<seq<Workspace>>, root: Node, c: string)
    requires Decide(allow, ws, Reply(root)) == Run(c)
    ensures Find(root, IsFocused).Some? && Eligible(Find(root, IsFocused).value)
    ensures Find(root, HasFocusedChild).Some?
    ensures var p := Find(root, HasFocusedChild).value;
            Contains(root, p) && HasFocusedChild(p) &&
            (c == "splitv" <==> p.rect.height > p.rect.width) &&
            (c == "splith" <==> p.rect.height <= p.rect.width) &&
            p.layout != LayoutOf(c)
  {
  }

  /** The command names and the layouts they set are inverse on the two splits. */
  lemma CommandRoundTrip(l: NodeLayout)
    requires l == SplitV || l == SplitH
    ensures LayoutOf(CommandFor(l)) == l
    ensures CommandFor(l) != "nop"
  {
  }
}
