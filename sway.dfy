/** The parts of the sway IPC vocabulary that the autotiler reads: the window
    tree, the workspace list, and the tree search the client library offers.
    Everything here is an immutable snapshot; each event re-queries it. */
module Sway {

  datatype Option<+T> = None | Some(value: T)

  /** The answer to one IPC query: the decoded value, or a transport failure. */
  datatype Reply<+T> = Reply(value: T) | IpcError

  datatype Rect = Rect(width: int, height: int)

  datatype NodeType = Root | Output | Workspace | Con | FloatingCon | Dockarea

  datatype NodeLayout = SplitH | SplitV | Stacked | Tabbed | OutputLayout | DockareaLayout | NoLayout

  /** A node of the window tree. `percent` is the share of the parent's space;
      sway reports a value above 1.0 for a fullscreen node and may omit it. */
  datatype Node = Node(
    focused: bool,
    nodeType: NodeType,
    layout: NodeLayout,
    percent: Option<real>,
    rect: Rect,
    nodes: seq<Node>)

  datatype Workspace = Workspace(num: int, focused: bool)

  /** `n` is `t` or lies somewhere below it. */
  ghost predicate Contains(t: Node, n: Node)
    decreases t
  {
    t == n || exists i :: 0 <= i < |t.nodes| && Contains(t.nodes[i], n)
  }

  /** The library's search for a node satisfying `p`. Which node it picks when
      several match is the library's business; callers may rely only on what
      the contract says: a root that matches is returned, and whatever is
      returned matches and belongs to the tree. */
  function Find(t: Node, p: Node -> bool): (r: Option<Node>)
    ensures r.Some? ==> p(r.value) && Contains(t, r.value)
    ensures p(t) ==> r == Some(t)
    decreases t
  {
    if p(t) then Some(t) else FindIn(t.nodes, p)
  }

  function FindIn(ns: seq<Node>, p: Node -> bool): (r: Option<Node>)
    ensures r.Some? ==> p(r.value) && exists i :: 0 <= i < |ns| && Contains(ns[i], r.value)
    decreases ns
  {
    if ns == [] then None
    else
      match Find(ns[0], p)
      case Some(n) => Some(n)
      case None =>
        var r := FindIn(ns[1..], p);
        assert forall i :: 0 <= i < |ns[1..]| ==> ns[1..][i] == ns[i + 1];
        r
  }
}
