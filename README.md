# autotiling-rs, modelled in Dafny

autotiling-rs is a daemon for the sway window manager. It listens for
window events. On every focus change it looks at the container holding the
focused window (the parent) and sends `splitv` when that parent is strictly
taller than wide, otherwise `splith`. Sway then places the next window along
the parent's longer side. A focused node that is floating or fullscreen, or
whose own layout is stacked or tabbed, is left alone. An optional allow-list of workspace numbers restricts
the daemon to those workspaces. A command is only sent when the parent is not
already in the chosen layout.

The model covers the decision (`switch_splitting`) and the focus-event loop
in `main`:

- `sway.dfy` (module `Sway`): the window tree (`Node`, `Rect`, `NodeType`,
  `NodeLayout`) and workspaces as immutable values. `Reply<T>` is the answer
  to one IPC query: a value, or a transport failure. `Find` stands for the
  client library's tree search. Its contract promises only what callers may
  rely on: a matching root is returned, and any node returned matches the
  predicate and lies in the tree.
- `autotiling.dfy` (module `Autotiling`): `Decide` is the decision as a total
  function of the allow-list, the workspace reply and the tree reply. It
  returns `Skip` (nothing to do), `Run(command)` or `Fail(error)`. `Message`
  gives the text the daemon attaches to each error; the line it logs also
  carries the underlying IPC error, which is not modelled. Lemmas state the
  order of the checks, the gate, the eligibility rules, the orientation rule
  and the guard against redundant commands.
- `relayout.dfy` (module `Relayout`): what sway does with the command. The
  parent found by the search takes the chosen layout and nothing else
  changes. The main result is idempotence: deciding again on the updated tree
  sends nothing.
- `event_loop.dfy` (module `EventLoop`): `Dispatch` is the loop over events
  as a method. It is proved equal to the function `Trace`, which records one
  outcome per focus change. Each step carries the workspace and tree replies
  obtained while that event is handled, so every decision works on a fresh
  snapshot.
- `scenarios.dfy` (module `Scenarios`): concrete trees that pin down the
  rule's behaviour on wide, tall, square and fullscreen cases.

Some consequences of the code that are easy to get wrong:

- A wide or square parent gets `splith`; only a parent strictly taller than
  wide gets `splitv` (`Scenarios.WideParent`).
- A missing focused node or a missing parent is an error that the loop logs
  (`Fail(FocusedNotFound)`, `Fail(NoParent)`), not a silent no-op.
- The focused node is found first, then tested for eligibility, and only then
  is the parent looked up. An ineligible node is skipped even when it has no
  parent.
- The stacked and tabbed test looks at the focused node's own layout, which
  sway reports as none for a window. A window inside a stacked or tabbed
  container therefore still gets `splitv` or `splith`
  (`Scenarios.TabbedContainerStillSplit`).
- The program has no aspect-ratio function, no balancing and no
  master-window sizing, and it reacts to focus changes only.

## Model

| member | source | states |
|---|---|---|
| `Sway.Find` | src/main.rs:30-32 | a node the search returns satisfies the predicate and belongs to the tree; a matching root is itself returned |
| `Autotiling.FocusedWorkspaceNum` | src/main.rs:11-16 | the result is the number of the first workspace flagged focused, and is absent exactly when no workspace is focused |
| `Autotiling.SplitFor` | src/main.rs:49-53 | SplitV exactly when the parent is strictly taller than wide, SplitH exactly when it is square or wider |
| `Autotiling.Decide` | src/main.rs:8-67 | a command is only ever `splitv` or `splith` (the `nop` arm is never taken), is only sent when the gate passes and the tree was obtained, and a failed workspace query under a non-empty allow-list is an error |
| `Autotiling.GateClosedSkips` | src/main.rs:10-25 | non-empty allow-list and no focused workspace, or the first focused one outside the list: no command and no error, whatever the tree |
| `Autotiling.EmptyAllowListIgnoresWorkspaces` | src/main.rs:10 | with an empty allow-list the workspace reply, even a failed one, does not affect the decision |
| `Autotiling.OpenGateDefersToTree` | src/main.rs:10-26 | once the gate passes, the decision equals the one made with no allow-list |
| `Autotiling.TreeQueryFailureFails` | src/main.rs:29 | past the gate, a failed tree query is the error whose text is `get_tree() failed` |
| `Autotiling.MissingFocusFails` | src/main.rs:30-32 | past the gate, no focused node is the error whose text is "Could not find the focused node" |
| `Autotiling.IneligibleFocusSkips` | src/main.rs:35-41 | a floating, stacked, tabbed or fullscreen (percent > 1.0) focused node gives no command and no error, whether or not a parent exists |
| `Autotiling.NoParentOnlyForEligible` | src/main.rs:35-45 | without a parent the outcome is the error whose text is "No parent" exactly when the focused node is eligible (missing percent counting as 1.0), and no command otherwise |
| `Autotiling.OrientationDecides` | src/main.rs:47-63 | with an eligible focused node and a parent: taller than wide gives `splitv` unless already SplitV, otherwise `splith` unless already SplitH |
| `Autotiling.CommandMatchesParent` | src/main.rs:43-63 | any command sent was chosen for an eligible focused node and a parent in the tree with a focused child; it is `splitv` exactly when that parent is taller than wide, and differs from the parent's current layout |
| `Autotiling.CommandRoundTrip` | src/main.rs:59-63 | on the two split layouts, the command name maps back to the layout it was made from and is never `nop` |
| `Relayout.DecideAfterApplySkips` | src/main.rs:55-57 | after sway sets the parent to the layout sent, geometry unchanged, the next decision on the same workspaces sends nothing and reports no error |
| `Relayout.FindAfterSetLayout` | src/main.rs:43-45 | after setting a layout on the node a layout-blind search found, the same search finds the updated node |
| `EventLoop.Dispatch` | src/main.rs:90-107 | the outcomes the loop produces are exactly the trace: one decision per focus change, in order, every other event ignored |
| `EventLoop.TraceAppend` | src/main.rs:100-102 | no state passes between events: an error in an earlier event leaves every later decision unchanged |
| `EventLoop.OneOutcomePerFocusChange` | src/main.rs:92-105 | every focus change yields exactly one recorded outcome, errors included; a run records one outcome per event exactly when every event is a focus change |
| `EventLoop.OnlyFocusChangesDecide` | src/main.rs:92-106 | a run without focus changes makes no decision |
| `EventLoop.PayloadIgnored` | src/main.rs:95-100 | the container carried by the event is never consulted; decisions depend only on the freshly queried workspaces and tree |
| `EventLoop.OnlySplitCommands` | src/main.rs:59-65 | over a whole run, the only commands issued are `splitv` and `splith` |
| `Scenarios.WideParent` | src/main.rs:49-57 | a 1920×1080 parent already in SplitH gets nothing; in SplitV it gets `splith` |
| `Scenarios.TallAndSquareParents` | src/main.rs:49-57 | a 1080×1920 parent already in SplitV gets nothing; a square SplitV parent gets `splith` |
| `Scenarios.WorkspaceOutsideAllowList` | src/main.rs:18-21 | allow-list {2, 4} with workspace 3 focused gives no command for any tree |
| `Scenarios.FullscreenNeverSplit` | src/main.rs:38-40 | a window with percent 1.5 is never split |
| `Scenarios.TabbedContainerStillSplit` | src/main.rs:35-63 | a window (own layout none) inside a wide tabbed container gets `splith`: only the focused node's own layout is tested for stacked or tabbed |

## Left out

- Sway.Find: promises only that a returned node matches and lies in the tree, and that a matching root is returned. The client library's `find_focused_as_ref` follows the chain of focused children; that traversal is not modelled, and the stand-in searches the tree in pre-order, leftmost child first. Every `Autotiling` and `EventLoop` lemma holds for any search meeting `Find`'s contract. The `Scenarios` lemmas evaluate the stand-in. `Relayout.DecideAfterApplySkips` is proved for the stand-in only: `Relayout.Apply` updates the node along the stand-in's own search path, and the proofs of `Relayout.FindIgnoresLayout` and `Relayout.FindAfterSetLayout` unfold its body.
- Relayout.DecideAfterApplySkips: idempotence is proved for the pre-order stand-in of the library search, not for every search that meets `Find`'s contract.
- The IPC connection: connecting, subscribing, and the transport of `run_command`. The command is the output of `Decide`. A transport failure while sending it, which the daemon logs like any other error, is not modelled.
- A transport failure while reading the event stream ends the loop. This is I/O and is not modelled; `Dispatch` processes every event it is given.
- Command-line parsing and logger setup. The allow-list is a parameter, and a logged error is an entry `Fail(e)` in the trace.
- `floating_nodes`, window ids, names and the other node fields are not modelled. The decision reads none of them, and the search over them belongs to the client library.
- `percent` is a real number, not a 64-bit float. It is only compared with 1.0.
- Workspace numbers and rectangle sides are unbounded integers rather than 32-bit ones. They are only compared, so no wrap-around can arise.
- What sway does with a split command is reduced to setting the parent's layout. Sway may also wrap the focused window in a new container; `Relayout.Apply` does not model that.
