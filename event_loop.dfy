/** The daemon's main loop over the window-event subscription. Only focus
    changes trigger a decision; each decision queries the workspaces and the
    tree afresh, and a failed decision is logged without stopping the loop. */
module EventLoop {
  import opened Sway
  import opened Autotiling

  datatype WindowChange = New | Close | Focus | Title | FullscreenMode | Move | Floating | Urgent | Mark

  /** An event as delivered. A window event carries the container it is
      about, as captured when the event was emitted. */
  datatype Event = WindowEvent(change: WindowChange, container: Node) | OtherEvent

  /** One iteration of the loop: the event, and the answers that the
      workspace and tree queries give while it is being handled. */
  datatype Step = Step(event: Event, workspaces: Reply<seq<Workspace>>, tree: Reply<Node>)

  predicate IsFocusChange(e: Event)
  {
    e.WindowEvent? && e.change == Focus
  }

  /** The outcomes the loop records, one per focus change, in order. */
  function Trace(allow: set<int>, steps: seq<Step>): seq<Outcome>
  {
    if steps == [] then []
    else
      var s := steps[0];
      (if IsFocusChange(s.event) then [Decide(allow, s.workspaces, s.tree)] else []) +
      Trace(allow, steps[1..])
  }

  function FocusCount(steps: seq<Step>): nat
  {
    if steps == [] then 0
    else (if IsFocusChange(steps[0].event) then 1 else 0) + FocusCount(steps[1..])
  }

  /** The loop itself. It records every outcome, including `Skip` and
      `Run`; the daemon itself only logs the `Fail` ones. */
  method Dispatch(allow: set<int>, steps: seq<Step>) returns (outcomes: seq<Outcome>)
    ensures outcomes == Trace(allow, steps)
  {
    outcomes := [];
    var i := 0;
    while i < |steps|
      invariant 0 <= i <= |steps|
      invariant Trace(allow, steps) == outcomes + Trace(allow, steps[i..])
    {
      assert steps[i..][1..] == steps[i + 1..];
      match steps[i].event {
        case WindowEvent(change, _) =>
          if change == Focus {
            var outcome := Decide(allow, steps[i].workspaces, steps[i].tree);
            outcomes := outcomes + [outcome];
          }
        case OtherEvent =>
      }
      i := i + 1;
    }
    assert steps[i..] == [];
  }

  // ---------------------------------------------------------------------

  /** No state passes from one event to the next: the outcomes of a run are
      those of its first part followed by those of the rest, so a failure in
      one event leaves every later decision as it would have been. */
  lemma {:induction false} TraceAppend(allow: set<int>, a: seq<Step>, b: seq<Step>)
    ensures Trace(allow, a + b) == Trace(allow, a) + Trace(allow, b)
    decreases |a|
  {
    if a == [] {
      assert a + b == b;
    } else {
      assert (a + b)[0] == a[0] && (a + b)[1..] == a[1..] + b;
      TraceAppend(allow, a[1..], b);
    }
  }

  /** Every focus change gets exactly one recorded outcome, errors included,
      and nothing else gets one: there is one outcome per event exactly when
      every event is a focus change. */
  lemma {:induction false} OneOutcomePerFocusChange(allow: set<int>, steps: seq<Step>)
    ensures |Trace(allow, steps)| == FocusCount(steps)
    ensures FocusCount(steps) == |steps| <==> forall i :: 0 <= i < |steps| ==> IsFocusChange(steps[i].event)
  {
    if steps != [] {
      OneOutcomePerFocusChange(allow, steps[1..]);
      assert forall i :: 0 <= i < |steps[1..]| ==> steps[1..][i] == steps[i + 1];
      assert FocusCount(steps[1..]) <= |steps[1..]| by { CountBound(steps[1..]); }
    }
  }

  lemma {:induction false} CountBound(steps: seq<Step>)
    ensures FocusCount(steps) <= |steps|
  {
    if steps != [] {
      CountBound(steps[1..]);
    }
  }

  /** Events other than focus changes are ignored. */
  lemma {:induction false} OnlyFocusChangesDecide(allow: set<int>, steps: seq<Step>)
    requires forall i :: 0 <= i < |steps| ==> !IsFocusChange(steps[i].event)
    ensures Trace(allow, steps) == []
  {
    if steps != [] {
      assert forall i :: 0 <= i < |steps[1..]| ==> steps[1..][i] == steps[i + 1];
      OnlyFocusChangesDecide(allow, steps[1..]);
    }
  }

  /** The container carried by an event is never consulted: two runs that
      differ only in the event payloads make the same decisions. Geometry
      comes from the tree queried while handling the event. */
  lemma {:induction false} PayloadIgnored(allow: set<int>, s1: seq<Step>, s2: seq<Step>)
    requires |s1| == |s2|
    requires forall i :: 0 <= i < |s1| ==>
               s1[i].workspaces == s2[i].workspaces && s1[i].tree == s2[i].tree &&
               IsFocusChange(s1[i].event) == IsFocusChange(s2[i].event)
    ensures Trace(allow, s1) == Trace(allow, s2)
  {
    if s1 != [] {
      assert forall i :: 0 <= i < |s1[1..]| ==> s1[1..][i] == s1[i + 1] && s2[1..][i] == s2[i + 1];
      PayloadIgnored(allow, s1[1..], s2[1..]);
    }
  }

  /** The only commands the loop ever issues are the two split commands. */
  lemma {:induction false} OnlySplitCommands(allow: set<int>, steps: seq<Step>)
    ensures forall o :: o in Trace(allow, steps) && o.Run? ==> o.command == "splitv" || o.command == "splith"
  {
    if steps != [] {
      OnlySplitCommands(allow, steps[1..]);
    }
  }
}
