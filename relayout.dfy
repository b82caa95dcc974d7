/** What the window manager does with the command the decision sends: the
    parent container takes the chosen split layout and nothing else about
    the tree changes. This is what makes the redundancy guard an
    idempotence guarantee: deciding again on the updated tree sends nothing. */
module Relayout {
  import opened Sway
  import opened Autotiling

  /** Two trees differ at most in the layouts of their nodes. */
  ghost predicate SameButLayout(a: Node, b: Node)
    decreases a
  {
    a.focused == b.focused && a.nodeType == b.nodeType && a.percent == b.percent &&
    a.rect == b.rect && |a.nodes| == |b.nodes| &&
    forall i :: 0 <= i < |a.nodes| ==> SameButLayout(a.nodes[i], b.nodes[i])
  }

  /** A search predicate that cannot tell apart trees differing only in layouts. */
  ghost predicate IgnoresLayout(p: Node -> bool)
  {
    forall a, b :: SameButLayout(a, b) ==> p(a) == p(b)
  }

  /** Sets layout `l` on the node Find(t, p) returns, following the same path. */
  function SetLayoutAt(t: Node, p: Node -> bool, l: NodeLayout): Node
    decreases t
  {
    if p(t) then t.(layout := l) else t.(nodes := SetLayoutIn(t.nodes, p, l))
  }

  function SetLayoutIn(ns: seq<Node>, p: Node -> bool, l: NodeLayout): (r: seq<Node>)
    ensures |r| == |ns|
    decreases ns
  {
    if ns == [] then []
    else if Find(ns[0], p).Some? then [SetLayoutAt(ns[0], p, l)] + ns[1..]
    else [ns[0]] + SetLayoutIn(ns[1..], p, l)
  }

  /** The tree after the window manager has carried out `command`. */
  function Apply(root: Node, command: string): Node
  {
    SetLayoutAt(root, HasFocusedChild, LayoutOf(command))
  }

  // ---------------------------------------------------------------------

  lemma {:induction false} SameButLayoutReflexive(t: Node)
    ensures SameButLayout(t, t)
    decreases t
  {
    forall i | 0 <= i < |t.nodes| ensures SameButLayout(t.nodes[i], t.nodes[i]) {
      SameButLayoutReflexive(t.nodes[i]);
    }
  }

  /** Setting a layout anywhere changes nothing but a layout. */
  lemma {:induction false} SetLayoutAtSameButLayout(t: Node, p: Node -> bool, l: NodeLayout)
    ensures SameButLayout(SetLayoutAt(t, p, l), t)
    decreases t
  {
    if p(t) {
      forall i | 0 <= i < |t.nodes| ensures SameButLayout(t.nodes[i], t.nodes[i]) {
        SameButLayoutReflexive(t.nodes[i]);
      }
    } else {
      SetLayoutInSameButLayout(t.nodes, p, l);
    }
  }

  lemma {:induction false} SetLayoutInSameButLayout(ns: seq<Node>, p: Node -> bool, l: NodeLayout)
    ensures forall i :: 0 <= i < |ns| ==> SameButLayout(SetLayoutIn(ns, p, l)[i], ns[i])
    decreases ns
  {
    if ns != [] {
      var r := SetLayoutIn(ns, p, l);
      if Find(ns[0], p).Some? {
        SetLayoutAtSameButLayout(ns[0], p, l);
        forall i | 1 <= i < |ns| ensures SameButLayout(r[i], ns[i]) {
          SameButLayoutReflexive(ns[i]);
        }
      } else {
        SameButLayoutReflexive(ns[0]);
        SetLayoutInSameButLayout(ns[1..], p, l);
        assert forall i :: 1 <= i < |ns| ==> r[i] == SetLayoutIn(ns[1..], p, l)[i - 1];
      }
    }
  }

  /** A search that ignores layouts succeeds on both trees or on neither. */
  lemma {:induction false} FindIgnoresLayout(a: Node, b: Node, p: Node -> bool)
    requires IgnoresLayout(p) && SameButLayout(a, b)
    ensures Find(a, p).Some? <==> Find(b, p).Some?
    decreases a
  {
    if !p(a) {
      FindInIgnoresLayout(a.nodes, b.nodes, p);
    }
  }

  lemma {:induction false} FindInIgnoresLayout(as_: seq<Node>, bs: seq<Node>, p: Node -> bool)
    requires IgnoresLayout(p)
    requires |as_| == |bs| && forall i :: 0 <= i < |as_| ==> SameButLayout(as_[i], bs[i])
    ensures FindIn(as_, p).Some? <==> FindIn(bs, p).Some?
    decreases as_
  {
    if as_ != [] {
      FindIgnoresLayout(as_[0], bs[0], p);
      if Find(as_[0], p).None? {
        FindInIgnoresLayout(as_[1..], bs[1..], p);
      }
    }
  }

  /** After the update, the same search finds the updated node. */
  lemma {:induction false} FindAfterSetLayout(t: Node, p: Node -> bool, l: NodeLayout)
    requires IgnoresLayout(p) && Find(t, p).Some?
    ensures Find(SetLayoutAt(t, p, l), p) == Some(Find(t, p).value.(layout := l))
    decreases t
  {
    var t' := SetLayoutAt(t, p, l);
    SetLayoutAtSameButLayout(t, p, l);
    if p(t) {
      assert p(t');
    } else {
      assert !p(t');
      FindInAfterSetLayout(t.nodes, p, l);
    }
  }

  lemma {:induction false} FindInAfterSetLayout(ns: seq<Node>, p: Node -> bool, l: NodeLayout)
    requires IgnoresLayout(p) && FindIn(ns, p).Some?
    ensures FindIn(SetLayoutIn(ns, p, l), p) == Some(FindIn(ns, p).value.(layout := l))
    decreases ns
  {
    var r := SetLayoutIn(ns, p, l);
    if Find(ns[0], p).Some? {
      FindAfterSetLayout(ns[0], p, l);
    } else {
      SameButLayoutReflexive(ns[0]);
      assert r[0] == ns[0] && r[1..] == SetLayoutIn(ns[1..], p, l);
      FindInAfterSetLayout(ns[1..], p, l);
    }
  }

  lemma FocusPredicatesIgnoreLayout()
    ensures IgnoresLayout(IsFocused)
    ensures IgnoresLayout(HasFocusedChild)
  {
  }

  /** Idempotence: once the parent has the layout the decision asked for,
      the next decision on the updated tree (same workspaces) sends nothing
      and reports no error. */
  lemma DecideAfterApplySkips(allow: set<int>, ws: Reply<seq<Workspace>>, root: Node, c: string)
    requires Decide(allow, ws, Reply(root)) == Run(c)
    ensures Decide(allow, ws, Reply(Apply(root, c))) == Skip
  {
    CommandMatchesParent(allow, ws, root, c);
    var parent := Find(root, HasFocusedChild).value;
    var l := LayoutOf(c);
    assert l == SplitFor(parent.rect);
    var root' := Apply(root, c);
    FocusPredicatesIgnoreLayout();
    SetLayoutAtSameButLayout(root, HasFocusedChild, l);
    FindIgnoresLayout(root', root, IsFocused);
    FindAfterSetLayout(root, HasFocusedChild, l);
    assert Find(root', HasFocusedChild) == Some(parent.(layout := l));
  }
}
