/** The stacking order of the scene: what focusing a window does to it. */
module Stacking {
  import opened Lists

  /** The direct children of the scene that are ever raised, and the others. */
  datatype Node =
    | WindowNode(window: nat)
    | BarNode(output: nat)
    | LayerNode(output: nat, layer: nat)
    | OtherNode(other: nat)

  const TOP := 2
  const OVERLAY := 3

  datatype StackedWindow = StackedWindow(id: nat, mapped: bool, pinned: bool)
  datatype StackedOutput = StackedOutput(id: nat, bar: bool, top: bool, overlay: bool)

  // ---- raising ----

  /** `order` lists the nodes bottom first; raising moves one to the top. */
  function Raise(order: seq<Node>, n: Node): seq<Node> {
    Remove(order, n) + [n]
  }

  function RaiseAll(order: seq<Node>, ns: seq<Node>): seq<Node>
    decreases |ns|
  {
    if ns == [] then order else RaiseAll(Raise(order, ns[0]), ns[1..])
  }

  function PinnedNodes(views: seq<StackedWindow>): seq<Node> {
    if views == [] then []
    else (if views[0].pinned && views[0].mapped then [WindowNode(views[0].id)] else []) + PinnedNodes(views[1..])
  }

  function OutputNode(o: StackedOutput): seq<Node> {
    (if o.bar then [BarNode(o.id)] else []) + (if o.top then [LayerNode(o.id, TOP)] else [])
    + (if o.overlay then [LayerNode(o.id, OVERLAY)] else [])
  }

  function OutputNodes(outputs: seq<StackedOutput>): seq<Node> {
    if outputs == [] then [] else OutputNode(outputs[0]) + OutputNodes(outputs[1..])
  }

  /** The windows after the focused one was relinked at the head of the MRU list. */
  function Relinked(views: seq<StackedWindow>, v: StackedWindow): seq<StackedWindow> {
    [v] + Remove(views, v)
  }

  /** Everything that focusing `v` raises, in order. */
  function FocusList(views: seq<StackedWindow>, v: StackedWindow, outputs: seq<StackedOutput>, fullscreen: bool)
    : seq<Node>
  {
    [WindowNode(v.id)] + PinnedNodes(Relinked(views, v)) + OutputNodes(outputs)
    + (if fullscreen then [WindowNode(v.id)] else [])
  }

  class Scene {
    var order: seq<Node>

    constructor ()
      ensures order == []
    {
      order := [];
    }

    method RaiseToTop(n: Node)
      modifies this
      ensures order == Raise(old(order), n)
    {
      order := Remove(order, n) + [n];
    }

    /** Pinned windows first, then each output's taskbar and its two upper layers. */
    method RaiseOverlays(views: seq<StackedWindow>, outputs: seq<StackedOutput>)
      modifies this
      ensures order == RaiseAll(old(order), PinnedNodes(views) + OutputNodes(outputs))
    {
      RaisePinned(views);
      label pinned:
      for i := 0 to |outputs|
        invariant RaiseAll(order, OutputNodes(outputs[i..])) == RaiseAll(old@pinned(order), OutputNodes(outputs))
      {
        var o := outputs[i];
        RaiseAllAppend(order, OutputNode(o), OutputNodes(outputs[i + 1..]));
        assert outputs[i..][1..] == outputs[i + 1..];
        RaiseOutput(o);
      }
      RaiseAllAppend(old(order), PinnedNodes(views), OutputNodes(outputs));
    }

    method RaisePinned(views: seq<StackedWindow>)
      modifies this
      ensures order == RaiseAll(old(order), PinnedNodes(views))
    {
      for i := 0 to |views|
        invariant RaiseAll(order, PinnedNodes(views[i..])) == RaiseAll(old(order), PinnedNodes(views))
      {
        assert views[i..][1..] == views[i + 1..];
        if views[i].pinned && views[i].mapped {
          assert PinnedNodes(views[i..])[1..] == PinnedNodes(views[i + 1..]);
          RaiseToTop(WindowNode(views[i].id));
        } else {
          assert [] + PinnedNodes(views[i + 1..]) == PinnedNodes(views[i + 1..]);
        }
      }
    }

    method RaiseOutput(o: StackedOutput)
      modifies this
      ensures order == RaiseAll(old(order), OutputNode(o))
    {
      if o.bar {
        RaiseToTop(BarNode(o.id));
      }
      ghost var bar := if o.bar then [BarNode(o.id)] else [];
      ghost var top := if o.top then [LayerNode(o.id, TOP)] else [];
      ghost var overlay := if o.overlay then [LayerNode(o.id, OVERLAY)] else [];
      RaiseAllAppend(old(order), bar + top, overlay);
      RaiseAllAppend(old(order), bar, top);
      if o.top {
        RaiseToTop(LayerNode(o.id, TOP));
      }
      if o.overlay {
        RaiseToTop(LayerNode(o.id, OVERLAY));
      }
    }

    /** The part of `focus` that restacks; `v` did not have the keyboard. */
    method Focus(views: seq<StackedWindow>, v: StackedWindow, outputs: seq<StackedOutput>, fullscreen: bool)
      modifies this
      ensures order == RaiseAll(old(order), FocusList(views, v, outputs, fullscreen))
    {
      var n := WindowNode(v.id);
      RaiseToTop(n);
      var relinked := [v] + Remove(views, v);
      RaiseOverlays(relinked, outputs);
      if fullscreen {
        RaiseToTop(n);
      }
      ghost var overlays := PinnedNodes(relinked) + OutputNodes(outputs);
      ghost var last := if fullscreen then [n] else [];
      assert FocusList(views, v, outputs, fullscreen) == ([n] + overlays) + last;
      RaiseAllAppend(old(order), [n] + overlays, last);
      RaiseAllAppend(old(order), [n], overlays);
    }
  }

  // ---- the closed form of any number of raises ----

  lemma {:induction false} RaiseAllAppend(order: seq<Node>, a: seq<Node>, b: seq<Node>)
    ensures RaiseAll(order, a + b) == RaiseAll(RaiseAll(order, a), b)
    decreases |a|
  {
    if a == [] {
      assert a + b == b;
    } else {
      assert (a + b)[1..] == a[1..] + b;
      RaiseAllAppend(Raise(order, a[0]), a[1..], b);
    }
  }

  /** Each node of `ns` once, where it occurs last. */
  function LastOnly(ns: seq<Node>): seq<Node> {
    if ns == [] then []
    else if ns[0] in ns[1..] then LastOnly(ns[1..])
    else [ns[0]] + LastOnly(ns[1..])
  }

  function Untouched(order: seq<Node>, ns: seq<Node>): seq<Node> {
    Filter(order, NotIn(ns))
  }

  function NotIn(ns: seq<Node>): Node -> bool {
    n => n !in ns
  }

  lemma {:induction false} UntouchedRemove(order: seq<Node>, n: Node, ns: seq<Node>)
    requires Distinct(order) && ns != [] && n == ns[0]
    ensures Untouched(Remove(order, n), ns[1..]) == Untouched(order, ns)
  {
    if order != [] {
      var rest := order[1..];
      if order[0] == n {
        assert n !in rest;
        FilterSame(rest, NotIn(ns[1..]), NotIn(ns));
      } else {
        UntouchedRemove(rest, n, ns);
        FilterCons(order[0], Remove(rest, n), NotIn(ns[1..]));
      }
    }
  }

  /** Raising the nodes of a list, one after the other, leaves the other nodes in their order
      at the bottom and the raised ones above them, in the order of their last raise. */
  lemma {:induction false} RaiseAllIs(order: seq<Node>, ns: seq<Node>)
    requires Distinct(order)
    ensures RaiseAll(order, ns) == Untouched(order, ns) + LastOnly(ns)
    decreases |ns|
  {
    if ns == [] {
      FilterAll(order, NotIn(ns));
    } else {
      RemoveDistinct(order, ns[0]);
      RaiseAllIs(Raise(order, ns[0]), ns[1..]);
      RaiseOnce(order, ns);
      if ns[0] !in ns[1..] {
        var low, high := Untouched(order, ns), LastOnly(ns[1..]);
        assert low + [ns[0]] + high == low + ([ns[0]] + high);
      }
    }
  }

  lemma RaiseOnce(order: seq<Node>, ns: seq<Node>)
    requires Distinct(order) && ns != []
    ensures Untouched(Raise(order, ns[0]), ns[1..]) == Untouched(order, ns) + if ns[0] in ns[1..] then [] else [ns[0]]
  {
    var n, rest := ns[0], ns[1..];
    FilterAppend(Remove(order, n), [n], NotIn(rest));
    FilterCons(n, [], NotIn(rest));
    assert [n] + [] == [n];
    UntouchedRemove(order, n, ns);
  }

  // ---- what focusing promises ----

  /** `a` is drawn over `b`. */
  predicate Above(order: seq<Node>, a: Node, b: Node) {
    a in order && b in order && IndexOf(order, a) > IndexOf(order, b)
  }

  lemma AboveAppend(x: seq<Node>, y: seq<Node>, a: Node, b: Node)
    requires Distinct(x + y) && b in x && a in y
    ensures Above(x + y, a, b)
  {
    var i, j := IndexOf(x, b), |x| + IndexOf(y, a);
    assert (x + y)[i] == b && (x + y)[j] == a;
  }

  lemma {:induction false} LastOnlyDistinct(ns: seq<Node>)
    ensures Distinct(LastOnly(ns))
    ensures forall n | n in LastOnly(ns) :: n in ns
    ensures forall n | n in ns :: n in LastOnly(ns)
  {
    if ns != [] {
      LastOnlyDistinct(ns[1..]);
    }
  }

  lemma RaisedDistinct(order: seq<Node>, ns: seq<Node>)
    requires Distinct(order)
    ensures var r := RaiseAll(order, ns);
      && r == Untouched(order, ns) + LastOnly(ns) && Distinct(r)
      && (forall n | n in r :: n in order || n in ns)
      && (forall n | n in order || n in ns :: n in r)
  {
    RaiseAllIs(order, ns);
    LastOnlyDistinct(ns);
    FilterDistinct(order, NotIn(ns));
    DistinctAppend(Untouched(order, ns), LastOnly(ns));
  }

  /** A node raised in the second part of a run ends above any node that part does not raise. */
  lemma RaisedLaterIsAbove(order: seq<Node>, first: seq<Node>, second: seq<Node>, a: Node, b: Node)
    requires Distinct(order) && a in second && b !in second && (b in order || b in first)
    ensures Above(RaiseAll(order, first + second), a, b)
  {
    var mid := RaiseAll(order, first);
    RaiseAllAppend(order, first, second);
    RaisedDistinct(order, first);
    RaisedDistinct(mid, second);
    LastOnlyDistinct(second);
    AboveAppend(Untouched(mid, second), LastOnly(second), a, b);
  }

  ghost predicate PinnedWindow(views: seq<StackedWindow>, n: Node) {
    exists w :: w in views && w.pinned && w.mapped && n == WindowNode(w.id)
  }

  lemma {:induction false} PinnedNodesAre(views: seq<StackedWindow>)
    ensures forall n :: n in PinnedNodes(views) <==> PinnedWindow(views, n)
  {
    if views != [] {
      PinnedNodesAre(views[1..]);
      forall n
        ensures n in PinnedNodes(views) <==> PinnedWindow(views, n)
      {
        if PinnedWindow(views, n) {
          var w :| w in views && w.pinned && w.mapped && n == WindowNode(w.id);
          assert w == views[0] || w in views[1..];
        }
        if PinnedWindow(views[1..], n) {
          var w :| w in views[1..] && w.pinned && w.mapped && n == WindowNode(w.id);
          assert w in views;
        }
        if views[0].pinned && views[0].mapped && n == WindowNode(views[0].id) {
          assert views[0] in views;
        }
      }
    }
  }

  lemma {:induction false} OutputNodesAre(outputs: seq<StackedOutput>)
    ensures forall n | n in OutputNodes(outputs) :: !n.WindowNode?
    ensures forall o | o in outputs && o.bar :: BarNode(o.id) in OutputNodes(outputs)
  {
    if outputs != [] {
      OutputNodesAre(outputs[1..]);
    }
  }

  ghost predicate DistinctWindows(views: seq<StackedWindow>) {
    forall i, j :: 0 <= i < j < |views| ==> views[i].id != views[j].id
  }

  ghost predicate DistinctOutputs(outputs: seq<StackedOutput>) {
    forall i, j :: 0 <= i < j < |outputs| ==> outputs[i].id != outputs[j].id
  }

  lemma PinnedStill(views: seq<StackedWindow>, v: StackedWindow, n: Node)
    requires PinnedWindow(Remove(views, v), n)
    ensures PinnedWindow(views, n)
  {
    var w :| w in Remove(views, v) && w.pinned && w.mapped && n == WindowNode(w.id);
    assert w in views;
  }

  /** The pinned windows other than the focused one are raised after it. */
  lemma FocusListSplit(views: seq<StackedWindow>, v: StackedWindow, outputs: seq<StackedOutput>)
    requires DistinctWindows(views) && v in views
    ensures var own := if v.pinned && v.mapped then [WindowNode(v.id)] else [];
      var others := PinnedNodes(Remove(views, v)) + OutputNodes(outputs);
      && FocusList(views, v, outputs, false) == ([WindowNode(v.id)] + own) + others
      && WindowNode(v.id) !in others
  {
    PinnedNodesAre(Remove(views, v));
    OutputNodesAre(outputs);
    assert Relinked(views, v)[1..] == Remove(views, v);
    IdGone(views, v);
  }

  lemma IdGone(views: seq<StackedWindow>, v: StackedWindow)
    requires DistinctWindows(views) && v in views
    ensures forall w | w in Remove(views, v) :: w.id != v.id
  {
    forall w | w in Remove(views, v)
      ensures w.id != v.id
    {
      if w.id == v.id {
        SameIdSame(views, v, w);
        RemoveDistinct(views, v);
      }
    }
  }

  lemma SameIdSame(views: seq<StackedWindow>, v: StackedWindow, w: StackedWindow)
    requires DistinctWindows(views) && v in views && w in views && v.id == w.id
    ensures v == w && Distinct(views)
  {
    var i, j := IndexOf(views, v), IndexOf(views, w);
    assert views[i].id == views[j].id;
  }

  /** A window, not fullscreen, that takes the focus: every other pinned window ends above it,
      it ends above every other window, and every taskbar above all windows. */
  lemma FocusRestacks(order: seq<Node>, views: seq<StackedWindow>, v: StackedWindow,
                      outputs: seq<StackedOutput>, n: Node)
    requires Distinct(order) && DistinctWindows(views) && v in views && n in order && n.WindowNode? && n.window != v.id
    ensures var r := RaiseAll(order, FocusList(views, v, outputs, false)); var me := WindowNode(v.id);
      && (if PinnedWindow(views, n) then Above(r, n, me) else Above(r, me, n))
      && forall o | o in outputs && o.bar :: Above(r, BarNode(o.id), n) && Above(r, BarNode(o.id), me)
  {
    var me := WindowNode(v.id);
    var ns := FocusList(views, v, outputs, false);
    var own := if v.pinned && v.mapped then [me] else [];
    var others := PinnedNodes(Remove(views, v)) + OutputNodes(outputs);
    FocusListSplit(views, v, outputs);
    PinnedNodesAre(Remove(views, v));
    OutputNodesAre(outputs);
    if PinnedWindow(views, n) {
      var w :| w in views && w.pinned && w.mapped && n == WindowNode(w.id);
      assert PinnedWindow(Remove(views, v), n);
      RaisedLaterIsAbove(order, [me] + own, others, n, me);
    } else {
      if PinnedWindow(Remove(views, v), n) {
        PinnedStill(views, v, n);
      }
      assert [] + ns == ns;
      RaisedLaterIsAbove(order, [], ns, me, n);
    }
    var windows := [me] + PinnedNodes(Relinked(views, v));
    assert ns == windows + OutputNodes(outputs);
    forall o | o in outputs && o.bar
      ensures Above(RaiseAll(order, ns), BarNode(o.id), n) && Above(RaiseAll(order, ns), BarNode(o.id), me)
    {
      RaisedLaterIsAbove(order, windows, OutputNodes(outputs), BarNode(o.id), n);
      RaisedLaterIsAbove(order, windows, OutputNodes(outputs), BarNode(o.id), me);
    }
  }

  /** The focused window ends above every other one if and only if it is fullscreen or no
      other window is pinned: a focused pinned window goes below the other pinned ones. */
  lemma FocusedOnTop(order: seq<Node>, views: seq<StackedWindow>, v: StackedWindow,
                     outputs: seq<StackedOutput>, fullscreen: bool)
    requires Distinct(order) && DistinctWindows(views) && v in views
    requires forall w | w in views :: WindowNode(w.id) in order
    ensures var r := RaiseAll(order, FocusList(views, v, outputs, fullscreen));
      (forall n | n in order && n.WindowNode? && n.window != v.id :: Above(r, WindowNode(v.id), n))
      <==> fullscreen || (forall w | w in views && w != v :: !(w.pinned && w.mapped))
  {
    var me := WindowNode(v.id);
    var r := RaiseAll(order, FocusList(views, v, outputs, fullscreen));
    if fullscreen {
      forall n | n in order && n != me
        ensures Above(r, me, n)
      {
        FullscreenTopmost(order, views, v, outputs, n);
      }
    } else {
      assert [] + FocusList(views, v, outputs, false) == FocusList(views, v, outputs, false);
      forall n | n in order && n.WindowNode? && n.window != v.id
        ensures PinnedWindow(views, n) <==> !Above(r, me, n)
      {
        FocusRestacks(order, views, v, outputs, n);
      }
      forall w | w in views && w != v && w.pinned && w.mapped
        ensures WindowNode(w.id) != me && PinnedWindow(views, WindowNode(w.id))
      {
        if w.id == v.id { SameIdSame(views, v, w); }
      }
    }
  }

  /** A fullscreen window that takes the focus covers everything, taskbars included. */
  lemma FullscreenTopmost(order: seq<Node>, views: seq<StackedWindow>, v: StackedWindow,
                          outputs: seq<StackedOutput>, n: Node)
    requires Distinct(order) && n in order && n != WindowNode(v.id)
    ensures Above(RaiseAll(order, FocusList(views, v, outputs, true)), WindowNode(v.id), n)
  {
    var first := [WindowNode(v.id)] + PinnedNodes(Relinked(views, v)) + OutputNodes(outputs);
    RaisedLaterIsAbove(order, first, [WindowNode(v.id)], WindowNode(v.id), n);
  }

  /** Nodes that focusing does not raise keep their relative order, below all raised ones. */
  lemma OthersKeepOrder(order: seq<Node>, views: seq<StackedWindow>, v: StackedWindow,
                        outputs: seq<StackedOutput>, fullscreen: bool)
    requires Distinct(order)
    ensures var ns := FocusList(views, v, outputs, fullscreen); var r := RaiseAll(order, ns);
      && r == Filter(order, NotIn(ns)) + LastOnly(ns) && Distinct(r)
      && (forall n | n in r :: n in order || n in ns) && (forall n | n in order :: n in r)
  {
    RaisedDistinct(order, FocusList(views, v, outputs, fullscreen));
  }

  lemma {:induction false} LayersAfterBar(outputs: seq<StackedOutput>, o: StackedOutput)
    returns (first: seq<Node>, second: seq<Node>)
    requires DistinctOutputs(outputs) && o in outputs && o.bar
    ensures OutputNodes(outputs) == first + second && BarNode(o.id) in first && BarNode(o.id) !in second
    ensures o.top ==> LayerNode(o.id, TOP) in second
    ensures o.overlay ==> LayerNode(o.id, OVERLAY) in second
  {
    var rest := OutputNodes(outputs[1..]);
    if outputs[0] == o {
      first, second := [BarNode(o.id)], OutputNode(o)[1..] + rest;
      BarOnlyOnce(outputs[1..], o.id);
      OwnLayers(o, rest);
    } else {
      assert o in outputs[1..];
      var a, b := LayersAfterBar(outputs[1..], o);
      first, second := OutputNode(outputs[0]) + a, b;
    }
  }

  lemma OwnLayers(o: StackedOutput, rest: seq<Node>)
    requires o.bar && BarNode(o.id) !in rest
    ensures var second := OutputNode(o)[1..] + rest;
      && OutputNode(o) + rest == [BarNode(o.id)] + second && BarNode(o.id) !in second
      && (o.top ==> LayerNode(o.id, TOP) in second) && (o.overlay ==> LayerNode(o.id, OVERLAY) in second)
  {
    var own := OutputNode(o)[1..];
    var top := if o.top then [LayerNode(o.id, TOP)] else [];
    assert own == top + if o.overlay then [LayerNode(o.id, OVERLAY)] else [];
  }

  lemma {:induction false} BarOnlyOnce(outputs: seq<StackedOutput>, id: nat)
    requires forall o | o in outputs :: o.id != id
    ensures BarNode(id) !in OutputNodes(outputs)
  {
    if outputs != [] {
      BarOnlyOnce(outputs[1..], id);
    }
  }

  /** Each taskbar ends below the upper layers of its own output. */
  lemma LayersAboveBar(order: seq<Node>, views: seq<StackedWindow>, v: StackedWindow,
                       outputs: seq<StackedOutput>, o: StackedOutput, fullscreen: bool)
    requires Distinct(order) && DistinctOutputs(outputs) && o in outputs && o.bar
    ensures var r := RaiseAll(order, FocusList(views, v, outputs, fullscreen));
      && (o.top ==> Above(r, LayerNode(o.id, TOP), BarNode(o.id)))
      && (o.overlay ==> Above(r, LayerNode(o.id, OVERLAY), BarNode(o.id)))
  {
    var windows := [WindowNode(v.id)] + PinnedNodes(Relinked(views, v));
    var first, second := LayersAfterBar(outputs, o);
    var rest := second + if fullscreen then [WindowNode(v.id)] else [];
    assert FocusList(views, v, outputs, fullscreen) == (windows + first) + rest;
    if o.top { RaisedLaterIsAbove(order, windows + first, rest, LayerNode(o.id, TOP), BarNode(o.id)); }
    if o.overlay { RaisedLaterIsAbove(order, windows + first, rest, LayerNode(o.id, OVERLAY), BarNode(o.id)); }
  }

  /** Where an output stands in the list of raises; no node of it is raised after that. */
  lemma {:induction false} OutputSplit(outputs: seq<StackedOutput>, o: StackedOutput)
    returns (first: seq<Node>, second: seq<Node>)
    requires DistinctOutputs(outputs) && o in outputs
    ensures OutputNodes(outputs) == first + (OutputNode(o) + second)
    ensures forall n | n in second :: (n.BarNode? || n.LayerNode?) && n.output != o.id
  {
    if outputs[0] == o {
      first, second := [], OutputNodes(outputs[1..]);
      NodesOfOthers(outputs[1..], o.id);
    } else {
      assert o in outputs[1..];
      var a, b := OutputSplit(outputs[1..], o);
      first, second := OutputNode(outputs[0]) + a, b;
    }
  }

  lemma {:induction false} NodesOfOthers(outputs: seq<StackedOutput>, id: nat)
    requires forall o | o in outputs :: o.id != id
    ensures forall n | n in OutputNodes(outputs) :: (n.BarNode? || n.LayerNode?) && n.output != id
  {
    if outputs != [] {
      NodesOfOthers(outputs[1..], id);
    }
  }

  /** The OVERLAY layer of each output ends above its TOP layer, with a bar or without. */
  lemma OverlayAboveTop(order: seq<Node>, views: seq<StackedWindow>, v: StackedWindow,
                        outputs: seq<StackedOutput>, o: StackedOutput, fullscreen: bool)
    requires Distinct(order) && DistinctOutputs(outputs) && o in outputs && o.top && o.overlay
    ensures var r := RaiseAll(order, FocusList(views, v, outputs, fullscreen));
      Above(r, LayerNode(o.id, OVERLAY), LayerNode(o.id, TOP))
  {
    var low, high := OverlaySplit(views, v, outputs, o, fullscreen);
    RaisedLaterIsAbove(order, low, high, LayerNode(o.id, OVERLAY), LayerNode(o.id, TOP));
  }

  lemma OverlaySplit(views: seq<StackedWindow>, v: StackedWindow, outputs: seq<StackedOutput>, o: StackedOutput,
                     fullscreen: bool) returns (low: seq<Node>, high: seq<Node>)
    requires DistinctOutputs(outputs) && o in outputs && o.top && o.overlay
    ensures FocusList(views, v, outputs, fullscreen) == low + high
    ensures LayerNode(o.id, TOP) in low && LayerNode(o.id, TOP) !in high && LayerNode(o.id, OVERLAY) in high
  {
    var windows := [WindowNode(v.id)] + PinnedNodes(Relinked(views, v));
    var first, second := OutputSplit(outputs, o);
    var own, last := OutputNode(o), if fullscreen then [WindowNode(v.id)] else [];
    var n := |own| - 1;
    TopThenOverlay(o);
    low, high := windows + (first + own[..n]), [own[n]] + (second + last);
    assert own == own[..n] + [own[n]];
    Regroup(windows, first, own[..n], [own[n]], second, last);
  }

  lemma TopThenOverlay(o: StackedOutput)
    requires o.top && o.overlay
    ensures var own := OutputNode(o); var n := |own| - 1;
      && n > 0 && own[n] == LayerNode(o.id, OVERLAY) && own[n - 1] == LayerNode(o.id, TOP)
      && LayerNode(o.id, TOP) in own[..n]
  {
    var own := OutputNode(o);
    assert own[..|own| - 1][|own| - 2] == own[|own| - 2];
  }

  lemma Regroup(a: seq<Node>, b: seq<Node>, c: seq<Node>, d: seq<Node>, e: seq<Node>, f: seq<Node>)
    ensures a + (b + ((c + d) + e)) + f == (a + (b + c)) + (d + (e + f))
  {
  }

  /** The upper layers of each output, with a bar or without, end above every window but a focused
      fullscreen one. */
  lemma LayersAboveWindows(order: seq<Node>, views: seq<StackedWindow>, v: StackedWindow,
                           outputs: seq<StackedOutput>, o: StackedOutput, fullscreen: bool, n: Node)
    requires Distinct(order) && o in outputs && n in order && n.WindowNode? && (fullscreen ==> n.window != v.id)
    ensures var r := RaiseAll(order, FocusList(views, v, outputs, fullscreen));
      && (o.top ==> Above(r, LayerNode(o.id, TOP), n)) && (o.overlay ==> Above(r, LayerNode(o.id, OVERLAY), n))
  {
    var windows := [WindowNode(v.id)] + PinnedNodes(Relinked(views, v));
    var rest := OutputNodes(outputs) + if fullscreen then [WindowNode(v.id)] else [];
    assert FocusList(views, v, outputs, fullscreen) == windows + rest;
    OutputNodesAre(outputs);
    LayersIn(outputs, o);
    if o.top { RaisedLaterIsAbove(order, windows, rest, LayerNode(o.id, TOP), n); }
    if o.overlay { RaisedLaterIsAbove(order, windows, rest, LayerNode(o.id, OVERLAY), n); }
  }

  lemma {:induction false} LayersIn(outputs: seq<StackedOutput>, o: StackedOutput)
    requires o in outputs
    ensures o.top ==> LayerNode(o.id, TOP) in OutputNodes(outputs)
    ensures o.overlay ==> LayerNode(o.id, OVERLAY) in OutputNodes(outputs)
  {
    if outputs[0] != o {
      LayersIn(outputs[1..], o);
    }
  }

  ghost predicate OutputHas(o: StackedOutput, n: Node) {
    || (n == BarNode(o.id) && o.bar)
    || (n == LayerNode(o.id, TOP) && o.top)
    || (n == LayerNode(o.id, OVERLAY) && o.overlay)
  }

  lemma {:induction false} OutputNodesExact(outputs: seq<StackedOutput>, n: Node)
    ensures n in OutputNodes(outputs) <==> exists o :: o in outputs && OutputHas(o, n)
  {
    if outputs != [] {
      OutputNodesExact(outputs[1..], n);
      assert n in OutputNode(outputs[0]) <==> OutputHas(outputs[0], n);
      if o :| o in outputs && OutputHas(o, n) {
        assert o == outputs[0] || o in outputs[1..];
      }
      if o :| o in outputs[1..] && OutputHas(o, n) {
        assert o in outputs;
      }
      if OutputHas(outputs[0], n) {
        assert outputs[0] in outputs;
      }
    }
  }

  /** Focusing raises the window, the other pinned ones, and the bars and upper layers there are, and
      nothing else. */
  lemma RaisedExactly(views: seq<StackedWindow>, v: StackedWindow, outputs: seq<StackedOutput>, fullscreen: bool,
                      n: Node)
    requires v in views
    ensures n in FocusList(views, v, outputs, fullscreen)
            <==> n == WindowNode(v.id) || PinnedWindow(views, n) || exists o :: o in outputs && OutputHas(o, n)
  {
    PinnedNodesAre(Relinked(views, v));
    OutputNodesExact(outputs, n);
    if PinnedWindow(views, n) && n != WindowNode(v.id) {
      var w :| w in views && w.pinned && w.mapped && n == WindowNode(w.id);
      assert w in Relinked(views, v);
    }
    if PinnedWindow(Relinked(views, v), n) {
      var w :| w in Relinked(views, v) && w.pinned && w.mapped && n == WindowNode(w.id);
      assert w in views;
    }
  }

  /** Among pinned windows the one used longest ago ends on top. */
  lemma OldestPinnedOnTop(order: seq<Node>, views: seq<StackedWindow>, v: StackedWindow,
                          outputs: seq<StackedOutput>, i: nat, j: nat)
    requires Distinct(order) && DistinctWindows(Relinked(views, v)) && i < j < |Relinked(views, v)|
    requires var l := Relinked(views, v); l[i].pinned && l[i].mapped && l[j].pinned && l[j].mapped
    ensures var l := Relinked(views, v);
      Above(RaiseAll(order, FocusList(views, v, outputs, false)), WindowNode(l[j].id), WindowNode(l[i].id))
  {
    var l := Relinked(views, v);
    var one, two := WindowNode(l[i].id), WindowNode(l[j].id);
    PinnedTwo(l, i, j);
    OutputNodesAre(outputs);
    var low, high := [WindowNode(v.id)] + PinnedNodes(l[..i + 1]), PinnedNodes(l[i + 1..]) + OutputNodes(outputs);
    assert FocusList(views, v, outputs, false) == low + high;
    RaisedLaterIsAbove(order, low, high, two, one);
  }

  lemma PinnedTwo(l: seq<StackedWindow>, i: nat, j: nat)
    requires DistinctWindows(l) && i < j < |l| && l[i].pinned && l[i].mapped && l[j].pinned && l[j].mapped
    ensures PinnedNodes(l) == PinnedNodes(l[..i + 1]) + PinnedNodes(l[i + 1..])
    ensures WindowNode(l[i].id) in PinnedNodes(l[..i + 1]) && WindowNode(l[i].id) !in PinnedNodes(l[i + 1..])
    ensures WindowNode(l[j].id) in PinnedNodes(l[i + 1..])
  {
    var a, b := l[..i + 1], l[i + 1..];
    assert l == a + b;
    PinnedAppend(a, b);
    PinnedNodesAre(a);
    PinnedNodesAre(b);
    assert a[i] == l[i] && a[i] in a;
    assert b[j - i - 1] == l[j] && b[j - i - 1] in b;
    NotPinnedIn(l, i);
  }

  lemma {:induction false} PinnedAppend(a: seq<StackedWindow>, b: seq<StackedWindow>)
    ensures PinnedNodes(a + b) == PinnedNodes(a) + PinnedNodes(b)
  {
    if a == [] {
      assert a + b == b;
    } else {
      assert (a + b)[1..] == a[1..] + b;
      PinnedAppend(a[1..], b);
    }
  }

  lemma NotPinnedIn(l: seq<StackedWindow>, i: nat)
    requires DistinctWindows(l) && i < |l|
    ensures !PinnedWindow(l[i + 1..], WindowNode(l[i].id))
  {
    forall w | w in l[i + 1..]
      ensures w.id != l[i].id
    {
      var k :| 0 <= k < |l[i + 1..]| && l[i + 1..][k] == w;
      assert l[i + 1 + k] == w;
    }
  }

  /** Two pinned windows, the lower one being clicked: it gets the focus and stays below the other. */
  lemma FocusedBelowPinned()
    ensures var a, b := StackedWindow(1, true, true), StackedWindow(2, true, true);
      var r := RaiseAll([WindowNode(1), WindowNode(2)], FocusList([b, a], a, [], false));
      r == [WindowNode(1), WindowNode(2)] && Above(r, WindowNode(2), WindowNode(1))
  {
    var a, b := StackedWindow(1, true, true), StackedWindow(2, true, true);
    var one, two := WindowNode(1), WindowNode(2);
    assert Relinked([b, a], a) == [a, b];
    assert PinnedNodes([a, b]) == [one, two] by {
      assert [a, b][1..] == [b] && [b][1..] == [];
      assert PinnedNodes([b]) == [two];
    }
    assert FocusList([b, a], a, [], false) == [one, one, two];
    assert [one, one, two][1..] == [one, two] && [one, two][1..] == [two] && [two][1..] == [];
    assert Raise([one, two], one) == [two, one] && Raise([two, one], one) == [two, one];
    assert Raise([two, one], two) == [one, two];
  }
}
