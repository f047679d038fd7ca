/** Maximizing, fullscreen and snapping: where a window goes, and where it comes back to. */
module Geometry {
  import opened Zones

  // ---- one window ----

  /** What a handler reads from the server: the output found under the cursor or the window
      (the whole layout if none is), its usable area, and the decoration sizes. */
  datatype Env = Env(found: bool, full: Box, work: Box, border: int, title: int)

  datatype Top = Top(
    ready: bool,              // the client may be configured
    decorated: bool,          // server-side decorations
    maximized: bool, fullscreen: bool, snapped: Edge,
    saved: Box,
    x: int, y: int,           // position of the decorated window
    contentX: int, contentY: int,
    width: int, height: int,  // what the client committed last
    askedW: int, askedH: int, // the size last requested from the client
    tiled: set<Side>          // the tiled sides last sent
  )

  predicate Special(t: Top) {
    t.maximized || t.fullscreen || t.snapped != NoEdge
  }

  function BorderOf(t: Top, env: Env): int {
    if t.decorated then env.border else 0
  }

  function TitleOf(t: Top, env: Env): int {
    if t.decorated then env.title else 0
  }

  /** The decorated box of the window. */
  function Outer(t: Top, env: Env): Box {
    Box(t.x, t.y, t.width + 2 * BorderOf(t, env), t.height + TitleOf(t, env) + BorderOf(t, env))
  }

  function Save(t: Top): Top {
    if Special(t) then t else t.(saved := Box(t.x, t.y, t.width, t.height))
  }

  /** The decorated window fills `b`. */
  function Fill(t: Top, env: Env, b: Box): Top {
    var ox, oy := BorderOf(t, env), TitleOf(t, env);
    t.(x := b.x, y := b.y, contentX := ox, contentY := oy,
       askedW := b.width - 2 * ox, askedH := b.height - oy - ox)
  }

  /** The window, without its decorations, covers the output. */
  function Cover(t: Top, env: Env): Top {
    t.(x := env.full.x, y := env.full.y, contentX := 0, contentY := 0,
       askedW := env.full.width, askedH := env.full.height)
  }

  function Unsave(t: Top, env: Env): Top {
    t.(x := t.saved.x, y := t.saved.y, contentX := BorderOf(t, env), contentY := TitleOf(t, env),
       askedW := t.saved.width, askedH := t.saved.height)
  }

  function WithState(t: Top, maximized: bool, fullscreen: bool, edge: Edge): Top {
    t.(maximized := maximized, fullscreen := fullscreen, snapped := edge, tiled := TiledSides(edge))
  }

  function SnapTo(t: Top, edge: Edge, env: Env): Top {
    if !t.ready then t
    else if edge == NoEdge then (if Special(t) then WithState(Unsave(t, env), false, false, NoEdge) else t)
    else if !env.found then Save(t)
    else WithState(Fill(Save(t), env, Zone(edge, env.work)), false, false, edge)
  }

  function ApplyState(t: Top, maximized: bool, fullscreen: bool, env: Env): Top {
    if !t.ready then t
    else
      var placed :=
        if fullscreen then Cover(Save(t), env)
        else if maximized then Fill(Save(t), env, env.work)
        else if Special(t) then Unsave(t, env)
        else t;
      WithState(placed, maximized, fullscreen, NoEdge)
  }

  // ---- everything that can happen to the place of a window ----

  datatype Event =
    | Ready(ready: bool) | Decorated(env: Env)
    | Committed(width: int, height: int)                      // any geometry the client likes
    | Moved(x: int, y: int) | Resized(x: int, y: int, width: int, height: int)
    | ToggleMaximize(env: Env) | ToggleFullscreen(env: Env)
    | MaximizeRequested(on: bool, env: Env) | FullscreenRequested(on: bool, env: Env)
    | Snap(edge: Edge, env: Env)

  function Step(t: Top, e: Event): Top {
    match e
    case Ready(ready) => t.(ready := ready)
    case Decorated(env) => if t.ready then t.(decorated := true, contentX := env.border, contentY := env.title) else t
    case Committed(w, h) => t.(width := w, height := h)
    case Moved(x, y) => t.(x := x, y := y)
    case Resized(x, y, w, h) => t.(x := x, y := y, askedW := w, askedH := h)
    case ToggleMaximize(env) => ApplyState(t, !t.maximized, t.fullscreen, env)
    case ToggleFullscreen(env) => ApplyState(t, t.maximized, !t.fullscreen, env)
    case MaximizeRequested(on, env) => ApplyState(t, on, t.fullscreen, env)
    case FullscreenRequested(on, env) => ApplyState(t, t.maximized, on, env)
    case Snap(edge, env) => SnapTo(t, edge, env)
  }

  function Run(t: Top, es: seq<Event>): Top
    decreases |es|
  {
    if es == [] then t else Run(Step(t, es[0]), es[1..])
  }

  /** Snapped, maximized and fullscreen exclude one another as they should, and the client was
      told about the tiled sides. */
  predicate Consistent(t: Top) {
    (t.snapped != NoEdge ==> !t.maximized && !t.fullscreen) && t.tiled == TiledSides(t.snapped)
  }

  lemma StateConsistent(t: Top, maximized: bool, fullscreen: bool, env: Env)
    requires Consistent(t)
    ensures Consistent(ApplyState(t, maximized, fullscreen, env))
  {
  }

  lemma SnapConsistent(t: Top, edge: Edge, env: Env)
    requires Consistent(t)
    ensures Consistent(SnapTo(t, edge, env))
  {
  }

  lemma StepConsistent(t: Top, e: Event)
    requires Consistent(t)
    ensures Consistent(Step(t, e))
  {
    match e
    case ToggleMaximize(env) => StateConsistent(t, !t.maximized, t.fullscreen, env);
    case ToggleFullscreen(env) => StateConsistent(t, t.maximized, !t.fullscreen, env);
    case MaximizeRequested(on, env) => StateConsistent(t, on, t.fullscreen, env);
    case FullscreenRequested(on, env) => StateConsistent(t, t.maximized, on, env);
    case Snap(edge, env) => SnapConsistent(t, edge, env);
    case _ =>
  }

  lemma {:induction false} RunConsistent(t: Top, es: seq<Event>)
    requires Consistent(t)
    ensures Consistent(Run(t, es))
    decreases |es|
  {
    if es != [] {
      StepConsistent(t, es[0]);
      RunConsistent(Step(t, es[0]), es[1..]);
    }
  }

  // ---- coming back ----

  /** Special in every state of the run, the first and the last included. */
  predicate AlwaysSpecial(t: Top, es: seq<Event>)
    decreases |es|
  {
    Special(t) && (es == [] || AlwaysSpecial(Step(t, es[0]), es[1..]))
  }

  lemma StateSaves(t: Top, maximized: bool, fullscreen: bool, env: Env)
    requires Special(t)
    ensures ApplyState(t, maximized, fullscreen, env).saved == t.saved
  {
  }

  lemma StepSaves(t: Top, e: Event)
    requires Special(t)
    ensures Step(t, e).saved == t.saved
  {
    match e
    case ToggleMaximize(env) => StateSaves(t, !t.maximized, t.fullscreen, env);
    case ToggleFullscreen(env) => StateSaves(t, t.maximized, !t.fullscreen, env);
    case MaximizeRequested(on, env) => StateSaves(t, on, t.fullscreen, env);
    case FullscreenRequested(on, env) => StateSaves(t, t.maximized, on, env);
    case _ =>
  }

  lemma {:induction false} SavedKept(t: Top, es: seq<Event>)
    requires AlwaysSpecial(t, es)
    ensures Run(t, es).saved == t.saved && Special(Run(t, es))
    decreases |es|
  {
    if es != [] {
      StepSaves(t, es[0]);
      SavedKept(Step(t, es[0]), es[1..]);
    }
  }

  /** Only four kinds of events leave or enter the normal state, and they do it by the book. */
  lemma Departure(t: Top, e: Event)
    requires !Special(t) && Special(Step(t, e))
    ensures Step(t, e).saved == Box(t.x, t.y, t.width, t.height)
  {
  }

  lemma Return(t: Top, e: Event)
    requires Special(t) && !Special(Step(t, e))
    ensures var r := Step(t, e);
      && r.x == t.saved.x && r.y == t.saved.y && r.askedW == t.saved.width && r.askedH == t.saved.height
      && r.tiled == {} && r.snapped == NoEdge && !r.maximized && !r.fullscreen
  {
  }

  /** However long a window stays maximized, fullscreen or snapped, and whatever it is asked to
      do meanwhile, when it becomes normal again it is back where it was when it left and is
      asked for the size it had then. */
  lemma AwayAndBack(t: Top, leave: Event, es: seq<Event>, back: Event)
    requires !Special(t) && AlwaysSpecial(Step(t, leave), es)
    requires !Special(Step(Run(Step(t, leave), es), back))
    ensures var r := Step(Run(Step(t, leave), es), back);
      && r.x == t.x && r.y == t.y && r.askedW == t.width && r.askedH == t.height
  {
    SavedKept(Step(t, leave), es);
    Departure(t, leave);
    Return(Run(Step(t, leave), es), back);
  }

  /** The place a window owns: position and size it is to have when it is normal. */
  datatype Place = Place(x: int, y: int, width: int, height: int)

  /** The reference: moving or resizing a normal window changes the place it owns, becoming
      special keeps the place it has at that moment, nothing else matters. */
  function Owned(t: Top, e: Event, p: Place): Place {
    if Special(t) then p
    else if Special(Step(t, e)) then Place(t.x, t.y, t.width, t.height)
    else match e
      case Moved(x, y) => p.(x := x, y := y)
      case Resized(x, y, w, h) => Place(x, y, w, h)
      case _ => p
  }

  function OwnedAfter(t: Top, es: seq<Event>, p: Place): Place
    decreases |es|
  {
    if es == [] then p else OwnedAfter(Step(t, es[0]), es[1..], Owned(t, es[0], p))
  }

  ghost predicate Owns(t: Top, p: Place) {
    if Special(t) then t.saved == Box(p.x, p.y, p.width, p.height)
    else t.x == p.x && t.y == p.y && t.askedW == p.width && t.askedH == p.height
  }

  lemma OwnedStep(t: Top, e: Event, p: Place)
    requires Owns(t, p)
    ensures Owns(Step(t, e), Owned(t, e, p))
  {
    if Special(t) && !Special(Step(t, e)) {
      Return(t, e);
    } else if !Special(t) && Special(Step(t, e)) {
      Departure(t, e);
    }
  }

  /** After any word of events, a normal window is at the place it owns. */
  lemma {:induction false} WordRestores(t: Top, es: seq<Event>, p: Place)
    requires Owns(t, p)
    ensures Owns(Run(t, es), OwnedAfter(t, es, p))
    decreases |es|
  {
    if es != [] {
      OwnedStep(t, es[0], p);
      WordRestores(Step(t, es[0]), es[1..], Owned(t, es[0], p));
    }
  }

  // ---- filling the zone ----

  /** A window at `b` whose content leaves a border at the left, right and bottom of it and a title bar at
      the top. */
  predicate Framed(t: Top, border: int, title: int, b: Box) {
    && t.x == b.x && t.y == b.y && t.contentX == border && t.contentY == title
    && border + t.askedW + border == b.width && title + t.askedH + border == b.height
  }

  /** Once the client commits the size it was asked for, a snapped window, decorations
      included, fills its zone and nothing else. */
  lemma SnapFills(t: Top, edge: Edge, env: Env)
    requires t.ready && edge != NoEdge && env.found
    ensures var s := SnapTo(t, edge, env);
      && s.snapped == edge && !s.maximized && !s.fullscreen
      && Framed(s, if t.decorated then env.border else 0, if t.decorated then env.title else 0, Zone(edge, env.work))
      && Outer(Step(s, Committed(s.askedW, s.askedH)), env) == Zone(edge, env.work)
  {
  }

  lemma MaximizeFills(t: Top, env: Env)
    requires t.ready
    ensures var s := ApplyState(t, true, false, env);
      && s.maximized && !s.fullscreen && s.snapped == NoEdge
      && Framed(s, if t.decorated then env.border else 0, if t.decorated then env.title else 0, env.work)
      && Outer(Step(s, Committed(s.askedW, s.askedH)), env) == env.work
  {
  }

  /** A fullscreen window, maximized or not, covers the whole output with its content alone. */
  lemma FullscreenCovers(t: Top, maximized: bool, env: Env)
    requires t.ready
    ensures var s := ApplyState(t, maximized, true, env); var c := Step(s, Committed(s.askedW, s.askedH));
      && s.fullscreen && s.maximized == maximized && s.snapped == NoEdge
      && Box(c.x + c.contentX, c.y + c.contentY, c.width, c.height) == env.full
  {
  }

  // ---- what each request makes of the states ----

  /** The states after an event: a toggle turns its own state over, a request sets it, a snap ends both,
      and nothing else touches them. A client that may not be configured yet is left alone. */
  lemma StatesAfter(t: Top, e: Event)
    ensures var r := Step(t, e);
      && (e.ToggleMaximize? && t.ready ==> r.maximized == !t.maximized && r.fullscreen == t.fullscreen)
      && (e.ToggleFullscreen? && t.ready ==> r.fullscreen == !t.fullscreen && r.maximized == t.maximized)
      && (e.MaximizeRequested? && t.ready ==> r.maximized == e.on && r.fullscreen == t.fullscreen)
      && (e.FullscreenRequested? && t.ready ==> r.fullscreen == e.on && r.maximized == t.maximized)
      && (e.Snap? && t.ready && (e.env.found || e.edge == NoEdge) ==>
            !r.maximized && !r.fullscreen && r.snapped == e.edge)
      && (e.Ready? || e.Decorated? || e.Committed? || e.Moved? || e.Resized? ==>
            r.maximized == t.maximized && r.fullscreen == t.fullscreen && r.snapped == t.snapped && r.saved == t.saved)
      && (!t.ready && !e.Ready? && !e.Committed? && !e.Moved? && !e.Resized? ==> r == t)
  {
  }

  /** A move, a resize and a commit take effect in every state of the window, and each on its own fields. */
  lemma PlaceAfter(t: Top, e: Event)
    ensures var r := Step(t, e);
      && (e.Moved? ==> r.x == e.x && r.y == e.y && r.askedW == t.askedW && r.askedH == t.askedH)
      && (e.Resized? ==> r.x == e.x && r.y == e.y && r.askedW == e.width && r.askedH == e.height)
      && (e.Moved? || e.Resized? ==> r.width == t.width && r.height == t.height)
      && (e.Committed? ==> r == t.(width := e.width, height := e.height))
      && (e.Ready? ==> r == t.(ready := e.ready))
  {
  }

  /** A snap where there is no output, and un-snapping a normal window, change nothing that is seen. */
  lemma SnapRefused(t: Top, edge: Edge, env: Env)
    requires if edge == NoEdge then !Special(t) else !env.found
    ensures SnapTo(t, edge, env) == t.(saved := SnapTo(t, edge, env).saved)
    ensures Special(t) || !t.ready || edge == NoEdge ==> SnapTo(t, edge, env) == t
  {
  }

  /** A normal window that is asked to be normal stays where it is. */
  lemma NormalStays(t: Top, env: Env)
    requires !Special(t)
    ensures ApplyState(t, false, false, env) == t.(tiled := ApplyState(t, false, false, env).tiled)
  {
  }

  /** Decorations that arrive move the content inside the window, and not the window. */
  lemma DecoratedMovesContent(t: Top, env: Env)
    ensures var r := Step(t, Decorated(env));
      && r == t.(decorated := r.decorated, contentX := r.contentX, contentY := r.contentY)
      && (t.ready ==> r.decorated && r.contentX == env.border && r.contentY == env.title)
  {
  }
}
