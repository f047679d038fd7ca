/** Moving a window with the mouse, from the press to the release: what is shown on the way and
    what the release makes of it. */
module Drags {
  import opened Arith
  import opened Lists
  import opened Zones
  import G = Geometry

  const DRAG_THRESHOLD := 5.0

  /** Where the cursor is, the output under it, if any, and what a handler reads there. */
  datatype Cursor = Cursor(x: real, y: real, output: Option<Box>, env: G.Env)

  /** Whether a special window still waits for a real drag, and the offsets that the press took. */
  datatype Hold = Hold(pending: bool, grabX: real, grabY: real, startX: real, startY: real)

  /** A grab in progress; `through` tells whether a motion has moved the window yet, `indicator`
      is the zone shown on the screen. */
  datatype Drag = Drag(hold: Hold, cursor: Cursor, through: bool, indicator: Option<Box>, top: G.Top)

  /** How far across a box of some width the cursor is, as a fraction of the width. */
  function Part(x: real, left: int, width: int): (r: real)
    ensures 0.0 <= r <= 1.0
  {
    var part := if width > 0 then (x - left as real) / width as real else 0.0;
    if part < 0.0 then 0.0 else if part > 1.0 then 1.0 else part
  }

  /** The window as it is once it is normal again. */
  function MadeNormal(t: G.Top, env: G.Env): G.Top {
    if t.snapped != NoEdge then G.SnapTo(t, NoEdge, env) else G.ApplyState(t, false, false, env)
  }

  /** The decorated width that the window had when it was normal. */
  function RestoredWidth(t: G.Top, env: G.Env): int {
    t.saved.width + 2 * G.BorderOf(t, env)
  }

  function Scaled(part: real, width: int): real {
    part * width as real
  }

  /** How far into the restored window the cursor is to be. */
  function Offset(t: G.Top, x: real, env: G.Env): real {
    Scaled(Part(x, t.x, G.Outer(t, env).width), RestoredWidth(t, env))
  }

  /** A special window made normal and put under the cursor; a normal one is left alone. */
  function Restored(t: G.Top, x: real, y: real, env: G.Env): G.Top {
    if !G.Special(t) then t
    else
      MadeNormal(t, env).(
        x := Toward(x - Offset(t, x, env)),
        y := Toward(y - G.TitleOf(t, env) as real / 2.0))
  }

  /** The press; `was` is what the last grab left behind. */
  function Begin(was: Hold, t: G.Top, c: Cursor, indicator: Option<Box>): Drag {
    var pending := G.Special(t);
    var h := Hold(pending, c.x - t.x as real, c.y - t.y as real,
                  if pending then c.x else was.startX, if pending then c.y else was.startY);
    Drag(h, c, false, indicator, t)
  }

  /** The cursor has left the neighbourhood of the press. */
  predicate Far(h: Hold, x: real, y: real) {
    (x - h.startX) * (x - h.startX) + (y - h.startY) * (y - h.startY) >= DRAG_THRESHOLD * DRAG_THRESHOLD
  }

  function Detect(c: Cursor): Detected {
    DetectSnap(c.x, c.y, c.output, c.env.work)
  }

  function Preview(d: Detected): Option<Box> {
    if d.edge != NoEdge || d.maximize then Some(d.zone) else None
  }

  function Rehold(h: Hold, t: G.Top, x: real, y: real): Hold {
    h.(pending := false, grabX := x - t.x as real, grabY := y - t.y as real)
  }

  function Held(h: Hold, t: G.Top, x: real, y: real): G.Top {
    t.(x := Toward(x - h.grabX), y := Toward(y - h.grabY))
  }

  /** One motion of the cursor. */
  function Motion(d: Drag, c: Cursor): Drag {
    if d.hold.pending && !Far(d.hold, c.x, c.y) then d.(cursor := c)
    else
      var t := if d.hold.pending then Restored(d.top, c.x, c.y, c.env) else d.top;
      var h := if d.hold.pending then Rehold(d.hold, t, c.x, c.y) else d.hold;
      Drag(h, c, true, Preview(Detect(c)), Held(h, t, c.x, c.y))
  }

  /** The button is released where the cursor is. Maximizing is a toggle. */
  function Release(d: Drag): G.Top {
    var found := Detect(d.cursor);
    if found.maximize then G.ApplyState(d.top, !d.top.maximized, d.top.fullscreen, d.cursor.env)
    else if found.edge != NoEdge then G.SnapTo(d.top, found.edge, d.cursor.env)
    else d.top
  }

  /** While the button is held the cursor moves, and clients and panels do what they like. */
  datatype Event = Moved(c: Cursor) | Changed(e: G.Event)

  function Step(d: Drag, e: Event): Drag {
    match e
    case Moved(c) => Motion(d, c)
    case Changed(e) => d.(top := G.Step(d.top, e))
  }

  function Run(d: Drag, es: seq<Event>): Drag
    decreases |es|
  {
    if es == [] then d else Run(Step(d, es[0]), es[1..])
  }

  // ---- a special window under the cursor ----

  /** Going back saves nothing. */
  lemma MadeNormalKeeps(t: G.Top, env: G.Env)
    requires G.Special(t)
    ensures MadeNormal(t, env).decorated == t.decorated && MadeNormal(t, env).saved == t.saved
  {
  }

  /** A special window that is restored is normal and gets its size back; the cursor keeps its
      place across the width within a pixel, is on the window, and holds the title bar halfway up. */
  lemma RestoredUnderCursor(t: G.Top, x: real, y: real, env: G.Env)
    requires G.Special(t) && t.ready && RestoredWidth(t, env) >= 0
    ensures var r := Restored(t, x, y, env); var width := RestoredWidth(t, env);
      && !G.Special(r) && r.saved == t.saved && r.askedW == t.saved.width && r.askedH == t.saved.height
      && r.tiled == {} && r.contentX == G.BorderOf(t, env) && r.contentY == G.TitleOf(t, env)
      && -1.0 < (x - r.x as real) - Offset(t, x, env) < 1.0
      && r.x as real - 1.0 < x < (r.x + width) as real + 1.0
      && -1.0 < (y - r.y as real) - (G.TitleOf(t, env) as real / 2.0) < 1.0
  {
    ScaledWithin(Part(x, t.x, G.Outer(t, env).width), RestoredWidth(t, env));
    AtOffset(x, Offset(t, x, env), RestoredWidth(t, env));
    MadeNormalIs(t, env);
  }

  lemma MadeNormalIs(t: G.Top, env: G.Env)
    requires G.Special(t) && t.ready
    ensures MadeNormal(t, env) == G.WithState(G.Unsave(t, env), false, false, NoEdge)
  {
  }

  lemma AtOffset(x: real, offset: real, width: int)
    requires 0.0 <= offset <= width as real
    ensures var n := Toward(x - offset);
      -1.0 < (x - n as real) - offset < 1.0 && n as real - 1.0 < x < (n + width) as real + 1.0
  {
  }

  /** The fraction is the cursor's own while it is over the box, and the nearer end otherwise. */
  lemma PartIs(x: real, left: int, width: int)
    requires width > 0
    ensures left as real <= x <= (left + width) as real ==> Scaled(Part(x, left, width), width) == x - left as real
    ensures x <= left as real ==> Part(x, left, width) == 0.0
    ensures (left + width) as real <= x ==> Part(x, left, width) == 1.0
  {
    var w := width as real;
    var q := (x - left as real) / w;
    assert q * w == x - left as real;
    if q > 1.0 {
      NonNegative(q - 1.0, w);
      assert (q - 1.0) * w == q * w - w;
    }
    if q < 0.0 {
      NonNegative(-q, w);
      assert -q * w == -(q * w);
    }
    if q == 1.0 {
      assert q * w == w;
    }
  }

  lemma NonNegative(a: real, b: real)
    requires a >= 0.0 && b >= 0.0
    ensures a * b >= 0.0
  {
  }

  /** A fraction of a length lies within the length. */
  lemma ScaledWithin(part: real, width: int)
    requires 0.0 <= part <= 1.0 && width >= 0
    ensures 0.0 <= Scaled(part, width) <= width as real
  {
    var length := width as real;
    assert (1.0 - part) * length == length - part * length;
    NonNegative(1.0 - part, length);
    NonNegative(part, length);
  }

  /** One motion: a waiting window stays as it is as long as the cursor is near the press; then it is
      restored and held where it is put. */
  lemma ThresholdExact(d: Drag, c: Cursor)
    requires d.through ==> !d.hold.pending
    ensures var r := Motion(d, c);
      && (r.through <==> !d.hold.pending || Far(d.hold, c.x, c.y))
      && (r.through <==> !r.hold.pending)
      && (!r.through ==> r == d.(cursor := c))
      && (r.through && d.hold.pending ==>
            r.top == Restored(d.top, c.x, c.y, c.env) && r.hold == Rehold(d.hold, r.top, c.x, c.y))
      && r.hold.startX == d.hold.startX && r.hold.startY == d.hold.startY
  {
    if d.hold.pending {
      var t := Restored(d.top, c.x, c.y, c.env);
      TowardInt(t.x);
      TowardInt(t.y);
    }
  }

  /** A motion to a point at least five pixels from the press at `x`, `y`. */
  predicate FarFrom(x: real, y: real, e: Event) {
    e.Moved? && (e.c.x - x) * (e.c.x - x) + (e.c.y - y) * (e.c.y - y) >= 25.0
  }

  lemma {:induction false} WaitsOrNot(d: Drag, es: seq<Event>)
    requires d.hold.pending <==> !d.through
    ensures var r := Run(d, es);
      && (r.hold.pending <==> !r.through)
      && (r.through <==> d.through || exists e :: e in es && FarFrom(d.hold.startX, d.hold.startY, e))
    decreases |es|
  {
    if es != [] {
      var m := Step(d, es[0]);
      assert m.through <==> d.through || FarFrom(d.hold.startX, d.hold.startY, es[0]);
      WaitsOrNot(m, es[1..]);
      assert forall e :: e in es <==> e == es[0] || e in es[1..];
    }
  }

  lemma {:induction false} NormalMoves(d: Drag, es: seq<Event>)
    requires !d.hold.pending
    ensures var r := Run(d, es); !r.hold.pending && (r.through <==> d.through || exists e :: e in es && e.Moved?)
    decreases |es|
  {
    if es != [] {
      var m := Step(d, es[0]);
      NormalMoves(m, es[1..]);
      assert forall e :: e in es <==> e == es[0] || e in es[1..];
    }
  }

  /** Over every grab, whatever else happens meanwhile: a window that was special at the press is
      moved if and only if some motion went beyond the threshold, however often it came back; a normal
      one if and only if the cursor moved. */
  lemma MovedExact(was: Hold, t: G.Top, c: Cursor, indicator: Option<Box>, es: seq<Event>)
    ensures Run(Begin(was, t, c, indicator), es).through
            <==> exists e :: e in es && if G.Special(t) then FarFrom(c.x, c.y, e) else e.Moved?
  {
    if G.Special(t) {
      WaitsOrNot(Begin(was, t, c, indicator), es);
    } else {
      NormalMoves(Begin(was, t, c, indicator), es);
    }
  }

  /** Once the window moves, only the last motion counts, however the cursor got there. */
  lemma {:induction false} PathForgotten(d: Drag, es: seq<Event>, c: Cursor)
    requires !d.hold.pending && forall e | e in es :: e.Moved?
    ensures Run(d, es + [Moved(c)]) == Motion(d, c)
    decreases |es|
  {
    if es == [] {
      assert es + [Moved(c)] == [Moved(c)] && [Moved(c)][1..] == [];
    } else {
      assert es[0] in es && forall e | e in es[1..] :: e in es;
      assert (es + [Moved(c)])[1..] == es[1..] + [Moved(c)];
      PathForgotten(Motion(d, es[0].c), es[1..], c);
    }
  }

  /** A normal window moves by as many pixels as the cursor, on whichever path. */
  lemma DragMovesBy(was: Hold, t: G.Top, c: Cursor, indicator: Option<Box>, es: seq<Event>, last: Cursor,
                    dx: int, dy: int)
    requires !G.Special(t) && forall e | e in es :: e.Moved?
    requires last.x == c.x + dx as real && last.y == c.y + dy as real
    ensures Run(Begin(was, t, c, indicator), es + [Moved(last)]).top == t.(x := t.x + dx, y := t.y + dy)
  {
    var d := Begin(was, t, c, indicator);
    PathForgotten(d, es, last);
    TowardInt(t.x + dx);
    TowardInt(t.y + dy);
    assert last.x - d.hold.grabX == (t.x + dx) as real;
    assert last.y - d.hold.grabY == (t.y + dy) as real;
  }

  // ---- the release keeps what the preview promised ----

  /** The indicator shows what was found where the cursor is, if the window has been moved; and
      what it showed at the press if it has not. */
  ghost predicate Tracked(d: Drag, before: Option<Box>) {
    if d.through then !d.hold.pending && d.indicator == Preview(Detect(d.cursor)) else d.indicator == before
  }

  lemma {:induction false} RunTracked(d: Drag, es: seq<Event>, before: Option<Box>)
    requires Tracked(d, before)
    ensures Tracked(Run(d, es), before)
    decreases |es|
  {
    if es != [] {
      RunTracked(Step(d, es[0]), es[1..], before);
    }
  }

  /** The window is in the state that a detected zone stands for, and fills the zone once the client
      commits the size it is asked for. */
  ghost predicate Fills(r: G.Top, found: Detected, env: G.Env, zone: Box) {
    && (if found.maximize then r.maximized && !r.fullscreen else r.snapped == found.edge)
    && G.Outer(G.Step(r, G.Committed(r.askedW, r.askedH)), env) == zone
  }

  ghost predicate SameState(a: G.Top, b: G.Top) {
    a.maximized == b.maximized && a.fullscreen == b.fullscreen && a.snapped == b.snapped
  }

  /** The window fills the zone that was shown, or, if none was, is as maximized, fullscreen or
      snapped as before. */
  ghost predicate PromiseKept(d: Drag) {
    var found := Detect(d.cursor);
    if d.indicator.None? then SameState(Release(d), d.top)
    else Preview(found).Some? && Fills(Release(d), found, d.cursor.env, d.indicator.value)
  }

  ghost predicate Sensible(d: Drag) {
    && d.top.ready && G.Consistent(d.top)
    && (d.cursor.output.Some? ==> d.cursor.env.found)
  }

  /** What a caller could check before the release: the zone shown is the one where the cursor is, and
      the window is not maximized or fullscreen at the top edge; or none is shown, and there is nothing
      where the cursor is but the edge the window is snapped to. */
  predicate ReleaseAsShown(d: Drag) {
    var found := Detect(d.cursor);
    if d.indicator.Some? then
      d.indicator == Preview(found) && !(found.maximize && (d.top.maximized || d.top.fullscreen))
    else !found.maximize && (found.edge == NoEdge || found.edge == d.top.snapped)
  }

  /** Over every grab, whatever clients and panels do meanwhile and whatever an earlier grab left on
      the screen, the release keeps the promise exactly then. Once the window has been moved, the
      zone shown is the right one, and only the toggle is left to go wrong. */
  lemma ReleaseExact(was: Hold, t: G.Top, c: Cursor, indicator: Option<Box>, es: seq<Event>)
    requires Sensible(Run(Begin(was, t, c, indicator), es))
    ensures var d := Run(Begin(was, t, c, indicator), es); var found := Detect(d.cursor);
      && (PromiseKept(d) <==> ReleaseAsShown(d))
      && (d.through ==> (PromiseKept(d) <==> !(found.maximize && (d.top.maximized || d.top.fullscreen))))
  {
    var d := Run(Begin(was, t, c, indicator), es);
    RunTracked(Begin(was, t, c, indicator), es, indicator);
    ReleaseOf(d);
    PreviewIsZone(d.cursor.x, d.cursor.y, d.cursor.output, d.cursor.env.work);
  }

  lemma ReleaseOf(d: Drag)
    requires Sensible(d)
    ensures PromiseKept(d) <==> ReleaseAsShown(d)
  {
    var found, env := Detect(d.cursor), d.cursor.env;
    PreviewIsZone(d.cursor.x, d.cursor.y, d.cursor.output, env.work);
    if found.maximize {
      G.MaximizeFills(d.top, env);
    } else if found.edge != NoEdge {
      G.SnapFills(d.top, found.edge, env);
    }
  }

  /** A grab during which the window changes through the grab only. */
  ghost predicate Undisturbed(d: Drag, t: G.Top) {
    && d.top.ready && G.Consistent(d.top)
    && (if d.through then !d.hold.pending && !G.Special(d.top)
        else d.top == t && d.hold.pending == G.Special(t))
  }

  lemma {:induction false} MotionsOnly(d: Drag, t: G.Top, es: seq<Event>)
    requires Undisturbed(d, t) && forall e | e in es :: e.Moved?
    ensures Undisturbed(Run(d, es), t)
    decreases |es|
  {
    if es != [] {
      assert es[0] in es && forall e | e in es[1..] :: e in es;
      MotionsOnly(Motion(d, es[0].c), t, es[1..]);
    }
  }

  /** When nothing else changes the window, every real drag, of a maximized window too, ends as
      previewed: a window released at the top edge is maximized. */
  lemma DragKeepsPromise(was: Hold, t: G.Top, c: Cursor, indicator: Option<Box>, es: seq<Event>)
    requires t.ready && G.Consistent(t) && forall e | e in es :: e.Moved?
    requires var d := Run(Begin(was, t, c, indicator), es); d.cursor.output.Some? ==> d.cursor.env.found
    ensures var d := Run(Begin(was, t, c, indicator), es);
      && (d.through ==> PromiseKept(d) && !G.Special(d.top))
      && (!d.through ==> d.top == t && d.indicator == indicator)
  {
    MotionsOnly(Begin(was, t, c, indicator), t, es);
    RunTracked(Begin(was, t, c, indicator), es, indicator);
    ReleaseExact(was, t, c, indicator, es);
  }

  // ---- clicks in the top row of an output ----

  const SCREEN := G.Env(true, Box(0, 0, 1920, 1080), Box(0, 0, 1920, 1050), 3, 20)
  const TOP_ROW := Cursor(500.0, 0.0, Some(Box(0, 0, 1920, 1080)), SCREEN)

  /** A decorated window that lies at the top of the screen. */
  const WINDOW := G.Top(true, true, false, false, NoEdge, Box(0, 0, 0, 0), 300, 0, 3, 20, 640, 480, 640, 480, {})

  /** A click on the title bar there, without any motion, shows nothing and yet maximizes a normal
      window, and un-maximizes a maximized one. */
  lemma ClickToggles(was: Hold, maximized: bool)
    ensures var t := if maximized then G.Step(WINDOW, G.ToggleMaximize(SCREEN)) else WINDOW;
      var d := Begin(was, t, TOP_ROW, None);
      && t.maximized == maximized && In(G.Outer(t, SCREEN), 500, 0) && G.Consistent(t)
      && d.indicator == None && Release(d).maximized == !maximized && !PromiseKept(d)
  {
    assert Detect(TOP_ROW).maximize;
  }

  /** A client that maximizes itself while it is dragged along the top edge is un-maximized by the
      release, although the indicator shows the whole usable area. */
  lemma MaximizedMeanwhile(was: Hold)
    ensures var es := [Moved(TOP_ROW), Changed(G.MaximizeRequested(true, SCREEN))];
      var d := Run(Begin(was, WINDOW, TOP_ROW, None), es);
      d.indicator == Some(SCREEN.work) && d.top.maximized && !Release(d).maximized && !PromiseKept(d)
  {
    var d0 := Begin(was, WINDOW, TOP_ROW, None);
    var d1 := Step(d0, Moved(TOP_ROW));
    var d2 := Step(d1, Changed(G.MaximizeRequested(true, SCREEN)));
    var es := [Moved(TOP_ROW), Changed(G.MaximizeRequested(true, SCREEN))];
    assert es[1..] == [es[1]] && es[1..][1..] == [];
    assert Run(d0, es) == Run(d1, es[1..]) == Run(d2, []);
    assert Detect(TOP_ROW).maximize;
  }

  /** A client asks for a second move in mid-drag: the press does not hide the indicator, and a
      release away from the edges leaves the window alone although the zone is still shown. */
  lemma IndicatorLeft(was: Hold, c: Cursor)
    requires c.output == Some(Box(0, 0, 1920, 1080)) && c.env == SCREEN && Away(c.x, c.y, c.output.value)
    ensures var first := Run(Begin(was, WINDOW, TOP_ROW, None), [Moved(TOP_ROW)]);
      var second := Begin(first.hold, first.top, c, first.indicator);
      second.indicator == Some(SCREEN.work) && Release(second) == second.top && !PromiseKept(second)
  {
    var d0 := Begin(was, WINDOW, TOP_ROW, None);
    assert [Moved(TOP_ROW)][1..] == [];
    assert Run(d0, [Moved(TOP_ROW)]) == Run(Motion(d0, TOP_ROW), []);
    assert Detect(TOP_ROW).maximize;
  }
}
