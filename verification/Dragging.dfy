/** Interactive move and resize: the grab that follows the cursor. */
module Dragging {
  import opened Arith
  import opened Lists
  import opened Zones
  import opened Toplevels
  import D = Drags
  import G = Geometry

  /** The new bounds along one axis: the dragged edge follows the cursor, the other stays, and
      they keep one pixel apart. */
  function DragLow(low: int, high: int, at: int, dragLow: bool): int {
    if dragLow then (if at >= high then high - 1 else at) else low
  }

  function DragHigh(low: int, high: int, at: int, dragLow: bool, dragHigh: bool): int {
    if !dragLow && dragHigh then (if at <= low then low + 1 else at) else high
  }

  class Grab {
    var cursor: D.Cursor
    var restorePending: bool
    var grabX: real
    var grabY: real
    var startX: real
    var startY: real
    var indicator: Option<Box>
    var box: Box
    var sides: set<Side>
    ghost var through: bool   // a motion has moved the window

    constructor (cursor: D.Cursor)
      ensures indicator == None && !restorePending
    {
      this.cursor := cursor;
      restorePending, grabX, grabY, startX, startY := false, 0.0, 0.0, 0.0, 0.0;
      indicator, through := None, false;
      box, sides := Box(0, 0, 0, 0), {};
    }

    ghost function Hold(): D.Hold
      reads this
    {
      D.Hold(restorePending, grabX, grabY, startX, startY)
    }

    ghost function Model(t: Toplevel): D.Drag
      reads this, t
    {
      D.Drag(Hold(), cursor, through, indicator, t.Model())
    }

    /** The start point is only taken, and only used, for a window that waits to be restored. */
    method BeginMove(t: Toplevel)
      modifies this
      ensures Model(t) == D.Begin(old(Hold()), t.Model(), old(cursor), old(indicator))
    {
      restorePending := false;
      if t.maximized || t.fullscreen || t.snapped != NoEdge {
        restorePending := true;
        startX, startY := cursor.x, cursor.y;
      }
      grabX := cursor.x - t.x as real;
      grabY := cursor.y - t.y as real;
      through := false;
    }

    method UnmaximizeToCursor(t: Toplevel, x: real, y: real, env: G.Env)
      modifies t
      ensures t.Model() == D.Restored(old(t.Model()), x, y, env)
    {
      if !t.maximized && !t.fullscreen && t.snapped == NoEdge {
        return;
      }
      ghost var before := t.Model();
      var part := D.Part(x, t.x, t.width + 2 * (if t.decorated then env.border else 0));
      MakeNormal(t, env);
      D.MadeNormalKeeps(before, env);
      PutUnderCursor(t, x, y, part, env);
    }

    method PutUnderCursor(t: Toplevel, x: real, y: real, part: real, env: G.Env)
      modifies t`x, t`y
      ensures var before := old(t.Model());
        t.Model() == before.(x := Toward(x - D.Scaled(part, D.RestoredWidth(before, env))),
                             y := Toward(y - G.TitleOf(before, env) as real / 2.0))
    {
      var border := if t.decorated then env.border else 0;
      var title := if t.decorated then env.title else 0;
      var restored := t.saved.width + 2 * border;
      PutAt(t, Toward(x - D.Scaled(part, restored)), Toward(y - title as real / 2.0));
    }

    method MakeNormal(t: Toplevel, env: G.Env)
      modifies t
      ensures t.Model() == D.MadeNormal(old(t.Model()), env)
    {
      if t.snapped != NoEdge {
        t.SnapTo(NoEdge, env);
      } else {
        t.ApplyState(false, false, env);
      }
    }

    method PutAt(t: Toplevel, x: int, y: int)
      modifies t`x, t`y
      ensures t.Model() == G.Step(old(t.Model()), G.Moved(x, y))
    {
      t.x := x;
      t.y := y;
    }

    /** Follows the cursor. A special window stays as it is until the cursor has moved far enough. */
    method ProcessMove(t: Toplevel, c: D.Cursor)
      modifies this, t
      ensures Model(t) == D.Motion(old(Model(t)), c)
    {
      cursor := c;
      if restorePending {
        var dx, dy := c.x - startX, c.y - startY;
        if dx * dx + dy * dy < D.DRAG_THRESHOLD * D.DRAG_THRESHOLD {
          return;
        }
        UnmaximizeToCursor(t, c.x, c.y, c.env);
        grabX := c.x - t.x as real;
        grabY := c.y - t.y as real;
        restorePending := false;
      }
      PutAt(t, Toward(c.x - grabX), Toward(c.y - grabY));
      through := true;
      Show(DetectSnap(c.x, c.y, c.output, c.env.work));
    }

    method Show(found: Detected)
      modifies `indicator
      ensures indicator == D.Preview(found)
    {
      if found.edge != NoEdge || found.maximize {
        indicator := Some(found.zone);
      } else {
        indicator := None;
      }
    }

    /** The button is released. */
    method Release(t: Toplevel)
      modifies this, t
      ensures t.Model() == D.Release(old(Model(t)))
      ensures !restorePending && indicator == None && cursor == old(cursor)
    {
      restorePending := false;
      indicator := None;
      var found := DetectSnap(cursor.x, cursor.y, cursor.output, cursor.env.work);
      if found.maximize {
        t.ToggleMaximize(cursor.env);
      } else if found.edge != NoEdge {
        t.SnapTo(found.edge, cursor.env);
      }
    }

    /** `gx`, `gy` is where the client's geometry starts inside its surface. */
    method BeginResize(t: Toplevel, x: real, y: real, sides: set<Side>, gx: int, gy: int, env: G.Env)
      modifies this
      ensures this.sides == sides && !restorePending
      ensures box == Box(t.x + G.BorderOf(t.Model(), env) + gx, t.y + G.TitleOf(t.Model(), env) + gy, t.width, t.height)
      ensures x - grabX == (box.x + if AtRight in sides then box.width else 0) as real
      ensures y - grabY == (box.y + if AtBottom in sides then box.height else 0) as real
    {
      restorePending := false;
      var ox := if t.decorated then env.border else 0;
      var oy := if t.decorated then env.title else 0;
      var sx, sy := t.x + ox + gx, t.y + oy + gy;
      var edgeX := (sx + if AtRight in sides then t.width else 0) as real;
      var edgeY := (sy + if AtBottom in sides then t.height else 0) as real;
      grabX, grabY := x - edgeX, y - edgeY;
      box := Box(sx, sy, t.width, t.height);
      this.sides := sides;
    }

    method ProcessResize(t: Toplevel, x: real, y: real, gx: int, gy: int, env: G.Env)
      modifies t
      ensures var left := DragLow(box.x, box.x + box.width, Toward(x - grabX), AtLeft in sides);
        var right := DragHigh(box.x, box.x + box.width, Toward(x - grabX), AtLeft in sides, AtRight in sides);
        var top := DragLow(box.y, box.y + box.height, Toward(y - grabY), AtTop in sides);
        var bottom := DragHigh(box.y, box.y + box.height, Toward(y - grabY), AtTop in sides, AtBottom in sides);
        t.Model() == G.Step(old(t.Model()),
          G.Resized(left - G.BorderOf(old(t.Model()), env) - gx, top - G.TitleOf(old(t.Model()), env) - gy,
                    right - left, bottom - top))
    {
      var edgeX, edgeY := Toward(x - grabX), Toward(y - grabY);
      var left, right := box.x, box.x + box.width;
      var top, bottom := box.y, box.y + box.height;
      if AtTop in sides {
        top := edgeY;
        if top >= bottom {
          top := bottom - 1;
        }
      } else if AtBottom in sides {
        bottom := edgeY;
        if bottom <= top {
          bottom := top + 1;
        }
      }
      if AtLeft in sides {
        left := edgeX;
        if left >= right {
          left := right - 1;
        }
      } else if AtRight in sides {
        right := edgeX;
        if right <= left {
          right := left + 1;
        }
      }
      var ox := if t.decorated then env.border else 0;
      var oy := if t.decorated then env.title else 0;
      Reshape(t, left - ox - gx, top - oy - gy, right - left, bottom - top);
    }

    method Reshape(t: Toplevel, x: int, y: int, w: int, h: int)
      modifies t`x, t`y, t`askedW, t`askedH
      ensures t.Model() == G.Step(old(t.Model()), G.Resized(x, y, w, h))
    {
      t.x, t.y := x, y;
      t.askedW, t.askedH := w, h;
    }

    /** Grabbing a normal window and moving the cursor by a whole number of pixels moves the
        window by exactly as much; grabbing a border and not moving changes nothing but to ask
        for the size the window has. */
    method MoveBy(t: Toplevel, c: D.Cursor, dx: int, dy: int)
      requires !G.Special(t.Model()) && c.x == cursor.x + dx as real && c.y == cursor.y + dy as real
      modifies this, t
      ensures t.Model() == G.Step(old(t.Model()), G.Moved(old(t.x) + dx, old(t.y) + dy))
    {
      ghost var top := t.Model();
      BeginMove(t);
      ProcessMove(t, c);
      TowardInt(top.x + dx);
      TowardInt(top.y + dy);
      assert c.x - grabX == (top.x + dx) as real;
      assert c.y - grabY == (top.y + dy) as real;
    }

    method GrabBorder(t: Toplevel, x: real, y: real, sides: set<Side>, gx: int, gy: int, env: G.Env)
      requires t.width > 0 && t.height > 0
      requires !(AtLeft in sides && AtRight in sides) && !(AtTop in sides && AtBottom in sides)
      modifies this, t
      ensures t.Model() == old(t.Model()).(askedW := old(t.width), askedH := old(t.height))
    {
      BeginResize(t, x, y, sides, gx, gy, env);
      TowardInt(box.x + if AtRight in sides then box.width else 0);
      TowardInt(box.y + if AtBottom in sides then box.height else 0);
      ProcessResize(t, x, y, gx, gy, env);
    }
  }

  /** Along each axis a resize leaves at least one pixel and moves one edge at most: the edge
      that is not dragged stays where it was. */
  lemma ResizeKeepsOppositeEdge(low: int, high: int, at: int, dragLow: bool, dragHigh: bool)
    ensures var l, h := DragLow(low, high, at, dragLow), DragHigh(low, high, at, dragLow, dragHigh);
      && (dragLow || dragHigh || low < high ==> h - l >= 1)
      && (dragLow ==> h == high) && (!dragLow ==> l == low) && (!dragLow && !dragHigh ==> h == high)
      && (dragLow && at < high ==> l == at) && (!dragLow && dragHigh && at > low ==> h == at)
  {
  }
}
