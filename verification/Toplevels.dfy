/** The window object whose fields the handlers update; each method makes the change that
    `Geometry` describes. */
module Toplevels {
  import opened Zones
  import G = Geometry

  class Toplevel {
    var ready: bool
    var decorated: bool
    var maximized: bool
    var fullscreen: bool
    var snapped: Edge
    var saved: Box
    var x: int
    var y: int
    var contentX: int
    var contentY: int
    var width: int
    var height: int
    var askedW: int
    var askedH: int
    var tiled: set<Side>

    constructor ()
      ensures Model() == G.Top(false, false, false, false, NoEdge, Box(0, 0, 0, 0), 0, 0, 0, 0, 0, 0, 0, 0, {})
    {
      ready, decorated, maximized, fullscreen, snapped := false, false, false, false, NoEdge;
      saved, x, y, contentX, contentY := Box(0, 0, 0, 0), 0, 0, 0, 0;
      width, height, askedW, askedH, tiled := 0, 0, 0, 0, {};
    }

    ghost function Model(): G.Top
      reads this
    {
      G.Top(ready, decorated, maximized, fullscreen, snapped, saved, x, y, contentX, contentY,
          width, height, askedW, askedH, tiled)
    }

    method SendState(maximized: bool, fullscreen: bool, edge: Edge)
      modifies `maximized, `fullscreen, `snapped, `tiled
      ensures Model() == G.WithState(old(Model()), maximized, fullscreen, edge)
    {
      this.maximized := maximized;
      this.fullscreen := fullscreen;
      snapped := edge;
      tiled := TiledSides(edge);
    }

    method SnapTo(edge: Edge, env: G.Env)
      modifies this
      ensures Model() == G.SnapTo(old(Model()), edge, env)
    {
      if !ready {
        return;
      }
      var wasSpecial := maximized || fullscreen || snapped != NoEdge;
      if edge == NoEdge {
        if !wasSpecial {
          return;
        }
        RestoreSaved(env);
        SendState(false, false, NoEdge);
        return;
      }
      Save();
      if !env.found {
        return;
      }
      FillBox(Zone(edge, env.work), env);
      SendState(false, false, edge);
    }

    /** Keeps the place of a normal window. */
    method Save()
      modifies `saved
      ensures Model() == G.Save(old(Model()))
    {
      if !(maximized || fullscreen || snapped != NoEdge) {
        saved := Box(x, y, width, height);
      }
    }

    method RestoreSaved(env: G.Env)
      modifies `x, `y, `contentX, `contentY, `askedW, `askedH
      ensures Model() == G.Unsave(old(Model()), env)
    {
      contentX := if decorated then env.border else 0;
      contentY := if decorated then env.title else 0;
      x, y := saved.x, saved.y;
      askedW, askedH := saved.width, saved.height;
    }

    /** Moves the decorated window to the box and asks the client for what remains inside. */
    method FillBox(b: Box, env: G.Env)
      modifies `x, `y, `contentX, `contentY, `askedW, `askedH
      ensures Model() == G.Fill(old(Model()), env, b)
    {
      var ox := if decorated then env.border else 0;
      var oy := if decorated then env.title else 0;
      x, y, contentX, contentY := b.x, b.y, ox, oy;
      askedW, askedH := b.width - 2 * ox, b.height - oy - ox;
    }

    method ApplyState(maximized: bool, fullscreen: bool, env: G.Env)
      modifies this
      ensures Model() == G.ApplyState(old(Model()), maximized, fullscreen, env)
    {
      if !ready {
        return;
      }
      var wasSpecial := this.maximized || this.fullscreen || snapped != NoEdge;
      if maximized || fullscreen {
        Save();
        FillOutput(fullscreen, env);
      } else if wasSpecial {
        RestoreSaved(env);
      }
      SendState(maximized, fullscreen, NoEdge);
    }

    /** A fullscreen window covers the output and its taskbar, a maximized one stops at the bar. */
    method FillOutput(fullscreen: bool, env: G.Env)
      modifies `x, `y, `contentX, `contentY, `askedW, `askedH
      ensures Model() == if fullscreen then G.Cover(old(Model()), env) else G.Fill(old(Model()), env, env.work)
    {
      if fullscreen {
        x, y, contentX, contentY := env.full.x, env.full.y, 0, 0;
        askedW, askedH := env.full.width, env.full.height;
      } else {
        FillBox(env.work, env);
      }
    }

    method ToggleMaximize(env: G.Env)
      modifies this
      ensures Model() == G.Step(old(Model()), G.ToggleMaximize(env))
    {
      ApplyState(!maximized, fullscreen, env);
    }

    method ToggleFullscreen(env: G.Env)
      modifies this
      ensures Model() == G.Step(old(Model()), G.ToggleFullscreen(env))
    {
      ApplyState(maximized, !fullscreen, env);
    }
  }
}
