/** The event handlers as the program runs them: windows are objects updated in place, lists
    are scanned and relinked. Each handler is proved to make the transition of `Desktop`. */
module Servers {
  import opened Lists
  import opened Views
  import D = Desktop
  import Safety
  import Always

  /** The Alt-Tab overlay: the rows it offers and the highlighted one. */
  class Panel {
    var rows: seq<View>
    var selected: nat
    const mods: D.Mods

    constructor (rows: seq<View>, mods: D.Mods)
      ensures this.rows == rows && this.mods == mods && selected == 0
    {
      this.rows, this.mods, this.selected := rows, mods, 0;
    }

    /** Moves the highlight one step through the snapshot. */
    method Advance(backwards: bool)
      requires selected < |rows|
      modifies this`selected
      ensures selected == D.Advanced(|rows|, old(selected), backwards)
    {
      var count := |rows|;
      selected := if backwards then (selected + count - 1) % count else (selected + 1) % count;
    }
  }

  ghost function FlagsOf(all: set<View>): map<View, Window>
    reads all
  {
    map v | v in all :: v.Flags()
  }

  ghost function SwitcherOf(sw: Panel?): D.Switcher
    reads sw
  {
    if sw == null then D.Closed else D.Open(sw.rows, sw.selected, sw.mods)
  }

  class Server {
    ghost var all: set<View>
    var views: seq<View>
    var current: int
    var maxVisible: int
    var keyboard: D.Keyboard
    var focusedLayer: Option<nat>
    var layers: set<nat>
    var locked: bool
    var lock: Option<nat>
    var lockSurfaces: seq<nat>
    var sw: Panel?
    var bars: seq<seq<View>>

    constructor ()
      ensures Valid() && all == {} && Model() == D.START
    {
      all, views, current, maxVisible := {}, [], 0, 1;
      keyboard, focusedLayer, layers := D.Nobody, None, {};
      locked, lock, lockSurfaces := false, None, [];
      sw, bars := null, [];
    }

    ghost predicate Valid()
      reads this, sw
    {
      && (forall v | v in views :: v in all)
      && (keyboard.OnView? ==> keyboard.view in all)
      && (sw != null ==> sw.selected < |sw.rows| && forall v | v in sw.rows :: v in all)
    }

    /** The state that the objects stand for. */
    ghost function Model(): D.State
      reads this, all, sw
    {
      D.State(FlagsOf(all), views, current, maxVisible, keyboard, focusedLayer, layers, locked, lock,
              lockSurfaces, SwitcherOf(sw), bars)
    }

    // ---- visibility and focus ----

    method UpdateVisibility(v: View)
      requires Valid() && v in all
      modifies v`enabled
      ensures Valid() && Model() == D.UpdateVisibility(old(Model()), v)
    {
      v.enabled := !v.minimized && (v.pinned || v.workspace == current);
      assert FlagsOf(all) == old(FlagsOf(all))[v := v.Flags()];
    }

    method Minimize(v: View, min: bool)
      requires Valid() && v in all
      modifies v`enabled, v`minimized
      ensures Valid() && Model() == D.SetMinimized(old(Model()), v, min)
    {
      v.minimized := min;
      assert FlagsOf(all) == old(FlagsOf(all))[v := v.Flags()];
      UpdateVisibility(v);
    }

    method SetUrgent(v: View, urgent: bool)
      requires Valid() && v in all
      modifies v`urgent
      ensures Valid() && Model() == D.SetUrgent(old(Model()), v, urgent)
    {
      v.urgent := urgent;
      assert FlagsOf(all) == old(FlagsOf(all))[v := v.Flags()];
    }

    method Focus(v: View)
      requires Valid() && v in all
      modifies `views, `keyboard, `focusedLayer, v
      ensures Valid() && Model() == D.Focus(old(Model()), v)
    {
      if !v.mapped {
        return;
      }
      if locked {
        return;
      }
      Wake(v);
      TakeKeyboard(v);
    }

    method Wake(v: View)
      requires Valid() && v in all
      modifies v
      ensures Valid() && Model() == D.Woken(old(Model()), v)
    {
      if v.minimized {
        Minimize(v, false);
      }
      SetUrgent(v, false);
    }

    method TakeKeyboard(v: View)
      requires Valid() && v in all
      modifies `views, `keyboard, `focusedLayer
      ensures Valid() && Model() == D.TakeKeyboard(old(Model()), v)
    {
      if keyboard == D.OnView(v) {
        return;
      }
      views := [v] + Remove(views, v);
      keyboard := D.OnView(v);
      focusedLayer := None;
    }

    /** The first window in MRU order that the current workspace shows. */
    method FindShown(skip: Option<View>) returns (next: Option<View>)
      requires Valid()
      ensures next == D.FirstShown(Model().win, views, current, skip)
    {
      ghost var win := Model().win;
      next := None;
      for i := 0 to |views|
        invariant next == None
        invariant D.FirstShown(win, views, current, skip) == D.FirstShown(win, views[i..], current, skip)
      {
        var v := views[i];
        assert views[i..][0] == v && views[i..][1..] == views[i + 1..];
        if Some(v) != skip && v.mapped && !v.minimized && (v.pinned || v.workspace == current) {
          next := Some(v);
          break;
        }
      }
    }

    method FocusNext(skip: Option<View>)
      requires Valid()
      modifies `views, `keyboard, `focusedLayer, all
      ensures Valid() && Model() == D.FocusNext(old(Model()), skip)
    {
      if locked {
        return;
      }
      var next := FindShown(skip);
      FocusOrClear(next);
    }

    method FocusOrClear(next: Option<View>)
      requires Valid() && (next.Some? ==> next.value in all)
      modifies `views, `keyboard, `focusedLayer, all
      ensures Valid() && Model() == D.FocusOrClear(old(Model()), next)
    {
      if next.Some? {
        Focus(next.value);
      } else {
        keyboard := D.Nobody;
      }
    }

    // ---- workspaces ----

    method RefreshAll()
      requires Valid()
      modifies all
      ensures Valid() && Model() == old(Model()).(win := D.RefreshedAll(old(Model())))
    {
      for i := 0 to |views|
        invariant Valid()
        invariant forall v | v in all ::
          v.Flags() == if v in views[..i] then D.Refreshed(old(v.Flags()), current) else old(v.Flags())
      {
        UpdateVisibility(views[i]);
      }
      assert views[..|views|] == views;
    }

    method CancelSwitcher()
      requires Valid()
      modifies `sw
      ensures Valid() && sw == null && Model() == old(Model()).(switcher := D.Closed)
    {
      sw := null;
    }

    method MakeCurrent(workspace: int)
      requires Valid()
      modifies `current, `maxVisible, `sw
      ensures Valid() && sw == null && Model() == D.WithCurrent(old(Model()), workspace)
    {
      current := workspace;
      if workspace > maxVisible {
        maxVisible := workspace;
      }
      CancelSwitcher();
    }

    method WorkspaceSwitch(workspace: int)
      requires Valid()
      modifies this, all
      ensures Valid() && all == old(all) && (sw == null || sw == old(sw))
      ensures Model() == D.SwitchWorkspace(old(Model()), workspace)
    {
      if workspace < 0 || workspace >= D.NUM_WORKSPACES || workspace == current {
        return;
      }
      MakeCurrent(workspace);
      RefreshAll();
      var focus := FindShown(None);
      FocusOrClear(focus);
    }

    method MoveToWorkspace(v: View, ws: int)
      requires Valid() && v in all
      modifies this, all, sw
      ensures Valid() && all == old(all) && (sw == null || sw == old(sw))
      ensures Model() == D.MoveToWorkspace(old(Model()), v, ws)
    {
      if ws < 0 || ws >= D.NUM_WORKSPACES || (!v.pinned && v.workspace == ws) {
        return;
      }
      Rehome(v, ws);
      SwitcherRemove(v);
      FocusNext(Some(v));
    }

    method Rehome(v: View, ws: int)
      requires Valid() && v in all
      modifies `maxVisible, v
      ensures Valid() && Model() == D.Rehomed(old(Model()), v, ws)
    {
      Send(v, ws);
      if ws > maxVisible {
        maxVisible := ws;
      }
      UpdateVisibility(v);
    }

    method Send(v: View, ws: int)
      requires Valid() && v in all
      modifies v`pinned, v`workspace
      ensures Valid() && Model() == D.Sent(old(Model()), v, ws)
    {
      v.pinned := false;
      v.workspace := ws;
      assert FlagsOf(all) == old(FlagsOf(all))[v := v.Flags()];
    }

    method TogglePin(v: View)
      requires Valid() && v in all
      modifies v`pinned, v`workspace
      ensures Valid() && Model() == D.TogglePin(old(Model()), v)
    {
      v.pinned := !v.pinned;
      if !v.pinned {
        v.workspace := current;
      }
      assert FlagsOf(all) == old(FlagsOf(all))[v := v.Flags()];
    }

    // ---- Alt-Tab ----

    /** A window left: its row goes, and the highlight stays on the same window if it can. */
    method SwitcherRemove(v: View)
      requires Valid()
      modifies `sw, sw
      ensures Valid() && (sw == null || sw == old(sw))
      ensures Model() == D.SwitcherRemove(old(Model()), v)
    {
      if sw == null {
        return;
      }
      for i := 0 to |sw.rows|
        invariant v !in sw.rows[..i]
      {
        if sw.rows[i] != v {
          continue;
        }
        ghost var before := sw.rows;
        RemoveAt(before, i);
        sw.rows := sw.rows[..i] + sw.rows[i + 1..];
        if sw.rows == [] {
          sw := null;
          return;
        }
        if sw.selected > i {
          sw.selected := sw.selected - 1;
        } else if sw.selected >= |sw.rows| {
          sw.selected := |sw.rows| - 1;
        }
        return;
      }
    }

    method Candidates() returns (rows: seq<View>)
      requires Valid()
      ensures rows == D.Candidates(Model())
    {
      ghost var s := Model();
      ghost var p := D.Offered(s);
      rows := [];
      for i := 0 to |views|
        invariant rows == Filter(views[..i], p)
      {
        var v := views[i];
        FilterAppend(views[..i], [v], p);
        FilterCons(v, [], p);
        assert views[..i] + [v] == views[..i + 1] && [v] + [] == [v];
        if v.mapped && v.workspace == current {
          rows := rows + [v];
        }
      }
      assert views[..|views|] == views;
    }

    method Cycle(mods: D.Mods, backwards: bool)
      requires Valid()
      modifies `sw, sw
      ensures Valid() && (sw == null || sw == old(sw) || fresh(sw))
      ensures Model() == D.Cycle(old(Model()), mods, backwards)
    {
      if sw == null {
        var rows := Candidates();
        if rows == [] {
          return;
        }
        sw := new Panel(rows, mods);
      }
      sw.Advance(backwards);
    }

    method HandleModifiers(mods: D.Mods)
      requires Valid()
      modifies this, all
      ensures Valid() && all == old(all) && (sw == null || sw == old(sw))
      ensures Model() == D.ModifiersChanged(old(Model()), mods)
    {
      if sw == null || mods * sw.mods != {} {
        return;
      }
      var v := sw.rows[sw.selected];
      sw := null;
      Focus(v);
    }

    // ---- windows coming and going ----

    method OnNew() returns (v: View)
      requires Valid()
      modifies `all
      ensures Valid() && fresh(v) && all == old(all) + {v}
      ensures Model() == D.Step(old(Model()), D.NewWindow(v))
    {
      v := new View();
      Adopt(v);
    }

    /** A window object as it was made belongs to the server from now on. */
    method Adopt(v: View)
      requires Valid() && v !in all && v.Flags() == NEW_WINDOW
      modifies `all
      ensures Valid() && all == old(all) + {v}
      ensures Model() == D.Step(old(Model()), D.NewWindow(v))
    {
      all := all + {v};
      assert FlagsOf(all) == old(FlagsOf(all))[v := v.Flags()];
    }

    /** A window links itself into the list once, while it is mapped. */
    method HandleDestroy(v: View)
      requires Valid() && v in all && (v in views ==> v.mapped) && v !in Remove(views, v)
      requires sw == null || v !in sw.rows
      modifies `all, `views, `keyboard
      ensures Valid() && all == old(all) - {v}
      ensures Model() == D.Step(old(Model()), D.WindowDestroyed(v))
    {
      Delist(v);
      Unfocus(v);
      Forget(v);
    }

    method Delist(v: View)
      requires Valid() && v in all
      modifies `views
      ensures Valid() && Model() == D.Delisted(old(Model()), v)
      ensures views == if v.mapped then Remove(old(views), v) else old(views)
    {
      if v.mapped {
        views := Remove(views, v);
      }
    }

    method Forget(v: View)
      requires Valid() && v in all && v !in views && keyboard != D.OnView(v)
      requires sw == null || v !in sw.rows
      modifies `all
      ensures Valid() && all == old(all) - {v} && Model() == D.Forgotten(old(Model()), v)
    {
      all := all - {v};
      assert FlagsOf(all) == old(FlagsOf(all)) - {v};
    }

    method List(v: View)
      requires Valid() && v in all
      modifies `views, v
      ensures Valid() && Model() == D.Listed(old(Model()), v)
    {
      Open(v);
      views := [v] + views;
      UpdateVisibility(v);
    }

    method Open(v: View)
      requires Valid() && v in all
      modifies v`mapped, v`workspace
      ensures Valid()
      ensures Model() == D.Put(old(Model()), v, D.Get(old(Model()), v).(mapped := true, workspace := current))
    {
      v.mapped := true;
      v.workspace := current;
      assert FlagsOf(all) == old(FlagsOf(all))[v := v.Flags()];
    }

    /** Every taskbar gets a button for the new window. */
    method AddButtons(v: View)
      requires Valid()
      modifies `bars
      ensures Valid() && Model() == old(Model()).(bars := D.AddButton(old(bars), v))
    {
      for i := 0 to |bars|
        invariant |bars| == |old(bars)| && Valid()
        invariant forall j :: 0 <= j < |bars| ==> bars[j] == if j < i then old(bars)[j] + [v] else old(bars)[j]
      {
        bars := bars[i := bars[i] + [v]];
      }
      assert bars == D.AddButton(old(bars), v);
    }

    method HandleMap(v: View)
      requires Valid() && v in all
      modifies this, all
      ensures Valid() && all == old(all) && sw == old(sw)
      ensures Model() == D.MapWindow(old(Model()), v)
    {
      List(v);
      AddButtons(v);
      Focus(v);
    }

    /** The button of `v` on one taskbar, erased where it is found. */
    method ButtonRemoved(buttons: seq<View>, v: View) returns (rest: seq<View>)
      ensures rest == Remove(buttons, v)
    {
      for i := 0 to |buttons|
        invariant v !in buttons[..i]
      {
        if buttons[i] != v {
          continue;
        }
        RemoveAt(buttons, i);
        return buttons[..i] + buttons[i + 1..];
      }
      assert buttons[..|buttons|] == buttons;
      return buttons;
    }

    method RemoveButtons(v: View)
      requires Valid()
      modifies `bars
      ensures Valid() && Model() == old(Model()).(bars := D.RemoveButton(old(bars), v))
    {
      for i := 0 to |bars|
        invariant |bars| == |old(bars)| && Valid()
        invariant forall j :: 0 <= j < |bars| ==> bars[j] == if j < i then Remove(old(bars)[j], v) else old(bars)[j]
      {
        var rest := ButtonRemoved(bars[i], v);
        bars := bars[i := rest];
      }
      assert bars == D.RemoveButton(old(bars), v);
    }

    method Unlist(v: View)
      requires Valid() && v in all
      modifies `keyboard, `views, v`mapped, v`enabled
      ensures Valid() && Model() == D.Unlisted(old(Model()), v)
    {
      Unfocus(v);
      Close(v);
      ghost var s := Model();
      views := Remove(views, v);
      assert Model() == s.(views := views);
    }

    method Close(v: View)
      requires Valid() && v in all
      modifies v`mapped, v`enabled
      ensures Valid() && Model() == D.Put(old(Model()), v, D.Get(old(Model()), v).(mapped := false, enabled := false))
    {
      v.mapped := false;
      v.enabled := false;
      assert FlagsOf(all) == old(FlagsOf(all))[v := v.Flags()];
    }

    method Unfocus(v: View)
      requires Valid()
      modifies `keyboard
      ensures Valid() && Model() == D.Unfocused(old(Model()), v)
    {
      if keyboard == D.OnView(v) {
        keyboard := D.Nobody;
      }
    }

    method HandleUnmap(v: View)
      requires Valid() && v in all
      modifies this, all, sw
      ensures Valid() && all == old(all) && (sw == null || sw == old(sw))
      ensures Model() == D.UnmapWindow(old(Model()), v)
    {
      Unlist(v);
      SwitcherRemove(v);
      RemoveButtons(v);
      FocusNext(Some(v));
    }

    // ---- requests from clients, panels and the user ----

    method MinimizeAndRefocus(v: View)
      requires Valid() && v in all
      modifies `views, `keyboard, `focusedLayer, all
      ensures Valid() && Model() == D.Minimize(old(Model()), v)
    {
      Minimize(v, true);
      FocusNext(Some(v));
    }

    method Restore(v: View)
      requires Valid() && v in all
      modifies `views, `keyboard, `focusedLayer, all
      ensures Valid() && Model() == D.Restore(old(Model()), v)
    {
      Minimize(v, false);
      Focus(v);
    }

    method Activate(v: View)
      requires Valid() && v in all
      modifies this, all
      ensures Valid() && all == old(all) && (sw == null || sw == old(sw))
      ensures Model() == D.Activate(old(Model()), v)
    {
      if v.workspace != current {
        WorkspaceSwitch(v.workspace);
      }
      Focus(v);
    }

    method HandleActivationRequest(v: View, valid: bool)
      requires Valid() && v in all
      modifies this, all
      ensures Valid() && all == old(all) && (sw == null || sw == old(sw))
      ensures Model() == D.RequestActivation(old(Model()), v, valid)
    {
      if !v.mapped {
        return;
      }
      if valid {
        Activate(v);
      } else if keyboard != D.OnView(v) {
        SetUrgent(v, true);
      }
    }

    method ClickTask(v: View)
      requires Valid() && v in all
      modifies this, all
      ensures Valid() && all == old(all) && (sw == null || sw == old(sw))
      ensures Model() == D.ClickTask(old(Model()), v)
    {
      if !v.pinned && v.workspace != current {
        WorkspaceSwitch(v.workspace);
      }
      Focus(v);
    }

    // ---- layer surfaces and the session lock ----

    method LayerMap(l: nat, interactive: bool)
      requires Valid()
      modifies `layers, `keyboard, `focusedLayer
      ensures Valid() && Model() == D.LayerMapped(old(Model()), l, interactive)
    {
      layers := layers + {l};
      if interactive {
        if locked {
          return;
        }
        keyboard := D.OnLayer(l);
        focusedLayer := Some(l);
      }
    }

    method LayerUnmap(l: nat)
      requires Valid()
      modifies `layers, `views, `keyboard, `focusedLayer, all
      ensures Valid() && Model() == D.LayerUnmapped(old(Model()), l)
    {
      ForgetLayer(l);
      if focusedLayer == Some(l) {
        focusedLayer := None;
        assert Model() == old(Model()).(layers := layers, focusedLayer := None);
        FocusNext(None);
      }
    }

    method ForgetLayer(l: nat)
      requires Valid()
      modifies `layers
      ensures Valid() && Model() == old(Model()).(layers := old(layers) - {l})
    {
      layers := layers - {l};
    }

    method LayerDestroy(l: nat)
      requires Valid()
      modifies `focusedLayer
      ensures Valid() && Model() == D.LayerDestroyed(old(Model()), l)
    {
      if focusedLayer == Some(l) {
        focusedLayer := None;
      }
    }

    method OnNewLock(k: nat)
      requires Valid()
      modifies `lock, `locked, `sw, `keyboard
      ensures Valid() && (sw == null || sw == old(sw)) && Model() == D.NewLock(old(Model()), k)
    {
      if lock.Some? {
        return;
      }
      lock := Some(k);
      locked := true;
      CancelSwitcher();
      keyboard := D.Nobody;
    }

    method Unlock()
      requires Valid()
      modifies `locked, `views, `keyboard, `focusedLayer, all
      ensures Valid() && Model() == D.Unlock(old(Model()))
    {
      locked := false;
      FocusNext(None);
    }

    method NewLockSurface(k: nat)
      requires Valid()
      modifies `lockSurfaces, `keyboard
      ensures Valid() && Model() == D.NewLockSurface(old(Model()), k)
    {
      lockSurfaces := [k] + lockSurfaces;
      keyboard := D.OnLock(k);
    }

    /** Another surface of the live lock takes over the keyboard, if there is one. */
    method LockSurfaceDestroy(k: nat)
      requires Valid()
      modifies `lockSurfaces, `keyboard
      ensures Valid() && Model() == D.LockSurfaceGone(old(Model()), k)
    {
      if keyboard == D.OnLock(k) {
        var other := OtherSurface(k);
        if other.Some? {
          keyboard := D.OnLock(other.value);
        } else if locked {
          keyboard := D.Nobody;
        }
      }
      lockSurfaces := Filter(lockSurfaces, x => x != k);
    }

    method OtherSurface(k: nat) returns (other: Option<nat>)
      ensures var rest := Filter(lockSurfaces, x => x != k);
        other == if lock.Some? && rest != [] then Some(rest[0]) else None
    {
      ghost var p := (x: nat) => x != k;
      other := None;
      if lock.Some? {
        for i := 0 to |lockSurfaces|
          invariant other == None && Filter(lockSurfaces, p) == Filter(lockSurfaces[i..], p)
        {
          assert lockSurfaces[i..][1..] == lockSurfaces[i + 1..];
          if lockSurfaces[i] != k {
            other := Some(lockSurfaces[i]);
            break;
          }
        }
      }
    }

    method EnsureLockFocus()
      requires Valid()
      modifies `keyboard
      ensures Valid() && Model() == D.EnsureLockFocus(old(Model()))
    {
      if !locked || lock.None? || lockSurfaces == [] {
        return;
      }
      if keyboard.OnLock? {
        return;
      }
      keyboard := D.OnLock(lockSurfaces[0]);
    }

    // ---- the event loop ----

    method HandleWindow(e: D.Event)
      requires Valid() && D.Possible(Model(), e)
      requires e.WindowMapped? || e.WindowUnmapped? || e.MinimizeRequest? || e.RestoreRequest?
               || e.WindowClicked? || e.TaskClicked? || e.ActivateRequest? || e.ActivationToken?
      modifies this, all, sw
      ensures Valid() && Model() == D.Step(old(Model()), e)
    {
      match e
      case WindowMapped(v) => HandleMap(v);
      case WindowUnmapped(v) => HandleUnmap(v);
      case MinimizeRequest(v) => MinimizeAndRefocus(v);
      case RestoreRequest(v) => Restore(v);
      case WindowClicked(v) => Focus(v);
      case TaskClicked(v) => ClickTask(v);
      case ActivateRequest(v) => Activate(v);
      case ActivationToken(v, valid) => HandleActivationRequest(v, valid);
    }

    /** Key bindings act on the window that has the keyboard, if one has. */
    method HandleAction(e: D.Event)
      requires Valid()
      requires e.WorkspaceAction? || e.MoveAction? || e.MinimizeAction? || e.PinAction? || e.CycleAction?
               || e.ModifiersEvent? || e.CycleCancelled?
      modifies this, all, sw
      ensures Valid() && Model() == D.Step(old(Model()), e)
    {
      match e
      case WorkspaceAction(ws) => WorkspaceSwitch(ws);
      case MoveAction(ws) => if keyboard.OnView? { MoveToWorkspace(keyboard.view, ws); }
      case MinimizeAction => if keyboard.OnView? { MinimizeAndRefocus(keyboard.view); }
      case PinAction => if keyboard.OnView? { TogglePin(keyboard.view); }
      case CycleAction(mods, backwards) => Cycle(mods, backwards);
      case ModifiersEvent(mods) => HandleModifiers(mods);
      case CycleCancelled => CancelSwitcher();
    }

    method HandleShell(e: D.Event)
      requires Valid() && D.Possible(Model(), e)
      requires e.LayerMap? || e.LayerUnmap? || e.LayerDestroy? || e.BarCreated? || e.BarDeleted?
      modifies this, all
      ensures Valid() && Model() == D.Step(old(Model()), e)
    {
      match e
      case LayerMap(l, interactive) => LayerMap(l, interactive);
      case LayerUnmap(l) => LayerUnmap(l);
      case LayerDestroy(l) => LayerDestroy(l);
      case BarCreated => CreateTaskbar();
      case BarDeleted(i) => bars := bars[..i] + bars[i + 1..];
    }

    method HandleLock(e: D.Event)
      requires Valid()
      requires e.LockRequest? || e.UnlockRequest? || e.LockDestroyed?
      modifies this, all
      ensures Valid() && Model() == D.Step(old(Model()), e)
    {
      match e
      case LockRequest(k) => OnNewLock(k);
      case UnlockRequest => Unlock();
      case LockDestroyed => lock := None;
    }

    method HandleLockSurface(e: D.Event)
      requires Valid()
      requires e.LockSurfaceCreated? || e.LockSurfaceDestroyed? || e.KeyPressed?
      modifies this
      ensures Valid() && Model() == D.Step(old(Model()), e)
    {
      match e
      case LockSurfaceCreated(k) => NewLockSurface(k);
      case LockSurfaceDestroyed(k) => LockSurfaceDestroy(k);
      case KeyPressed => EnsureLockFocus();
    }

    /** A new taskbar gets a button for every open window, in MRU order. */
    method CreateTaskbar()
      requires Valid()
      modifies `bars
      ensures Valid() && Model() == old(Model()).(bars := old(bars) + [views])
    {
      var buttons := [];
      for i := 0 to |views|
        invariant buttons == views[..i]
      {
        buttons := buttons + [views[i]];
      }
      assert views[..|views|] == views;
      bars := bars + [buttons];
    }

    /** Window objects appear and disappear. */
    method HandleObject(e: D.Event)
      requires Valid() && (e.NewWindow? || e.WindowDestroyed?) && D.Possible(Model(), e)
      requires e.NewWindow? ==> e.v.Flags() == NEW_WINDOW
      requires Safety.WindowsListed(Model()) && Safety.SwitcherRight(Model())
      modifies this
      ensures Valid() && Model() == D.Step(old(Model()), e)
    {
      match e
      case NewWindow(v) => Adopt(v);
      case WindowDestroyed(v) => HandleDestroy(v);
    }

    /** One turn of the event loop keeps everything that `Safety` promises. A new window is an object
        as its constructor leaves it; only a window that is listed nowhere is destroyed. */
    method Handle(e: D.Event)
      requires Valid() && D.Possible(Model(), e)
      requires e.NewWindow? ==> e.v.Flags() == NEW_WINDOW
      requires e.NewWindow? || e.WindowDestroyed? ==> Safety.WindowsListed(Model()) && Safety.SwitcherRight(Model())
      modifies this, all, sw
      ensures Valid() && Model() == D.Step(old(Model()), e)
      ensures old(Safety.Inv(Model())) && D.Guarded(old(Model()), e) ==> Safety.Inv(Model())
      ensures old(Safety.Loose(Model())) ==> Safety.Loose(Model())
    {
      ghost var s := Model();
      if e.WindowMapped? || e.WindowUnmapped? || e.MinimizeRequest? || e.RestoreRequest?
         || e.WindowClicked? || e.TaskClicked? || e.ActivateRequest? || e.ActivationToken? {
        HandleWindow(e);
      } else if e.WorkspaceAction? || e.MoveAction? || e.MinimizeAction? || e.PinAction?
                || e.CycleAction? || e.ModifiersEvent? || e.CycleCancelled? {
        HandleAction(e);
      } else if e.LockRequest? || e.UnlockRequest? || e.LockDestroyed? {
        HandleLock(e);
      } else if e.LockSurfaceCreated? || e.LockSurfaceDestroyed? || e.KeyPressed? {
        HandleLockSurface(e);
      } else if e.NewWindow? || e.WindowDestroyed? {
        HandleObject(e);
      } else {
        HandleShell(e);
      }
      if Safety.Inv(s) && D.Guarded(s, e) {
        Safety.StepKeeps(s, e);
      }
      if Safety.Loose(s) {
        Always.StepLoose(s, e);
      }
    }
  }
}
