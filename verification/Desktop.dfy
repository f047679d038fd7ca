/** The window manager as a state machine: one transition for each event that the
    single-threaded event loop delivers. `Servers` carries the imperative handlers that are
    proved equal to these transitions. */
module Desktop {
  import opened Lists
  import opened Views

  const NUM_WORKSPACES := 9

  /** Who receives key presses. */
  datatype Keyboard = Nobody | OnView(view: View) | OnLayer(layer: nat) | OnLock(surface: nat)

  /** Modifier bits, as a set. */
  type Mods = set<nat>

  datatype Switcher = Closed | Open(snapshot: seq<View>, selected: nat, mods: Mods)

  datatype State = State(
    win: map<View, Window>,      // every window object that exists
    views: seq<View>,            // the MRU list, head first
    current: int,
    maxVisible: int,
    keyboard: Keyboard,
    focusedLayer: Option<nat>,
    layers: set<nat>,            // the mapped layer surfaces
    locked: bool,
    lock: Option<nat>,           // the live session lock
    lockSurfaces: seq<nat>,      // its surfaces, newest first
    switcher: Switcher,
    bars: seq<seq<View>>         // the buttons of every taskbar
  )

  const START := State(map[], [], 0, 1, Nobody, None, {}, false, None, [], Closed, [])

  function Get(s: State, v: View): Window {
    if v in s.win then s.win[v] else NEW_WINDOW
  }

  function Put(s: State, v: View, w: Window): State {
    s.(win := s.win[v := w])
  }

  // ---- visibility, focus and workspaces ----

  predicate OnWorkspace(w: Window, ws: int) {
    w.pinned || w.workspace == ws
  }

  /** A window that may be shown and focused on workspace `ws`. */
  predicate Showable(w: Window, ws: int) {
    w.mapped && !w.minimized && OnWorkspace(w, ws)
  }

  function Refreshed(w: Window, ws: int): Window {
    w.(enabled := !w.minimized && OnWorkspace(w, ws))
  }

  function UpdateVisibility(s: State, v: View): State {
    Put(s, v, Refreshed(Get(s, v), s.current))
  }

  function SetMinimized(s: State, v: View, min: bool): State {
    UpdateVisibility(Put(s, v, Get(s, v).(minimized := min)), v)
  }

  function SetUrgent(s: State, v: View, urgent: bool): State {
    Put(s, v, Get(s, v).(urgent := urgent))
  }

  /** The window is restored if it was minimized, and calls for attention no more. */
  function Woken(s: State, v: View): State {
    SetUrgent(if Get(s, v).minimized then SetMinimized(s, v, false) else s, v, false)
  }

  /** The window gets the keyboard and the head of the MRU list, unless it has the keyboard. */
  function TakeKeyboard(s: State, v: View): State {
    if s.keyboard == OnView(v) then s
    else s.(views := [v] + Remove(s.views, v), keyboard := OnView(v), focusedLayer := None)
  }

  /** `focus` of a window. */
  function Focus(s: State, v: View): State {
    if !Get(s, v).mapped || s.locked then s else TakeKeyboard(Woken(s, v), v)
  }

  /** The first window of `list` that workspace `ws` shows, `skip` excepted. */
  function FirstShown(win: map<View, Window>, list: seq<View>, ws: int, skip: Option<View>): (r: Option<View>)
    ensures r.Some? ==> r.value in list && r.value in win && Showable(win[r.value], ws) && r != skip
    ensures r.None? ==> forall v | v in list && v in win && Showable(win[v], ws) :: Some(v) == skip
  {
    if list == [] then None
    else if list[0] in win && Showable(win[list[0]], ws) && Some(list[0]) != skip then Some(list[0])
    else FirstShown(win, list[1..], ws, skip)
  }

  function FocusOrClear(s: State, next: Option<View>): State {
    if next.Some? then Focus(s, next.value) else s.(keyboard := Nobody)
  }

  function FocusNext(s: State, skip: Option<View>): State {
    if s.locked then s else FocusOrClear(s, FirstShown(s.win, s.views, s.current, skip))
  }

  function SwitchWorkspace(s: State, ws: int): State {
    if ws < 0 || ws >= NUM_WORKSPACES || ws == s.current then s
    else
      var s1 := WithCurrent(s, ws);
      var s2 := s1.(win := RefreshedAll(s1));
      FocusOrClear(s2, FirstShown(s2.win, s2.views, ws, None))
  }

  function Seen(maxVisible: int, ws: int): int {
    if ws > maxVisible then ws else maxVisible
  }

  function WithCurrent(s: State, ws: int): State {
    s.(current := ws, maxVisible := Seen(s.maxVisible, ws), switcher := Closed)
  }

  /** Every listed window refreshed for the current workspace. */
  function RefreshedAll(s: State): map<View, Window> {
    map v | v in s.win :: if v in s.views then Refreshed(s.win[v], s.current) else s.win[v]
  }

  function MoveToWorkspace(s: State, v: View, ws: int): State {
    var w := Get(s, v);
    if ws < 0 || ws >= NUM_WORKSPACES || (!w.pinned && w.workspace == ws) then s
    else
      FocusNext(SwitcherRemove(Rehomed(s, v, ws), v), Some(v))
  }

  /** The window belongs to workspace `ws` and to no other. */
  function Sent(s: State, v: View, ws: int): State {
    Put(s, v, Get(s, v).(pinned := false, workspace := ws))
  }

  function Rehomed(s: State, v: View, ws: int): State {
    UpdateVisibility(Sent(s, v, ws).(maxVisible := Seen(s.maxVisible, ws)), v)
  }

  function TogglePin(s: State, v: View): State {
    var w := Get(s, v);
    Put(s, v, if w.pinned then w.(pinned := false, workspace := s.current) else w.(pinned := true))
  }

  // ---- windows coming and going ----

  function AddButton(bars: seq<seq<View>>, v: View): seq<seq<View>> {
    seq(|bars|, i requires 0 <= i < |bars| => bars[i] + [v])
  }

  function RemoveButton(bars: seq<seq<View>>, v: View): seq<seq<View>> {
    seq(|bars|, i requires 0 <= i < |bars| => Remove(bars[i], v))
  }

  /** The new window is listed first, on the current workspace. */
  function Listed(s: State, v: View): State {
    var s1 := Put(s, v, Get(s, v).(mapped := true, workspace := s.current));
    UpdateVisibility(s1.(views := [v] + s1.views), v)
  }

  function MapWindow(s: State, v: View): State {
    var s1 := Listed(s, v);
    Focus(s1.(bars := AddButton(s1.bars, v)), v)
  }

  function Unfocused(s: State, v: View): State {
    if s.keyboard == OnView(v) then s.(keyboard := Nobody) else s
  }

  /** The window is no longer listed, shown, or given the keyboard. */
  function Unlisted(s: State, v: View): State {
    var s1 := Unfocused(s, v);
    Put(s1, v, Get(s1, v).(mapped := false, enabled := false)).(views := Remove(s.views, v))
  }

  function UnmapWindow(s: State, v: View): State {
    var s1 := SwitcherRemove(Unlisted(s, v), v);
    FocusNext(s1.(bars := RemoveButton(s1.bars, v)), Some(v))
  }

  function Delisted(s: State, v: View): State {
    if Get(s, v).mapped then s.(views := Remove(s.views, v)) else s
  }

  function Forgotten(s: State, v: View): State {
    s.(win := s.win - {v})
  }

  /** The window object goes, from the list and the keyboard too if it is still there. */
  function Destroyed(s: State, v: View): State {
    Forgotten(Unfocused(Delisted(s, v), v), v)
  }

  function Minimize(s: State, v: View): State {
    FocusNext(SetMinimized(s, v, true), Some(v))
  }

  /** The foreign-toplevel request that un-minimizes: it does not switch workspace. */
  function Restore(s: State, v: View): State {
    Focus(SetMinimized(s, v, false), v)
  }

  /** The foreign-toplevel request that activates. */
  function Activate(s: State, v: View): State {
    var ws := Get(s, v).workspace;
    Focus(if ws != s.current then SwitchWorkspace(s, ws) else s, v)
  }

  function RequestActivation(s: State, v: View, valid: bool): State {
    if !Get(s, v).mapped then s
    else if valid then Activate(s, v)
    else if s.keyboard != OnView(v) then SetUrgent(s, v, true)
    else s
  }

  function ClickTask(s: State, v: View): State {
    var w := Get(s, v);
    Focus(if !w.pinned && w.workspace != s.current then SwitchWorkspace(s, w.workspace) else s, v)
  }

  // ---- Alt-Tab ----

  function Advanced(n: nat, selected: nat, backwards: bool): (r: nat)
    requires selected < n
    ensures r < n
  {
    if backwards then (selected + n - 1) % n else (selected + 1) % n
  }

  /** The windows that Alt-Tab offers: those of the current workspace, minimized ones too. */
  function Candidates(s: State): seq<View> {
    Filter(s.views, Offered(s))
  }

  function Offered(s: State): View -> bool {
    (v: View) => Get(s, v).mapped && Get(s, v).workspace == s.current
  }

  function Cycle(s: State, mods: Mods, backwards: bool): State {
    match s.switcher
    case Open(snapshot, selected, held) =>
      if selected >= |snapshot| then s
      else s.(switcher := Open(snapshot, Advanced(|snapshot|, selected, backwards), held))
    case Closed =>
      var snapshot := Candidates(s);
      if snapshot == [] then s
      else s.(switcher := Open(snapshot, Advanced(|snapshot|, 0, backwards), mods))
  }

  function ModifiersChanged(s: State, mods: Mods): State {
    if s.switcher.Closed? || mods * s.switcher.mods != {} || s.switcher.selected >= |s.switcher.snapshot| then s
    else Focus(s.(switcher := Closed), s.switcher.snapshot[s.switcher.selected])
  }

  function SelectedAfterRemoval(selected: nat, i: nat, size: nat): nat {
    if selected > i then selected - 1
    else if selected >= size then (if size > 0 then size - 1 else 0)
    else selected
  }

  function SwitcherRemove(s: State, v: View): State {
    if s.switcher.Closed? || v !in s.switcher.snapshot then s
    else
      var i := IndexOf(s.switcher.snapshot, v);
      var rest := Remove(s.switcher.snapshot, v);
      if rest == [] then s.(switcher := Closed)
      else s.(switcher := Open(rest, SelectedAfterRemoval(s.switcher.selected, i, |rest|), s.switcher.mods))
  }

  // ---- layer surfaces ----

  function LayerMapped(s: State, l: nat, interactive: bool): State {
    var s1 := s.(layers := s.layers + {l});
    if interactive && !s.locked then s1.(keyboard := OnLayer(l), focusedLayer := Some(l)) else s1
  }

  function LayerUnmapped(s: State, l: nat): State {
    var s1 := s.(layers := s.layers - {l});
    if s.focusedLayer == Some(l) then FocusNext(s1.(focusedLayer := None), None) else s1
  }

  function LayerDestroyed(s: State, l: nat): State {
    if s.focusedLayer == Some(l) then s.(focusedLayer := None) else s
  }

  // ---- session lock ----

  function NewLock(s: State, k: nat): State {
    if s.lock.Some? then s
    else s.(lock := Some(k), locked := true, switcher := Closed, keyboard := Nobody)
  }

  function Unlock(s: State): State {
    FocusNext(s.(locked := false), None)
  }

  function LockGone(s: State): State {
    s.(lock := None)
  }

  function NewLockSurface(s: State, k: nat): State {
    s.(lockSurfaces := [k] + s.lockSurfaces, keyboard := OnLock(k))
  }

  function LockSurfaceGone(s: State, k: nat): State {
    var others := Filter(s.lockSurfaces, x => x != k);
    var s1 := s.(lockSurfaces := others);
    if s.keyboard != OnLock(k) then s1
    else if s.lock.Some? && others != [] then s1.(keyboard := OnLock(others[0]))
    else if s.locked then s1.(keyboard := Nobody)
    else s1
  }

  function EnsureLockFocus(s: State): State {
    if !s.locked || s.lock.None? || s.lockSurfaces == [] || s.keyboard.OnLock? then s
    else s.(keyboard := OnLock(s.lockSurfaces[0]))
  }

  // ---- events ----

  datatype Event =
    | NewWindow(v: View) | WindowMapped(v: View) | WindowUnmapped(v: View) | WindowDestroyed(v: View)
    | MinimizeRequest(v: View) | RestoreRequest(v: View)
    | WindowClicked(v: View) | TaskClicked(v: View)
    | ActivateRequest(v: View) | ActivationToken(v: View, valid: bool)
    | WorkspaceAction(ws: int) | MoveAction(ws: int) | MinimizeAction | PinAction
    | CycleAction(mods: Mods, backwards: bool) | ModifiersEvent(mods: Mods) | CycleCancelled
    | LayerMap(l: nat, interactive: bool) | LayerUnmap(l: nat) | LayerDestroy(l: nat)
    | LockRequest(k: nat) | UnlockRequest | LockDestroyed
    | LockSurfaceCreated(k: nat) | LockSurfaceDestroyed(k: nat) | KeyPressed
    | BarCreated | BarDeleted(i: nat)

  /** What the environment guarantees about an event. Only `RestoreRequest` may break the
      focus invariant; `Guarded` says when it cannot. */
  predicate Possible(s: State, e: Event) {
    match e
    case NewWindow(v) => v !in s.win
    case WindowMapped(v) => v in s.win && !s.win[v].mapped
    case WindowUnmapped(v) => v in s.win && s.win[v].mapped
    case WindowDestroyed(v) => v in s.win && !s.win[v].mapped
    case MinimizeRequest(v) => v in s.win
    case RestoreRequest(v) => v in s.win && s.win[v].mapped
    case WindowClicked(v) => !s.locked && v in s.win && s.win[v].mapped && s.win[v].enabled
    case TaskClicked(v) => !s.locked && v in s.win && exists i :: 0 <= i < |s.bars| && v in s.bars[i]
    case ActivateRequest(v) => v in s.win && s.win[v].mapped
    case ActivationToken(v, _) => v in s.win
    case LayerMap(l, _) => l !in s.layers
    case LayerUnmap(l) => l in s.layers
    case LayerDestroy(l) => l !in s.layers
    case UnlockRequest => s.locked && s.lock.Some?
    case LockDestroyed => s.lock.Some? && s.lockSurfaces == []
    case LockSurfaceCreated(k) => s.locked && s.lock.Some? && k !in s.lockSurfaces
    case LockSurfaceDestroyed(k) => k in s.lockSurfaces
    case BarDeleted(i) => i < |s.bars|
    case _ => true
  }

  /** The condition under which un-minimizing from a panel is safe. */
  predicate Guarded(s: State, e: Event) {
    e.RestoreRequest? ==> s.locked || OnWorkspace(Get(s, e.v), s.current)
  }

  function Step(s: State, e: Event): State {
    match e
    case NewWindow(v) => Put(s, v, NEW_WINDOW)
    case WindowMapped(v) => MapWindow(s, v)
    case WindowUnmapped(v) => UnmapWindow(s, v)
    case WindowDestroyed(v) => Destroyed(s, v)
    case MinimizeRequest(v) => Minimize(s, v)
    case RestoreRequest(v) => Restore(s, v)
    case WindowClicked(v) => Focus(s, v)
    case TaskClicked(v) => ClickTask(s, v)
    case ActivateRequest(v) => Activate(s, v)
    case ActivationToken(v, valid) => RequestActivation(s, v, valid)
    case WorkspaceAction(ws) => SwitchWorkspace(s, ws)
    case MoveAction(ws) => if s.keyboard.OnView? then MoveToWorkspace(s, s.keyboard.view, ws) else s
    case MinimizeAction => if s.keyboard.OnView? then Minimize(s, s.keyboard.view) else s
    case PinAction => if s.keyboard.OnView? then TogglePin(s, s.keyboard.view) else s
    case CycleAction(mods, backwards) => Cycle(s, mods, backwards)
    case ModifiersEvent(mods) => ModifiersChanged(s, mods)
    case CycleCancelled => s.(switcher := Closed)
    case LayerMap(l, interactive) => LayerMapped(s, l, interactive)
    case LayerUnmap(l) => LayerUnmapped(s, l)
    case LayerDestroy(l) => LayerDestroyed(s, l)
    case LockRequest(k) => NewLock(s, k)
    case UnlockRequest => Unlock(s)
    case LockDestroyed => LockGone(s)
    case LockSurfaceCreated(k) => NewLockSurface(s, k)
    case LockSurfaceDestroyed(k) => LockSurfaceGone(s, k)
    case KeyPressed => EnsureLockFocus(s)
    case BarCreated => s.(bars := s.bars + [s.views])
    case BarDeleted(i) => if i < |s.bars| then s.(bars := s.bars[..i] + s.bars[i + 1..]) else s
  }

  function Run(s: State, es: seq<Event>): State
    decreases |es|
  {
    if es == [] then s else Run(Step(s, es[0]), es[1..])
  }

  /** Every event of the run is possible when it happens. */
  predicate PossibleRun(s: State, es: seq<Event>)
    decreases |es|
  {
    es == [] || (Possible(s, es[0]) && PossibleRun(Step(s, es[0]), es[1..]))
  }

  /** ... and no un-minimize request is for a window of another workspace. */
  predicate GuardedRun(s: State, es: seq<Event>)
    decreases |es|
  {
    es == [] || (Possible(s, es[0]) && Guarded(s, es[0]) && GuardedRun(Step(s, es[0]), es[1..]))
  }
}
