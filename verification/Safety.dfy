/** What every reachable desktop satisfies. */
module Safety {
  import opened Lists
  import opened Views
  import opened Desktop

  /** `views` lists exactly the mapped windows, each once. */
  ghost predicate WindowsListed(s: State) {
    && Distinct(s.views)
    && (forall v | v in s.views :: v in s.win && s.win[v].mapped)
    && (forall v | v in s.win && s.win[v].mapped :: v in s.views)
  }

  /** The enabled bit of a mapped window is what a recomputation would give. */
  ghost predicate CacheRight(s: State) {
    forall v | v in s.win && s.win[v].mapped ::
      s.win[v].enabled == (!s.win[v].minimized && OnWorkspace(s.win[v], s.current))
  }

  ghost predicate WorkspacesRight(s: State) {
    && 0 <= s.current <= s.maxVisible < NUM_WORKSPACES
    && (forall v | v in s.win && s.win[v].mapped :: 0 <= s.win[v].workspace <= s.maxVisible)
  }

  ghost predicate SwitcherRight(s: State) {
    s.switcher.Open? ==>
      && s.switcher.selected < |s.switcher.snapshot|
      && Distinct(s.switcher.snapshot)
      && (forall v | v in s.switcher.snapshot ::
            v in s.win && s.win[v].mapped && s.win[v].workspace == s.current)
  }

  /** The buttons of every taskbar are a permutation of the open windows. */
  ghost predicate ButtonsRight(s: State) {
    forall i :: 0 <= i < |s.bars| ==> multiset(s.bars[i]) == multiset(s.views)
  }

  ghost predicate KeyboardRight(s: State) {
    match s.keyboard
    case Nobody => true
    case OnView(v) =>
      && !s.locked && v in s.win && Showable(s.win[v], s.current) && !s.win[v].urgent
      && s.views != [] && s.views[0] == v
    case OnLayer(l) => !s.locked && l in s.layers && s.focusedLayer == Some(l)
    case OnLock(k) => s.locked && k in s.lockSurfaces
  }

  /** The same, but for whether the focused window is on screen. */
  ghost predicate KeyboardSound(s: State) {
    match s.keyboard
    case Nobody => true
    case OnView(v) =>
      && !s.locked && v in s.win && s.win[v].mapped && !s.win[v].minimized && !s.win[v].urgent
      && s.views != [] && s.views[0] == v
    case OnLayer(l) => !s.locked && l in s.layers && s.focusedLayer == Some(l)
    case OnLock(k) => s.locked && k in s.lockSurfaces
  }

  /** Everything but the keyboard focus and the enabled bits. */
  ghost predicate Sound(s: State) {
    && WindowsListed(s)
    && WorkspacesRight(s)
    && SwitcherRight(s)
    && ButtonsRight(s)
    && (s.lock.None? ==> s.lockSurfaces == [])
  }

  /** Everything but the keyboard focus. */
  ghost predicate Base(s: State) {
    Sound(s) && CacheRight(s)
  }

  ghost predicate Inv(s: State) {
    Base(s) && KeyboardRight(s)
  }

  /** What holds whatever a panel asks for: all of it but what is on screen. */
  ghost predicate Loose(s: State) {
    Sound(s) && KeyboardSound(s)
  }

  lemma InvLoose(s: State)
    requires Inv(s)
    ensures Loose(s)
  {
  }

  lemma StartInv()
    ensures Inv(START)
  {
  }

  // ---- the two transitions that move the keyboard focus ----

  /** Rewriting the flags of a window whose mapped flag stays. */
  lemma PutBase(s: State, v: View, w: Window)
    requires Base(s) && w.mapped == Get(s, v).mapped
    requires w.mapped ==> Refreshed(w, s.current) == w && 0 <= w.workspace <= s.maxVisible
    requires w.mapped && s.switcher.Open? && v in s.switcher.snapshot ==> w.workspace == s.current
    ensures Base(Put(s, v, w))
  {
  }

  lemma RelinkBase(s: State, v: View)
    requires Base(s) && v in s.views
    ensures Base(s.(views := [v] + Remove(s.views, v)))
  {
    ToFront(s.views, v);
  }

  lemma FocusBase(s: State, v: View)
    requires Base(s)
    ensures Base(Focus(s, v))
  {
    if Get(s, v).mapped && !s.locked {
      var s1 := Woken(s, v);
      var w := Get(s, v).(minimized := false, urgent := false);
      assert s1.win == s.win[v := w.(enabled := Get(s1, v).enabled)];
      PutBase(s, v, w.(enabled := Get(s1, v).enabled));
      RelinkBase(s1, v);
    }
  }

  lemma FocusKeeps(s: State, v: View)
    requires Base(s)
    requires if s.locked || !Get(s, v).mapped then KeyboardRight(s)
             else OnWorkspace(Get(s, v), s.current) && (s.keyboard == OnView(v) ==> KeyboardRight(s))
    ensures Inv(Focus(s, v))
  {
    FocusBase(s, v);
  }

  /** A window other than `skip` that workspace `ws` shows. */
  ghost function ShownBut(s: State, ws: int, skip: Option<View>): View -> bool {
    (x: View) => Some(x) != skip && Showable(Get(s, x), ws)
  }

  /** The scan finds the first such window of a list, if there is one. */
  lemma {:induction false} FirstShownIs(s: State, list: seq<View>, ws: int, skip: Option<View>)
    requires forall x | x in list :: x in s.win
    ensures var f := Filter(list, ShownBut(s, ws, skip));
      FirstShown(s.win, list, ws, skip) == if f == [] then None else Some(f[0])
  {
    if list != [] {
      FirstShownIs(s, list[1..], ws, skip);
    }
  }

  /** A shown window that comes first in the list is the one that is found. */
  lemma HeadFound(win: map<View, Window>, list: seq<View>, ws: int, skip: Option<View>)
    requires list != [] && list[0] in win
    ensures Showable(win[list[0]], ws) && Some(list[0]) != skip ==> FirstShown(win, list, ws, skip) == Some(list[0])
  {
  }

  lemma FocusNextKeeps(s: State, skip: Option<View>)
    requires Base(s)
    requires KeyboardRight(s) || (!s.locked && (s.keyboard.OnView? ==> Some(s.keyboard.view) == skip))
    ensures Inv(FocusNext(s, skip))
  {
    if !s.locked {
      var next := FirstShown(s.win, s.views, s.current, skip);
      if next.Some? {
        if s.keyboard.OnView? && KeyboardRight(s) && Some(s.keyboard.view) != skip {
          HeadFound(s.win, s.views, s.current, skip);
        }
        FocusKeeps(s, next.value);
      }
    }
  }

  // ---- windows ----

  lemma ButtonsAdded(bars: seq<seq<View>>, views: seq<View>, v: View)
    requires forall i :: 0 <= i < |bars| ==> multiset(bars[i]) == multiset(views)
    ensures forall i :: 0 <= i < |bars| ==> multiset(AddButton(bars, v)[i]) == multiset([v] + views)
  {
  }

  lemma ButtonsRemoved(bars: seq<seq<View>>, views: seq<View>, v: View)
    requires forall i :: 0 <= i < |bars| ==> multiset(bars[i]) == multiset(views)
    ensures forall i :: 0 <= i < |bars| ==> multiset(RemoveButton(bars, v)[i]) == multiset(Remove(views, v))
  {
    RemoveCount(views, v);
    forall i | 0 <= i < |bars|
      ensures multiset(RemoveButton(bars, v)[i]) == multiset(Remove(views, v))
    {
      RemoveCount(bars[i], v);
    }
  }

  lemma MapKeeps(s: State, v: View)
    requires Inv(s) && v in s.win && !s.win[v].mapped
    ensures Inv(MapWindow(s, v))
  {
    var w := Refreshed(Get(s, v).(mapped := true, workspace := s.current), s.current);
    var s1 := Put(s, v, w).(views := [v] + s.views, bars := AddButton(s.bars, v));
    ButtonsAdded(s.bars, s.views, v);
    assert Base(s1);
    assert Listed(s, v).win == s1.win;
    FocusKeeps(s1, v);
  }

  /** All but the removed window are still offered by Alt-Tab. */
  ghost predicate SwitcherRightBut(s: State, v: View) {
    s.switcher.Open? ==>
      && s.switcher.selected < |s.switcher.snapshot|
      && Distinct(s.switcher.snapshot)
      && (forall x | x in s.switcher.snapshot && x != v ::
            x in s.win && s.win[x].mapped && s.win[x].workspace == s.current)
  }

  lemma SwitcherRemoveKeeps(s: State, v: View)
    requires SwitcherRightBut(s, v)
    ensures SwitcherRight(SwitcherRemove(s, v))
    ensures SwitcherRemove(s, v) == s.(switcher := SwitcherRemove(s, v).switcher)
  {
    if s.switcher.Open? {
      RemoveDistinct(s.switcher.snapshot, v);
    }
  }

  lemma UnlistedBase(s: State, v: View)
    requires Inv(s) && v in s.win && s.win[v].mapped
    ensures var t := Unlisted(s, v);
      WindowsListed(t) && CacheRight(t) && WorkspacesRight(t) && SwitcherRightBut(t, v) && KeyboardRight(t)
  {
    RemoveDistinct(s.views, v);
  }

  lemma UnmapKeeps(s: State, v: View)
    requires Inv(s) && v in s.win && s.win[v].mapped
    ensures Inv(UnmapWindow(s, v))
  {
    var s2 := Unlisted(s, v);
    var s3 := SwitcherRemove(s2, v);
    var s4 := s3.(bars := RemoveButton(s3.bars, v));
    UnlistedBase(s, v);
    SwitcherRemoveKeeps(s2, v);
    ButtonsRemoved(s.bars, s.views, v);
    assert Base(s4);
    FocusNextKeeps(s4, Some(v));
  }

  lemma MinimizeKeeps(s: State, v: View)
    requires Inv(s) && v in s.win
    ensures Inv(Minimize(s, v))
  {
    var w := Refreshed(Get(s, v).(minimized := true), s.current);
    var s1 := SetMinimized(s, v, true);
    assert s1.win == s.win[v := w];
    PutBase(s, v, w);
    FocusNextKeeps(s1, Some(v));
  }

  lemma TogglePinKeeps(s: State, v: View)
    requires Inv(s) && s.keyboard == OnView(v)
    ensures Inv(TogglePin(s, v))
  {
    var w := Get(s, v);
    PutBase(s, v, if w.pinned then w.(pinned := false, workspace := s.current) else w.(pinned := true));
  }

  lemma MoveKeeps(s: State, v: View, ws: int)
    requires Inv(s) && v in s.win && s.win[v].mapped
    ensures Inv(MoveToWorkspace(s, v, ws))
  {
    var w := Get(s, v);
    if !(ws < 0 || ws >= NUM_WORKSPACES || (!w.pinned && w.workspace == ws)) {
      var w' := Refreshed(w.(pinned := false, workspace := ws), s.current);
      var s1 := Rehomed(s, v, ws);
      assert s1.win == s.win[v := w'];
      SwitcherRemoveKeeps(s1, v);
      var s2 := SwitcherRemove(s1, v);
      assert Base(s2);
      FocusNextKeeps(s2, Some(v));
    }
  }

  lemma SwitchKeeps(s: State, ws: int)
    requires Inv(s)
    ensures Inv(SwitchWorkspace(s, ws))
  {
    if 0 <= ws < NUM_WORKSPACES && ws != s.current {
      var s1 := WithCurrent(s, ws);
      var s2 := s1.(win := RefreshedAll(s1));
      assert Base(s2);
      var next := FirstShown(s2.win, s2.views, ws, None);
      if next.Some? {
        FocusKeeps(s2, next.value);
      }
    }
  }

  /** Focusing moves no window to another workspace and maps none. */
  lemma FocusFrame(s: State, v: View)
    ensures var s' := Focus(s, v);
      s'.current == s.current && s'.locked == s.locked
      && (forall x | x in s.win :: x in s'.win && s'.win[x].mapped == s.win[x].mapped
            && s'.win[x].workspace == s.win[x].workspace && s'.win[x].pinned == s.win[x].pinned)
  {
  }

  /** Switching workspace, or not, brings the window's workspace on screen. */
  lemma SwitchShows(s: State, v: View, ws: int)
    requires Inv(s) && v in s.win && s.win[v].mapped && 0 <= ws < NUM_WORKSPACES
    ensures var s' := SwitchWorkspace(s, ws);
      s'.current == ws && s'.locked == s.locked && v in s'.win
      && s'.win[v].mapped && s'.win[v].workspace == s.win[v].workspace && s'.win[v].pinned == s.win[v].pinned
  {
    if ws != s.current {
      var s1 := WithCurrent(s, ws);
      var s2 := s1.(win := RefreshedAll(s1));
      var next := FirstShown(s2.win, s2.views, ws, None);
      if next.Some? {
        FocusFrame(s2, next.value);
      }
    }
  }

  lemma ActivateKeeps(s: State, v: View)
    requires Inv(s) && v in s.win && s.win[v].mapped
    ensures Inv(Activate(s, v))
  {
    var ws := s.win[v].workspace;
    SwitchKeeps(s, ws);
    SwitchShows(s, v, ws);
    FocusKeeps(if ws != s.current then SwitchWorkspace(s, ws) else s, v);
  }

  lemma ClickTaskKeeps(s: State, v: View)
    requires Inv(s) && v in s.win && s.win[v].mapped
    ensures Inv(ClickTask(s, v))
  {
    var ws := s.win[v].workspace;
    SwitchKeeps(s, ws);
    SwitchShows(s, v, ws);
    FocusKeeps(if !s.win[v].pinned && ws != s.current then SwitchWorkspace(s, ws) else s, v);
  }

  lemma RequestActivationKeeps(s: State, v: View, valid: bool)
    requires Inv(s) && v in s.win
    ensures Inv(RequestActivation(s, v, valid))
  {
    if s.win[v].mapped {
      if valid {
        ActivateKeeps(s, v);
      } else {
        PutBase(s, v, Get(s, v).(urgent := true));
      }
    }
  }

  // ---- Alt-Tab ----

  lemma CycleKeeps(s: State, mods: Mods, backwards: bool)
    requires Inv(s)
    ensures Inv(Cycle(s, mods, backwards))
  {
    FilterDistinct(s.views, Offered(s));
  }

  lemma ModifiersKeeps(s: State, mods: Mods)
    requires Inv(s)
    ensures Inv(ModifiersChanged(s, mods))
  {
    if s.switcher.Open? && mods * s.switcher.mods == {} {
      FocusKeeps(s.(switcher := Closed), s.switcher.snapshot[s.switcher.selected]);
    }
  }

  // ---- layer surfaces and the session lock ----

  lemma LayerUnmappedKeeps(s: State, l: nat)
    requires Inv(s)
    ensures Inv(LayerUnmapped(s, l))
  {
    var s1 := s.(layers := s.layers - {l});
    if s.focusedLayer == Some(l) {
      FocusNextKeeps(s1.(focusedLayer := None), None);
    }
  }

  lemma UnlockKeeps(s: State)
    requires Inv(s) && s.locked
    ensures Inv(Unlock(s))
  {
    FocusNextKeeps(s.(locked := false), None);
  }

  // ---- the un-minimize request: exactly when it is safe ----

  /** A panel's un-minimize request keeps the invariant if and only if the session is locked
      or the window is pinned or on the current workspace. */
  lemma RestoreExact(s: State, v: View)
    requires Inv(s) && v in s.win && s.win[v].mapped
    ensures Inv(Restore(s, v)) <==> s.locked || OnWorkspace(s.win[v], s.current)
  {
    var w := Refreshed(Get(s, v).(minimized := false), s.current);
    var s1 := SetMinimized(s, v, false);
    assert s1.win == s.win[v := w];
    PutBase(s, v, w);
    if s.locked || OnWorkspace(s.win[v], s.current) {
      FocusKeeps(s1, v);
    }
  }

  // ---- the whole machine ----

  lemma BarCreatedKeeps(s: State)
    requires Inv(s)
    ensures Inv(s.(bars := s.bars + [s.views]))
  {
  }

  lemma BarDeletedKeeps(s: State, i: nat)
    requires Inv(s) && i < |s.bars|
    ensures Inv(s.(bars := s.bars[..i] + s.bars[i + 1..]))
  {
  }

  lemma WindowStepKeeps(s: State, e: Event)
    requires Inv(s) && Possible(s, e) && Guarded(s, e)
    requires e.WindowMapped? || e.WindowUnmapped? || e.MinimizeRequest? || e.RestoreRequest?
             || e.WindowClicked? || e.TaskClicked? || e.ActivateRequest? || e.ActivationToken?
    ensures Inv(Step(s, e))
  {
    match e
    case WindowMapped(v) => MapKeeps(s, v);
    case WindowUnmapped(v) => UnmapKeeps(s, v);
    case MinimizeRequest(v) => MinimizeKeeps(s, v);
    case RestoreRequest(v) => RestoreExact(s, v);
    case WindowClicked(v) => FocusKeeps(s, v);
    case TaskClicked(v) => InvLoose(s); TaskButtonsLive(s, v); ClickTaskKeeps(s, v);
    case ActivateRequest(v) => ActivateKeeps(s, v);
    case ActivationToken(v, valid) => RequestActivationKeeps(s, v, valid);
  }

  lemma ActionStepKeeps(s: State, e: Event)
    requires Inv(s) && Possible(s, e)
    requires e.WorkspaceAction? || e.MoveAction? || e.MinimizeAction? || e.PinAction? || e.CycleAction?
             || e.ModifiersEvent? || e.CycleCancelled?
    ensures Inv(Step(s, e))
  {
    match e
    case WorkspaceAction(ws) => SwitchKeeps(s, ws);
    case MoveAction(ws) => if s.keyboard.OnView? { MoveKeeps(s, s.keyboard.view, ws); }
    case MinimizeAction => if s.keyboard.OnView? { MinimizeKeeps(s, s.keyboard.view); }
    case PinAction => if s.keyboard.OnView? { TogglePinKeeps(s, s.keyboard.view); }
    case CycleAction(mods, backwards) => CycleKeeps(s, mods, backwards);
    case ModifiersEvent(mods) => ModifiersKeeps(s, mods);
    case CycleCancelled =>
  }

  lemma LockStepKeeps(s: State, e: Event)
    requires Inv(s) && Possible(s, e)
    requires e.LockRequest? || e.UnlockRequest? || e.LockDestroyed?
    ensures Inv(Step(s, e))
  {
    if e.UnlockRequest? {
      UnlockKeeps(s);
    }
  }

  lemma LockSurfaceGoneKeeps(s: State, k: nat)
    requires Inv(s)
    ensures Inv(LockSurfaceGone(s, k))
  {
  }

  lemma LockSurfaceStepKeeps(s: State, e: Event)
    requires Inv(s) && Possible(s, e)
    requires e.LockSurfaceCreated? || e.LockSurfaceDestroyed? || e.KeyPressed?
    ensures Inv(Step(s, e))
  {
    if e.LockSurfaceDestroyed? {
      LockSurfaceGoneKeeps(s, e.k);
    }
  }

  lemma LayerMappedKeeps(s: State, l: nat, interactive: bool)
    requires Inv(s) && l !in s.layers
    ensures Inv(LayerMapped(s, l, interactive))
  {
  }

  lemma ShellStepKeeps(s: State, e: Event)
    requires Inv(s) && Possible(s, e)
    requires e.LayerMap? || e.LayerUnmap? || e.LayerDestroy? || e.BarCreated? || e.BarDeleted?
    ensures Inv(Step(s, e))
  {
    match e
    case LayerMap(l, interactive) => LayerMappedKeeps(s, l, interactive);
    case LayerUnmap(l) => LayerUnmappedKeeps(s, l);
    case LayerDestroy(l) =>
    case BarCreated => BarCreatedKeeps(s);
    case BarDeleted(i) => BarDeletedKeeps(s, i);
  }

  lemma NewWindowKeeps(s: State, v: View)
    requires Inv(s) && v !in s.win
    ensures Inv(Put(s, v, NEW_WINDOW))
  {
  }

  lemma DestroyedKeeps(s: State, v: View)
    requires Inv(s) && v in s.win && !s.win[v].mapped
    ensures Inv(Destroyed(s, v))
  {
  }

  /** Every event keeps the invariant, the unguarded un-minimize excepted. */
  lemma StepKeeps(s: State, e: Event)
    requires Inv(s) && Possible(s, e) && Guarded(s, e)
    ensures Inv(Step(s, e))
  {
    if e.NewWindow? {
      NewWindowKeeps(s, e.v);
    } else if e.WindowDestroyed? {
      DestroyedKeeps(s, e.v);
    } else if e.LayerMap? || e.LayerUnmap? || e.LayerDestroy? || e.BarCreated? || e.BarDeleted? {
      ShellStepKeeps(s, e);
    } else if e.LockRequest? || e.UnlockRequest? || e.LockDestroyed? {
      LockStepKeeps(s, e);
    } else if e.LockSurfaceCreated? || e.LockSurfaceDestroyed? || e.KeyPressed? {
      LockSurfaceStepKeeps(s, e);
    } else if e.WorkspaceAction? || e.MoveAction? || e.MinimizeAction? || e.PinAction? || e.CycleAction?
              || e.ModifiersEvent? || e.CycleCancelled? {
      ActionStepKeeps(s, e);
    } else {
      WindowStepKeeps(s, e);
    }
  }

  /** A button on a taskbar belongs to an open window. */
  lemma TaskButtonsLive(s: State, v: View)
    requires Loose(s)
    requires exists i :: 0 <= i < |s.bars| && v in s.bars[i]
    ensures v in s.win && s.win[v].mapped
  {
    var i :| 0 <= i < |s.bars| && v in s.bars[i];
    assert v in multiset(s.bars[i]);
    assert v in s.views;
  }

  lemma {:induction false} RunKeeps(s: State, es: seq<Event>)
    requires Inv(s) && GuardedRun(s, es)
    ensures Inv(Run(s, es))
    decreases |es|
  {
    if es != [] {
      StepKeeps(s, es[0]);
      RunKeeps(Step(s, es[0]), es[1..]);
    }
  }

  lemma StepExact(s: State, e: Event)
    requires Inv(s) && Possible(s, e)
    ensures Inv(Step(s, e)) <==> Guarded(s, e)
  {
    if e.RestoreRequest? {
      RestoreExact(s, e.v);
    } else {
      StepKeeps(s, e);
    }
  }

  /** Every state of the run satisfies the invariant, the first and the last included. */
  ghost predicate AlwaysInv(s: State, es: seq<Event>)
    decreases |es|
  {
    Inv(s) && (es == [] || AlwaysInv(Step(s, es[0]), es[1..]))
  }

  /** Over every run, it always holds if and only if no panel un-minimizes a window of another
      workspace. */
  lemma {:induction false} RunExact(s: State, es: seq<Event>)
    requires Inv(s) && PossibleRun(s, es)
    ensures AlwaysInv(s, es) <==> GuardedRun(s, es)
    decreases |es|
  {
    if es != [] {
      StepExact(s, es[0]);
      if Guarded(s, es[0]) {
        RunExact(Step(s, es[0]), es[1..]);
      } else if es[1..] == [] {
        assert !AlwaysInv(Step(s, es[0]), es[1..]);
      }
    }
  }
}
