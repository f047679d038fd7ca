/** What holds over every run, whatever windows a panel un-minimizes. */
module Always {
  import opened Lists
  import opened Views
  import opened Desktop
  import opened Safety

  // ---- the two transitions that move the keyboard focus ----

  lemma PutSound(s: State, v: View, w: Window)
    requires Sound(s) && w.mapped == Get(s, v).mapped
    requires w.mapped ==> 0 <= w.workspace <= s.maxVisible
    requires w.mapped && s.switcher.Open? && v in s.switcher.snapshot ==> w.workspace == s.current
    ensures Sound(Put(s, v, w))
  {
  }

  lemma RelinkSound(s: State, v: View)
    requires Sound(s) && v in s.views
    ensures Sound(s.(views := [v] + Remove(s.views, v)))
  {
    ToFront(s.views, v);
  }

  lemma FocusSound(s: State, v: View)
    requires Sound(s)
    ensures Sound(Focus(s, v))
  {
    if Get(s, v).mapped && !s.locked {
      var s1 := Woken(s, v);
      var w := Get(s1, v);
      assert s1 == Put(s, v, w) by {
        assert s1.win == s.win[v := w];
      }
      PutSound(s, v, w);
      RelinkSound(s1, v);
    }
  }

  lemma FocusLoose(s: State, v: View)
    requires Sound(s)
    requires s.locked || !Get(s, v).mapped || s.keyboard == OnView(v) ==> KeyboardSound(s)
    ensures Loose(Focus(s, v))
  {
    FocusSound(s, v);
  }

  lemma FocusNextLoose(s: State, skip: Option<View>)
    requires Sound(s)
    requires KeyboardSound(s) || (!s.locked && (s.keyboard.OnView? ==> Some(s.keyboard.view) == skip))
    ensures Loose(FocusNext(s, skip))
  {
    if !s.locked {
      var next := FirstShown(s.win, s.views, s.current, skip);
      if next.Some? {
        FocusLoose(s, next.value);
      }
    }
  }

  // ---- windows ----

  lemma ListedSound(s: State, v: View)
    requires Loose(s) && v in s.win && !s.win[v].mapped
    ensures var m := Listed(s, v); Sound(m.(bars := AddButton(m.bars, v)))
  {
    ButtonsAdded(s.bars, s.views, v);
    var m := Listed(s, v);
    assert m.win == s.win[v := m.win[v]];
  }

  lemma MapLoose(s: State, v: View)
    requires Loose(s) && v in s.win && !s.win[v].mapped
    ensures Loose(MapWindow(s, v))
  {
    var m := Listed(s, v);
    ListedSound(s, v);
    FocusLoose(m.(bars := AddButton(m.bars, v)), v);
  }

  lemma UnlistedSound(s: State, v: View)
    requires Loose(s) && v in s.win && s.win[v].mapped
    ensures var t := Unlisted(s, v);
      WindowsListed(t) && WorkspacesRight(t) && SwitcherRightBut(t, v) && KeyboardSound(t)
  {
    RemoveDistinct(s.views, v);
  }

  lemma UnmapLoose(s: State, v: View)
    requires Loose(s) && v in s.win && s.win[v].mapped
    ensures Loose(UnmapWindow(s, v))
  {
    var s2 := Unlisted(s, v);
    var s3 := SwitcherRemove(s2, v);
    var s4 := s3.(bars := RemoveButton(s3.bars, v));
    UnlistedSound(s, v);
    SwitcherRemoveKeeps(s2, v);
    ButtonsRemoved(s.bars, s.views, v);
    assert Sound(s4);
    FocusNextLoose(s4, Some(v));
  }

  /** Minimizing and un-minimizing, up to the focus. */
  lemma MinimizedSound(s: State, v: View, min: bool)
    requires Loose(s) && v in s.win
    ensures var m := SetMinimized(s, v, min); Sound(m) && (!min || s.keyboard != OnView(v) ==> KeyboardSound(m))
  {
    var w := Get(SetMinimized(s, v, min), v);
    assert SetMinimized(s, v, min) == Put(s, v, w) by {
      assert SetMinimized(s, v, min).win == s.win[v := w];
    }
    PutSound(s, v, w);
  }

  lemma MinimizeLoose(s: State, v: View)
    requires Loose(s) && v in s.win
    ensures Loose(Minimize(s, v))
  {
    MinimizedSound(s, v, true);
    FocusNextLoose(SetMinimized(s, v, true), Some(v));
  }

  lemma RestoreLoose(s: State, v: View)
    requires Loose(s) && v in s.win
    ensures Loose(Restore(s, v))
  {
    MinimizedSound(s, v, false);
    FocusLoose(SetMinimized(s, v, false), v);
  }

  lemma TogglePinLoose(s: State, v: View)
    requires Loose(s) && s.keyboard == OnView(v)
    ensures Loose(TogglePin(s, v))
  {
    var w := Get(s, v);
    PutSound(s, v, if w.pinned then w.(pinned := false, workspace := s.current) else w.(pinned := true));
  }

  lemma RehomedSound(s: State, v: View, ws: int)
    requires Loose(s) && v in s.win && s.win[v].mapped && 0 <= ws < NUM_WORKSPACES
    ensures var m := SwitcherRemove(Rehomed(s, v, ws), v); Sound(m) && KeyboardSound(m)
  {
    var m := Rehomed(s, v, ws);
    assert m.win == s.win[v := m.win[v]];
    SwitcherRemoveKeeps(m, v);
  }

  lemma MoveLoose(s: State, v: View, ws: int)
    requires Loose(s) && v in s.win && s.win[v].mapped
    ensures Loose(MoveToWorkspace(s, v, ws))
  {
    if 0 <= ws < NUM_WORKSPACES {
      RehomedSound(s, v, ws);
      FocusNextLoose(SwitcherRemove(Rehomed(s, v, ws), v), Some(v));
    }
  }

  lemma SwitchLoose(s: State, ws: int)
    requires Loose(s)
    ensures Loose(SwitchWorkspace(s, ws))
    ensures forall v | v in s.win :: v in SwitchWorkspace(s, ws).win
  {
    if 0 <= ws < NUM_WORKSPACES && ws != s.current {
      var s1 := WithCurrent(s, ws);
      var s2 := s1.(win := RefreshedAll(s1));
      assert Sound(s2);
      var next := FirstShown(s2.win, s2.views, ws, None);
      if next.Some? {
        FocusLoose(s2, next.value);
      }
    }
  }

  lemma ActivateLoose(s: State, v: View)
    requires Loose(s)
    ensures Loose(Activate(s, v)) && Loose(ClickTask(s, v))
  {
    var ws := Get(s, v).workspace;
    SwitchLoose(s, ws);
    FocusLoose(SwitchWorkspace(s, ws), v);
    FocusLoose(s, v);
  }

  lemma RequestActivationLoose(s: State, v: View, valid: bool)
    requires Loose(s) && v in s.win
    ensures Loose(RequestActivation(s, v, valid))
  {
    ActivateLoose(s, v);
    PutSound(s, v, Get(s, v).(urgent := true));
  }

  // ---- Alt-Tab, layer surfaces and the session lock ----

  lemma CycleLoose(s: State, mods: Mods, backwards: bool)
    requires Loose(s)
    ensures Loose(Cycle(s, mods, backwards))
  {
    FilterDistinct(s.views, Offered(s));
  }

  lemma ModifiersLoose(s: State, mods: Mods)
    requires Loose(s)
    ensures Loose(ModifiersChanged(s, mods))
  {
    if s.switcher.Open? && s.switcher.selected < |s.switcher.snapshot| {
      FocusLoose(s.(switcher := Closed), s.switcher.snapshot[s.switcher.selected]);
    }
  }

  lemma LayerUnmappedLoose(s: State, l: nat)
    requires Loose(s)
    ensures Loose(LayerUnmapped(s, l))
  {
    if s.focusedLayer == Some(l) {
      FocusNextLoose(s.(layers := s.layers - {l}, focusedLayer := None), None);
    }
  }

  lemma UnlockLoose(s: State)
    requires Loose(s) && s.locked
    ensures Loose(Unlock(s))
  {
    FocusNextLoose(s.(locked := false), None);
  }

  lemma LockSurfaceGoneLoose(s: State, k: nat)
    requires Loose(s)
    ensures Loose(LockSurfaceGone(s, k))
  {
  }

  lemma BarsLoose(s: State, e: Event)
    requires Loose(s) && Possible(s, e) && (e.BarCreated? || e.BarDeleted?)
    ensures Loose(Step(s, e))
  {
  }

  // ---- the whole machine ----

  lemma WindowStepLoose(s: State, e: Event)
    requires Loose(s) && Possible(s, e)
    requires e.WindowMapped? || e.WindowUnmapped? || e.MinimizeRequest? || e.RestoreRequest?
             || e.WindowClicked? || e.TaskClicked? || e.ActivateRequest? || e.ActivationToken?
    ensures Loose(Step(s, e))
  {
    match e
    case WindowMapped(v) => MapLoose(s, v);
    case WindowUnmapped(v) => UnmapLoose(s, v);
    case MinimizeRequest(v) => MinimizeLoose(s, v);
    case RestoreRequest(v) => RestoreLoose(s, v);
    case WindowClicked(v) => FocusLoose(s, v);
    case TaskClicked(v) => ActivateLoose(s, v);
    case ActivateRequest(v) => ActivateLoose(s, v);
    case ActivationToken(v, valid) => RequestActivationLoose(s, v, valid);
  }

  lemma ActionStepLoose(s: State, e: Event)
    requires Loose(s)
    requires e.WorkspaceAction? || e.MoveAction? || e.MinimizeAction? || e.PinAction? || e.CycleAction?
             || e.ModifiersEvent? || e.CycleCancelled?
    ensures Loose(Step(s, e))
  {
    match e
    case WorkspaceAction(ws) => SwitchLoose(s, ws);
    case MoveAction(ws) => if s.keyboard.OnView? { MoveLoose(s, s.keyboard.view, ws); }
    case MinimizeAction => if s.keyboard.OnView? { MinimizeLoose(s, s.keyboard.view); }
    case PinAction => if s.keyboard.OnView? { TogglePinLoose(s, s.keyboard.view); }
    case CycleAction(mods, backwards) => CycleLoose(s, mods, backwards);
    case ModifiersEvent(mods) => ModifiersLoose(s, mods);
    case CycleCancelled =>
  }

  lemma LockStepLoose(s: State, e: Event)
    requires Loose(s) && Possible(s, e)
    requires e.LockRequest? || e.UnlockRequest? || e.LockDestroyed? || e.LockSurfaceCreated?
             || e.LockSurfaceDestroyed? || e.KeyPressed?
    ensures Loose(Step(s, e))
  {
    if e.UnlockRequest? {
      UnlockLoose(s);
    } else if e.LockSurfaceDestroyed? {
      LockSurfaceGoneLoose(s, e.k);
    }
  }

  lemma ShellStepLoose(s: State, e: Event)
    requires Loose(s) && Possible(s, e)
    requires e.LayerMap? || e.LayerUnmap? || e.LayerDestroy? || e.BarCreated? || e.BarDeleted?
    ensures Loose(Step(s, e))
  {
    if e.LayerUnmap? {
      LayerUnmappedLoose(s, e.l);
    } else if e.BarCreated? || e.BarDeleted? {
      BarsLoose(s, e);
    }
  }

  lemma ObjectStepLoose(s: State, e: Event)
    requires Loose(s) && Possible(s, e) && (e.NewWindow? || e.WindowDestroyed?)
    ensures Loose(Step(s, e))
  {
  }

  /** Every event keeps it. */
  lemma StepLoose(s: State, e: Event)
    requires Loose(s) && Possible(s, e)
    ensures Loose(Step(s, e))
  {
    if e.NewWindow? || e.WindowDestroyed? {
      ObjectStepLoose(s, e);
    } else if e.LayerMap? || e.LayerUnmap? || e.LayerDestroy? || e.BarCreated? || e.BarDeleted? {
      ShellStepLoose(s, e);
    } else if e.LockRequest? || e.UnlockRequest? || e.LockDestroyed? || e.LockSurfaceCreated?
              || e.LockSurfaceDestroyed? || e.KeyPressed? {
      LockStepLoose(s, e);
    } else if e.WorkspaceAction? || e.MoveAction? || e.MinimizeAction? || e.PinAction? || e.CycleAction?
              || e.ModifiersEvent? || e.CycleCancelled? {
      ActionStepLoose(s, e);
    } else {
      WindowStepLoose(s, e);
    }
  }

  /** And so does every run. */
  lemma {:induction false} RunLoose(s: State, es: seq<Event>)
    requires Loose(s) && PossibleRun(s, es)
    ensures Loose(Run(s, es))
    decreases |es|
  {
    if es != [] {
      StepLoose(s, es[0]);
      RunLoose(Step(s, es[0]), es[1..]);
    }
  }
}
