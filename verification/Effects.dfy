/** What each request does for the user: who gets the keyboard, what is shown, what stays. */
module Effects {
  import opened Lists
  import opened Views
  import opened Desktop
  import opened Safety
  import opened Reachable

  /** No window but `v` changed, except that a call for attention may have been answered. */
  ghost predicate OthersKept(s: State, t: State, v: Option<View>) {
    forall x | x in s.win && Some(x) != v :: x in t.win && t.win[x].(urgent := false) == s.win[x].(urgent := false)
  }

  /** The windows that could take the keyboard over from `v`, most recently used first. */
  ghost function Heirs(s: State, v: Option<View>): seq<View> {
    Filter(s.views, ShownBut(s, s.current, v))
  }

  /** The keyboard goes to the most recently used of them, if there is one. */
  ghost predicate HandedOn(s: State, t: State, v: Option<View>) {
    t.keyboard == if Heirs(s, v) == [] then Nobody else OnView(Heirs(s, v)[0])
  }

  /** Focusing a window of this workspace gives it the keyboard, lists it first, shows it and ends
      its call for attention; nothing else changes. While locked nothing changes at all. */
  lemma FocusEffect(s: State, v: View)
    requires Inv(s) && v in s.win && s.win[v].mapped && OnWorkspace(s.win[v], s.current)
    ensures var t := Focus(s, v);
      if s.locked then t == s
      else
        && t == s.(win := t.win, views := [v] + Remove(s.views, v), keyboard := OnView(v),
                   focusedLayer := t.focusedLayer)
        && v in t.win && t.win[v] == s.win[v].(minimized := false, urgent := false, enabled := true)
        && OthersKept(s, t, Some(v))
  {
    if s.keyboard == OnView(v) {
      assert [v] + Remove(s.views, v) == s.views;
    }
  }

  /** What handing the focus on does. */
  lemma HandOn(s: State, v: Option<View>)
    requires Base(s) && !s.locked
    ensures var t := FocusNext(s, v);
      HandedOn(s, t, v) && OthersKept(s, t, None) && t.current == s.current
  {
    FirstShownIs(s, s.views, s.current, v);
  }

  /** The same heirs, whatever became of `v` itself. */
  lemma SameHeirs(s: State, t: State, v: View)
    requires t.current == s.current && v in s.views
    requires t.views == s.views || t.views == Remove(s.views, v)
    requires forall x | x in s.views && x != v :: Get(t, x) == Get(s, x)
    ensures Heirs(t, Some(v)) == Heirs(s, Some(v))
  {
    var p := ShownBut(s, s.current, Some(v));
    FilterRelinked(s.views, v, p);
    FilterCons(v, Remove(s.views, v), p);
    FilterSame(t.views, ShownBut(t, t.current, Some(v)), p);
  }

  /** Handing the focus on after only `v` changed. */
  lemma HandOnFrom(s: State, m: State, v: View)
    requires Base(m) && !m.locked && m.current == s.current && v in s.views && v in m.win
    requires m.views == s.views || m.views == Remove(s.views, v)
    requires forall x | x in s.views && x != v :: Get(m, x) == Get(s, x)
    requires forall x | x in s.win && x != v :: x in m.win && m.win[x] == s.win[x]
    ensures var t := FocusNext(m, Some(v));
      && HandedOn(s, t, Some(v)) && OthersKept(s, t, Some(v)) && t.current == s.current
      && v in t.win && t.win[v] == m.win[v]
  {
    SameHeirs(s, m, v);
    HandOn(m, Some(v));
  }

  /** A focused window that stays shown is its own heir. */
  lemma KeepsKeyboard(s: State, v: View)
    requires Inv(s) && s.keyboard.OnView? && s.keyboard.view != v
    ensures Heirs(s, Some(v)) != [] && Heirs(s, Some(v))[0] == s.keyboard.view
  {
  }

  // ---- opening, closing, minimizing, moving ----

  lemma OpenEffect(s: State, v: View)
    requires Inv(s) && v in s.win && !s.win[v].mapped
    ensures var t := MapWindow(s, v);
      && t.views == [v] + s.views && v in t.win && t.win[v].mapped && t.win[v].workspace == s.current
      && OthersKept(s, t, Some(v)) && t.current == s.current
      && (if s.locked then t.keyboard == s.keyboard else t.keyboard == OnView(v) && Showable(t.win[v], t.current))
  {
    assert v !in s.views;
    assert Remove([v] + s.views, v) == s.views;
    ListedIs(s, v);
  }

  lemma ListedIs(s: State, v: View)
    requires Inv(s) && v in s.win && !s.win[v].mapped
    ensures var t := Listed(s, v);
      && t == s.(win := s.win[v := t.win[v]], views := [v] + s.views)
      && t.win[v] == s.win[v].(mapped := true, workspace := s.current, enabled := !s.win[v].minimized)
  {
    var w := s.win[v].(mapped := true, workspace := s.current);
    assert s.win[v := w][v := Refreshed(w, s.current)] == s.win[v := Refreshed(w, s.current)];
  }

  /** A window that closes is listed and shown no more and leaves the keyboard to the most
      recently used window still shown; a focused window keeps the keyboard when another closes. */
  lemma CloseEffect(s: State, v: View)
    requires Inv(s) && v in s.win && s.win[v].mapped
    ensures var t := UnmapWindow(s, v);
      && v !in t.views && v in t.win && !t.win[v].mapped && !t.win[v].enabled
      && OthersKept(s, t, Some(v))
      && (if s.locked then t.keyboard == s.keyboard else HandedOn(s, t, Some(v)))
      && (s.keyboard.OnView? && s.keyboard.view != v ==> t.keyboard == s.keyboard)
  {
    ClosedIs(s, v);
    var s2 := SwitcherRemove(Unlisted(s, v), v);
    var s3 := s2.(bars := RemoveButton(s2.bars, v));
    if !s.locked {
      HandOnFrom(s, s3, v);
    }
    if s.keyboard.OnView? && s.keyboard.view != v {
      KeepsKeyboard(s, v);
    }
    UnmapKeeps(s, v);
  }

  lemma ClosedIs(s: State, v: View)
    requires Inv(s) && v in s.win && s.win[v].mapped
    ensures var s2 := SwitcherRemove(Unlisted(s, v), v); var m := s2.(bars := RemoveButton(s2.bars, v));
      && Base(m) && m.current == s.current && m.locked == s.locked && m.views == Remove(s.views, v)
      && m.win == s.win[v := s.win[v].(mapped := false, enabled := false)]
      && m.keyboard == (if s.keyboard == OnView(v) then Nobody else s.keyboard)
  {
    CloseBase(s, v);
    UnlistedBase(s, v);
    SwitcherRemoveKeeps(Unlisted(s, v), v);
  }

  lemma CloseBase(s: State, v: View)
    requires Inv(s) && v in s.win && s.win[v].mapped
    ensures var s2 := SwitcherRemove(Unlisted(s, v), v); Base(s2.(bars := RemoveButton(s2.bars, v)))
  {
    UnlistedBase(s, v);
    SwitcherRemoveKeeps(Unlisted(s, v), v);
    ButtonsRemoved(s.bars, s.views, v);
  }

  lemma MinimizeEffect(s: State, v: View)
    requires Inv(s) && v in s.win && s.win[v].mapped
    ensures var t := Minimize(s, v);
      && v in t.win && t.win[v] == s.win[v].(minimized := true, enabled := false)
      && OthersKept(s, t, Some(v)) && t.current == s.current
      && (if s.locked then t.keyboard == s.keyboard else HandedOn(s, t, Some(v)))
      && (s.keyboard.OnView? && s.keyboard.view != v ==> t.keyboard == s.keyboard)
  {
    MinimizedIs(s, v);
    if !s.locked {
      HandOnFrom(s, SetMinimized(s, v, true), v);
    }
    if s.keyboard.OnView? && s.keyboard.view != v {
      KeepsKeyboard(s, v);
    }
  }

  lemma MinimizedIs(s: State, v: View)
    requires Inv(s) && v in s.win && s.win[v].mapped
    ensures var m := SetMinimized(s, v, true);
      Base(m) && m == s.(win := s.win[v := s.win[v].(minimized := true, enabled := false)])
  {
    var w := s.win[v].(minimized := true, enabled := false);
    assert SetMinimized(s, v, true) == Put(s, v, w) by {
      assert s.win[v := s.win[v].(minimized := true)][v := w] == s.win[v := w];
    }
    PutBase(s, v, w);
  }

  /** Moving the focused window hands the keyboard on, even when a pinned window is only sent to
      the workspace it is on. */
  lemma MoveEffect(s: State, ws: int)
    requires Inv(s) && s.keyboard.OnView? && 0 <= ws < NUM_WORKSPACES
    ensures var v := s.keyboard.view; var t := MoveToWorkspace(s, v, ws);
      if !Get(s, v).pinned && Get(s, v).workspace == ws then t == s
      else
        && v in t.win && t.win[v] == s.win[v].(pinned := false, workspace := ws, enabled := ws == s.current)
        && OthersKept(s, t, Some(v)) && t.current == s.current && HandedOn(s, t, Some(v))
  {
    var v := s.keyboard.view;
    if Get(s, v).pinned || Get(s, v).workspace != ws {
      MovedIs(s, v, ws);
      HandOnFrom(s, SwitcherRemove(Rehomed(s, v, ws), v), v);
    }
  }

  lemma MovedIs(s: State, v: View, ws: int)
    requires Inv(s) && v in s.win && s.win[v].mapped && !s.win[v].minimized && 0 <= ws < NUM_WORKSPACES
    ensures var m := SwitcherRemove(Rehomed(s, v, ws), v);
      && Base(m) && m.current == s.current && m.locked == s.locked && m.views == s.views
      && m.win == s.win[v := s.win[v].(pinned := false, workspace := ws, enabled := ws == s.current)]
  {
    SwitcherRemoveKeeps(Rehomed(s, v, ws), v);
  }

  // ---- going to a window ----

  ghost predicate WentTo(t: State, v: View, ws: int) {
    && t.current == ws && t.keyboard == OnView(v) && t.views != [] && t.views[0] == v
    && v in t.win && Showable(t.win[v], ws) && t.win[v].enabled && !t.win[v].urgent
  }

  /** Activation goes to the window's workspace, a click on its button too unless it is pinned;
      and then to the window. */
  lemma ActivateEffect(s: State, v: View)
    requires Inv(s) && v in s.win && s.win[v].mapped && !s.locked
    ensures WentTo(Activate(s, v), v, s.win[v].workspace)
    ensures WentTo(ClickTask(s, v), v, if s.win[v].pinned then s.current else s.win[v].workspace)
  {
    ActivateKeeps(s, v);
    ClickTaskKeeps(s, v);
    SwitchShows(s, v, s.win[v].workspace);
    FocusedIs(if s.win[v].workspace != s.current then SwitchWorkspace(s, s.win[v].workspace) else s, v);
    FocusedIs(s, v);
  }

  lemma FocusedIs(s: State, v: View)
    requires !s.locked && Get(s, v).mapped
    ensures Focus(s, v).keyboard == OnView(v) && Focus(s, v).current == s.current
  {
  }

  /** A request without a valid token gets no more than attention, and that only for a window
      that is open and not focused. */
  lemma TokenEffect(s: State, v: View)
    requires Inv(s) && v in s.win
    ensures RequestActivation(s, v, false) ==
      if s.win[v].mapped && s.keyboard != OnView(v) then s.(win := s.win[v := s.win[v].(urgent := true)]) else s
  {
  }

  ghost predicate Unasked(e: Event) {
    e.ActivationToken? && !e.valid
  }

  /** From `s` to `t` nothing changed but that the open, unfocused windows that asked call for
      attention now, in addition to those that did. */
  ghost predicate OnlyCalls(s: State, t: State, es: seq<Event>) {
    && t == s.(win := t.win) && t.win.Keys == s.win.Keys
    && forall v | v in s.win :: t.win[v] == Calling(s, v, ActivationToken(v, false) in es)
  }

  ghost function Calling(s: State, v: View, asked: bool): Window
    requires v in s.win
  {
    var w := s.win[v];
    w.(urgent := w.urgent || (asked && w.mapped && s.keyboard != OnView(v)))
  }

  lemma CallsCons(s: State, m: State, t: State, e: Event, es: seq<Event>)
    requires OnlyCalls(s, m, [e]) && OnlyCalls(m, t, es)
    ensures OnlyCalls(s, t, [e] + es)
  {
    forall v | v in s.win
      ensures t.win[v] == Calling(s, v, ActivationToken(v, false) in [e] + es)
    {
      assert m.win[v] == Calling(s, v, ActivationToken(v, false) in [e]);
    }
  }

  /** However often windows ask without a valid token, over any run of such requests. */
  lemma {:induction false} TokensNeverSteal(s: State, es: seq<Event>)
    requires Inv(s) && PossibleRun(s, es) && forall e | e in es :: Unasked(e)
    ensures OnlyCalls(s, Run(s, es), es)
    decreases |es|
  {
    if es != [] {
      var e := es[0];
      assert e in es && forall x | x in es[1..] :: x in es;
      TokenCalls(s, e.v);
      StepKeeps(s, e);
      TokensNeverSteal(Step(s, e), es[1..]);
      CallsCons(s, Step(s, e), Run(s, es), e, es[1..]);
      assert [e] + es[1..] == es;
    }
  }

  lemma TokenCalls(s: State, v: View)
    requires Inv(s) && v in s.win
    ensures OnlyCalls(s, RequestActivation(s, v, false), [ActivationToken(v, false)])
  {
    TokenEffect(s, v);
  }

  /** Pinning and unpinning undo each other exactly when the window belongs to this workspace. */
  lemma PinTwice(s: State, v: View)
    requires Inv(s) && s.keyboard == OnView(v)
    ensures TogglePin(TogglePin(s, v), v) == s <==> s.win[v].workspace == s.current
  {
    var t := TogglePin(TogglePin(s, v), v);
    assert t.win == s.win[v := t.win[v]];
    if s.win[v].workspace == s.current {
      assert s.win[v := s.win[v]] == s.win;
    }
  }

  // ---- lending the keyboard ----

  /** A panel that takes the keyboard and goes away gives it back to the window that had it. */
  lemma LayerRoundTrip(s: State, l: nat)
    requires Inv(s) && s.keyboard.OnView? && l !in s.layers
    ensures LayerMapped(s, l, true).keyboard == OnLayer(l)
    ensures var t := LayerUnmapped(LayerMapped(s, l, true), l);
      t.keyboard == s.keyboard && t.views == s.views && t.win == s.win && t.layers == s.layers
  {
    var v := s.keyboard.view;
    HeadFound(s.win, s.views, s.current, None);
    assert s.win[v := s.win[v]] == s.win;
    assert [v] + Remove(s.views, v) == s.views;
    assert s.layers + {l} - {l} == s.layers;
  }

  ghost predicate OfLocker(e: Event) {
    e.LockSurfaceCreated? || e.LockSurfaceDestroyed? || e.KeyPressed?
  }

  lemma {:induction false} LockerOnly(s: State, es: seq<Event>)
    requires forall e | e in es :: OfLocker(e)
    ensures var t := Run(s, es);
      t.win == s.win && t.views == s.views && t.current == s.current && t.locked == s.locked
    decreases |es|
  {
    if es != [] {
      assert es[0] in es && forall e | e in es[1..] :: e in es;
      LockerOnly(Step(s, es[0]), es[1..]);
    }
  }

  /** Locking, whatever the locker's surfaces do, and unlocking gives the keyboard back. */
  lemma LockRoundTrip(s: State, k: nat, es: seq<Event>)
    requires Inv(s) && s.keyboard.OnView? && s.lock.None? && forall e | e in es :: OfLocker(e)
    ensures var t := Unlock(Run(NewLock(s, k), es));
      t.keyboard == s.keyboard && t.views == s.views && t.win == s.win && !t.locked
  {
    var v := s.keyboard.view;
    var m := Run(NewLock(s, k), es);
    LockerOnly(NewLock(s, k), es);
    HeadFound(s.win, s.views, s.current, None);
    assert s.win[v := s.win[v]] == s.win;
    assert [v] + Remove(s.views, v) == s.views;
    UnlockedIs(m.(locked := false), v);
  }

  lemma UnlockedIs(s: State, v: View)
    requires !s.locked && v in s.win && Showable(s.win[v], s.current) && !s.win[v].urgent
    requires FirstShown(s.win, s.views, s.current, None) == Some(v) && s.views != [] && s.views[0] == v
    ensures var t := FocusNext(s, None); t.keyboard == OnView(v) && t.views == s.views && t.win == s.win
  {
    assert s.win[v := s.win[v]] == s.win;
    assert [v] + Remove(s.views, v) == s.views;
  }

  /** A window that is pinned and then sent to the workspace it is on leaves the keyboard to the other
      window, although it is still shown. */
  lemma SentHereLosesKeyboard(w: View, p: View)
    requires w != p
    ensures var es := [NewWindow(w), WindowMapped(w), NewWindow(p), WindowMapped(p), PinAction];
      var s := Run(START, es); var t := MoveToWorkspace(s, p, 0);
      && GuardedRun(START, es) && s.keyboard == OnView(p) && s.current == 0 && t.keyboard == OnView(w)
      && Showable(Get(t, p), t.current)
  {
    var s2, s4 := Opened(START, w), Opened(Opened(START, w), p);
    var openW, openP := [NewWindow(w), WindowMapped(w)], [NewWindow(p), WindowMapped(p)];
    OpenRun(START, w);
    OpenRun(s2, p);
    PinRun(s4, p);
    LeadsAppend(START, openW, s2, openP, s4);
    LeadsAppend(START, openW + openP, s4, [PinAction], TogglePin(s4, p));
    assert openW + openP + [PinAction] == [NewWindow(w), WindowMapped(w), NewWindow(p), WindowMapped(p), PinAction];
    SentHere(TogglePin(s4, p), w, p);
  }

  lemma SentHere(s: State, w: View, p: View)
    requires w != p && s.views == [p, w] && s.current == 0 && !s.locked && s.keyboard == OnView(p)
    requires s.switcher.Closed?
    requires s.win == map[w := Window(true, false, false, false, 0, true),
                          p := Window(true, false, true, false, 0, true)]
    ensures var t := MoveToWorkspace(s, p, 0); t.keyboard == OnView(w) && Showable(Get(t, p), t.current)
  {
    var m := Rehomed(s, p, 0);
    assert m.views[1..] == [w] && m.win[w] == s.win[w];
    assert FirstShown(m.win, [w], 0, Some(p)) == Some(w);
    assert FirstShown(m.win, m.views, 0, Some(p)) == Some(w);
  }
}
