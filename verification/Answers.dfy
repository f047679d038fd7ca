/** What the window manager answers to each event, in terms of the state before it. */
module Answers {
  import opened Lists
  import opened Views
  import opened Desktop
  import opened Safety
  import opened Effects
  import opened RoundTrip
  import AltTab

  /** Only the windows, the MRU list and the keyboard may have changed. */
  ghost predicate ElseKept(s: State, t: State) {
    t == s.(win := t.win, views := t.views, keyboard := t.keyboard, focusedLayer := t.focusedLayer)
  }

  lemma FocusNextFrame(s: State, skip: Option<View>)
    ensures ElseKept(s, FocusNext(s, skip))
  {
  }

  // ---- windows coming and going ----

  lemma CreatedAnswer(s: State, v: View)
    requires Possible(s, NewWindow(v))
    ensures var t := Step(s, NewWindow(v));
      && t == s.(win := t.win) && t.win.Keys == s.win.Keys + {v}
      && (forall x | x in s.win :: t.win[x] == s.win[x])
      && !t.win[v].mapped && !t.win[v].minimized && !t.win[v].pinned && !t.win[v].urgent
  {
  }

  lemma DestroyedAnswer(s: State, v: View)
    requires Loose(s) && v in s.win
    ensures var t := Step(s, WindowDestroyed(v));
      && t == s.(win := t.win, views := t.views, keyboard := t.keyboard) && t.win.Keys == s.win.Keys - {v}
      && (forall x | x in t.win :: t.win[x] == s.win[x])
      && (forall x :: x in t.views <==> x in s.views && x != v)
      && t.keyboard == (if s.keyboard == OnView(v) then Nobody else s.keyboard)
  {
    RemoveDistinct(s.views, v);
  }

  /** A window that opens gets a button at the end of every taskbar. */
  lemma OpenedAnswer(s: State, v: View)
    requires Inv(s) && Possible(s, WindowMapped(v))
    ensures var t := Step(s, WindowMapped(v));
      && t.views == [v] + s.views && ElseKept(s.(bars := t.bars), t) && OthersKept(s, t, Some(v))
      && |t.bars| == |s.bars| && (forall i :: 0 <= i < |s.bars| ==> t.bars[i] == s.bars[i] + [v])
      && v in t.win && t.win[v].mapped && t.win[v].workspace == s.current && t.win[v].pinned == s.win[v].pinned
      && (if s.locked then t.keyboard == s.keyboard
          else t.keyboard == OnView(v) && !t.win[v].minimized && t.win[v].enabled)
  {
    OpenEffect(s, v);
    ListedIs(s, v);
    MapKeeps(s, v);
  }

  lemma ClosedAnswer(s: State, v: View)
    requires Inv(s) && Possible(s, WindowUnmapped(v))
    ensures var t := Step(s, WindowUnmapped(v));
      && ElseKept(s.(bars := t.bars, switcher := t.switcher), t) && OthersKept(s, t, Some(v))
      && (forall x :: x in t.views <==> x in s.views && x != v)
      && |t.bars| == |s.bars| && (forall i :: 0 <= i < |s.bars| ==> t.bars[i] == Remove(s.bars[i], v))
      && t.switcher == SwitcherRemove(s, v).switcher && v in t.win && !t.win[v].mapped && !t.win[v].enabled
      && (if s.locked then t.keyboard == s.keyboard else HandedOn(s, t, Some(v)))
  {
    CloseEffect(s, v);
    CloseFrame(s, v);
    CloseLists(s, v);
  }

  lemma CloseFrame(s: State, v: View)
    ensures var t := UnmapWindow(s, v);
      && ElseKept(s.(bars := t.bars, switcher := t.switcher), t) && t.switcher == SwitcherRemove(s, v).switcher
      && |t.bars| == |s.bars| && (forall i :: 0 <= i < |s.bars| ==> t.bars[i] == Remove(s.bars[i], v))
  {
    var s3 := SwitcherRemove(Unlisted(s, v), v);
    assert s3.switcher == SwitcherRemove(s, v).switcher;
    assert ElseKept(s.(switcher := s3.switcher), s3);
    FocusNextFrame(s3.(bars := RemoveButton(s3.bars, v)), Some(v));
  }

  lemma CloseLists(s: State, v: View)
    requires Inv(s) && Possible(s, WindowUnmapped(v))
    ensures forall x :: x in UnmapWindow(s, v).views <==> x in s.views && x != v
  {
    CloseEffect(s, v);
    UnmapKeeps(s, v);
    var t := UnmapWindow(s, v);
    forall x
      ensures x in t.views <==> x in s.views && x != v
    {
      if x in s.win {
        assert x != v ==> t.win[x].mapped == s.win[x].mapped;
      } else {
        assert x !in t.win by {
          CloseKeys(s, v);
        }
      }
    }
  }

  lemma CloseKeys(s: State, v: View)
    requires Inv(s) && Possible(s, WindowUnmapped(v))
    ensures UnmapWindow(s, v).win.Keys == s.win.Keys
  {
    ClosedIs(s, v);
    var s2 := SwitcherRemove(Unlisted(s, v), v);
    FocusNextKeys(s2.(bars := RemoveButton(s2.bars, v)), Some(v));
  }

  lemma FocusNextKeys(s: State, skip: Option<View>)
    ensures FocusNext(s, skip).win.Keys == s.win.Keys
  {
  }

  // ---- minimizing and restoring ----

  /** A client or a panel asks to minimize. */
  lemma MinimizedAnswer(s: State, v: View)
    requires Inv(s) && v in s.win && s.win[v].mapped
    ensures var t := Step(s, MinimizeRequest(v));
      && ElseKept(s, t) && OthersKept(s, t, Some(v))
      && v in t.win && t.win[v] == s.win[v].(minimized := true, enabled := false)
      && (if s.locked then t.keyboard == s.keyboard else HandedOn(s, t, Some(v)))
  {
    MinimizeEffect(s, v);
    assert ElseKept(s, Minimize(s, v)) by {
      FocusNextFrame(SetMinimized(s, v, true), Some(v));
    }
  }

  /** A key minimizes the focused window, if there is one. */
  lemma MinimizeKeyAnswer(s: State)
    ensures Step(s, MinimizeAction) == if s.keyboard.OnView? then Step(s, MinimizeRequest(s.keyboard.view)) else s
  {
  }

  /** A window that a panel un-minimizes gets the keyboard; it comes on screen if it is pinned or on
      this workspace, which does not change. While locked it does not get the keyboard. */
  lemma RestoredAnswer(s: State, v: View)
    requires Inv(s) && Possible(s, RestoreRequest(v))
    ensures var t := Step(s, RestoreRequest(v));
      && ElseKept(s, t) && OthersKept(s, t, Some(v)) && v in t.win
      && t.win[v] == s.win[v].(minimized := false, enabled := s.win[v].pinned || s.win[v].workspace == s.current,
                               urgent := s.locked && s.win[v].urgent)
      && (if s.locked then t.keyboard == s.keyboard && t.views == s.views
          else t.keyboard == OnView(v) && t.views == [v] + Remove(s.views, v))
  {
    var m := SetMinimized(s, v, false);
    RestoredIs(s, v);
    AwakeFocus(m, v);
    if !s.locked && s.keyboard == OnView(v) {
      assert [v] + Remove(s.views, v) == s.views;
    }
  }

  lemma RestoredIs(s: State, v: View)
    requires v in s.win
    ensures SetMinimized(s, v, false) ==
      Put(s, v, s.win[v].(minimized := false, enabled := s.win[v].pinned || s.win[v].workspace == s.current))
  {
    var w := s.win[v].(minimized := false, enabled := s.win[v].pinned || s.win[v].workspace == s.current);
    assert s.win[v := s.win[v].(minimized := false)][v := w] == s.win[v := w];
  }

  lemma AwakeFocus(m: State, v: View)
    requires v in m.win && m.win[v].mapped && !m.win[v].minimized
    ensures Focus(m, v) ==
      if m.locked then m
      else if m.keyboard == OnView(v) then Put(m, v, m.win[v].(urgent := false))
      else Put(m, v, m.win[v].(urgent := false)).(views := [v] + Remove(m.views, v), keyboard := OnView(v),
                                                 focusedLayer := None)
  {
  }

  // ---- going to a window ----

  lemma ClickedAnswer(s: State, v: View)
    requires Inv(s) && Possible(s, WindowClicked(v))
    ensures var t := Step(s, WindowClicked(v));
      WentTo(t, v, s.current) && t.views == [v] + Remove(s.views, v) && ElseKept(s, t) && OthersKept(s, t, Some(v))
  {
    FocusEffect(s, v);
    FocusKeeps(s, v);
  }

  /** A panel leads to the window, wherever it is; */
  lemma PanelAnswer(s: State, v: View)
    requires Inv(s) && Possible(s, ActivateRequest(v)) && !s.locked
    ensures WentTo(Step(s, ActivateRequest(v)), v, s.win[v].workspace)
  {
    ActivateEffect(s, v);
  }

  /** so does a valid token; */
  lemma TokenAnswer(s: State, v: View)
    requires Inv(s) && v in s.win && s.win[v].mapped && !s.locked
    ensures WentTo(Step(s, ActivationToken(v, true)), v, s.win[v].workspace)
  {
    TokenIs(s, v);
    ActivateEffect(s, v);
  }

  lemma TokenIs(s: State, v: View)
    requires Get(s, v).mapped
    ensures Step(s, ActivationToken(v, true)) == Activate(s, v)
  {
  }

  /** and so does a taskbar button, which leaves the workspace for no pinned window. */
  lemma TaskAnswer(s: State, v: View)
    requires Inv(s) && Possible(s, TaskClicked(v))
    ensures WentTo(Step(s, TaskClicked(v)), v, if s.win[v].pinned then s.current else s.win[v].workspace)
  {
    InvLoose(s);
    TaskButtonsLive(s, v);
    ActivateEffect(s, v);
  }

  /** A token for a window that is not open does nothing, and while locked none gives the keyboard to
      a window. */
  lemma NoTokenAnswer(s: State, v: View, valid: bool)
    requires Inv(s) && v in s.win
    ensures !s.win[v].mapped ==> Step(s, ActivationToken(v, valid)) == s
    ensures s.locked ==> !Step(s, ActivationToken(v, valid)).keyboard.OnView?
    ensures s.win[v].mapped && !valid ==>
      Step(s, ActivationToken(v, valid))
      == if s.keyboard == OnView(v) then s else s.(win := s.win[v := s.win[v].(urgent := true)])
  {
    RequestActivationKeeps(s, v, valid);
    TokenEffect(s, v);
    if valid && s.win[v].mapped {
      SwitchShows(s, v, s.win[v].workspace);
    }
  }

  /** While locked, a panel and a valid token switch to the workspace of the window and do no more. */
  lemma LockedWentAnswer(s: State, v: View)
    requires Inv(s) && v in s.win && s.win[v].mapped && s.locked
    ensures Step(s, ActivateRequest(v)) == Step(s, WorkspaceAction(s.win[v].workspace))
    ensures Step(s, ActivationToken(v, true)) == Step(s, WorkspaceAction(s.win[v].workspace))
  {
    TokenIs(s, v);
    LockedActivate(s, v);
  }

  lemma LockedActivate(s: State, v: View)
    requires Inv(s) && s.locked
    ensures Activate(s, v) == SwitchWorkspace(s, Get(s, v).workspace)
  {
    SwitchFlags(s, Get(s, v).workspace);
  }

  lemma SwitchFlags(s: State, ws: int)
    ensures SwitchWorkspace(s, ws).locked == s.locked
  {
  }

  // ---- workspaces ----

  /** An indicator is added for a workspace that is reached for the first time, and no other. */
  ghost predicate Reached(s: State, t: State, ws: int) {
    t.maxVisible == if ws <= s.maxVisible then s.maxVisible else ws
  }

  /** The current workspace, or one that does not exist: nothing. Another one: it becomes the current
      one, Alt-Tab closes, and its most recently used window takes the keyboard; while locked no
      window does. */
  lemma SwitchAnswer(s: State, ws: int)
    requires Inv(s)
    ensures var t := Step(s, WorkspaceAction(ws)); var next := FirstShown(s.win, s.views, ws, None);
      if ws == s.current || !(0 <= ws < 9) then t == s
      else
        && t.current == ws && Reached(s, t, ws) && t.switcher == Closed && SameFlags(s, t)
        && ElseKept(s.(current := ws, maxVisible := t.maxVisible, switcher := Closed), t)
        && t.keyboard == (if next.None? then Nobody else if s.locked then s.keyboard else OnView(next.value))
        && (s.locked ==> t.views == s.views)
  {
    if 0 <= ws < 9 && ws != s.current {
      SwitchFrame(s, ws);
      if s.locked {
        SwitchLocked(s, ws);
      } else {
        SwitchEffect(s, ws);
      }
    }
  }

  lemma SwitchFrame(s: State, ws: int)
    requires 0 <= ws < 9 && ws != s.current
    ensures var t := SwitchWorkspace(s, ws);
      Reached(s, t, ws) && ElseKept(s.(current := ws, maxVisible := t.maxVisible, switcher := Closed), t)
  {
    var s1 := WithCurrent(s, ws);
    var s2 := s1.(win := RefreshedAll(s1));
    assert ElseKept(s1, s2) && Reached(s, s2, ws);
    var next := FirstShown(s2.win, s2.views, ws, None);
    if next.Some? {
      assert ElseKept(s2, Focus(s2, next.value));
    }
  }

  lemma SwitchLocked(s: State, ws: int)
    requires Inv(s) && s.locked && 0 <= ws < NUM_WORKSPACES && ws != s.current
    ensures var t := SwitchWorkspace(s, ws);
      && SameFlags(s, t) && t.views == s.views
      && t.keyboard == if FirstShown(s.win, s.views, ws, None).None? then Nobody else s.keyboard
  {
    var s1 := WithCurrent(s, ws);
    var s2 := s1.(win := RefreshedAll(s1));
    assert SameFlags(s, s2);
    FirstShownSame(s, s2, s.views, ws);
  }

  /** A key moves the focused window, if there is one and the workspace exists and is not its own. */
  lemma MoveAnswer(s: State, ws: int)
    requires Inv(s)
    ensures var t := Step(s, MoveAction(ws));
      if !s.keyboard.OnView? || !(0 <= ws < 9) then t == s
      else
        var v := s.keyboard.view;
        if !s.win[v].pinned && s.win[v].workspace == ws then t == s
        else
          && ElseKept(s.(maxVisible := t.maxVisible, switcher := t.switcher), t) && Reached(s, t, ws)
          && t.switcher == SwitcherRemove(s, v).switcher
          && v in t.win && t.win[v] == s.win[v].(pinned := false, workspace := ws, enabled := ws == s.current)
          && OthersKept(s, t, Some(v)) && HandedOn(s, t, Some(v))
  {
    if s.keyboard.OnView? && 0 <= ws < 9 {
      MoveEffect(s, ws);
      if s.win[s.keyboard.view].pinned || s.win[s.keyboard.view].workspace != ws {
        MoveFrame(s, s.keyboard.view, ws);
      }
    }
  }

  lemma MoveFrame(s: State, v: View, ws: int)
    requires 0 <= ws < 9 && (Get(s, v).pinned || Get(s, v).workspace != ws)
    ensures var t := MoveToWorkspace(s, v, ws);
      && ElseKept(s.(maxVisible := t.maxVisible, switcher := t.switcher), t) && Reached(s, t, ws)
      && t.switcher == SwitcherRemove(s, v).switcher
  {
    var m := Rehomed(s, v, ws);
    assert ElseKept(s.(maxVisible := m.maxVisible), m) && Reached(s, m, ws);
    RemovalAnswer(m, v);
    FocusNextFrame(SwitcherRemove(m, v), Some(v));
  }

  /** A key pins the focused window, which then belongs to every workspace, or unpins it, and then it
      belongs to this one only; nothing else changes, not even what is on screen. */
  lemma PinAnswer(s: State)
    requires Loose(s)
    ensures var t := Step(s, PinAction);
      if !s.keyboard.OnView? then t == s
      else
        var v := s.keyboard.view; var w := s.win[v];
        && t == s.(win := t.win) && OthersKept(s, t, Some(v)) && v in t.win
        && t.win[v] == w.(pinned := t.win[v].pinned, workspace := t.win[v].workspace)
        && t.win[v].pinned == !w.pinned && (!w.pinned ==> t.win[v].workspace == w.workspace)
        && (forall ws :: OnWorkspace(t.win[v], ws) <==> !w.pinned || ws == s.current)
  {
    if s.keyboard.OnView? {
      var v := s.keyboard.view;
      assert forall ws :: OnWorkspace(TogglePin(s, v).win[v], ws) <==> !s.win[v].pinned || ws == s.current;
    }
  }

  // ---- layer surfaces ----

  /** A layer surface takes the keyboard if and only if it asks for it and the session is not locked;
      a panel or a wallpaper that does not ask changes nothing but the surfaces there are. */
  lemma LayerMapAnswer(s: State, l: nat, interactive: bool)
    ensures var t := Step(s, LayerMap(l, interactive));
      && (forall k :: k in t.layers <==> k in s.layers || k == l)
      && (if interactive && !s.locked then
            t == s.(layers := t.layers, keyboard := OnLayer(l), focusedLayer := Some(l))
          else t == s.(layers := t.layers))
  {
  }

  /** A layer surface that goes leaves the keyboard to a window if it was the last to take it, and
      changes nothing else. */
  lemma LayerUnmapAnswer(s: State, l: nat)
    requires Inv(s)
    ensures var t := Step(s, LayerUnmap(l));
      && (forall k :: k in t.layers <==> k in s.layers && k != l)
      && (if s.focusedLayer == Some(l) then
            && t.focusedLayer == None && ElseKept(s.(layers := t.layers), t) && OthersKept(s, t, None)
            && (if s.locked then t.keyboard == s.keyboard else HandedOn(s, t, None))
          else t == s.(layers := t.layers))
    ensures Step(s, LayerDestroy(l)) == s.(focusedLayer := if s.focusedLayer == Some(l) then None else s.focusedLayer)
  {
    var m := s.(layers := s.layers - {l}, focusedLayer := None);
    if s.focusedLayer == Some(l) && !s.locked {
      HandOn(m, None);
      assert Heirs(m, None) == Heirs(s, None) by {
        FilterSame(s.views, ShownBut(m, m.current, None), ShownBut(s, s.current, None));
      }
    }
  }

  // ---- the session lock ----

  /** A locker that is let in takes the keyboard away from everybody and closes Alt-Tab. */
  lemma LockAnswer(s: State, k: nat)
    ensures Step(s, LockRequest(k)) ==
      if s.lock.Some? then s else s.(lock := Some(k), locked := true, keyboard := Nobody, switcher := Closed)
  {
  }

  /** A lock that goes is forgotten, and nothing else: the session stays as locked as it was. */
  lemma LockGoneAnswer(s: State)
    ensures Step(s, LockDestroyed) == s.(lock := None)
  {
  }

  /** A new surface of the lock takes the keyboard. */
  lemma LockSurfaceAnswer(s: State, k: nat)
    ensures var t := Step(s, LockSurfaceCreated(k));
      && t == s.(lockSurfaces := t.lockSurfaces, keyboard := OnLock(k))
      && t.lockSurfaces != [] && t.lockSurfaces[0] == k && t.lockSurfaces[1..] == s.lockSurfaces
  {
  }

  /** A surface that goes while it has the keyboard leaves it to the newest other surface, and to nobody
      only if there is none. */
  lemma LockSurfaceGoneAnswer(s: State, k: nat)
    requires Loose(s)
    ensures var t := Step(s, LockSurfaceDestroyed(k));
      && t == s.(lockSurfaces := t.lockSurfaces, keyboard := t.keyboard)
      && (forall x :: x in t.lockSurfaces <==> x in s.lockSurfaces && x != k)
      && (s.keyboard != OnLock(k) ==> t.keyboard == s.keyboard)
      && (s.keyboard == OnLock(k) ==>
            t.keyboard == if t.lockSurfaces == [] then Nobody else OnLock(t.lockSurfaces[0]))
  {
    LockLive(s, k);
  }

  lemma LockLive(s: State, k: nat)
    requires Loose(s)
    ensures s.keyboard == OnLock(k) ==> s.lock.Some? && s.locked
  {
  }

  /** After a key press, a live lock that has a surface has the keyboard. */
  lemma KeyAnswer(s: State)
    requires Loose(s)
    ensures var t := Step(s, KeyPressed);
      && t == s.(keyboard := t.keyboard)
      && (s.locked && s.lockSurfaces != [] ==> t.keyboard.OnLock? && t.keyboard.surface in s.lockSurfaces)
      && (!s.locked || s.lockSurfaces == [] || s.keyboard.OnLock? ==> t == s)
  {
  }

  // ---- taskbars and Alt-Tab ----

  lemma BarAnswer(s: State, i: nat)
    ensures var t := Step(s, BarCreated);
      t == s.(bars := t.bars) && |t.bars| == |s.bars| + 1 && t.bars[|s.bars|] == s.views && t.bars[..|s.bars|] == s.bars
    ensures i < |s.bars| ==>
      var t := Step(s, BarDeleted(i));
      && t == s.(bars := t.bars) && |t.bars| == |s.bars| - 1
      && t.bars[..i] == s.bars[..i] && t.bars[i..] == s.bars[i + 1..]
  {
  }

  lemma CancelAnswer(s: State)
    ensures Step(s, CycleCancelled) == s.(switcher := Closed)
  {
  }

  /** In mid-cycle a press moves the highlight and offers nothing new. */
  lemma RepeatAnswer(s: State, mods: Mods, backwards: bool)
    requires Loose(s) && s.switcher.Open?
    ensures var t := Step(s, CycleAction(mods, backwards));
      && t == s.(switcher := t.switcher) && t.switcher.Open?
      && t.switcher.snapshot == s.switcher.snapshot && t.switcher.mods == s.switcher.mods
  {
  }

  /** The offer to Alt-Tab: exactly the open windows of the current workspace, minimized or not, in
      the order of the MRU list. */
  ghost predicate Offers(s: State, list: seq<View>) {
    && Distinct(list)
    && (forall v | v in list :: v in s.win && s.win[v].mapped && s.win[v].workspace == s.current)
    && (forall v | v in s.win && s.win[v].mapped && s.win[v].workspace == s.current :: v in list)
    && (forall i, j :: 0 <= i < j < |list| ==> Precedes(s.views, list[i], list[j]))
  }

  ghost predicate Precedes(list: seq<View>, a: View, b: View) {
    exists i, j :: 0 <= i < j < |list| && list[i] == a && list[j] == b
  }

  lemma {:induction false} FilterOrder(list: seq<View>, p: View -> bool, i: nat, j: nat)
    requires i < j < |Filter(list, p)|
    ensures Precedes(list, Filter(list, p)[i], Filter(list, p)[j])
  {
    var f := Filter(list, p);
    if p(list[0]) && i == 0 {
      assert f[j] == Filter(list[1..], p)[j - 1];
      assert f[j] in list[1..];
      var k :| 0 <= k < |list[1..]| && list[1..][k] == f[j];
      assert list[0] == f[0] && list[k + 1] == f[j];
    } else {
      var d := if p(list[0]) then 1 else 0;
      FilterOrder(list[1..], p, i - d, j - d);
      var a, b :| 0 <= a < b < |list[1..]| && list[1..][a] == f[i] && list[1..][b] == f[j];
      assert list[a + 1] == f[i] && list[b + 1] == f[j];
    }
  }

  /** The first press opens Alt-Tab on that offer, at the second entry or, backwards, at the last one;
      with nothing to offer it does nothing. */
  lemma FirstPressAnswer(s: State, mods: Mods, backwards: bool)
    requires Loose(s) && s.switcher.Closed?
    ensures var t := Step(s, CycleAction(mods, backwards));
      && t == s.(switcher := t.switcher)
      && (t.switcher.Closed? <==> forall v :: v in s.win && s.win[v].mapped ==> s.win[v].workspace != s.current)
      && (t.switcher.Open? ==>
            && Offers(s, t.switcher.snapshot) && t.switcher.mods == mods
            && t.switcher.selected ==
                 if backwards then |t.switcher.snapshot| - 1 else if |t.switcher.snapshot| > 1 then 1 else 0)
  {
    var list := Candidates(s);
    FilterDistinct(s.views, Offered(s));
    forall i, j | 0 <= i < j < |list|
      ensures Precedes(s.views, list[i], list[j])
    {
      FilterOrder(s.views, Offered(s), i, j);
    }
    if list != [] {
      AltTab.AdvancedIs(|list|, 0);
      assert list[0] in list;
    }
  }

  /** Releasing the modifiers closes it and goes to the highlighted window. */
  lemma ReleaseAnswer(s: State, mods: Mods)
    requires Inv(s) && s.switcher.Open?
    ensures var v := s.switcher.snapshot[s.switcher.selected]; var t := Step(s, ModifiersEvent(mods));
      if exists m :: m in mods && m in s.switcher.mods then t == s
      else
        && t.switcher == Closed && ElseKept(s.(switcher := Closed), t) && OthersKept(s, t, Some(v))
        && (if s.locked then t.keyboard == s.keyboard else WentTo(t, v, s.current))
    ensures s.switcher.Open? && Step(s.(switcher := Closed), ModifiersEvent(mods)) == s.(switcher := Closed)
  {
    var v := s.switcher.snapshot[s.switcher.selected];
    if m :| m in mods && m in s.switcher.mods {
      assert m in mods * s.switcher.mods;
    } else {
      assert mods * s.switcher.mods == {};
      FocusEffect(s.(switcher := Closed), v);
      FocusKeeps(s.(switcher := Closed), v);
    }
  }

  /** A window that was not on offer may go without a trace in the offer; the modifiers stay. */
  lemma RemovalAnswer(s: State, v: View)
    ensures s.switcher.Closed? || v !in s.switcher.snapshot ==> SwitcherRemove(s, v) == s
    ensures s.switcher.Open? && SwitcherRemove(s, v).switcher.Open? ==>
      SwitcherRemove(s, v).switcher.mods == s.switcher.mods
    ensures SwitcherRemove(s, v) == s.(switcher := SwitcherRemove(s, v).switcher)
  {
  }
}
