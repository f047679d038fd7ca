/** Leaving a workspace and coming back. */
module RoundTrip {
  import opened Lists
  import opened Views
  import opened Desktop
  import opened Safety
  import opened Reachable

  /** The windows that workspace `ws` shows, most recently used first. */
  ghost function Shown(s: State, ws: int): seq<View> {
    Filter(s.views, ShownBut(s, ws, None))
  }

  /** The flags that decide where a window is shown. */
  ghost predicate SameFlags(s: State, t: State) {
    && s.win.Keys == t.win.Keys
    && forall v | v in s.win :: v in t.win && t.win[v].mapped == s.win[v].mapped
         && t.win[v].minimized == s.win[v].minimized && t.win[v].pinned == s.win[v].pinned
         && t.win[v].workspace == s.win[v].workspace
  }

  lemma {:induction false} FirstShownSame(s: State, t: State, list: seq<View>, ws: int)
    requires SameFlags(s, t)
    ensures FirstShown(s.win, list, ws, None) == FirstShown(t.win, list, ws, None)
  {
    if list != [] {
      FirstShownSame(s, t, list[1..], ws);
    }
  }

  /** What a switch to another workspace does to the list and the focus. */
  lemma SwitchEffect(s: State, b: int)
    requires Inv(s) && !s.locked && 0 <= b < NUM_WORKSPACES && b != s.current
    ensures var t := SwitchWorkspace(s, b); var u := FirstShown(s.win, s.views, b, None);
      && Inv(t) && !t.locked && t.current == b && SameFlags(s, t)
      && t.keyboard == (if u.None? then Nobody else OnView(u.value))
      && t.views == (if u.None? || s.keyboard == OnView(u.value) then s.views
                     else [u.value] + Remove(s.views, u.value))
  {
    SwitchKeeps(s, b);
    var s1 := WithCurrent(s, b);
    var s2 := s1.(win := RefreshedAll(s1));
    assert SameFlags(s, s2);
    FirstShownSame(s, s2, s.views, b);
  }

  lemma ShownKept(s: State, t: State, u: View, ws: int)
    requires WindowsListed(s) && SameFlags(s, t) && u in s.views && t.views == [u] + Remove(s.views, u)
    requires !Showable(Get(s, u), ws) || (Shown(s, ws) != [] && Shown(s, ws)[0] == u)
    ensures Shown(t, ws) == Shown(s, ws)
  {
    FilterRelinked(s.views, u, ShownBut(s, ws, None));
    ToFront(s.views, u);
    FilterSame(t.views, ShownBut(t, ws, None), ShownBut(s, ws, None));
  }

  lemma ShownSame(s: State, t: State, ws: int)
    requires SameFlags(s, t) && t.views == s.views
    ensures Shown(t, ws) == Shown(s, ws)
  {
    FilterSame(s.views, ShownBut(t, ws, None), ShownBut(s, ws, None));
  }

  /** The window that workspace `b` would focus, if any, is not pinned. */
  predicate ArrivalUnpinned(s: State, b: int) {
    var u := FirstShown(s.win, s.views, b, None);
    u.Some? ==> u.value in s.win && !s.win[u.value].pinned
  }

  /** Back from a workspace that focused `u`: an unpinned `u` leaves, a pinned one stays. */
  lemma BackFocus(s: State, m: State, w: View, u: View)
    requires Inv(s) && !s.locked && s.keyboard == OnView(w) && !s.win[w].pinned
    requires Inv(m) && SameFlags(s, m) && m.views == [u] + Remove(s.views, u) && u in s.views && u != w
    requires m.keyboard == OnView(u) && s.current != m.current
    ensures FirstShown(m.win, m.views, s.current, None) == Some(if s.win[u].pinned then u else w)
  {
    if s.win[u].pinned {
      HeadFound(m.win, m.views, s.current, None);
    } else {
      assert m.win[u].workspace == m.current;
      SecondShown(m, w);
    }
  }

  /** Switching away and back returns the keyboard to the same window if and only if that
      window is pinned or the other workspace focuses no pinned window. */
  lemma RoundTripFocus(s: State, b: int)
    requires Inv(s) && s.keyboard.OnView? && 0 <= b < NUM_WORKSPACES && b != s.current
    ensures var t := SwitchWorkspace(SwitchWorkspace(s, b), s.current);
      t.current == s.current &&
      (t.keyboard == s.keyboard <==> Get(s, s.keyboard.view).pinned || ArrivalUnpinned(s, b))
  {
    var w := s.keyboard.view;
    var m := SwitchWorkspace(s, b);
    var u := FirstShown(s.win, s.views, b, None);
    SwitchEffect(s, b);
    SwitchEffect(m, s.current);
    HeadFound(m.win, m.views, s.current, None);
    if s.win[w].pinned {
      HeadFound(s.win, s.views, b, None);
    } else if u.Some? {
      BackFocus(s, m, w, u.value);
    }
  }

  /** The head is not shown and the second window is: it is the one found. */
  lemma SecondShown(m: State, w: View)
    requires |m.views| > 1 && m.views[0] in m.win && m.views[1] == w && w in m.win
    ensures forall ws {:trigger FirstShown(m.win, m.views, ws, None)} ::
      !Showable(m.win[m.views[0]], ws) && Showable(m.win[w], ws) ==> FirstShown(m.win, m.views, ws, None) == Some(w)
  {
    assert m.views[1..][0] == w;
  }

  /** When the focus comes back, every workspace still lists its windows in the same order. */
  lemma OrderKept(s: State, b: int, ws: int)
    requires Inv(s) && s.keyboard.OnView? && 0 <= b < NUM_WORKSPACES && b != s.current
    requires Get(s, s.keyboard.view).pinned || ArrivalUnpinned(s, b)
    ensures Shown(SwitchWorkspace(SwitchWorkspace(s, b), s.current), ws) == Shown(s, ws)
  {
    var w := s.keyboard.view;
    var m := SwitchWorkspace(s, b);
    var t := SwitchWorkspace(m, s.current);
    var u := FirstShown(s.win, s.views, b, None);
    SwitchEffect(s, b);
    SwitchEffect(m, s.current);
    RoundTripFocus(s, b);
    if u.None? || u == Some(w) {
      ShownSame(s, m, ws);
    } else {
      FirstShownIs(s, s.views, b, None);
      if Showable(s.win[u.value], ws) && !s.win[w].pinned {
        assert ws == b;
      }
      if s.win[w].pinned {
        HeadFound(s.win, s.views, b, None);
      }
      ShownKept(s, m, u.value, ws);
    }
    if m.keyboard == OnView(w) {
      ShownSame(m, t, ws);
    } else {
      FirstShownIs(m, m.views, s.current, None);
      assert !s.win[w].pinned;
      ShownKept(m, t, w, ws);
    }
  }

  /** When it does not, the workspace lists the pinned window first that the other one focused. */
  lemma OrderLost(s: State, b: int)
    requires Inv(s) && s.keyboard.OnView? && 0 <= b < NUM_WORKSPACES && b != s.current
    requires !Get(s, s.keyboard.view).pinned && !ArrivalUnpinned(s, b)
    ensures Shown(SwitchWorkspace(SwitchWorkspace(s, b), s.current), s.current) != Shown(s, s.current)
  {
    var t := SwitchWorkspace(SwitchWorkspace(s, b), s.current);
    LostHead(s, b);
    ShownHead(s, s.current);
    ShownHead(t, s.current);
  }

  lemma ShownHead(s: State, ws: int)
    requires s.views != [] && Showable(Get(s, s.views[0]), ws)
    ensures Shown(s, ws) != [] && Shown(s, ws)[0] == s.views[0]
  {
  }

  lemma LostHead(s: State, b: int)
    requires Inv(s) && s.keyboard.OnView? && 0 <= b < NUM_WORKSPACES && b != s.current
    requires !Get(s, s.keyboard.view).pinned && !ArrivalUnpinned(s, b)
    ensures var t := SwitchWorkspace(SwitchWorkspace(s, b), s.current);
      t.views != [] && t.views[0] != s.views[0] && Showable(Get(t, t.views[0]), s.current)
  {
    var m := SwitchWorkspace(s, b);
    var u := FirstShown(s.win, s.views, b, None).value;
    SwitchEffect(s, b);
    SwitchEffect(m, s.current);
    BackFocus(s, m, s.keyboard.view, u);
  }

  /** Switching away and back leaves every workspace its order if and only if the focused window is
      pinned or the other workspace focuses no pinned window. */
  lemma RoundTripOrder(s: State, b: int)
    requires Inv(s) && s.keyboard.OnView? && 0 <= b < NUM_WORKSPACES && b != s.current
    ensures (forall ws :: Shown(SwitchWorkspace(SwitchWorkspace(s, b), s.current), ws) == Shown(s, ws))
            <==> Get(s, s.keyboard.view).pinned || ArrivalUnpinned(s, b)
  {
    if Get(s, s.keyboard.view).pinned || ArrivalUnpinned(s, b) {
      forall ws
        ensures Shown(SwitchWorkspace(SwitchWorkspace(s, b), s.current), ws) == Shown(s, ws)
      {
        OrderKept(s, b, ws);
      }
    } else {
      OrderLost(s, b);
    }
  }

  /** A pinned window, then another one: leaving the workspace and coming back gives the keyboard to
      the pinned one. */
  lemma PinnedTakesFocus(p: View, w: View)
    requires p != w
    ensures var es := [NewWindow(p), WindowMapped(p), PinAction, NewWindow(w), WindowMapped(w)];
      var s := Run(START, es);
      && GuardedRun(START, es) && s.keyboard == OnView(w) && s.current == 0
      && SwitchWorkspace(SwitchWorkspace(s, 1), 0).keyboard == OnView(p)
  {
    var s2, s3 := Opened(START, p), TogglePin(Opened(START, p), p);
    var openP, openW := [NewWindow(p), WindowMapped(p)], [NewWindow(w), WindowMapped(w)];
    OpenRun(START, p);
    PinRun(s2, p);
    OpenRun(s3, w);
    LeadsAppend(START, openP, s2, [PinAction], s3);
    LeadsAppend(START, openP + [PinAction], s3, openW, Opened(s3, w));
    assert openP + [PinAction] + openW == [NewWindow(p), WindowMapped(p), PinAction, NewWindow(w), WindowMapped(w)];
    GuardedInv(Opened(s3, w), openP + [PinAction] + openW);
    TwoWindows(Opened(s3, w), p, w);
  }

  lemma TwoWindows(s: State, p: View, w: View)
    requires Inv(s) && p != w && s.views == [w, p] && s.current == 0 && s.keyboard == OnView(w)
    requires s.win == map[p := Window(true, false, true, false, 0, true),
                          w := Window(true, false, false, false, 0, true)]
    ensures SwitchWorkspace(SwitchWorkspace(s, 1), 0).keyboard == OnView(p)
  {
    assert s.views[1..] == [p];
    assert FirstShown(s.win, [p], 1, None) == Some(p);
    assert FirstShown(s.win, s.views, 1, None) == Some(p);
    SwitchEffect(s, 1);
    BackToPinned(SwitchWorkspace(s, 1), p);
  }

  lemma BackToPinned(m: State, p: View)
    requires Inv(m) && !m.locked && m.current == 1 && m.keyboard == OnView(p) && m.win[p].pinned
    ensures SwitchWorkspace(m, 0).keyboard == OnView(p)
  {
    HeadFound(m.win, m.views, 0, None);
    SwitchEffect(m, 0);
  }
}
