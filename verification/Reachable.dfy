/** The promises a user relies on, for every reachable desktop. */
module Reachable {
  import opened Lists
  import opened Views
  import opened Desktop
  import opened Safety
  import opened Always

  /** `es` is a run that ends in `s`. */
  ghost predicate ReachableBy(s: State, es: seq<Event>) {
    PossibleRun(START, es) && s == Run(START, es)
  }

  /** ... in which no panel un-minimizes a window of another workspace. */
  ghost predicate GuardedBy(s: State, es: seq<Event>) {
    GuardedRun(START, es) && s == Run(START, es)
  }

  lemma ReachableLoose(s: State, es: seq<Event>)
    requires ReachableBy(s, es)
    ensures Loose(s)
  {
    StartInv();
    RunLoose(START, es);
  }

  lemma GuardedInv(s: State, es: seq<Event>)
    requires GuardedBy(s, es)
    ensures Inv(s)
  {
    StartInv();
    RunKeeps(START, es);
  }

  /** Key presses go to a window only if it is open, not minimized, the most recently used one and
      not calling for attention, and never while the session is locked. */
  lemma FocusedIsHead(s: State, es: seq<Event>)
    requires ReachableBy(s, es) && s.keyboard.OnView?
    ensures var v := s.keyboard.view;
      && v in s.win && s.win[v].mapped && !s.win[v].minimized && !s.win[v].urgent
      && |s.views| > 0 && s.views[0] == v && !s.locked
  {
    ReachableLoose(s, es);
  }

  /** ... and, in a guarded run, only if it is on screen. */
  lemma FocusedIsVisibleHead(s: State, es: seq<Event>)
    requires GuardedBy(s, es) && s.keyboard.OnView?
    ensures var v := s.keyboard.view;
      && v in s.win && s.win[v].mapped && !s.win[v].minimized && s.win[v].enabled
      && (s.win[v].pinned || s.win[v].workspace == s.current)
      && |s.views| > 0 && s.views[0] == v && !s.locked && !s.win[v].urgent
  {
    GuardedInv(s, es);
  }

  /** No recomputation of any window's visibility would change what is on screen. */
  lemma ScreenIsUpToDate(s: State, es: seq<Event>, v: View)
    requires GuardedBy(s, es) && v in s.win && s.win[v].mapped
    ensures UpdateVisibility(s, v) == s
    ensures s.win[v].enabled <==> !s.win[v].minimized && (s.win[v].pinned || s.win[v].workspace == s.current)
  {
    GuardedInv(s, es);
    assert s.win[v := s.win[v]] == s.win;
  }

  /** The MRU list and each taskbar hold every open window once, and nothing else. */
  lemma ListsAgree(s: State, es: seq<Event>, v: View)
    requires ReachableBy(s, es)
    ensures multiset(s.views)[v] == if v in s.win && s.win[v].mapped then 1 else 0
    ensures forall i :: 0 <= i < |s.bars| ==>
      multiset(s.bars[i])[v] == if v in s.win && s.win[v].mapped then 1 else 0
  {
    ReachableLoose(s, es);
    if v in s.views {
      RemoveCount(s.views, v);
      RemoveDistinct(s.views, v);
      assert v !in multiset(Remove(s.views, v));
    }
  }

  /** No window lives on a workspace that has no indicator on the taskbar. */
  lemma WorkspacesBounded(s: State, es: seq<Event>)
    requires ReachableBy(s, es)
    ensures 0 <= s.current <= s.maxVisible < 9
    ensures forall v | v in s.win && s.win[v].mapped :: 0 <= s.win[v].workspace <= s.maxVisible
  {
    ReachableLoose(s, es);
  }

  /** Whatever Alt-Tab offers is an open window of the current workspace, offered once. */
  lemma SwitcherSafe(s: State, es: seq<Event>)
    requires ReachableBy(s, es) && s.switcher.Open?
    ensures s.switcher.selected < |s.switcher.snapshot| && Distinct(s.switcher.snapshot)
    ensures forall v | v in s.switcher.snapshot ::
      v in s.win && s.win[v].mapped && s.win[v].workspace == s.current
  {
    ReachableLoose(s, es);
  }

  /** A window on the first workspace, un-minimized from the second. */
  lemma UnguardedStates(v: View)
    ensures var s1 := Step(START, NewWindow(v)); var s2 := Step(s1, WindowMapped(v));
      var s3 := Step(s2, WorkspaceAction(1)); var s4 := Step(s3, RestoreRequest(v));
      && v in s3.win && s3.win[v] == Window(true, false, false, false, 0, false)
      && s3.current == 1 && s3.keyboard == Nobody && !s3.locked
      && s4.keyboard == OnView(v) && s4.win == s3.win && s4.current == 1
      && !Guarded(s3, RestoreRequest(v))
      && Possible(START, NewWindow(v)) && Possible(s1, WindowMapped(v)) && Possible(s3, RestoreRequest(v))
  {
    var s1 := Step(START, NewWindow(v));
    var s2 := Step(s1, WindowMapped(v));
    assert s2.views == [v] && s2.win == map[v := Window(true, false, false, false, 0, true)];
    assert s2.keyboard == OnView(v) && s2.current == 0;
    var s3 := Step(s2, WorkspaceAction(1));
    assert s3.win == map[v := Window(true, false, false, false, 0, false)];
  }

  /** Without the guard: a window opened on the first workspace, un-minimized by a panel from
      the second and then pinned, gets the keyboard while hidden, and stays hidden although
      it should be shown. */
  lemma UnguardedRestoreBreaks(v: View)
    ensures var es := [NewWindow(v), WindowMapped(v), WorkspaceAction(1), RestoreRequest(v)];
      var t := Run(START, es);
      && PossibleRun(START, es) && !GuardedRun(START, es)
      && t.keyboard == OnView(v) && !OnWorkspace(Get(t, v), t.current)
      && Possible(t, PinAction) && Showable(Get(Step(t, PinAction), v), t.current)
      && !Get(Step(t, PinAction), v).enabled
  {
    var s1 := Step(START, NewWindow(v));
    var s2 := Step(s1, WindowMapped(v));
    var s3 := Step(s2, WorkspaceAction(1));
    UnguardedStates(v);
    RunCons(START, NewWindow(v), [WindowMapped(v), WorkspaceAction(1), RestoreRequest(v)]);
    RunCons(s1, WindowMapped(v), [WorkspaceAction(1), RestoreRequest(v)]);
    RunCons(s2, WorkspaceAction(1), [RestoreRequest(v)]);
    RunCons(s3, RestoreRequest(v), []);
  }

  lemma RunCons(s: State, e: Event, es: seq<Event>)
    ensures Run(s, [e] + es) == Run(Step(s, e), es)
    ensures PossibleRun(s, [e] + es) <==> Possible(s, e) && PossibleRun(Step(s, e), es)
    ensures GuardedRun(s, [e] + es) <==> Possible(s, e) && Guarded(s, e) && GuardedRun(Step(s, e), es)
  {
    assert ([e] + es)[1..] == es;
  }

  /** The guarded run `es` goes from `s` to `t`. */
  ghost predicate Leads(s: State, es: seq<Event>, t: State) {
    GuardedRun(s, es) && Run(s, es) == t
  }

  lemma {:induction false} LeadsAppend(s: State, a: seq<Event>, m: State, b: seq<Event>, t: State)
    requires Leads(s, a, m) && Leads(m, b, t)
    ensures Leads(s, a + b, t)
    decreases |a|
  {
    if a == [] {
      assert a + b == b;
    } else {
      assert (a + b)[1..] == a[1..] + b;
      LeadsAppend(Step(s, a[0]), a[1..], m, b, t);
    }
  }

  lemma PinRun(s: State, v: View)
    requires s.keyboard == OnView(v)
    ensures Leads(s, [PinAction], TogglePin(s, v))
  {
    RunCons(s, PinAction, []);
  }

  lemma OpenRun(s: State, v: View)
    requires !s.locked && v !in s.win && v !in s.views && s.bars == [] && s.keyboard != OnView(v)
    ensures Leads(s, [NewWindow(v), WindowMapped(v)], Opened(s, v))
  {
    OpenSteps(s, v);
    RunCons(Step(s, NewWindow(v)), WindowMapped(v), []);
    RunCons(s, NewWindow(v), [WindowMapped(v)]);
  }

  /** The desktop after a window was created and opened. */
  function Opened(s: State, v: View): State {
    s.(win := s.win[v := Window(true, false, false, false, s.current, true)], views := [v] + s.views,
       keyboard := OnView(v), focusedLayer := None)
  }

  lemma OpenSteps(s: State, v: View)
    requires !s.locked && v !in s.win && v !in s.views && s.bars == [] && s.keyboard != OnView(v)
    ensures var t := Step(s, NewWindow(v));
      Possible(s, NewWindow(v)) && Possible(t, WindowMapped(v)) && Step(t, WindowMapped(v)) == Opened(s, v)
  {
    var t := Step(s, NewWindow(v));
    ListedNew(s, v);
    var m := Listed(t, v);
    assert AddButton(m.bars, v) == [];
    FocusNew(s.(win := m.win, views := [v] + s.views), v);
  }

  lemma ListedNew(s: State, v: View)
    requires v !in s.win
    ensures Listed(Put(s, v, NEW_WINDOW), v) ==
      s.(win := s.win[v := Window(true, false, false, false, s.current, true)], views := [v] + s.views)
  {
    var w := Window(true, false, false, false, s.current, true);
    assert s.win[v := NEW_WINDOW][v := w][v := w] == s.win[v := w];
  }

  lemma FocusNew(s: State, v: View)
    requires !s.locked && v in s.win && s.win[v] == Window(true, false, false, false, s.current, true)
    requires s.views != [] && s.views[0] == v && s.keyboard != OnView(v)
    ensures Focus(s, v) == s.(keyboard := OnView(v), focusedLayer := None)
  {
    assert s.win[v := s.win[v]] == s.win;
    assert [v] + Remove(s.views, v) == s.views;
  }
}
