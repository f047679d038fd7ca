/** The Alt-Tab switcher over whole cycles. */
module AltTab {
  import opened Lists
  import opened Views
  import opened Desktop
  import opened Safety
  import opened Reachable
  import opened Arith

  function Presses(k: nat, mods: Mods, backwards: bool): seq<Event> {
    if k == 0 then [] else [CycleAction(mods, backwards)] + Presses(k - 1, mods, backwards)
  }

  /** The highlight after `k` forward steps. */
  function Steps(n: nat, i: nat, k: nat): (r: nat)
    requires i < n
    ensures r < n
    decreases k
  {
    if k == 0 then i else Steps(n, Advanced(n, i, false), k - 1)
  }

  lemma {:induction false} StepsIsMod(n: nat, i: nat, k: nat)
    requires i < n
    ensures Steps(n, i, k) == (i + k) % n
    decreases k
  {
    if k == 0 {
      DivMod(i, 0, i, n);
    } else {
      AdvancedIs(n, i);
      StepsIsMod(n, Advanced(n, i, false), k - 1);
      if i == n - 1 {
        AddN(k - 1, n);
      }
    }
  }

  lemma OnePress(s: State, k: nat, mods: Mods)
    requires k > 0
    ensures Run(s, Presses(k, mods, false)) == Run(Cycle(s, mods, false), Presses(k - 1, mods, false))
  {
    assert Presses(k, mods, false)[1..] == Presses(k - 1, mods, false);
  }

  lemma {:induction false} PressesAdvance(s: State, k: nat, mods: Mods)
    requires s.switcher.Open? && s.switcher.selected < |s.switcher.snapshot|
    ensures Run(s, Presses(k, mods, false)) ==
      s.(switcher := s.switcher.(selected := Steps(|s.switcher.snapshot|, s.switcher.selected, k)))
    decreases k
  {
    if k > 0 {
      OnePress(s, k, mods);
      PressesAdvance(Cycle(s, mods, false), k - 1, mods);
    }
  }

  /** From no switcher, `k` presses highlight entry `k` modulo the number of windows of the
      current workspace; if there are none, no switcher opens. */
  lemma PressesSelect(s: State, k: nat, mods: Mods)
    requires s.switcher.Closed? && k > 0
    ensures var list := Candidates(s); var t := Run(s, Presses(k, mods, false));
      if list == [] then t == s else t == s.(switcher := Open(list, k % |list|, mods))
  {
    var list := Candidates(s);
    OnePress(s, k, mods);
    if list == [] {
      NothingOpens(s, k, mods);
    } else {
      var i := Advanced(|list|, 0, false);
      assert Cycle(s, mods, false) == s.(switcher := Open(list, i, mods));
      PressesAdvance(s.(switcher := Open(list, i, mods)), k - 1, mods);
      StepsIsMod(|list|, 0, k);
    }
  }

  lemma {:induction false} NothingOpens(s: State, k: nat, mods: Mods)
    requires s.switcher.Closed? && Candidates(s) == []
    ensures Run(s, Presses(k, mods, false)) == s
    decreases k
  {
    if k > 0 {
      OnePress(s, k, mods);
      NothingOpens(s, k - 1, mods);
    }
  }

  lemma AdvancedIs(n: nat, i: nat)
    requires i < n
    ensures Advanced(n, i, false) == if i == n - 1 then 0 else i + 1
    ensures Advanced(n, i, true) == if i == 0 then n - 1 else i - 1
  {
    if i == n - 1 { DivMod(i + 1, 1, 0, n); } else { DivMod(i + 1, 0, i + 1, n); }
    if i == 0 { DivMod(i + n - 1, 0, n - 1, n); } else { DivMod(i + n - 1, 1, i - 1, n); }
  }

  /** Stepping back undoes stepping forward, and the other way round. */
  lemma BackUndoesForward(s: State, mods: Mods, backwards: bool)
    requires s.switcher.Open? && s.switcher.selected < |s.switcher.snapshot|
    ensures Cycle(Cycle(s, mods, backwards), mods, !backwards) == s
  {
    var n, i := |s.switcher.snapshot|, s.switcher.selected;
    AdvancedIs(n, i);
    AdvancedIs(n, Advanced(n, i, backwards));
  }

  /** When a window disappears in mid-cycle the highlight stays on the same window; if it was
      the highlighted one it moves to the next, or to the last. */
  lemma RemovalKeepsHighlight(s: State, v: View)
    requires SwitcherRight(s) && s.switcher.Open? && v in s.switcher.snapshot
    ensures var list, i := s.switcher.snapshot, s.switcher.selected; var t := SwitcherRemove(s, v).switcher;
      if |list| == 1 then t == Closed
      else
        && t.Open? && t.snapshot == Remove(list, v) && t.selected < |t.snapshot|
        && t.snapshot[t.selected] ==
             if list[i] != v then list[i] else if i + 1 < |list| then list[i + 1] else list[i - 1]
  {
    var list, i := s.switcher.snapshot, s.switcher.selected;
    var j := IndexOf(list, v);
    RemoveAt(list, j);
  }

  /** Releasing the modifiers gives the keyboard to the highlighted window, visible and first
      in the MRU list, and closes the switcher; holding one of them changes nothing. */
  lemma ReleaseCommits(s: State, mods: Mods)
    requires Inv(s) && s.switcher.Open?
    ensures var v := s.switcher.snapshot[s.switcher.selected]; var t := ModifiersChanged(s, mods);
      if mods * s.switcher.mods != {} then t == s
      else t.switcher == Closed && (if s.locked then t.keyboard == s.keyboard
             else t.keyboard == OnView(v) && v in t.win && Showable(t.win[v], t.current)
                  && t.win[v].enabled && t.views != [] && t.views[0] == v)
  {
    ModifiersKeeps(s, mods);
  }

  // ---- a quick Alt-Tab, twice ----

  function QuickSwitch(s: State, mods: Mods): State {
    ModifiersChanged(Cycle(s, mods, false), {})
  }

  lemma CandidatesSplit(s: State, w: View)
    requires Inv(s) && s.keyboard == OnView(w) && s.win[w].workspace == s.current
    ensures Candidates(s) != [] && Candidates(s)[0] == w
  {
  }

  /** A window on offer that takes the focus comes first on offer; the others stay in order. */
  lemma OfferAfterFocus(s: State, u: View)
    requires Inv(s) && !s.locked && s.switcher.Closed? && u in Candidates(s)
    ensures var t := Focus(s, u);
      && Inv(t) && !t.locked && t.switcher.Closed? && t.current == s.current && t.keyboard == OnView(u)
      && Candidates(t) == [u] + Remove(Candidates(s), u)
  {
    var t := Focus(s, u);
    FocusFrame(s, u);
    FocusKeeps(s, u);
    FilterRemove(s.views, u, Offered(s));
    FilterCons(u, Remove(s.views, u), Offered(s));
    if s.keyboard == OnView(u) {
      assert [u] + Remove(s.views, u) == s.views;
    }
    assert t.views == [u] + Remove(s.views, u);
    ToFront(s.views, u);
    FilterSame(t.views, Offered(t), Offered(s));
  }

  /** What a quick Alt-Tab does: nothing is offered and nothing happens, or the only window on offer
      is focused, or the second one. */
  lemma QuickSwitchIs(s: State, mods: Mods)
    requires s.switcher.Closed?
    ensures var list := Candidates(s);
      QuickSwitch(s, mods) == if list == [] then s else Focus(s, list[if |list| > 1 then 1 else 0])
  {
    var list := Candidates(s);
    if list != [] {
      AdvancedIs(|list|, 0);
      var c := Cycle(s, mods, false);
      assert c.switcher == Open(list, if |list| > 1 then 1 else 0, mods);
      assert c.(switcher := Closed) == s;
    }
  }

  /** One quick Alt-Tab goes to the second of the windows on offer, which changes places with the
      first. */
  lemma QuickSwitchSecond(s: State, mods: Mods)
    requires Inv(s) && s.switcher.Closed? && !s.locked && |Candidates(s)| > 1
    ensures var list := Candidates(s); var t := QuickSwitch(s, mods);
      && Inv(t) && !t.locked && t.switcher.Closed? && t.current == s.current && t.keyboard == OnView(list[1])
      && Candidates(t) == [list[1], list[0]] + list[2..] && list[0] != list[1]
  {
    var list := Candidates(s);
    QuickSwitchIs(s, mods);
    OfferAfterFocus(s, list[1]);
    FilterDistinct(s.views, Offered(s));
    assert Remove(list, list[1]) == [list[0]] + Remove(list[1..], list[1]);
  }

  /** Alt-Tab never goes to a window that it does not offer. */
  lemma QuickSwitchOffered(s: State, mods: Mods)
    requires Inv(s) && s.switcher.Closed? && !s.locked && Candidates(s) != []
    ensures var t := QuickSwitch(s, mods);
      && Inv(t) && !t.locked && t.switcher.Closed? && t.current == s.current && t.keyboard.OnView?
      && t.keyboard.view in Candidates(s) && Candidates(t) != []
      && forall v :: v in Candidates(t) <==> v in Candidates(s)
  {
    var list := Candidates(s);
    var u := list[if |list| > 1 then 1 else 0];
    QuickSwitchIs(s, mods);
    OfferAfterFocus(s, u);
    FilterDistinct(s.views, Offered(s));
    ToFront(list, u);
  }

  /** Two quick Alt-Tabs return to the window one started from if and only if it belongs to the
      current workspace, or no window does: a pinned window that visits is not offered. */
  lemma QuickSwitchTwice(s: State, w: View, mods: Mods)
    requires Inv(s) && s.switcher.Closed? && s.keyboard == OnView(w)
    ensures QuickSwitch(QuickSwitch(s, mods), mods).keyboard == OnView(w)
            <==> s.win[w].workspace == s.current || Candidates(s) == []
  {
    var t := QuickSwitch(s, mods);
    if Candidates(s) == [] {
      QuickSwitchIs(s, mods);
    } else if s.win[w].workspace != s.current {
      QuickSwitchOffered(s, mods);
      QuickSwitchOffered(t, mods);
      assert w !in Candidates(s);
    } else {
      CandidatesSplit(s, w);
      if |Candidates(s)| > 1 {
        QuickSwitchSecond(s, mods);
        QuickSwitchSecond(t, mods);
      } else {
        QuickSwitchIs(s, mods);
        OfferAfterFocus(s, w);
        QuickSwitchIs(t, mods);
        OfferAfterFocus(t, w);
      }
    }
  }

  // ---- a pinned window that visits another workspace ----

  /** A pinned window is taken to the second workspace, another one is opened there and the pinned one
      clicked: two quick Alt-Tabs end on the other one. */
  lemma VisitorNotReached(w: View, u: View, mods: Mods)
    requires w != u
    ensures var es := [NewWindow(w), WindowMapped(w), PinAction, WorkspaceAction(1), NewWindow(u), WindowMapped(u),
                       WindowClicked(w)];
      var s := Run(START, es);
      && GuardedRun(START, es) && s.keyboard == OnView(w) && s.current == 1
      && QuickSwitch(QuickSwitch(s, mods), mods).keyboard == OnView(u)
  {
    var s3 := TogglePin(Opened(START, w), w);
    var s4 := SwitchWorkspace(s3, 1);
    var s6 := Opened(s4, u);
    var s7 := Focus(s6, w);
    var openW, openU := [NewWindow(w), WindowMapped(w)], [NewWindow(u), WindowMapped(u)];
    OpenRun(START, w);
    PinRun(Opened(START, w), w);
    VisitorSwitch(s3, w);
    OpenRun(s4, u);
    VisitorClicked(s6, w, u);
    LeadsAppend(START, openW, Opened(START, w), [PinAction], s3);
    LeadsAppend(START, openW + [PinAction], s3, [WorkspaceAction(1)], s4);
    LeadsAppend(START, openW + [PinAction] + [WorkspaceAction(1)], s4, openU, s6);
    LeadsAppend(START, openW + [PinAction] + [WorkspaceAction(1)] + openU, s6, [WindowClicked(w)], s7);
    assert openW + [PinAction] + [WorkspaceAction(1)] + openU + [WindowClicked(w)] ==
      [NewWindow(w), WindowMapped(w), PinAction, WorkspaceAction(1), NewWindow(u), WindowMapped(u), WindowClicked(w)];
    VisitorSwitches(s7, w, u, mods);
  }

  const HOME := Window(true, false, true, false, 0, true)

  lemma VisitorSwitch(s: State, w: View)
    requires s == START.(win := map[w := HOME], views := [w], keyboard := OnView(w))
    ensures Leads(s, [WorkspaceAction(1)], SwitchWorkspace(s, 1))
    ensures SwitchWorkspace(s, 1) == s.(current := 1)
  {
    RunCons(s, WorkspaceAction(1), []);
    var s1 := WithCurrent(s, 1);
    assert RefreshedAll(s1) == s.win;
    HeadFound(s.win, s.views, 1, None);
    assert s.win[w := HOME] == s.win;
  }

  lemma VisitorClicked(s: State, w: View, u: View)
    requires w != u && s == START.(win := map[w := HOME][u := Window(true, false, false, false, 1, true)],
                                   views := [u, w], current := 1, keyboard := OnView(u))
    ensures Leads(s, [WindowClicked(w)], Focus(s, w))
    ensures Focus(s, w) == s.(views := [w, u], keyboard := OnView(w))
  {
    RunCons(s, WindowClicked(w), []);
    assert s.win[w := HOME] == s.win;
    assert [u, w][1..] == [w];
  }

  lemma VisitorSwitches(s: State, w: View, u: View, mods: Mods)
    requires w != u && s == START.(win := map[w := HOME][u := Window(true, false, false, false, 1, true)],
                                   views := [w, u], current := 1, keyboard := OnView(w))
    ensures QuickSwitch(QuickSwitch(s, mods), mods).keyboard == OnView(u)
  {
    assert Candidates(s) == [u] by {
      assert [w, u][1..] == [u] && [u][1..] == [];
      assert Filter([u], Offered(s)) == [u];
    }
    assert Inv(s);
    QuickSwitchIs(s, mods);
    OfferAfterFocus(s, u);
    var t := QuickSwitch(s, mods);
    QuickSwitchIs(t, mods);
    OfferAfterFocus(t, u);
  }
}
