/** The session lock (ext-session-lock-v1) over whole runs. */
module LockSafety {
  import opened Lists
  import opened Views
  import opened Desktop
  import opened Safety
  import opened Always

  /** What the protocol alone says: is the session locked, and which lock is alive. */
  datatype Protocol = Protocol(locked: bool, live: Option<nat>)

  function Facet(s: State): Protocol {
    Protocol(s.locked, s.lock)
  }

  /** The reference: a lock request is refused while a lock lives, unlocking unlocks, a lock
      object that goes away leaves the session as locked as it was. */
  function Rule(p: Protocol, e: Event): Protocol {
    match e
    case LockRequest(k) => if p.live.Some? then p else Protocol(true, Some(k))
    case UnlockRequest => p.(locked := false)
    case LockDestroyed => p.(live := None)
    case _ => p
  }

  function Rules(p: Protocol, es: seq<Event>): Protocol
    decreases |es|
  {
    if es == [] then p else Rules(Rule(p, es[0]), es[1..])
  }

  lemma FocusFacet(s: State, v: View)
    ensures Facet(Focus(s, v)) == Facet(s)
  {
  }

  lemma SwitchFacet(s: State, ws: int)
    ensures Facet(SwitchWorkspace(s, ws)) == Facet(s)
  {
  }

  lemma FocusNextFacet(s: State, skip: Option<View>)
    ensures Facet(FocusNext(s, skip)) == Facet(s)
  {
  }

  lemma MapFacet(s: State, v: View)
    ensures Facet(MapWindow(s, v)) == Facet(s)
  {
  }

  lemma UnmapFacet(s: State, v: View)
    ensures Facet(UnmapWindow(s, v)) == Facet(s)
  {
    var s1 := SwitcherRemove(Unlisted(s, v), v);
    FocusNextFacet(s1.(bars := RemoveButton(s1.bars, v)), Some(v));
  }

  lemma ActivateFacet(s: State, v: View)
    ensures Facet(Activate(s, v)) == Facet(s) && Facet(ClickTask(s, v)) == Facet(s)
  {
    SwitchFacet(s, Get(s, v).workspace);
  }

  lemma StepFacetWindows(s: State, e: Event)
    requires e.WindowMapped? || e.WindowUnmapped? || e.MinimizeRequest? || e.RestoreRequest?
             || e.WindowClicked? || e.TaskClicked? || e.ActivateRequest? || e.ActivationToken?
    ensures Facet(Step(s, e)) == Facet(s)
  {
    match e
    case WindowMapped(v) => MapFacet(s, v);
    case WindowUnmapped(v) => UnmapFacet(s, v);
    case MinimizeRequest(v) => FocusNextFacet(SetMinimized(s, v, true), Some(v));
    case RestoreRequest(v) => FocusFacet(SetMinimized(s, v, false), v);
    case WindowClicked(v) => FocusFacet(s, v);
    case TaskClicked(v) => ActivateFacet(s, v);
    case ActivateRequest(v) => ActivateFacet(s, v);
    case ActivationToken(v, _) => ActivateFacet(s, v);
  }

  lemma ShellFacet(s: State, e: Event)
    requires e.NewWindow? || e.WindowDestroyed? || e.LayerMap? || e.LayerUnmap? || e.LayerDestroy?
             || e.BarCreated? || e.BarDeleted?
    ensures Facet(Step(s, e)) == Facet(s)
  {
    if e.LayerUnmap? && s.focusedLayer == Some(e.l) {
      FocusNextFacet(s.(layers := s.layers - {e.l}, focusedLayer := None), None);
    }
  }

  lemma MoveFacet(s: State, v: View, ws: int)
    ensures Facet(MoveToWorkspace(s, v, ws)) == Facet(s)
  {
    FocusNextFacet(SwitcherRemove(Rehomed(s, v, ws), v), Some(v));
  }

  lemma ActionFacet(s: State, e: Event)
    requires e.WorkspaceAction? || e.MoveAction? || e.MinimizeAction? || e.PinAction?
    ensures Facet(Step(s, e)) == Facet(s)
  {
    match e
    case WorkspaceAction(ws) => SwitchFacet(s, ws);
    case MoveAction(ws) => if s.keyboard.OnView? { MoveFacet(s, s.keyboard.view, ws); }
    case MinimizeAction =>
      if s.keyboard.OnView? { FocusNextFacet(SetMinimized(s, s.keyboard.view, true), Some(s.keyboard.view)); }
    case PinAction =>
  }

  lemma SwitcherFacet(s: State, e: Event)
    requires e.CycleAction? || e.ModifiersEvent? || e.CycleCancelled?
    ensures Facet(Step(s, e)) == Facet(s)
  {
  }

  lemma LockRule(s: State, e: Event)
    requires e.LockRequest? || e.UnlockRequest? || e.LockDestroyed? || e.LockSurfaceCreated?
             || e.LockSurfaceDestroyed? || e.KeyPressed?
    ensures Facet(Step(s, e)) == Rule(Facet(s), e)
  {
    if e.UnlockRequest? {
      FocusNextFacet(s.(locked := false), None);
    }
  }

  /** The whole window manager, seen through the lock, follows the reference exactly. */
  lemma StepFollowsRule(s: State, e: Event)
    ensures Facet(Step(s, e)) == Rule(Facet(s), e)
  {
    if e.WindowMapped? || e.WindowUnmapped? || e.MinimizeRequest? || e.RestoreRequest?
       || e.WindowClicked? || e.TaskClicked? || e.ActivateRequest? || e.ActivationToken? {
      StepFacetWindows(s, e);
    } else if e.WorkspaceAction? || e.MoveAction? || e.MinimizeAction? || e.PinAction? {
      ActionFacet(s, e);
    } else if e.CycleAction? || e.ModifiersEvent? || e.CycleCancelled? {
      SwitcherFacet(s, e);
    } else if e.NewWindow? || e.WindowDestroyed? || e.LayerMap? || e.LayerUnmap? || e.LayerDestroy?
              || e.BarCreated? || e.BarDeleted? {
      ShellFacet(s, e);
    } else {
      LockRule(s, e);
    }
  }

  lemma {:induction false} RunFollowsRules(s: State, es: seq<Event>)
    ensures Facet(Run(s, es)) == Rules(Facet(s), es)
    decreases |es|
  {
    if es != [] {
      StepFollowsRule(s, es[0]);
      RunFollowsRules(Step(s, es[0]), es[1..]);
    }
  }

  lemma {:induction false} NoUnlockStaysLocked(p: Protocol, es: seq<Event>)
    requires p.locked && UnlockRequest !in es
    ensures Rules(p, es).locked
    decreases |es|
  {
    if es != [] {
      assert UnlockRequest != es[0] && forall e | e in es[1..] :: e in es;
      NoUnlockStaysLocked(Rule(p, es[0]), es[1..]);
    }
  }

  lemma {:induction false} PossibleSplit(s: State, a: seq<Event>, b: seq<Event>)
    requires PossibleRun(s, a + b)
    ensures PossibleRun(s, a)
    ensures PossibleRun(Run(s, a), b) && Run(s, a + b) == Run(Run(s, a), b)
    decreases |a|
  {
    if a == [] {
      assert a + b == b;
    } else {
      assert (a + b)[1..] == a[1..] + b && (a + b)[0] == a[0];
      PossibleSplit(Step(s, a[0]), a[1..], b);
    }
  }

  /** Between locking and unlocking, whatever happens, no window and no panel gets a key press:
      the keyboard is with nobody or with a surface of the lock. */
  lemma LockedKeyboard(s: State, es: seq<Event>)
    requires Loose(s) && s.locked && PossibleRun(s, es) && UnlockRequest !in es
    ensures var t := Run(s, es);
      t.locked && (t.keyboard == Nobody || (t.keyboard.OnLock? && t.keyboard.surface in t.lockSurfaces))
  {
    RunLoose(s, es);
    RunFollowsRules(s, es);
    NoUnlockStaysLocked(Facet(s), es);
  }

  lemma {:induction false} NoLockerStaysDead(s: State, es: seq<Event>)
    requires Loose(s) && s.locked && s.lock.None? && PossibleRun(s, es)
    requires forall e | e in es :: !e.LockRequest?
    ensures var t := Run(s, es); Loose(t) && t.locked && t.lock.None?
    decreases |es|
  {
    if es != [] {
      var e := es[0];
      assert e in es && forall x | x in es[1..] :: x in es;
      StepLoose(s, e);
      StepFollowsRule(s, e);
      NoLockerStaysDead(Step(s, e), es[1..]);
    }
  }

  /** A crash of the locker, followed by anything but a new lock request, leaves the session
      locked with nobody at the keyboard; the next lock request is accepted. */
  lemma CrashStaysLocked(s: State, es: seq<Event>, k: nat)
    requires Loose(s) && s.locked && Possible(s, LockDestroyed) && PossibleRun(LockGone(s), es)
    requires forall e | e in es :: !e.LockRequest?
    ensures var t := Run(LockGone(s), es);
      && t.locked && t.lock.None? && t.keyboard == Nobody && !Possible(t, UnlockRequest)
      && NewLock(t, k).locked && NewLock(t, k).lock == Some(k)
  {
    StepLoose(s, LockDestroyed);
    NoLockerStaysDead(LockGone(s), es);
  }

  lemma {:induction false} NoneButTheFirst(p: Protocol, es: seq<Event>)
    requires p.live.Some? && LockDestroyed !in es
    ensures Rules(p, es).live == p.live
    decreases |es|
  {
    if es != [] {
      assert es[0] in es && forall e | e in es[1..] :: e in es;
      NoneButTheFirst(Rule(p, es[0]), es[1..]);
    }
  }

  /** As long as one locker lives, no other one is let in, however many ask and whatever else
      happens, and each request changes nothing at all. */
  lemma SecondLockerRefused(s: State, es: seq<Event>, k: nat)
    requires s.lock.Some? && LockDestroyed !in es
    ensures var t := Run(s, es); t.lock == s.lock && Step(t, LockRequest(k)) == t
  {
    RunFollowsRules(s, es);
    NoneButTheFirst(Facet(s), es);
  }

  lemma {:induction false} FirstUnlock(p: Protocol, es: seq<Event>) returns (i: nat)
    requires p.locked && !Rules(p, es).locked
    ensures i < |es| && es[i] == UnlockRequest && UnlockRequest !in es[..i]
    decreases |es|
  {
    if es[0] == UnlockRequest {
      i := 0;
    } else {
      i := FirstUnlock(Rule(p, es[0]), es[1..]);
      i := i + 1;
      assert es[..i] == [es[0]] + es[1..][..i - 1];
    }
  }

  /** A locked session that is found unlocked was unlocked by the locker that was alive then, and
      stayed locked with the keyboard safe until that moment. */
  lemma UnlockedByLocker(s: State, es: seq<Event>) returns (i: nat)
    requires Loose(s) && s.locked && PossibleRun(s, es) && !Run(s, es).locked
    ensures i < |es| && es[i] == UnlockRequest
    ensures var t := Run(s, es[..i]);
      t.locked && t.lock.Some? && (t.keyboard == Nobody || (t.keyboard.OnLock? && t.keyboard.surface in t.lockSurfaces))
  {
    RunFollowsRules(s, es);
    i := FirstUnlock(Facet(s), es);
    assert es == es[..i] + es[i..];
    PossibleSplit(s, es[..i], es[i..]);
    LockedKeyboard(s, es[..i]);
  }

  /** Unlocking hands the keyboard to the most recently used window that is shown, if any. */
  lemma UnlockFocuses(s: State)
    requires Loose(s) && Possible(s, UnlockRequest)
    ensures var t := Unlock(s); var next := FirstShown(s.win, s.views, s.current, None);
      Loose(t) && !t.locked && t.keyboard == if next.Some? then OnView(next.value) else Nobody
  {
    UnlockLoose(s);
  }
}
