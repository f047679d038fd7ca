# steppewm: a model of the window manager and proofs about it

steppewm is a small stacking window manager for Wayland. This project models the parts of it that
keep state, in Dafny, and proves what they promise over every run.
`dafny verify dfyconfig.toml` checks the whole project.

## What is modelled

**The window-manager state machine** (`Desktop`, `Servers`, `Safety`, `Always`, `Reachable`). `Desktop` is the
state machine: one transition for each of 28 kinds of events that the single-threaded event loop
delivers. `Servers` holds the handlers as the program runs them, objects whose fields are updated
and lists that are scanned and relinked; each is proved to make its transition. `Always` proves an
invariant over every run: no list loses or doubles a window, the Alt-Tab snapshot and the workspaces are
right, and the keyboard is where the lock allows. `Safety` proves a stronger one, which adds what is
on screen, over every run in which no panel, while unlocked, un-minimizes a window of another workspace, and exactly over
those (`Safety.RunExact`). `Reachable` says what both mean for a user. The conjuncts need one another: the
enabled bits are right after pinning, which recomputes none, only because the focused window is visible.

On top of the machine: `Answers` and `Effects` (what each event does, what stays, and what undoes it),
`RoundTrip` (leaving a workspace and coming back), `AltTab` (what presses, removals and releases do), `LockSafety` (the
session lock, `ext_session_lock_v1`), `Stacking` (what focusing does to the stacking order).

**Geometry** (`Zones`, `Geometry`, `Toplevels`, `Drags`, `Dragging`, `Cascade`): snap zones, the saved
geometry over any word of events, what a grab shows from press to release and what the release makes
of it, the cascade and its closed form.

**The taskbar** (`Pins`, `TaskRow`, `Strip`): which windows stand in for which pins, the row of
slots, the indicators at the right end, and the hit tests that invert each drawing.

**The tray** (`TrayIcons`, `TrayHosts`, `Pixmaps`): the icon cache refines redrawing everything,
even though items are told apart by addresses that are used again.

**Outputs and startup commands** (`Outputs`, `OutputLists`, `Execs`): which outputs have a bar, and
which commands are started how often.

`Lists` and `Arith` are helpers: lists with relinking and filtering, and division, which truncates
toward zero in the program and rounds down in Dafny.

## Assumptions

- A keyboard is attached to the seat; without one `focus` moves no seat focus (src/view.cc:1145-1149).
- A window is unmapped before it is destroyed, and the surfaces of a lock go before the lock.
- Hit tests of the scene return enabled, mapped windows only.
- Clients may commit any size, at any time.
- Text widths are non-negative numbers that come from outside; so do the cursor, as a pair of reals, and
  the output boxes.
- At most nine workspaces are shown, which `Reachable.WorkspacesBounded` proves of every run.
- The padding of the taskbar is not negative; its height may be anything, and lemmas that need a
  positive one say so. The decorated width of a restored window is not negative.
- Allocating a drawing surface succeeds.

## Where the code does something else than it seems

Each of these is proved exactly, in both directions.

- The un-minimize request of a panel (src/view.cc:438-441) focuses a window without switching to its
  workspace. It keeps the focus invariant if and only if the session is locked or the window is pinned
  or on the current workspace (`Safety.RestoreExact`); `Reachable.UnguardedRestoreBreaks` is a run in which
  a hidden window has the keyboard.
- Moving a pinned window to the workspace it is on unpins it and hands the keyboard on although it stays shown
  (`Effects.MoveEffect`; `Effects.SentHereLosesKeyboard` is such a run).
- Leaving a workspace and coming back returns the focus unless the other workspace focuses a pinned
  window, which then keeps the focus (`RoundTrip.RoundTripFocus`; `RoundTrip.PinnedTakesFocus` is such a run).
- Alt-Tab does not offer a pinned window that visits another workspace, so two quick Alt-Tabs do not return to
  it (`AltTab.QuickSwitchTwice`, `AltTab.VisitorNotReached`).
- Focusing a pinned window raises it first, so the other pinned windows end above it
  (`Stacking.FocusedOnTop`, `Stacking.FocusedBelowPinned`), the one used longest ago highest
  (`Stacking.OldestPinnedOnTop`).
- A click on a title bar in the top row of an output, without any motion, previews nothing and yet
  maximizes a normal window and un-maximizes a maximized one, since the release looks for a snap zone
  of its own (`Drags.ClickToggles`). A real drag ends as previewed, also that of a maximized window,
  which is restored on the way (`Drags.DragKeepsPromise`), unless the client maximizes itself during the
  drag (`Drags.MaximizedMeanwhile`). A move that a client requests in mid-drag starts with the old zone still
  shown (`Drags.IndicatorLeft`). `Drags.ReleaseExact` says exactly when the promise is kept.
- `workspace_at` also reports the first workspace in the margin left of its indicator, because the division truncates
  toward zero; `tray_at` also reports the first icon for the last fraction of a pixel left of it. Slots, workspaces
  and tray icons are hit over the whole height of the bar, paddings included.
- On a bar with a height of at most twice its padding, tray icons are drawn one pixel wide and indicators drawn
  earlier stay, but no hit test for them answers (`Strip.TrayAtInvertsDrawing`, `Strip.IndicatorHits`,
  `Strip.IconOutOfReach`).
- A row of launchers without windows, or with windows at the least width of one pixel, may run into the
  indicators (`TaskRow.LaunchersOverrun`); `TaskRow.RowFits` says exactly when it does not.
- A bar whose height is configured to zero or less keeps tray buffers that nobody updates, and can show the
  icon of an item that is gone when it gets its height back (`TrayIcons.StaleAfterShrinking`). Over every
  run `TrayIcons.CacheExact` says exactly when that happens.
- A tray pixel that is fully transparent but has a colour is passed on with colours above its alpha
  (`Pixmaps.PremultipliedSound`).
- When the output with the only bar is unplugged, the others stay without one until the next reload
  or output-manager request, or the next output that is plugged in gets it (`Outputs.UnplugExact`,
  `Outputs.BarLost`).
- The manual says that `exec` commands are not run again on reload (doc/steppewm.md:52-53). That holds for
  the first 64 different commands; later ones are started each time (`Execs.StartedExactly`,
  `Execs.StartedTwice`).

## Model

| member | source | states |
|---|---|---|
| `Safety.StepKeeps` | src/view.cc:41-145 | Each of 28 kinds of events keeps the invariant: MRU list, enabled bits, workspaces, Alt-Tab snapshot, taskbar buttons and keyboard focus are right together; the un-minimize request of a panel needs its guard |
| `Safety.RunKeeps` | src/view.cc:1091-1166 | The same over every guarded run, from any state that satisfies it |
| `Safety.RestoreExact` | src/view.cc:432-442 | The un-minimize request of a panel keeps the invariant if and only if the session is locked or the window is pinned or on the current workspace |
| `Safety.TaskButtonsLive` | src/taskbar.cc:1724-1742 | A window that has a taskbar button is open, in every state that a run can reach |
| `Safety.FocusKeeps` | src/view.cc:1091-1166 | Focusing a window of the current workspace makes the invariant hold whatever had the keyboard before |
| `Safety.FocusNextKeeps` | src/view.cc:41-65 | After the focused window is gone or hidden, handing the focus on restores the focus invariant |
| `Safety.MapKeeps` | src/view.cc:403-467 | Mapping a window keeps the invariant |
| `Safety.UnmapKeeps` | src/view.cc:470-530 | Unmapping a window keeps the invariant, in mid Alt-Tab too |
| `Safety.MinimizeKeeps` | src/view.cc:711-719 | Minimizing any window keeps the invariant |
| `Safety.TogglePinKeeps` | src/input.cc:127-132 | Pinning and unpinning the focused window leaves every enabled bit right although no visibility is recomputed |
| `Safety.MoveKeeps` | src/view.cc:128-145 | Moving a window to another workspace keeps the invariant, the Alt-Tab snapshot included |
| `Safety.SwitchKeeps` | src/view.cc:86-125 | Switching workspace keeps the invariant |
| `Safety.ActivateKeeps` | src/view.cc:443-448 | Activating a window from a panel keeps the invariant |
| `Safety.ClickTaskKeeps` | src/input.cc:1097-1103 | Clicking a taskbar button keeps the invariant |
| `Safety.RequestActivationKeeps` | src/view.cc:937-953 | Activation with a valid token, an invalid one, or on an unmapped window keeps the invariant |
| `Safety.CycleKeeps` | src/switcher.cc:162-183 | Opening or stepping Alt-Tab keeps the invariant |
| `Safety.ModifiersKeeps` | src/switcher.cc:186-197 | Committing Alt-Tab keeps the invariant |
| `Safety.SwitcherRemoveKeeps` | src/switcher.cc:204-233 | Removing a window from the snapshot leaves a snapshot of valid, distinct windows with the selection in range, and changes nothing else |
| `Safety.LayerUnmappedKeeps` | src/layer.cc:78-86 | Unmapping a focused layer surface gives the keyboard back to a window that may have it |
| `Safety.UnlockKeeps` | src/lock.cc:191-195 | Unlocking restores the invariant with a window or nobody focused |
| `Safety.SwitchShows` | src/view.cc:86-125 | After a switch to workspace w the current workspace is w and no window changed workspace or pin |
| `Safety.RunExact` | src/view.cc:432-442 | Over every run the invariant always holds if and only if no panel un-minimizes a window of another workspace |
| `Always.FocusLoose` | src/view.cc:1091-1166 | Focusing any window keeps what holds whatever panels ask for |
| `Always.FocusNextLoose` | src/view.cc:41-65 | So does handing the focus on |
| `Always.RestoreLoose` | src/view.cc:438-441 | So does the un-minimize request of a panel, for a window of any workspace |
| `Always.StepLoose` | src/view.cc:41-145 | Each of the 28 kinds of events, without any guard, keeps it: lists, taskbar buttons, workspaces, Alt-Tab snapshot, and a keyboard that is with the first, un-minimized window, a mapped panel, a lock surface or nobody, as the lock allows |
| `Always.RunLoose` | src/view.cc:1091-1166 | The same over every run |
| `Reachable.FocusedIsHead` | src/view.cc:1132-1152 | In every reachable state a focused window is mapped, not minimized, not urgent and head of the MRU list, and the session is not locked |
| `Reachable.FocusedIsVisibleHead` | src/view.cc:1091-1166 | In every state reached by a guarded run a focused window is mapped, not minimized, enabled, pinned or on the current workspace, head of the MRU list, and not urgent |
| `Reachable.ScreenIsUpToDate` | src/view.cc:33-39 | In every state reached by a guarded run recomputing the visibility of any mapped window changes nothing |
| `Reachable.ListsAgree` | src/view.cc:403-420 | In every reachable state the MRU list and every taskbar hold each mapped window exactly once and nothing else |
| `Reachable.WorkspacesBounded` | src/view.cc:86-93 | In every reachable state 0 <= current <= highest shown < 9, and no mapped window is on a workspace without an indicator |
| `Reachable.SwitcherSafe` | src/switcher.cc:162-183 | In every reachable state what Alt-Tab offers is mapped, on the current workspace and offered once, and the selection is in range |
| `Reachable.UnguardedRestoreBreaks` | src/view.cc:438-441 | Four events after which a hidden window has the keyboard, and a fifth, pinning, that leaves a window hidden that should be shown |
| `Servers.Panel.Advance` | src/switcher.cc:155-159 | Moves the selection as the transition says, in both directions around the end |
| `Servers.Server.constructor` | src/server.h:88-89 | A new server is the start state of the machine |
| `Servers.Server.UpdateVisibility` | src/view.cc:33-39 | Sets the enabled bit as the transition says and no other flag of any window |
| `Servers.Server.Minimize` | src/view.cc:68-75 | Sets the flag and the enabled bit as the transition says |
| `Servers.Server.SetUrgent` | src/view.cc:77-83 | Sets the flag as the transition says |
| `Servers.Server.Focus` | src/view.cc:1091-1166 | Makes exactly the transition Desktop.Focus |
| `Servers.Server.TakeKeyboard` | src/view.cc:1109-1152 | Relinks the window at the head of the list, gives it the keyboard and clears the focused layer, unless it has the keyboard |
| `Servers.Server.FindShown` | src/view.cc:46-56 | The scan finds the first window that may be shown, the skipped one excepted |
| `Servers.Server.FocusNext` | src/view.cc:41-65 | Makes exactly the transition Desktop.FocusNext |
| `Servers.Server.RefreshAll` | src/view.cc:97-101 | The loop gives every listed window the enabled bit that the current workspace asks for |
| `Servers.Server.WorkspaceSwitch` | src/view.cc:86-125 | Makes exactly the transition Desktop.SwitchWorkspace |
| `Servers.Server.MoveToWorkspace` | src/view.cc:128-145 | Makes exactly the transition Desktop.MoveToWorkspace |
| `Servers.Server.TogglePin` | src/input.cc:127-132 | Makes exactly the transition Desktop.TogglePin |
| `Servers.Server.SwitcherRemove` | src/switcher.cc:204-233 | The loop with its early exits makes exactly the transition Desktop.SwitcherRemove |
| `Servers.Server.Candidates` | src/switcher.cc:167-174 | The loop collects the mapped windows of the current workspace in MRU order |
| `Servers.Server.Cycle` | src/switcher.cc:162-183 | Makes exactly the transition Desktop.Cycle |
| `Servers.Server.HandleModifiers` | src/switcher.cc:186-197 | Makes exactly the transition Desktop.ModifiersChanged |
| `Servers.Server.CancelSwitcher` | src/switcher.cc:199-201 | Closes the switcher and changes nothing else |
| `Servers.Server.OnNew` | src/view.cc:808-876 | A new window object starts unmapped and listed nowhere |
| `Servers.Server.HandleDestroy` | src/view.cc:546-601 | Makes exactly the transition Desktop.Destroyed: off the list if still mapped, out of the keyboard, gone |
| `Servers.Server.Adopt` | src/view.cc:808-812 | A window object as its constructor leaves it joins the server |
| `Servers.Server.HandleMap` | src/view.cc:403-467 | Makes exactly the transition Desktop.MapWindow, taskbar buttons included |
| `Servers.Server.AddButtons` | src/view.cc:414-420 | The loop appends a button to every taskbar |
| `Servers.Server.RemoveButtons` | src/view.cc:519-526 | The loops remove the button from every taskbar |
| `Servers.Server.ButtonRemoved` | src/taskbar.cc:1635-1645 | Erases the first button of the window, if there is one |
| `Servers.Server.HandleUnmap` | src/view.cc:470-530 | Makes exactly the transition Desktop.UnmapWindow |
| `Servers.Server.MinimizeAndRefocus` | src/view.cc:711-719 | Makes exactly the transition Desktop.Minimize |
| `Servers.Server.Restore` | src/view.cc:438-441 | Makes exactly the transition Desktop.Restore |
| `Servers.Server.Activate` | src/view.cc:443-448 | Makes exactly the transition Desktop.Activate |
| `Servers.Server.HandleActivationRequest` | src/view.cc:937-953 | Makes exactly the transition Desktop.RequestActivation |
| `Servers.Server.ClickTask` | src/input.cc:1097-1103 | Makes exactly the transition Desktop.ClickTask |
| `Servers.Server.LayerMap` | src/layer.cc:26-42 | Makes exactly the transition Desktop.LayerMapped; while locked the layer surface gets no focus |
| `Servers.Server.LayerUnmap` | src/layer.cc:78-86 | Makes exactly the transition Desktop.LayerUnmapped |
| `Servers.Server.LayerDestroy` | src/layer.cc:89-102 | Makes exactly the transition Desktop.LayerDestroyed |
| `Servers.Server.OnNewLock` | src/lock.cc:153-181 | Makes exactly the transition Desktop.NewLock, refusal included |
| `Servers.Server.Unlock` | src/lock.cc:191-195 | Makes exactly the transition Desktop.Unlock |
| `Servers.Server.NewLockSurface` | src/lock.cc:210-224 | Makes exactly the transition Desktop.NewLockSurface |
| `Servers.Server.LockSurfaceDestroy` | src/lock.cc:233-258 | Makes exactly the transition Desktop.LockSurfaceGone |
| `Servers.Server.OtherSurface` | src/lock.cc:240-245 | The scan finds the first other surface of the lock |
| `Servers.Server.EnsureLockFocus` | src/lock.cc:133-150 | Makes exactly the transition Desktop.EnsureLockFocus |
| `Servers.Server.HandleAction` | src/input.cc:79-135 | Dispatching a workspace, move, minimize, pin or Alt-Tab action makes the transition of its event |
| `Servers.Server.Handle` | src/main.cc:342 | One turn of the event loop, for each of the 28 kinds of events, makes exactly its transition, keeps what holds whatever panels ask for, and under the guard keeps the invariant |
| `Servers.Server.CreateTaskbar` | src/output.cc:214-220 | A new taskbar gets a button for every open window |
| `Effects.FocusEffect` | src/view.cc:1091-1166 | Focusing gives the keyboard, lists first, shows and calms the window, and changes nothing else; while locked nothing at all |
| `Effects.OpenEffect` | src/view.cc:403-467 | A new window is on the current workspace, listed first, with the keyboard unless the session is locked; the others stay as they are |
| `Effects.CloseEffect` | src/view.cc:470-530 | A closed window leaves the keyboard to the most recently used window still shown, or to nobody; a focused window keeps it when another one closes |
| `Effects.MinimizeEffect` | src/view.cc:711-719 | A minimized window is hidden and leaves the keyboard to the most recently used window still shown; its other flags and the other windows stay |
| `Effects.MoveEffect` | src/view.cc:128-145 | The moved window is unpinned, on its new workspace, shown only if that is the current one, and hands the keyboard on even if it stays shown |
| `Effects.ActivateEffect` | src/view.cc:443-448 | Activation goes to the workspace of the window, a click on its button too unless it is pinned, and then shows it first with the keyboard |
| `Effects.TokensNeverSteal` | src/view.cc:945-952 | Over every run of requests without a valid token nothing changes but that exactly the mapped, unfocused windows that asked are urgent in addition |
| `Effects.SentHereLosesKeyboard` | src/view.cc:128-145 | Five events after which sending the pinned, focused window to the workspace it is on gives the keyboard to the other window |
| `Effects.PinTwice` | src/input.cc:127-132 | Toggling the pin of the focused window twice changes nothing if and only if the window belongs to the current workspace |
| `Effects.LayerRoundTrip` | src/layer.cc:67-86 | A layer surface that takes the keyboard and is unmapped gives it back to the window that had it; lists and flags are as before |
| `Effects.LockRoundTrip` | src/lock.cc:133-258 | Locking, any events of the lock surfaces, and unlocking give the keyboard back to the window that had it; lists and flags are as before |
| `Answers.CreatedAnswer` | src/view.cc:808-876 | A new window object is not mapped, minimized, pinned or urgent, and nothing else changes |
| `Answers.DestroyedAnswer` | src/view.cc:546-601 | A destroyed window is off the list and out of the keyboard, and nothing else changes |
| `Answers.OpenedAnswer` | src/view.cc:403-467 | A window that opens is listed first, on the current workspace, gets the last button of every taskbar, and the keyboard unless locked; the others stay as they are |
| `Answers.ClosedAnswer` | src/view.cc:470-530 | A window that closes leaves list, taskbars and Alt-Tab, keeps the order of the others, and leaves the keyboard to the most recently used window still shown |
| `Answers.MinimizedAnswer` | src/view.cc:711-719 | A minimize request hides the window, keeps its other flags, and leaves the keyboard to the most recently used window still shown |
| `Answers.MinimizeKeyAnswer` | src/input.cc:106-108 | The key does the same to the focused window, if there is one |
| `Answers.RestoredAnswer` | src/view.cc:438-441 | A window that a panel un-minimizes is awake, first and focused, on screen if pinned or on this workspace, which stays; while locked it gets neither list head nor keyboard |
| `Answers.ClickedAnswer` | src/input.cc:1032-1035 | A click leads to the window, lists it first, and changes nothing else |
| `Answers.PanelAnswer` | src/view.cc:443-448 | A panel leads to the window on its workspace |
| `Answers.TokenAnswer` | src/view.cc:945-949 | So does a valid activation token |
| `Answers.TaskAnswer` | src/input.cc:1097-1103 | So does a taskbar button, which leaves the workspace for no pinned window |
| `Answers.NoTokenAnswer` | src/view.cc:937-953 | A token for an unmapped window does nothing, none gives a window the keyboard while locked, and an invalid one only sets urgency |
| `Answers.LockedWentAnswer` | src/view.cc:443-448 | While locked a panel and a valid token switch to the workspace of the window and do no more |
| `Answers.SwitchAnswer` | src/input.cc:92-95 | The current or a nonexistent workspace: nothing. Another one: it is current, the indicators reach as far as needed and no further, Alt-Tab closes, the first shown window takes the keyboard, or nobody; while locked no window does |
| `Answers.MoveAnswer` | src/input.cc:96-100 | The focused window goes to the workspace that is asked for, if it exists and is not its own; indicators, Alt-Tab, keyboard and the other windows follow as stated |
| `Answers.PinAnswer` | src/input.cc:127-132 | The focused window then belongs to every workspace, or to this one only; what is on screen and everything else stays |
| `Answers.LayerMapAnswer` | src/layer.cc:26-74 | A layer surface takes the keyboard if and only if it is interactive and the session is not locked; otherwise only the set of surfaces changes |
| `Answers.LayerUnmapAnswer` | src/layer.cc:78-102 | A layer surface that took the keyboard last leaves it to a window; any other goes without effect |
| `Answers.LockAnswer` | src/lock.cc:153-181 | A locker that is let in takes the keyboard from everybody and closes Alt-Tab; a refused one changes nothing |
| `Answers.LockGoneAnswer` | src/lock.cc:197-205 | A lock that goes leaves the session as locked as it was |
| `Answers.LockSurfaceAnswer` | src/lock.cc:210-224 | A new surface of the lock takes the keyboard and is the newest |
| `Answers.LockSurfaceGoneAnswer` | src/lock.cc:233-258 | A surface that goes with the keyboard leaves it to the newest other one, and to nobody only if there is none |
| `Answers.KeyAnswer` | src/lock.cc:133-150 | After a key press a live lock with a surface has the keyboard |
| `Answers.BarAnswer` | src/output.cc:214-220 | A new taskbar has a button for every open window in MRU order; one that goes leaves the others |
| `Answers.CancelAnswer` | src/switcher.cc:199-201 | Cancelling closes Alt-Tab and nothing else |
| `Answers.RepeatAnswer` | src/switcher.cc:155-183 | A press in mid-cycle offers nothing new |
| `Answers.FirstPressAnswer` | src/switcher.cc:162-183 | The first press offers exactly the mapped windows of the current workspace, minimized or not, each once, in MRU order, and selects the second or, backwards, the last; with none it does nothing |
| `Answers.ReleaseAnswer` | src/switcher.cc:186-197 | Releasing the modifiers closes Alt-Tab and leads to the selected window; while one is held nothing happens |
| `Answers.RemovalAnswer` | src/switcher.cc:204-233 | Taking a window out of the offer changes the offer only, and nothing if it was not there |
| `RoundTrip.SwitchEffect` | src/view.cc:86-125 | What a switch does to focus and list, in terms of the state before it |
| `RoundTrip.RoundTripFocus` | src/view.cc:86-125 | Switching away and back returns the keyboard to the same window if and only if that window is pinned or the other workspace focuses no pinned window |
| `RoundTrip.RoundTripOrder` | src/view.cc:86-125 | Switching away and back leaves the order of the shown windows on every workspace if and only if the focused window is pinned or the other workspace focuses no pinned window |
| `RoundTrip.PinnedTakesFocus` | src/view.cc:86-125 | Five events after which leaving the workspace and coming back gives the keyboard to a pinned window |
| `AltTab.PressesSelect` | src/switcher.cc:155-183 | k presses select entry k modulo the number of windows of the workspace, or nothing opens when there is none |
| `AltTab.BackUndoesForward` | src/switcher.cc:155-159 | A step back undoes a step forward and the other way round |
| `AltTab.RemovalKeepsHighlight` | src/switcher.cc:204-233 | Removing an unselected window keeps the same window selected; removing the selected one selects the next, or the last; removing the only one closes the switcher |
| `AltTab.ReleaseCommits` | src/switcher.cc:186-197 | Releasing the modifiers focuses the selected window, shown and at the head of the list; while one is held nothing happens; while locked the focus stays |
| `AltTab.QuickSwitchSecond` | src/switcher.cc:162-197 | With two or more windows on offer, one quick Alt-Tab focuses the second, which changes places with the first |
| `AltTab.QuickSwitchOffered` | src/switcher.cc:167-174 | A quick Alt-Tab goes to a window that was offered, and the same windows are offered afterwards |
| `AltTab.VisitorNotReached` | src/switcher.cc:168-172 | Seven events after which two quick Alt-Tabs from a pinned window that visits another workspace end on another window |
| `AltTab.QuickSwitchTwice` | src/switcher.cc:162-197 | Two quick Alt-Tabs return to the window they started from if and only if it belongs to the current workspace or no window does |
| `LockSafety.StepFollowsRule` | src/lock.cc:153-205 | Seen through locked and the live lock, each event of the whole machine does what the three-line protocol says |
| `LockSafety.RunFollowsRules` | src/lock.cc:153-205 | The same over every run |
| `LockSafety.LockedKeyboard` | src/view.cc:1096-1098 | From locking until an unlock event, over every run, the keyboard is with nobody or a surface of the lock |
| `LockSafety.CrashStaysLocked` | src/lock.cc:197-205 | After the locker crashes, over every run without a new lock request, the session stays locked with nobody at the keyboard and cannot be unlocked; a new locker is accepted |
| `LockSafety.SecondLockerRefused` | src/lock.cc:157-161 | Over every run in which the locker does not go: it stays the one locker, and each further request changes nothing |
| `LockSafety.UnlockedByLocker` | src/lock.cc:191-195 | A locked session that is found unlocked after any run was unlocked by an event of the locker alive at that moment, and the keyboard was safe until then |
| `LockSafety.UnlockFocuses` | src/lock.cc:191-195 | Unlocking focuses the first window that may be shown, or nobody |
| `Stacking.Scene.RaiseToTop` | src/view.cc:1133 | Moves the node to the top and keeps the order of the others |
| `Stacking.Scene.RaiseOverlays` | src/view.cc:1068-1088 | The loops raise the pinned windows, then for each output its bar and its two upper layers, in that order |
| `Stacking.Scene.Focus` | src/view.cc:1132-1165 | The restacking part of focus raises exactly the nodes of FocusList in order |
| `Stacking.RaiseAllIs` | src/view.cc:1068-1088 | Any number of raises leaves the other nodes in their order below the raised ones, which are in the order of their last raise |
| `Stacking.FocusRestacks` | src/view.cc:1132-1165 | A focused window that is not fullscreen ends above each other unpinned window and below each other pinned one, and every bar is above all windows |
| `Stacking.FocusedOnTop` | src/view.cc:1132-1165 | The focused window is the topmost window if and only if it is fullscreen or no other mapped window is pinned |
| `Stacking.FullscreenTopmost` | src/view.cc:1163-1165 | A focused fullscreen window ends above every node |
| `Stacking.OthersKeepOrder` | src/view.cc:1132-1165 | Nodes that are not raised keep their order; none is lost, doubled or made up |
| `Stacking.LayersAboveBar` | src/view.cc:1077-1087 | The bar of each output ends below its TOP and OVERLAY layers, whether the focused window is fullscreen or not |
| `Stacking.OverlayAboveTop` | src/view.cc:1082-1086 | The OVERLAY layer of each output ends above its TOP layer, with a bar or without |
| `Stacking.LayersAboveWindows` | src/view.cc:1077-1087 | The upper layers of each output, with a bar or without, end above every window but a focused fullscreen one |
| `Stacking.RaisedExactly` | src/view.cc:1068-1088 | Focusing raises the window, the pinned ones, and the bars and upper layers there are, and nothing else |
| `Stacking.OldestPinnedOnTop` | src/view.cc:1071-1075 | Among pinned windows the one used longest ago ends on top |
| `Stacking.FocusedBelowPinned` | src/view.cc:1070-1075 | Two pinned windows: the one that is clicked gets the focus and stays below the other |
| `Zones.HalvesPartition` | src/view.cc:223-235 | Left and right halves share out the usable area, odd sizes included: no pixel lost or doubled |
| `Zones.QuartersPartition` | src/view.cc:236-259 | So do the four quarters |
| `Zones.ZoneOnItsSides` | src/view.cc:223-262 | Each zone has exactly the pixels of the area on the sides its edge names; middle pixels go right and down |
| `Zones.TiledWhereItTouches` | src/view.cc:147-164 | The client is told that it touches a side exactly where its zone does |
| `Zones.BarAtItsEdge` | src/taskbar.cc:1666 | The taskbar has the outermost rows of the output, at the top or at the bottom |
| `Zones.DetectedOnlyThere` | src/input.cc:673-706 | For every point an edge is found only if the cursor is at that edge, and none on no output |
| `Zones.DetectedExactly` | src/input.cc:673-706 | On an output more than three pixels wide and high, exactly then: corners where two edges meet, maximize at the top alone, nothing at the bottom alone |
| `Zones.BarPartition` | src/output.cc:450-460 | Usable area and taskbar strip share out the output box, bar at top or bottom, if and only if the bar height is between 0 and the height of the output |
| `Zones.PreviewIsZone` | src/input.cc:663-708 | The previewed zone is the zone that snapping uses, and nothing is previewed exactly on no output or away from its left, right and top edges |
| `Geometry.RunConsistent` | src/view.cc:166-277 | After any word of events a snapped window is neither maximized nor fullscreen, and the tiled edges last sent are those of its edge |
| `Geometry.AwayAndBack` | src/view.cc:615-698 | However long a window stays maximized, fullscreen or snapped and whatever happens meanwhile, on becoming normal it is where it was when it left and is asked for the size it had |
| `Geometry.WordRestores` | src/view.cc:166-277 | After any word of events a normal window is at the place, and was last asked for the size, that a five-line reference keeps for it |
| `Geometry.Departure` | src/view.cc:195-203 | Leaving the normal state saves the position and the committed size |
| `Geometry.Return` | src/view.cc:174-193 | Becoming normal moves the window to the saved position, asks for the saved size and clears the tiled edges |
| `Geometry.SnapFills` | src/view.cc:214-276 | A snapped window has its content framed by its decorations inside the zone, and fills the zone once the client commits the size it was asked for |
| `Geometry.MaximizeFills` | src/view.cc:655-663 | A maximized window has its content framed by its decorations inside the usable area, and fills it once the client commits the size it was asked for |
| `Geometry.FullscreenCovers` | src/view.cc:648-654 | Once the client commits the size it was asked for, the content of a fullscreen window covers the whole output |
| `Geometry.StatesAfter` | src/view.cc:674-680 | A toggle turns its own state over, a request sets it, a snap ends both, and nothing else touches them; an unconfigured client is left alone |
| `Geometry.PlaceAfter` | src/input.cc:747-748 | A move, a resize and a commit take effect in every state of the window, each on its own fields |
| `Geometry.SnapRefused` | src/view.cc:174-212 | A snap without an output, and un-snapping a normal window, change nothing that is seen |
| `Geometry.NormalStays` | src/view.cc:666-672 | A normal window that is asked to be normal stays where it is |
| `Geometry.DecoratedMovesContent` | src/view.cc:280-291 | Decorations that arrive move the content inside the window, and not the window |
| `Toplevels.Toplevel.constructor` | src/view.cc:808-876 | A new window is normal, unplaced and not to be configured yet |
| `Toplevels.Toplevel.SnapTo` | src/view.cc:166-277 | Changes the fields exactly as Geometry.SnapTo says |
| `Toplevels.Toplevel.ApplyState` | src/view.cc:615-698 | Changes the fields exactly as Geometry.ApplyState says |
| `Toplevels.Toplevel.Save` | src/view.cc:195-203 | Saves position and size of a normal window and of no other |
| `Toplevels.Toplevel.RestoreSaved` | src/view.cc:666-672 | Goes back to the saved place |
| `Toplevels.Toplevel.FillBox` | src/view.cc:656-663 | Puts the decorated window into a box |
| `Toplevels.Toplevel.SendState` | src/view.cc:674-680 | Sets the three states and tells the client its tiled edges |
| `Toplevels.Toplevel.ToggleMaximize` | src/view.cc:721-723 | Is the ToggleMaximize step |
| `Toplevels.Toplevel.ToggleFullscreen` | src/view.cc:725-727 | Is the ToggleFullscreen step |
| `Dragging.Grab.BeginMove` | src/input.cc:625-642 | Is the press of Drags.Begin: the offsets of the cursor in the window, and for a special window the start point and the wait for a drag |
| `Dragging.Grab.UnmaximizeToCursor` | src/view.cc:730-760 | Changes the window exactly as Drags.Restored says, the early return for a normal window and the content offset included |
| `Dragging.Grab.MakeNormal` | src/view.cc:746-751 | Goes back through snap_to or apply_state, as the state of the window asks |
| `Dragging.Grab.ProcessMove` | src/input.cc:727-756 | Is exactly the step Drags.Motion: wait, or restore, follow the cursor and show what was found |
| `Dragging.Grab.Show` | src/input.cc:750-755 | The indicator shows the detected zone or is hidden |
| `Dragging.Grab.Release` | src/input.cc:963-984 | Is exactly Drags.Release, and ends the grab |
| `Dragging.Grab.BeginResize` | src/input.cc:643-660 | The grab remembers the box of the client and the distance to the grabbed corner |
| `Dragging.Grab.ProcessResize` | src/input.cc:759-801 | Position and requested size put the dragged edges at the cursor |
| `Dragging.Grab.MoveBy` | src/input.cc:625-745 | Grabbing a normal window and moving the cursor by whole pixels moves the window by as many |
| `Dragging.Grab.GrabBorder` | src/input.cc:625-801 | Grabbing a border without moving only asks for the size that the window has |
| `Dragging.ResizeKeepsOppositeEdge` | src/input.cc:768-793 | Along each axis a resize leaves a pixel, keeps the edge that is not dragged, and puts the other at the cursor unless they would cross |
| `Drags.RestoredUnderCursor` | src/view.cc:735-759 | A restored window is normal, is asked for its saved size, and has its decorations back; the cursor keeps its place across the width within a pixel, is on the window, and holds the title bar halfway up |
| `Drags.PartIs` | src/view.cc:735-744 | The fraction across the width is the cursor position over the box and the nearer end outside it |
| `Drags.ThresholdExact` | src/input.cc:731-748 | One motion: a waiting window stays as it is near the press, and is restored and held beyond the threshold; the start point stays |
| `Drags.MovedExact` | src/input.cc:731-748 | Over every grab a special window is moved if and only if some motion went at least five pixels from the press, and a normal one if and only if the cursor moved |
| `Drags.PathForgotten` | src/input.cc:747-748 | Once the window moves, only the last motion counts |
| `Drags.DragMovesBy` | src/input.cc:625-748 | A normal window moves by as many pixels as the cursor, on whichever path |
| `Drags.ReleaseExact` | src/input.cc:963-984 | Over every grab, whatever else happens to the window meanwhile and whatever zone an earlier grab left on the screen: the release fills what is shown, or leaves the states alone if nothing is, if and only if a condition on the zone shown, the zone found and the flags holds; once the window was moved, if and only if it is not maximized or fullscreen at the top edge |
| `Drags.DragKeepsPromise` | src/input.cc:727-756 | When only the grab changes the window, every real drag, of a maximized window too, ends as previewed; until then the window is as it was and nothing is previewed |
| `Drags.ClickToggles` | src/input.cc:974-979 | A click, without a motion, on a title bar in the top row of the output previews nothing and toggles maximize |
| `Drags.IndicatorLeft` | src/input.cc:625-642 | A second move requested in mid-drag starts with the zone of the first still shown, and a release away from the edges does not fill it |
| `Drags.MaximizedMeanwhile` | src/view.cc:701-703 | A client that maximizes itself while dragged along the top edge is un-maximized by the release although the usable area is previewed |
| `Cascade.Placer.Place` | src/view.cc:324-400 | Moves the cascade on and places the window at the offset of its cell; a maximized or fullscreen window, or one without an output, is not placed and leaves the cascade alone |
| `Cascade.PlacedInside` | src/view.cc:370-399 | After any history a window is placed inside the usable area if and only if it fits |
| `Cascade.CascadeClosedForm` | src/view.cc:379-397 | The k-th window of one size goes to row k mod R of column (k / R) mod C |
| `Cascade.RoomExact` | src/view.cc:370-377 | The room is exactly how far a window that fits can be moved inside the area |
| `Cascade.CellSteps` | src/view.cc:392-399 | The k-th window is at min(2 step column + step row, room) and step row from the corner, the first one at the corner |
| `Cascade.SameSpot` | src/view.cc:392-399 | Two windows land on the same spot if and only if they share a cell, or a row of columns that both reach the right end |
| `Strip.Indicators.RenderClock` | src/taskbar.cc:443-493 | The clock ends a gap before the right end; without room nothing changes |
| `Strip.Indicators.RenderLayout` | src/taskbar.cc:1141-1187 | The layout indicator is next to the clock; without room nothing changes |
| `Strip.Indicators.RenderBattery` | src/taskbar.cc:626-684 | The battery is next in line, or absent; without a size or room its place stays |
| `Strip.Indicators.RenderBrightness` | src/taskbar.cc:763-820 | The brightness indicator is next in line, or absent; without a size or room its place stays |
| `Strip.Indicators.RenderVolume` | src/taskbar.cc:822-890 | The volume indicator is next in line, or absent; without a size or room its place stays |
| `Strip.Indicators.RenderIdle` | src/taskbar.cc:892-952 | The idle indicator is next in line; without room nothing changes |
| `Strip.Indicators.LeftOfIndicators` | src/taskbar.cc:995-1007 | Computes where the indicators that are shown begin |
| `Strip.Indicators.RenderTray` | src/taskbar.cc:954-1067 | The tray icons are next in line, from left to right; without a tray host or a size there are none |
| `Strip.Indicators.RenderAll` | src/taskbar.cc:1226-1254 | On every bar: nothing is drawn without a size; the tray and the absences are right on any bar with one; with room for them all indicators are lined up |
| `Strip.IconOutOfReach` | src/taskbar.cc:1084-1088 | A bar on which an icon is drawn one pixel wide and no point hits it |
| `Strip.IndicatorHits` | src/taskbar.cc:1799-1842 | For every real point: on a bar with room each of the idle, volume and brightness hit tests answers for exactly the rectangle its indicator is drawn in, and on a bar without room for none |
| `Strip.HitsExclude` | src/taskbar.cc:1075-1842 | No point hits two of idle, volume and brightness, or one of them and a tray icon |
| `Strip.RightLimitIs` | src/taskbar.cc:1409-1424 | The end of the task row, computed by an eighth function, is where the line-up of the others starts, less the tray |
| `Strip.LinedUpAgrees` | src/taskbar.cc:443-1187 | The positions that seven functions compute on their own are one line of widths and gaps |
| `Strip.StripLaysOut` | src/taskbar.cc:443-1187 | Any two shown indicators are disjoint with a gap of at least the padding, and all are right of the tray and of the end of the task row |
| `Strip.TrayAtInvertsDrawing` | src/taskbar.cc:1075-1105 | For every real point: tray icon i is reported if and only if there is room between the paddings and the point is at the height of the bar and, horizontally, on icon i as drawn or less than a pixel left of the first icon |
| `Pins.BuildSlots` | src/taskbar.cc:1355-1390 | The two loops over pins and buttons build exactly AllSlots |
| `Pins.FindMatch` | src/taskbar.cc:1363-1376 | The inner loop claims the first unclaimed button of the application, if any |
| `Pins.MatchPinsFair` | src/taskbar.cc:1360-1378 | No button goes to two pins, and each goes to a pin of its application |
| `Pins.PinsHeld` | src/taskbar.cc:1360-1378 | For every application the pins holding a window number the smaller of its pins and its buttons |
| `Pins.NoFairMatchingHoldsMore` | src/taskbar.cc:1360-1378 | No other matching serves more pins of any application |
| `Pins.SlotsInOrder` | src/taskbar.cc:1355-1390 | Slots are the pins in config order and then as many windows as pass the filter unclaimed |
| `Pins.SlotsComplete` | src/taskbar.cc:1381-1390 | A window has a slot if and only if a pin claimed it or the workspace filter lets it through |
| `Pins.SlotsUnique` | src/taskbar.cc:1355-1390 | No window has two slots |
| `TaskRow.Taskbar.constructor` | src/taskbar.cc:1563-1593 | A new bar has no size, no button and no slot |
| `TaskRow.Taskbar.Layout` | src/taskbar.cc:1226-1553 | Draws the row that pins, buttons, indicators and workspace call for; a bar without a size is left as it is |
| `TaskRow.Taskbar.DrawRow` | src/taskbar.cc:1425-1553 | The width computation and the drawing loop give the row of spec function Drawn |
| `TaskRow.Taskbar.CountLaunchers` | src/taskbar.cc:1429-1435 | The loop counts the launchers that no window stands for |
| `TaskRow.Taskbar.ViewAdded` | src/taskbar.cc:1614-1632 | Appends a button and draws the bar again |
| `TaskRow.Taskbar.ViewRemoved` | src/taskbar.cc:1635-1645 | Removes the button of the window and draws the bar again, so that no slot shows a window that is gone |
| `TaskRow.Taskbar.UpdateGeometry` | src/taskbar.cc:1655-1670 | Moves the bar to the edge of its output and draws it; an output without a box changes nothing |
| `TaskRow.Taskbar.ViewAt` | src/taskbar.cc:1724-1742 | Returns the window of the slot under the point, which always has a live button |
| `TaskRow.Taskbar.PinAt` | src/taskbar.cc:1745-1766 | Returns the launcher of the slot under the point, if no window stands for it |
| `TaskRow.Taskbar.DrawIndicators` | src/taskbar.cc:1265-1311 | The loop places the indicators of the workspaces that are shown, and ends past the last |
| `TaskRow.CellShows` | src/taskbar.cc:1459-1495 | A cell shows the window of its slot, none if the slot has none, and is the cell of its pin |
| `TaskRow.PinShowsItsApp` | src/taskbar.cc:1360-1390 | The cell of pin k shows a window of the application of pin k, or none; any other cell shows a window that passes the workspace filter |
| `TaskRow.WindowShownOnce` | src/taskbar.cc:1355-1390 | No window is shown in two cells |
| `TaskRow.WindowShown` | src/taskbar.cc:1380-1390 | A window on this workspace, or pinned, or any with the option, is shown; any other only if its application is pinned to the bar |
| `TaskRow.OwnSlotsInOrder` | src/taskbar.cc:1381-1390 | The windows without a pin are shown in the order of their buttons |
| `TaskRow.ClickFindsWindow` | src/taskbar.cc:1735-1741 | A click on the cell of a pin finds a window of that application or the launcher, on another cell a window that passes the filter |
| `TaskRow.RowStarts` | src/taskbar.cc:1313-1314 | The first slot starts six pixels and a gap past the last indicator |
| `TaskRow.SlotsApart` | src/taskbar.cc:1452-1553 | Slots are disjoint, from left to right, with the gap between them |
| `TaskRow.HitInvertsDrawing` | src/taskbar.cc:1735-1741 | The hit loop finds slot i for the pixels of slot i and no others |
| `TaskRow.ClickFindsSlot` | src/taskbar.cc:1724-1742 | For every real point: slot k is found if and only if the point is on the bar, at any height, and horizontally on slot k as drawn |
| `TaskRow.WorkspaceAtInvertsDrawing` | src/taskbar.cc:1768-1797 | For every real point: workspace i is reported if and only if the point is on the bar, at any height, and horizontally on indicator i as drawn or in the margin left of the first |
| `TaskRow.ClickIsUnambiguous` | src/taskbar.cc:1313-1314 | No point is on an indicator and on a slot |
| `TaskRow.WidthFits` | src/taskbar.cc:1439-1449 | The common width fits if and only if one pixel per window does, and is the largest under the cap |
| `TaskRow.RowFits` | src/taskbar.cc:1425-1449 | The row ends a gap before the indicators if and only if launchers and one pixel per window fit, and then it is as wide as cap and room allow |
| `TaskRow.SlotsClearOfIndicators` | src/taskbar.cc:1408-1425 | A row that fits keeps clear of every indicator on the right |
| `TaskRow.ClickHasOneAnswer` | src/taskbar.cc:1075-1842 | When the row fits, a point on a slot or a workspace indicator hits neither the tray nor idle, volume or brightness; with paddings of zero the tray also answers for the last fraction of a pixel of a slot that touches it |
| `TaskRow.LaunchersOverrun` | src/taskbar.cc:1425-1449 | Two launchers on a bar 160 pixels wide that run into the clock |
| `TrayIcons.RedrawExact` | src/taskbar.cc:1018-1063 | Drawing only what changed equals drawing everything if and only if no buffer taken to be up to date shows something else |
| `TrayIcons.ResizeExact` | src/taskbar.cc:1655-1670 | Resizing keeps every bar that has a size right if and only if it does not give a size to a bar that kept a buffer with the address and generation of the item at its place and the new size, but another picture |
| `TrayIcons.StepExact` | src/tray.cc:209-289 | No other step ever leaves an old icon on a bar that has a size, a reused address included |
| `TrayIcons.CacheExact` | src/taskbar.cc:954-1072 | Over every run, with addresses reused and bars losing and regaining their height: every bar with a size always equals one drawn afresh if and only if no resize of the run is of that kind |
| `TrayIcons.CacheRefinesRedrawAll` | src/taskbar.cc:954-1072 | While the configured bar height is positive, every run keeps every bar with a size equal to one drawn afresh |
| `TrayIcons.HeightMayComeAndGo` | src/taskbar.cc:1655-1670 | Bars may lose and regain their height in any run in which no item goes meanwhile and no generation wraps around |
| `TrayIcons.OwnHonestIs` | src/taskbar.cc:1019-1021 | Buffers that are honest at their own size, and no others, allow every new height |
| `TrayIcons.KeptAfterNewItem` | src/tray.cc:260 | Exactly when a new item spoils the buffers that a bar without a size has kept |
| `TrayIcons.KeptAfterNewIcon` | src/tray.cc:447-455 | Exactly when a new icon spoils them |
| `TrayIcons.StaleAfterShrinking` | src/taskbar.cc:1226-1230 | A run from an empty tray with a bar of height zero after which the bar shows the icon of an item that is gone |
| `TrayIcons.ItemsListedOnce` | src/tray.cc:225-229 | Over every run no bus name and path is listed twice |
| `TrayIcons.NamesAsSaid` | src/tray.cc:214-233 | A new item has the sender and the object path, or the bus name and the usual path, is listed last and has no icon |
| `TrayIcons.UnregisterEffect` | src/tray.cc:269-289 | A bus name that goes takes all its items and no others |
| `TrayIcons.IconEffect` | src/tray.cc:447-455 | A new icon replaces the old one of its item, under another generation, and of no other |
| `TrayIcons.BarShows` | src/taskbar.cc:1033-1058 | A bar that is right shows the icon of each item that has one, if it is high enough, and a background otherwise |
| `TrayIcons.ResizeEffect` | src/taskbar.cc:1655-1670 | A bar takes the width of its output and the configured height; an output without a box changes nothing |
| `TrayIcons.BarEffect` | src/output.cc:214-220 | A new bar comes last, without a size; one that goes takes no other with it |
| `TrayIcons.RegisterUndone` | src/tray.cc:269-289 | Registering a service of a new bus name, announced by name or by object path, and unregistering it leaves the list of items as it was |
| `TrayIcons.RegisterEffect` | src/tray.cc:209-267 | A named service for which a proxy can be made is listed once afterwards; the items that were there stay |
| `TrayHosts.BarView.Layout` | src/taskbar.cc:967-1067 | The loops make the buffers those of TrayIcons.Redrawn |
| `TrayHosts.BarView.FitBuffers` | src/taskbar.cc:969-980 | There are as many buffers as items, the old ones first |
| `TrayHosts.TrayHost.HandleRegister` | src/tray.cc:209-267 | Makes exactly the transition TrayIcons.Register: empty names, duplicates and failing proxies included |
| `TrayHosts.TrayHost.Resize` | src/taskbar.cc:1655-1670 | Makes exactly the transition TrayIcons.Resized, the return for an output without a box included |
| `TrayHosts.TrayHost.HandleUnregister` | src/tray.cc:269-289 | Makes exactly the transition TrayIcons.Unregister |
| `TrayHosts.TrayHost.Erase` | src/tray.cc:273-285 | The erasing loop keeps exactly the items of other bus names, in order |
| `TrayHosts.TrayHost.IconRead` | src/tray.cc:447-459 | A new icon gets a new generation and every bar is drawn again |
| `TrayHosts.TrayHost.RefreshAll` | src/taskbar.cc:1844-1850 | Every bar is laid out again |
| `TrayHosts.TrayHost.AddBar` | src/output.cc:214-220 | A new bar has no size and no buffer |
| `TrayHosts.TrayHost.RemoveBar` | src/output.cc:278-281 | The bar is gone, the others and the items stay |
| `TrayHosts.TrayHost.Draw` | src/taskbar.cc:1226-1254 | Drawing one bar is the BarDrawn step |
| `Pixmaps.PickPixmap` | src/tray.cc:470-478 | Picks the first of the pixmaps whose width is nearest to the target |
| `Pixmaps.DecodePixmaps` | src/tray.cc:465-514 | Converts the nearest pixmap, or fails exactly when there is none or its size or data is bad |
| `Pixmaps.Convert` | src/tray.cc:497-511 | Every pixel is read in network order and premultiplied |
| `Pixmaps.NearestIs` | src/tray.cc:470-478 | The width picked is as near to the target as any, and nearer than each before it |
| `Pixmaps.UsableExactly` | src/tray.cc:485-491 | A pixmap is usable exactly when it is at most 1024 pixels wide and high, not empty, and has all its bytes |
| `Pixmaps.PremultipliedEach` | src/tray.cc:505-509 | Each colour is multiplied by its own alpha to the nearest byte; opaque and transparent pixels stay |
| `Pixmaps.NetworkOrder` | src/tray.cc:500-504 | The most significant byte comes first and is the alpha |
| `Pixmaps.PremultipliedSound` | src/tray.cc:499-511 | No colour exceeds the alpha, except in pixels that came fully transparent and not black |
| `Outputs.EnsureExact` | src/output.cc:410-439 | Afterwards exactly the outputs on the scene have bars, or exactly one of them if there is any, and every bar still wanted is the same bar |
| `Outputs.EnsureKeepsBar` | src/output.cc:410-439 | An output on the scene keeps the bar it has if and only if the option is on or no older output on the scene has one |
| `Outputs.EnsureIdempotent` | src/output.cc:410-439 | Doing it twice is doing it once |
| `Outputs.PrimaryIs` | src/output.cc:411-424 | The backward scan finds the oldest output on the scene that has a bar, else the oldest on the scene |
| `Outputs.StepKeeps` | src/output.cc:358-398 | Plugging, unplugging, reloading and output-manager requests keep: a bar implies an output in the layout, and at most one bar without the option, one on each with it |
| `Outputs.RunKeeps` | src/output.cc:358-398 | The same over every run |
| `Outputs.ReloadEnables` | src/output.cc:223-311 | After a reload an output is on the scene if and only if the configuration does not disable it |
| `Outputs.ManagedAsAsked` | src/output.cc:527-562 | After a request each output is on the scene and in the layout as the last head that names it says, and as before if none does; names and order stay |
| `Outputs.PluggedAndUnplugged` | src/output.cc:358-398 | A new output comes first, on the scene and in the layout if enabled; unplugging it leaves what was there |
| `Outputs.PluggedStaysSettled` | src/output.cc:381-393 | Plugging in decides as ensure_taskbars would: where that changed nothing before, it changes nothing after |
| `Outputs.BarLost` | src/output.cc:75-107 | Plug in two outputs and unplug the first: the other one is left without a bar |
| `Outputs.UnplugExact` | src/output.cc:75-107 | Unplugging leaves the other outputs without any bar exactly when the only bar was on the unplugged one |
| `Outputs.OtherStepsCover` | src/output.cc:313-320 | Every other step leaves an output with a bar if there is an output on the scene |
| `Outputs.RunCovers` | src/output.cc:75-107 | Over every run without such a loss there is a bar whenever there is an output |
| `OutputLists.OutputItem.ApplyConfig` | src/output.cc:223-311 | Sets scene, layout and bar as the enabled setting says |
| `OutputLists.OutputList.AnyTaskbar` | src/output.cc:203-211 | Tells whether any output has a bar |
| `OutputLists.OutputList.OnNew` | src/output.cc:358-398 | Makes exactly the transition Outputs.New |
| `OutputLists.OutputList.OnDestroy` | src/output.cc:75-107 | Makes exactly the transition Outputs.Destroy |
| `OutputLists.OutputList.FindPrimary` | src/output.cc:411-424 | The backward loop computes the primary output |
| `OutputLists.OutputList.GiveBars` | src/output.cc:426-438 | The forward loop gives and takes bars as Outputs.SettledWith says |
| `OutputLists.OutputList.EnsureTaskbars` | src/output.cc:410-439 | Makes exactly the transition Outputs.Ensure |
| `OutputLists.OutputList.ReconfigureAll` | src/output.cc:314-320 | Makes exactly the transition Outputs.Reload |
| `OutputLists.OutputList.FindOutput` | src/output.cc:400-408 | Finds the first output of that name |
| `OutputLists.OutputList.OnOutputMgrApply` | src/output.cc:507-566 | Makes exactly the transition Outputs.Manage, or none when the backend refuses |
| `Execs.Config.constructor` | src/config.h:85-89 | Nothing is queued and nothing was started |
| `Execs.Config.LuaExec` | src/config.cc:66-78 | Queues the command, cut to 511 characters, or fails at the 65th |
| `Execs.Config.Load` | src/config.cc:726-729 | The queue is the first 64 calls of the configuration |
| `Execs.Config.Already` | src/config.cc:699-706 | Tells whether the command is remembered as started |
| `Execs.Config.RunExecs` | src/config.cc:697-721 | The nested loops start commands exactly as Execs.LaunchAll says |
| `Execs.Config.Reload` | src/config.cc:723-731 | Reading the configuration again starts what is new |
| `Execs.StoredLongest` | src/config.cc:75-76 | A slot holds the longest part of a command without NUL and of at most 511 characters |
| `Execs.LaunchAllAppend` | src/config.cc:697-721 | Starting two queues one after the other is starting their concatenation |
| `Execs.ReloadsFlatten` | src/config.cc:723-731 | Only the order of the calls matters, not how they are spread over reloads |
| `Execs.StartedExactly` | src/config.cc:697-721 | A command is started once if it is among the first 64 different ones and else every time it is asked for; the remembered ones are those 64 in order |
| `Execs.NeverTwiceExact` | src/config.cc:697-721 | Over any number of reloads no command is started twice if and only if each one beyond the first 64 different ones is asked for once |
| `Execs.StartedTwice` | src/config.cc:711-713 | Three readings with 65 different commands, after which the last one was started twice |
| `Execs.UpToLimitOnce` | src/config.cc:697-721 | With at most 64 different commands in all each is started exactly once |

## Left out

- Painting, text measurement, themes, on-screen displays and icon file lookup: a drawing is what it was drawn from, a text is its width.
- The insides of wlroots, Wayland, D-Bus, PulseAudio, libinput, Lua and process creation: they appear as events, parameters and a ghost log.
- Tablet input, popups, drag and drop, pointer constraints, tearing, gamma and output power: they pass library state through.
- Idle inhibition: it reads the same flags but ignores pinning, and unpinning does not recompute it.
- The flags mirrored to foreign-toplevel handles: snapping does not update them, so they do not agree with the window.
- The icon cache of pins: it is refreshed only when the number of pins changes.
- Stacking while locked, and the visibility of decorations that arrive during fullscreen.
- Close, spawn and double clicks on the title bar: requests to others, or a toggle that is modelled.
- Mode, scale and transform of outputs, and layer-surface geometry.
- Hover highlighting, the urgency flash and the clock timer of the taskbar.
- Floating point: cursor coordinates are reals; conversion to pixels truncates as in the program.
- 32-bit overflow of coordinates, widths and the cascade counter; the tray generation is modelled with its wrap-around.
- Strip.Indicators.TrayAt: a negative padding that cancels the icon size, a division by zero in the program, gives no icon.
- Servers.Server.HandleDestroy: a destroyed window must not be in the Alt-Tab snapshot, where the program would keep a dangling pointer; unmapping takes it out.
- TaskRow.Taskbar: widths of the indicators are handed to Layout, since Strip computes them; bars and the windows of Servers are not one heap.
- TrayIcons: items are values with an address, because two objects of the model never share one; colours of the theme and the padding stay as they are.
- Outputs: bars are numbers, told apart by creation; what is on them is in TaskRow, and that a new one lists every window is in Servers.Server.CreateTaskbar.
- Execs.Config.Load: the script is the list of its exec calls; everything else it does is not part of this model.
- Drags.ReleaseExact: the surroundings of the cursor, its output and usable area, are those of the last motion; a layout change between the last motion and the release is not part of this model.
