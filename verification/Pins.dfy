/** Which window each pinned launcher stands for, and which windows get a slot of their own. */
module Pins {
  import opened Lists

  /** What decides a taskbar button's place: the application id of its window, if it has one,
      and whether the workspace filter lets it through. */
  datatype Button = Button(app: Option<string>, visible: bool)

  /** A slot shows a button, or a launcher, or a button in the place of a launcher. */
  datatype Slot = Slot(button: Option<nat>, pin: Option<nat>)

  predicate Matches(buttons: seq<Button>, claimed: set<nat>, app: string, i: nat) {
    i < |buttons| && i !in claimed && buttons[i].app == Some(app)
  }

  /** The first unclaimed button of an application, from position `from`. */
  function FirstMatch(buttons: seq<Button>, claimed: set<nat>, app: string, from: nat): (r: Option<nat>)
    requires from <= |buttons|
    ensures r.Some? ==> r.value >= from && Matches(buttons, claimed, app, r.value)
    ensures r.Some? ==> forall i :: from <= i < r.value ==> !Matches(buttons, claimed, app, i)
    ensures r.None? ==> forall i :: from <= i < |buttons| ==> !Matches(buttons, claimed, app, i)
    decreases |buttons| - from
  {
    if from == |buttons| then None
    else if Matches(buttons, claimed, app, from) then Some(from)
    else FirstMatch(buttons, claimed, app, from + 1)
  }

  function Claim(claimed: set<nat>, m: Option<nat>): set<nat> {
    if m.Some? then claimed + {m.value} else claimed
  }

  /** The pins in config order, each with the first button that is left for it. */
  function MatchPins(pins: seq<string>, buttons: seq<Button>, claimed: set<nat>): (r: seq<Option<nat>>)
    ensures |r| == |pins|
    decreases |pins|
  {
    if pins == [] then []
    else
      var m := FirstMatch(buttons, claimed, pins[0], 0);
      [m] + MatchPins(pins[1..], buttons, Claim(claimed, m))
  }

  function ClaimedBy(matches: seq<Option<nat>>): set<nat> {
    set i | 0 <= i < |matches| && matches[i].Some? :: matches[i].value
  }

  function PinSlots(matches: seq<Option<nat>>): (r: seq<Slot>)
    ensures |r| == |matches| && forall i :: 0 <= i < |r| ==> r[i] == Slot(matches[i], Some(i))
  {
    seq(|matches|, i requires 0 <= i < |matches| => Slot(matches[i], Some(i)))
  }

  /** The visible buttons from position `from` on that no pin claimed. */
  function RestSlots(buttons: seq<Button>, claimed: set<nat>, from: nat): seq<Slot>
    requires from <= |buttons|
    decreases |buttons| - from
  {
    if from == |buttons| then []
    else if from !in claimed && buttons[from].visible then
      [Slot(Some(from), None)] + RestSlots(buttons, claimed, from + 1)
    else RestSlots(buttons, claimed, from + 1)
  }

  function AllSlots(pins: seq<string>, buttons: seq<Button>): seq<Slot> {
    var matches := MatchPins(pins, buttons, {});
    PinSlots(matches) + RestSlots(buttons, ClaimedBy(matches), 0)
  }

  // ---- the loops of `layout` ----

  ghost function ClaimedIn(claimed: seq<bool>): set<nat> {
    set i: nat | i < |claimed| && claimed[i]
  }

  method BuildSlots(pins: seq<string>, buttons: seq<Button>) returns (slots: seq<Slot>)
    ensures slots == AllSlots(pins, buttons)
  {
    slots := [];
    var claimed := new bool[|buttons|](i => false);
    ghost var all := MatchPins(pins, buttons, {});
    assert ClaimedIn(claimed[..]) == {} && pins[0..] == pins && all[0..] == all;
    for pin := 0 to |pins|
      invariant |slots| == pin && PinSlots(all[..pin]) == slots
      invariant ClaimedIn(claimed[..]) == ClaimedBy(all[..pin])
      invariant MatchPins(pins[pin..], buttons, ClaimedIn(claimed[..])) == all[pin..]
    {
      var matched := FindMatch(pins[pin], buttons, claimed);
      assert pins[pin..][1..] == pins[pin + 1..];
      assert all[pin] == all[pin..][0] == matched;
      assert all[pin + 1..] == all[pin..][1..];
      assert all[..pin + 1] == all[..pin] + [matched];
      ClaimedSnoc(all[..pin], matched);
      slots := slots + [Slot(matched, Some(pin))];
    }
    assert all[..|pins|] == all;
    ghost var bound := ClaimedBy(all);
    for i := 0 to |buttons|
      invariant ClaimedIn(claimed[..]) == bound
      invariant slots + RestSlots(buttons, bound, i) == AllSlots(pins, buttons)
    {
      assert claimed[..][i] == claimed[i];
      assert claimed[i] <==> i in bound;
      if claimed[i] {
        continue;
      }
      if !buttons[i].visible {
        continue;
      }
      ghost var own, rest := [Slot(Some(i), None)], RestSlots(buttons, bound, i + 1);
      assert slots + (own + rest) == slots + own + rest;
      slots := slots + [Slot(Some(i), None)];
    }
  }

  method FindMatch(app: string, buttons: seq<Button>, claimed: array<bool>) returns (matched: Option<nat>)
    requires claimed.Length == |buttons|
    modifies claimed
    ensures matched == FirstMatch(buttons, old(ClaimedIn(claimed[..])), app, 0)
    ensures ClaimedIn(claimed[..]) == Claim(old(ClaimedIn(claimed[..])), matched)
  {
    matched := None;
    ghost var before := ClaimedIn(claimed[..]);
    for i := 0 to |buttons|
      invariant matched == None && ClaimedIn(claimed[..]) == before
      invariant FirstMatch(buttons, before, app, 0) == FirstMatch(buttons, before, app, i)
    {
      assert claimed[..][i] == claimed[i];
      assert claimed[i] <==> i in before;
      if claimed[i] {
        continue;
      }
      if buttons[i].app == Some(app) {
        matched := Some(i);
        ghost var was := claimed[..];
        claimed[i] := true;
        assert claimed[..] == was[i := true];
        break;
      }
    }
  }

  lemma ClaimedSnoc(matches: seq<Option<nat>>, m: Option<nat>)
    ensures ClaimedBy(matches + [m]) == Claim(ClaimedBy(matches), m)
  {
    var all := matches + [m];
    assert forall i :: 0 <= i < |matches| ==> all[i] == matches[i];
    assert all[|matches|] == m;
  }

  // ---- the matching is a matching, and as large as one can be ----

  /** A button of an application, shown on this workspace or not, that is not claimed yet. */
  ghost predicate Free(buttons: seq<Button>, claimed: set<nat>, app: string, i: nat) {
    i < |buttons| && buttons[i].app == Some(app) && i !in claimed
  }

  /** No button is given to two pins, and each goes to a pin of its application. */
  ghost predicate Fair(pins: seq<string>, buttons: seq<Button>, claimed: set<nat>, matches: seq<Option<nat>>) {
    && |matches| == |pins|
    && (forall i :: 0 <= i < |pins| && matches[i].Some? ==> Free(buttons, claimed, pins[i], matches[i].value))
    && (forall i, j :: 0 <= i < j < |pins| && matches[i].Some? ==> matches[i] != matches[j])
  }

  lemma {:induction false} MatchPinsFair(pins: seq<string>, buttons: seq<Button>, claimed: set<nat>)
    ensures Fair(pins, buttons, claimed, MatchPins(pins, buttons, claimed))
    decreases |pins|
  {
    if pins != [] {
      var m := FirstMatch(buttons, claimed, pins[0], 0);
      MatchPinsFair(pins[1..], buttons, Claim(claimed, m));
    }
  }

  /** The unclaimed buttons of an application. */
  ghost function FreeOf(buttons: seq<Button>, claimed: set<nat>, app: string): set<nat> {
    set i | 0 <= i < |buttons| && Free(buttons, claimed, app, i)
  }

  /** How many pins of an application hold a button. */
  ghost function Held(pins: seq<string>, matches: seq<Option<nat>>, app: string): nat
    requires |matches| == |pins|
  {
    if pins == [] then 0
    else (if pins[0] == app && matches[0].Some? then 1 else 0) + Held(pins[1..], matches[1..], app)
  }

  function Min(a: int, b: int): int {
    if a < b then a else b
  }

  /** Giving a button to a pin takes it from the free ones of its own application only. */
  lemma FreeAfter(buttons: seq<Button>, claimed: set<nat>, pin: string, m: nat, app: string)
    requires Free(buttons, claimed, pin, m)
    ensures var before, after := FreeOf(buttons, claimed, app), FreeOf(buttons, claimed + {m}, app);
      if pin == app then m in before && after == before - {m} && |after| == |before| - 1 else after == before
  {
    var before, after := FreeOf(buttons, claimed, app), FreeOf(buttons, claimed + {m}, app);
    if pin == app {
      assert m in before && after == before - {m};
    } else {
      assert after == before;
    }
  }

  lemma CountCons(pins: seq<string>, app: string)
    requires pins != []
    ensures multiset(pins)[app] == multiset(pins[1..])[app] + if pins[0] == app then 1 else 0
  {
    assert pins == [pins[0]] + pins[1..];
  }

  lemma NoneFree(buttons: seq<Button>, claimed: set<nat>, app: string)
    requires FirstMatch(buttons, claimed, app, 0).None?
    ensures FreeOf(buttons, claimed, app) == {}
  {
    forall i: nat | i < |buttons|
      ensures !Free(buttons, claimed, app, i)
    {
      assert !Matches(buttons, claimed, app, i);
    }
  }

  /** For every application, the pins that hold a window number the smaller of its pins and its
      buttons. */
  lemma {:induction false} PinsHeld(pins: seq<string>, buttons: seq<Button>, claimed: set<nat>, app: string)
    ensures Held(pins, MatchPins(pins, buttons, claimed), app)
            == Min(multiset(pins)[app], |FreeOf(buttons, claimed, app)|)
    decreases |pins|
  {
    if pins != [] {
      var m := FirstMatch(buttons, claimed, pins[0], 0);
      CountCons(pins, app);
      PinsHeld(pins[1..], buttons, Claim(claimed, m), app);
      if m.Some? {
        FreeAfter(buttons, claimed, pins[0], m.value, app);
      } else if pins[0] == app {
        NoneFree(buttons, claimed, app);
      }
    }
  }

  /** No other way to give buttons to pins of their application serves more pins of any of them. */
  lemma {:induction false} NoFairMatchingHoldsMore(pins: seq<string>, buttons: seq<Button>, claimed: set<nat>,
                                                   matches: seq<Option<nat>>, app: string)
    requires Fair(pins, buttons, claimed, matches)
    ensures Held(pins, matches, app) <= Held(pins, MatchPins(pins, buttons, claimed), app)
    decreases |pins|
  {
    PinsHeld(pins, buttons, claimed, app);
    HeldAtMost(pins, buttons, claimed, matches, app);
  }

  lemma {:induction false} HeldAtMost(pins: seq<string>, buttons: seq<Button>, claimed: set<nat>,
                                      matches: seq<Option<nat>>, app: string)
    requires Fair(pins, buttons, claimed, matches)
    ensures Held(pins, matches, app) <= Min(multiset(pins)[app], |FreeOf(buttons, claimed, app)|)
    decreases |pins|
  {
    if pins != [] {
      CountCons(pins, app);
      FairTail(pins, buttons, claimed, matches);
      HeldAtMost(pins[1..], buttons, Claim(claimed, matches[0]), matches[1..], app);
      if matches[0].Some? {
        FreeAfter(buttons, claimed, pins[0], matches[0].value, app);
      }
    }
  }

  lemma FairTail(pins: seq<string>, buttons: seq<Button>, claimed: set<nat>, matches: seq<Option<nat>>)
    requires Fair(pins, buttons, claimed, matches) && pins != []
    ensures Fair(pins[1..], buttons, Claim(claimed, matches[0]), matches[1..])
  {
  }

  // ---- every window that should have a slot has one ----

  /** The buttons that a slot list shows. */
  ghost predicate Shows(slots: seq<Slot>, k: int, b: nat) {
    0 <= k < |slots| && slots[k].button == Some(b)
  }

  ghost function Unclaimed(buttons: seq<Button>, claimed: set<nat>, from: nat): set<nat> {
    set i | from <= i < |buttons| && i !in claimed && buttons[i].visible
  }

  lemma UnclaimedNext(buttons: seq<Button>, claimed: set<nat>, from: nat)
    requires from < |buttons|
    ensures var u, v := Unclaimed(buttons, claimed, from), Unclaimed(buttons, claimed, from + 1);
      if from !in claimed && buttons[from].visible then u == v + {from} && |u| == |v| + 1 else u == v
  {
    var u, v := Unclaimed(buttons, claimed, from), Unclaimed(buttons, claimed, from + 1);
    if from !in claimed && buttons[from].visible {
      assert u == v + {from} && from !in v;
    } else {
      assert u == v;
    }
  }

  lemma {:induction false} RestCount(buttons: seq<Button>, claimed: set<nat>, from: nat)
    requires from <= |buttons|
    ensures |RestSlots(buttons, claimed, from)| == |Unclaimed(buttons, claimed, from)|
    decreases |buttons| - from
  {
    if from < |buttons| {
      RestCount(buttons, claimed, from + 1);
      UnclaimedNext(buttons, claimed, from);
    }
  }

  /** A slot of its own for an unclaimed visible button at or after `from`. */
  ghost predicate Rest(buttons: seq<Button>, claimed: set<nat>, from: nat, s: Slot) {
    && s.button.Some? && s.pin == None
    && from <= s.button.value < |buttons|
    && s.button.value !in claimed && buttons[s.button.value].visible
  }

  /** Slots of their own for unclaimed visible buttons from `from` on, in increasing order. */
  ghost predicate InOrder(buttons: seq<Button>, claimed: set<nat>, from: nat, r: seq<Slot>) {
    && (forall k :: 0 <= k < |r| ==> Rest(buttons, claimed, from, r[k]))
    && (forall k, l :: 0 <= k < l < |r| ==> r[k].button.value < r[l].button.value)
  }

  lemma {:induction false} RestAre(buttons: seq<Button>, claimed: set<nat>, from: nat)
    requires from <= |buttons|
    ensures InOrder(buttons, claimed, from, RestSlots(buttons, claimed, from))
    decreases |buttons| - from
  {
    if from < |buttons| {
      RestAre(buttons, claimed, from + 1);
      ConsInOrder(buttons, claimed, from, RestSlots(buttons, claimed, from + 1));
    }
  }

  lemma ConsInOrder(buttons: seq<Button>, claimed: set<nat>, from: nat, tail: seq<Slot>)
    requires from < |buttons| && InOrder(buttons, claimed, from + 1, tail)
    ensures InOrder(buttons, claimed, from, tail)
    ensures from !in claimed && buttons[from].visible ==>
      InOrder(buttons, claimed, from, [Slot(Some(from), None)] + tail)
  {
  }

  lemma {:induction false} RestShows(buttons: seq<Button>, claimed: set<nat>, from: nat, b: nat) returns (k: nat)
    requires from <= b < |buttons| && b !in claimed && buttons[b].visible
    ensures Shows(RestSlots(buttons, claimed, from), k, b)
    decreases |buttons| - from
  {
    if from == b {
      k := 0;
    } else {
      k := RestShows(buttons, claimed, from + 1, b);
      if from !in claimed && buttons[from].visible {
        k := k + 1;
      }
    }
  }

  /** The row shows the pins first, in config order, then the windows left over, as many as pass
      the filter and were not claimed. */
  lemma SlotsInOrder(pins: seq<string>, buttons: seq<Button>)
    ensures var slots := AllSlots(pins, buttons);
      && |slots| == |pins| + |Unclaimed(buttons, ClaimedBy(MatchPins(pins, buttons, {})), 0)|
      && (forall k :: 0 <= k < |pins| ==> slots[k].pin == Some(k))
      && (forall k :: |pins| <= k < |slots| ==> slots[k].pin == None && slots[k].button.Some?)
  {
    var matches := MatchPins(pins, buttons, {});
    var claimed := ClaimedBy(matches);
    var slots := AllSlots(pins, buttons);
    RestCount(buttons, claimed, 0);
    RestAre(buttons, claimed, 0);
    assert forall k :: |pins| <= k < |slots| ==> slots[k] == RestSlots(buttons, claimed, 0)[k - |pins|];
  }

  /** Every window that a pin claimed or that passes the filter has a slot; no other has one. */
  lemma SlotsComplete(pins: seq<string>, buttons: seq<Button>, b: nat)
    requires b < |buttons|
    ensures (exists k :: Shows(AllSlots(pins, buttons), k, b))
            <==> b in ClaimedBy(MatchPins(pins, buttons, {})) || buttons[b].visible
  {
    var matches := MatchPins(pins, buttons, {});
    var claimed := ClaimedBy(matches);
    var slots := AllSlots(pins, buttons);
    if b in claimed {
      var k :| 0 <= k < |matches| && matches[k].Some? && matches[k].value == b;
      assert Shows(slots, k, b);
    } else if buttons[b].visible {
      var k := RestShows(buttons, claimed, 0, b);
      assert Shows(slots, |pins| + k, b);
    }
    if k :| Shows(slots, k, b) {
      RestAre(buttons, claimed, 0);
      if k < |pins| {
        assert matches[k] == Some(b);
      } else {
        assert slots[k] == RestSlots(buttons, claimed, 0)[k - |pins|];
      }
    }
  }

  /** No window has two slots. */
  lemma SlotsUnique(pins: seq<string>, buttons: seq<Button>, b: nat, k: int, l: int)
    requires Shows(AllSlots(pins, buttons), k, b) && Shows(AllSlots(pins, buttons), l, b)
    ensures k == l
  {
    var matches := MatchPins(pins, buttons, {});
    var claimed := ClaimedBy(matches);
    var slots := AllSlots(pins, buttons);
    RestAre(buttons, claimed, 0);
    MatchPinsFair(pins, buttons, {});
    if k >= |pins| {
      assert slots[k] == RestSlots(buttons, claimed, 0)[k - |pins|];
    } else {
      assert matches[k] == Some(b) && b in claimed;
    }
    if l >= |pins| {
      assert slots[l] == RestSlots(buttons, claimed, 0)[l - |pins|];
    } else {
      assert matches[l] == Some(b) && b in claimed;
    }
  }
}
