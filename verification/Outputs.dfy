/** Which outputs have a taskbar. */
module Outputs {
  import opened Lists

  /** An output: whether it is drawn on the scene and is in the layout, and its bar. Bars are told
      apart by the order in which they were created. */
  datatype Output = Output(name: string, scene: bool, inLayout: bool, bar: Option<nat>)

  /** The newest output is first; `everywhere` is the option to have a bar on every output. */
  datatype State = State(outputs: seq<Output>, everywhere: bool, next: nat)

  const START := State([], false, 0)

  predicate AnyTaskbar(outputs: seq<Output>) {
    exists i :: 0 <= i < |outputs| && outputs[i].bar.Some?
  }

  /** Whether the user wants the output on is decided by the name. */
  function Configured(o: Output, enable: bool): Output {
    if enable then o.(scene := true, inLayout := true)
    else o.(scene := false, inLayout := false, bar := None)
  }

  function New(s: State, name: string, enable: bool): State {
    var gets := enable && (s.everywhere || !AnyTaskbar(s.outputs));
    var o := Output(name, false, false, if gets then Some(s.next) else None);
    s.(outputs := [Configured(o, enable)] + s.outputs, next := if gets then s.next + 1 else s.next)
  }

  function Destroy(s: State, k: nat): State
    requires k < |s.outputs|
  {
    s.(outputs := s.outputs[..k] + s.outputs[k + 1..])
  }

  /** The scan from the oldest output: the first one on the scene, unless one with a bar follows. */
  function Scan(outputs: seq<Output>, k: nat, primary: Option<nat>): Option<nat>
    requires k <= |outputs|
  {
    if k == 0 then primary
    else if !outputs[k - 1].scene then Scan(outputs, k - 1, primary)
    else if outputs[k - 1].bar.Some? then Some(k - 1)
    else Scan(outputs, k - 1, if primary.None? then Some(k - 1) else primary)
  }

  function Primary(outputs: seq<Output>): Option<nat> {
    Scan(outputs, |outputs|, None)
  }

  predicate Needs(s: State, primary: Option<nat>, k: nat) {
    k < |s.outputs| && s.outputs[k].scene && (s.everywhere || primary == Some(k))
  }

  /** An output that is given a bar, the number being `next`, or loses the one it has. */
  function Given(o: Output, needs: bool, next: nat): Output {
    if needs && o.bar.None? then o.(bar := Some(next))
    else if !needs then o.(bar := None)
    else o
  }

  function NextAfter(o: Output, needs: bool, next: nat): nat {
    if needs && o.bar.None? then next + 1 else next
  }

  /** The first `k` outputs with bars given and taken, and the number of the next bar. */
  function Settle(s: State, primary: Option<nat>, k: nat): (seq<Output>, nat)
    requires k <= |s.outputs|
  {
    if k == 0 then ([], s.next)
    else
      var (done, next) := Settle(s, primary, k - 1);
      var o, needs := s.outputs[k - 1], Needs(s, primary, k - 1);
      (done + [Given(o, needs, next)], NextAfter(o, needs, next))
  }

  function SettledWith(s: State, primary: Option<nat>): State {
    var (outputs, next) := Settle(s, primary, |s.outputs|);
    s.(outputs := outputs, next := next)
  }

  function Ensure(s: State): State {
    SettledWith(s, Primary(s.outputs))
  }

  // ---- settling in place ----

  function GivenAt(t: State, primary: Option<nat>, k: nat): State
    requires k < |t.outputs|
  {
    var o, needs := t.outputs[k], Needs(t, primary, k);
    t.(outputs := t.outputs[k := Given(o, needs, t.next)], next := NextAfter(o, needs, t.next))
  }

  /** The first `k` outputs of `s` are settled in `t`, the others as they were. */
  ghost predicate Halfway(s: State, primary: Option<nat>, k: nat, t: State) {
    && k <= |s.outputs| && |t.outputs| == |s.outputs| && t.everywhere == s.everywhere
    && Settle(s, primary, k) == (t.outputs[..k], t.next)
    && t.outputs[k..] == s.outputs[k..]
  }

  lemma HalfwayNext(s: State, primary: Option<nat>, k: nat, t: State)
    requires Halfway(s, primary, k, t) && k < |s.outputs|
    ensures Halfway(s, primary, k + 1, GivenAt(t, primary, k))
  {
    assert t.outputs[k] == t.outputs[k..][0] == s.outputs[k];
    var r := GivenAt(t, primary, k);
    assert r.outputs[..k + 1] == t.outputs[..k] + [r.outputs[k]];
    assert r.outputs[k + 1..] == t.outputs[k..][1..] == s.outputs[k..][1..] == s.outputs[k + 1..];
  }

  lemma HalfwayEnd(s: State, primary: Option<nat>, t: State)
    requires Halfway(s, primary, |s.outputs|, t)
    ensures t == SettledWith(s, primary)
  {
    assert t.outputs[..|s.outputs|] == t.outputs;
  }

  function ConfiguredAll(outputs: seq<Output>, disabled: set<string>): seq<Output> {
    seq(|outputs|, i requires 0 <= i < |outputs| => Configured(outputs[i], outputs[i].name !in disabled))
  }

  /** A reload of the configuration, which may change everything. */
  function Reload(s: State, everywhere: bool, disabled: set<string>): State {
    Ensure(s.(everywhere := everywhere, outputs := ConfiguredAll(s.outputs, disabled)))
  }

  function Find(outputs: seq<Output>, name: string): (k: nat)
    ensures k <= |outputs|
    ensures k < |outputs| ==> outputs[k].name == name
    ensures forall i :: 0 <= i < k ==> outputs[i].name != name
  {
    if outputs == [] || outputs[0].name == name then 0 else Find(outputs[1..], name) + 1
  }

  /** What an output manager asks of one output. */
  datatype Head = Head(name: string, enabled: bool)

  function ApplyHead(outputs: seq<Output>, h: Head): (r: seq<Output>)
    ensures |r| == |outputs|
  {
    var k := Find(outputs, h.name);
    if k == |outputs| then outputs else outputs[k := Configured(outputs[k], h.enabled)]
  }

  /** The first `k` heads applied. */
  function ApplyHeads(outputs: seq<Output>, heads: seq<Head>, k: nat): seq<Output>
    requires k <= |heads|
  {
    if k == 0 then outputs else ApplyHead(ApplyHeads(outputs, heads, k - 1), heads[k - 1])
  }

  function Manage(s: State, heads: seq<Head>): State {
    Ensure(s.(outputs := ApplyHeads(s.outputs, heads, |heads|)))
  }

  datatype Event =
    | Plugged(name: string, enable: bool)
    | Unplugged(k: nat)
    | Reloaded(everywhere: bool, disabled: set<string>)
    | Managed(heads: seq<Head>)

  predicate Possible(s: State, e: Event) {
    e.Unplugged? ==> e.k < |s.outputs|
  }

  function Step(s: State, e: Event): State
    requires Possible(s, e)
  {
    match e
    case Plugged(name, enable) => New(s, name, enable)
    case Unplugged(k) => Destroy(s, k)
    case Reloaded(everywhere, disabled) => Reload(s, everywhere, disabled)
    case Managed(heads) => Manage(s, heads)
  }

  ghost predicate PossibleRun(s: State, es: seq<Event>)
    decreases |es|
  {
    es == [] || (Possible(s, es[0]) && PossibleRun(Step(s, es[0]), es[1..]))
  }

  ghost function Run(s: State, es: seq<Event>): State
    requires PossibleRun(s, es)
    decreases |es|
  {
    if es == [] then s else Run(Step(s, es[0]), es[1..])
  }

  // ---- who has a bar ----

  ghost predicate OutputRight(o: Output) {
    (o.scene <==> o.inLayout) && (o.bar.Some? ==> o.inLayout)
  }

  ghost predicate AtMostOne(outputs: seq<Output>) {
    forall i, j :: 0 <= i < j < |outputs| ==> outputs[i].bar.None? || outputs[j].bar.None?
  }

  ghost predicate OnAll(outputs: seq<Output>) {
    forall i :: 0 <= i < |outputs| ==> (outputs[i].bar.Some? <==> outputs[i].scene)
  }

  /** A bar is only on an output in the layout; with the option they all have one, and without it
      at most one has. */
  ghost predicate Inv(s: State) {
    && (forall i :: 0 <= i < |s.outputs| ==> OutputRight(s.outputs[i]))
    && (if s.everywhere then OnAll(s.outputs) else AtMostOne(s.outputs))
  }

  /** Where there is an output there is a bar. */
  ghost predicate Covered(s: State) {
    (exists i :: 0 <= i < |s.outputs| && s.outputs[i].scene) ==> AnyTaskbar(s.outputs)
  }

  /** An output on the scene that has a bar. */
  predicate Shows(o: Output) {
    o.scene && o.bar.Some?
  }

  /** The primary output: the oldest one on the scene with a bar, else the oldest on the scene. */
  lemma PrimaryIs(outputs: seq<Output>)
    ensures var p := Primary(outputs);
      && (p.None? <==> forall i :: 0 <= i < |outputs| ==> !outputs[i].scene)
      && (p.Some? ==> p.value < |outputs| && outputs[p.value].scene)
      && (p.Some? && outputs[p.value].bar.None? ==> forall i :: 0 <= i < |outputs| ==> !Shows(outputs[i]))
      && (p.Some? && outputs[p.value].bar.None? ==> forall i :: p.value < i < |outputs| ==> !outputs[i].scene)
      && (p.Some? && outputs[p.value].bar.Some? ==> forall i :: p.value < i < |outputs| ==> !Shows(outputs[i]))
  {
    ScanIs(outputs, |outputs|, None);
  }

  lemma {:induction false} ScanIs(outputs: seq<Output>, k: nat, primary: Option<nat>)
    requires k <= |outputs|
    requires primary.Some? ==> primary.value < |outputs| && outputs[primary.value].scene
    requires primary.Some? ==> outputs[primary.value].bar.None?
    ensures var p := Scan(outputs, k, primary);
      && (p.None? <==> primary.None? && forall i :: 0 <= i < k ==> !outputs[i].scene)
      && (p.Some? ==> p.value < |outputs| && outputs[p.value].scene)
      && (p.Some? && outputs[p.value].bar.None? ==> forall i :: 0 <= i < k ==> !Shows(outputs[i]))
      && (p.Some? && outputs[p.value].bar.Some? ==> forall i :: p.value < i < k ==> !Shows(outputs[i]))
      && (p.Some? && outputs[p.value].bar.None? && p != primary ==>
            primary.None? && forall i :: p.value < i < k ==> !outputs[i].scene)
  {
    if k > 0 && !(outputs[k - 1].scene && outputs[k - 1].bar.Some?) {
      ScanIs(outputs, k - 1, if outputs[k - 1].scene && primary.None? then Some(k - 1) else primary);
    }
  }

  /** What becomes of an output: it has a bar if and only if it needs one, and an output that keeps
      needing one keeps the one it has. */
  ghost predicate Settled(before: Output, after: Output, needs: bool) {
    && after.(bar := None) == before.(bar := None)
    && (after.bar.Some? <==> needs)
    && (needs && before.bar.Some? ==> after.bar == before.bar)
  }

  lemma {:induction false} SettleIs(s: State, primary: Option<nat>, k: nat)
    requires k <= |s.outputs|
    ensures var (r, next) := Settle(s, primary, k);
      |r| == k && forall i :: 0 <= i < k ==> Settled(s.outputs[i], r[i], Needs(s, primary, i))
  {
    if k > 0 {
      SettleIs(s, primary, k - 1);
    }
  }

  /** Afterwards exactly the outputs on the scene have bars, or exactly one of them if there is
      any; and every bar that is still wanted is still the same bar. */
  lemma EnsureExact(s: State)
    ensures var r := Ensure(s);
      && |r.outputs| == |s.outputs| && r.everywhere == s.everywhere
      && (forall i :: 0 <= i < |s.outputs| ==>
            Settled(s.outputs[i], r.outputs[i], Needs(s, Primary(s.outputs), i)))
      && (s.everywhere ==> OnAll(r.outputs))
      && (!s.everywhere ==> AtMostOne(r.outputs))
      && Covered(r)
      && (forall i :: 0 <= i < |r.outputs| && r.outputs[i].bar.Some? ==> r.outputs[i].scene)
  {
    var p := Primary(s.outputs);
    SettleIs(s, p, |s.outputs|);
    PrimaryIs(s.outputs);
    var r := Ensure(s).outputs;
    if p.Some? {
      assert Needs(s, p, p.value) && r[p.value].bar.Some?;
    } else {
      assert forall i :: 0 <= i < |r| ==> Settled(s.outputs[i], r[i], Needs(s, p, i)) && !r[i].scene;
    }
  }

  /** An output on the scene keeps the bar it has if and only if the option is on or no older output on
      the scene has one. */
  lemma EnsureKeepsBar(s: State, k: nat)
    requires k < |s.outputs| && Shows(s.outputs[k])
    ensures |Ensure(s).outputs| == |s.outputs|
    ensures Ensure(s).outputs[k].bar ==
      if s.everywhere || (forall i :: k < i < |s.outputs| ==> !Shows(s.outputs[i])) then s.outputs[k].bar else None
  {
    var p := Primary(s.outputs);
    EnsureExact(s);
    PrimaryIs(s.outputs);
    assert Settled(s.outputs[k], Ensure(s).outputs[k], Needs(s, p, k));
    assert p.Some? && Shows(s.outputs[p.value]) && k <= p.value;
  }

  lemma {:induction false} SettledStays(s: State, primary: Option<nat>, k: nat)
    requires k <= |s.outputs|
    requires forall i :: 0 <= i < k ==> (s.outputs[i].bar.Some? <==> Needs(s, primary, i))
    ensures Settle(s, primary, k) == (s.outputs[..k], s.next)
  {
    if k > 0 {
      SettledStays(s, primary, k - 1);
      assert s.outputs[..k] == s.outputs[..k - 1] + [s.outputs[k - 1]];
    }
  }

  /** Doing it again changes nothing. */
  lemma EnsureIdempotent(s: State)
    ensures Ensure(Ensure(s)) == Ensure(s)
  {
    var r, p, q := Ensure(s), Primary(s.outputs), Primary(Ensure(s).outputs);
    EnsureExact(s);
    PrimaryIs(s.outputs);
    PrimaryIs(r.outputs);
    forall i | 0 <= i < |r.outputs|
      ensures r.outputs[i].bar.Some? <==> Needs(r, q, i)
    {
      assert Settled(s.outputs[i], r.outputs[i], Needs(s, p, i));
      if p.Some? {
        assert Settled(s.outputs[p.value], r.outputs[p.value], Needs(s, p, p.value));
      }
    }
    SettledStays(r, q, |r.outputs|);
    assert r.outputs[..|r.outputs|] == r.outputs;
  }

  // ---- every run ----

  /** After a reload exactly the outputs that the configuration does not disable are on the scene. */
  lemma ReloadEnables(s: State, everywhere: bool, disabled: set<string>, k: nat)
    requires k < |s.outputs|
    ensures var r := Reload(s, everywhere, disabled);
      && |r.outputs| == |s.outputs| && r.outputs[k].name == s.outputs[k].name
      && (r.outputs[k].scene <==> s.outputs[k].name !in disabled)
      && (r.outputs[k].inLayout <==> s.outputs[k].name !in disabled) && r.everywhere == everywhere
  {
    var c := s.(everywhere := everywhere, outputs := ConfiguredAll(s.outputs, disabled));
    EnsureExact(c);
    assert Settled(c.outputs[k], Ensure(c).outputs[k], Needs(c, Primary(c.outputs), k));
  }

  /** What the first `k` heads of a request say last about an output, if they name it. */
  function LastWord(heads: seq<Head>, k: nat, name: string): (r: Option<bool>)
    requires k <= |heads|
    ensures r.None? <==> forall i :: 0 <= i < k ==> heads[i].name != name
  {
    if k == 0 then None
    else if heads[k - 1].name == name then Some(heads[k - 1].enabled)
    else LastWord(heads, k - 1, name)
  }

  ghost predicate NamesDiffer(outputs: seq<Output>) {
    forall i, j :: 0 <= i < j < |outputs| ==> outputs[i].name != outputs[j].name
  }

  lemma OneHead(outputs: seq<Output>, h: Head, i: nat)
    requires NamesDiffer(outputs) && i < |outputs|
    ensures var r := ApplyHead(outputs, h);
      && |r| == |outputs| && r[i].name == outputs[i].name
      && (h.name != outputs[i].name ==> r[i] == outputs[i])
      && (h.name == outputs[i].name ==> r[i].scene == h.enabled && r[i].inLayout == h.enabled)
  {
    var k := Find(outputs, h.name);
    if k < |outputs| && h.name == outputs[i].name {
      assert k == i;
    }
  }

  lemma {:induction false} NamesKept(outputs: seq<Output>, heads: seq<Head>, k: nat)
    requires NamesDiffer(outputs) && k <= |heads|
    ensures var r := ApplyHeads(outputs, heads, k);
      |r| == |outputs| && NamesDiffer(r) && forall i :: 0 <= i < |r| ==> r[i].name == outputs[i].name
  {
    if k > 0 {
      NamesKept(outputs, heads, k - 1);
      var was := ApplyHeads(outputs, heads, k - 1);
      forall i | 0 <= i < |was|
        ensures ApplyHead(was, heads[k - 1])[i].name == was[i].name
      {
        OneHead(was, heads[k - 1], i);
      }
    }
  }

  lemma {:induction false} HeadsSay(outputs: seq<Output>, heads: seq<Head>, k: nat, i: nat)
    requires NamesDiffer(outputs) && k <= |heads| && i < |outputs|
    ensures var r := ApplyHeads(outputs, heads, k); var word := LastWord(heads, k, outputs[i].name);
      && |r| == |outputs| && r[i].name == outputs[i].name
      && (word.None? ==> r[i] == outputs[i])
      && (word.Some? ==> r[i].scene == word.value && r[i].inLayout == word.value)
  {
    if k > 0 {
      HeadsSay(outputs, heads, k - 1, i);
      NamesKept(outputs, heads, k - 1);
      OneHead(ApplyHeads(outputs, heads, k - 1), heads[k - 1], i);
    }
  }

  /** After an output-manager request each output is on the scene and in the layout, or not, as the last
      head that names it says; one that no head names stays as it was in both, names and order stay. */
  lemma ManagedAsAsked(s: State, heads: seq<Head>, k: nat)
    requires NamesDiffer(s.outputs) && k < |s.outputs|
    ensures var r := Manage(s, heads); var word := LastWord(heads, |heads|, s.outputs[k].name);
      && |r.outputs| == |s.outputs| && r.outputs[k].name == s.outputs[k].name && r.everywhere == s.everywhere
      && r.outputs[k].scene == (if word.Some? then word.value else s.outputs[k].scene)
      && r.outputs[k].inLayout == (if word.Some? then word.value else s.outputs[k].inLayout)
  {
    var m := s.(outputs := ApplyHeads(s.outputs, heads, |heads|));
    HeadsSay(s.outputs, heads, |heads|, k);
    EnsureExact(m);
    assert Settled(m.outputs[k], Ensure(m).outputs[k], Needs(m, Primary(m.outputs), k));
  }

  /** A new output comes first, on the scene and in the layout if it is enabled, and leaves the others
      alone; one that goes takes its own bar only. */
  lemma PluggedAndUnplugged(s: State, name: string, enable: bool)
    ensures var r := Step(s, Plugged(name, enable));
      && |r.outputs| == |s.outputs| + 1 && r.outputs[0].name == name && r.everywhere == s.everywhere
      && r.outputs[0].scene == enable && r.outputs[0].inLayout == enable
      && Step(r, Unplugged(0)) == s.(next := r.next) && (!enable ==> r.next == s.next)
  {
  }

  ghost predicate AllRight(outputs: seq<Output>) {
    forall i :: 0 <= i < |outputs| ==> OutputRight(outputs[i])
  }

  lemma EnsureInv(s: State)
    requires AllRight(s.outputs)
    ensures Inv(Ensure(s)) && Covered(Ensure(s))
  {
    EnsureExact(s);
    forall i | 0 <= i < |s.outputs|
      ensures OutputRight(Ensure(s).outputs[i])
    {
      assert Settled(s.outputs[i], Ensure(s).outputs[i], Needs(s, Primary(s.outputs), i));
    }
  }

  lemma {:induction false} HeadsRight(outputs: seq<Output>, heads: seq<Head>, k: nat)
    requires AllRight(outputs) && k <= |heads|
    ensures AllRight(ApplyHeads(outputs, heads, k))
  {
    if k > 0 {
      HeadsRight(outputs, heads, k - 1);
    }
  }

  lemma StepKeeps(s: State, e: Event)
    requires Inv(s) && Possible(s, e)
    ensures Inv(Step(s, e))
  {
    match e
    case Plugged(_, _) =>
    case Unplugged(_) =>
    case Reloaded(everywhere, disabled) =>
      EnsureInv(s.(everywhere := everywhere, outputs := ConfiguredAll(s.outputs, disabled)));
    case Managed(heads) =>
      HeadsRight(s.outputs, heads, |heads|);
      EnsureInv(s.(outputs := ApplyHeads(s.outputs, heads, |heads|)));
  }

  /** Whatever outputs come and go and however they are configured: a bar is only on an output in
      the layout, and without the option at most one output has a bar. */
  lemma {:induction false} RunKeeps(s: State, es: seq<Event>)
    requires Inv(s) && PossibleRun(s, es)
    ensures Inv(Run(s, es))
    decreases |es|
  {
    if es != [] {
      StepKeeps(s, es[0]);
      RunKeeps(Step(s, es[0]), es[1..]);
    }
  }

  /** The destroyed output carried the only bar, and another output is left. */
  predicate LosesBar(s: State, k: nat)
    requires k < |s.outputs|
  {
    !s.everywhere && s.outputs[k].bar.Some? && exists i :: 0 <= i < |s.outputs| && i != k && s.outputs[i].scene
  }

  /** Unplugging an output leaves the others without a bar exactly when the bar was on it; no
      other output is given one before the next reload or output-manager request. */
  lemma UnplugExact(s: State, k: nat)
    requires Inv(s) && Covered(s) && k < |s.outputs|
    ensures Covered(Destroy(s, k)) <==> !LosesBar(s, k)
  {
    if LosesBar(s, k) {
      NoneLeft(s, k);
    } else {
      var r := Destroy(s, k).outputs;
      if i :| 0 <= i < |r| && r[i].scene {
        var j := if i < k then i else i + 1;
        assert s.outputs[j] == r[i] && j != k;
        OtherHasBar(s, k, j);
      }
    }
  }

  lemma NoneLeft(s: State, k: nat)
    requires Inv(s) && k < |s.outputs| && LosesBar(s, k)
    ensures !Covered(Destroy(s, k))
  {
    var r := Destroy(s, k).outputs;
    forall i | 0 <= i < |r|
      ensures r[i].bar.None?
    {
      assert r[i] == s.outputs[if i < k then i else i + 1];
    }
    var i :| 0 <= i < |s.outputs| && i != k && s.outputs[i].scene;
    assert r[if i < k then i else i - 1].scene;
  }

  lemma OtherHasBar(s: State, k: nat, j: nat)
    requires Inv(s) && Covered(s) && k < |s.outputs| && !LosesBar(s, k)
    requires j < |s.outputs| && j != k && s.outputs[j].scene
    ensures AnyTaskbar(Destroy(s, k).outputs)
  {
    var r := Destroy(s, k).outputs;
    assert AnyTaskbar(s.outputs);
    var b: nat :| b < |s.outputs| && s.outputs[b].bar.Some?;
    var c := if s.everywhere then j else b;
    assert s.outputs[c].bar.Some? && c != k;
    assert r[if c < k then c else c - 1].bar.Some?;
  }

  /** Every other step leaves an output with a bar, if it leaves an output at all. */
  lemma OtherStepsCover(s: State, e: Event)
    requires Inv(s) && Possible(s, e) && !e.Unplugged? && (e.Plugged? ==> Covered(s))
    ensures Covered(Step(s, e))
  {
    match e
    case Plugged(name, enable) =>
      var r := Step(s, e).outputs;
      assert forall i :: 0 <= i < |s.outputs| ==> r[i + 1] == s.outputs[i];
      if enable && !AnyTaskbar(s.outputs) {
        assert r[0].bar.Some?;
      } else if i :| 0 <= i < |s.outputs| && s.outputs[i].bar.Some? {
        assert r[i + 1].bar.Some?;
      }
    case Reloaded(everywhere, disabled) =>
      EnsureExact(s.(everywhere := everywhere, outputs := ConfiguredAll(s.outputs, disabled)));
    case Managed(heads) =>
      EnsureExact(s.(outputs := ApplyHeads(s.outputs, heads, |heads|)));
  }

  /** No output is unplugged with the only bar while another one is left. */
  ghost predicate LossFree(s: State, es: seq<Event>)
    requires PossibleRun(s, es)
    decreases |es|
  {
    es == [] || (!(es[0].Unplugged? && LosesBar(s, es[0].k)) && LossFree(Step(s, es[0]), es[1..]))
  }

  lemma {:induction false} RunCovers(s: State, es: seq<Event>)
    requires Inv(s) && Covered(s) && PossibleRun(s, es) && LossFree(s, es)
    ensures Covered(Run(s, es))
    decreases |es|
  {
    if es != [] {
      StepKeeps(s, es[0]);
      if es[0].Unplugged? {
        UnplugExact(s, es[0].k);
      } else {
        OtherStepsCover(s, es[0]);
      }
      RunCovers(Step(s, es[0]), es[1..]);
    }
  }

  /** Two outputs are plugged in and the first one, which has the bar, is unplugged. */
  lemma BarLost(a: string, b: string)
    ensures var es := [Plugged(a, true), Plugged(b, true), Unplugged(1)];
      PossibleRun(START, es) && !Covered(Run(START, es))
  {
    var s1 := New(START, a, true);
    var s2 := New(s1, b, true);
    assert s1.outputs[0].bar == Some(0);
    assert s2.outputs[1] == s1.outputs[0] && s2.outputs[0].bar == None;
    var s3 := Destroy(s2, 1);
    assert s3.outputs == [Output(b, true, true, None)];
    assert s3.outputs[0].scene;
    RunCons(s2, Unplugged(1), []);
    RunCons(s1, Plugged(b, true), [Unplugged(1)]);
    RunCons(START, Plugged(a, true), [Plugged(b, true), Unplugged(1)]);
  }

  lemma RunCons(s: State, e: Event, es: seq<Event>)
    requires Possible(s, e) && PossibleRun(Step(s, e), es)
    ensures PossibleRun(s, [e] + es) && Run(s, [e] + es) == Run(Step(s, e), es)
  {
    assert ([e] + es)[1..] == es;
  }

  /** Plugging in decides as settling would: where bars were settled they are settled again. */
  lemma PluggedStaysSettled(s: State, name: string, enable: bool)
    requires Ensure(s) == s
    ensures Ensure(New(s, name, enable)) == New(s, name, enable)
  {
    var r := New(s, name, enable);
    var q := Primary(r.outputs);
    PrimaryAfter(s, name, enable);
    forall i | 0 <= i < |r.outputs|
      ensures r.outputs[i].bar.Some? <==> Needs(r, q, i)
    {
      if i > 0 {
        SettledAt(s, i - 1);
      }
    }
    SettledStays(r, q, |r.outputs|);
    assert r.outputs[..|r.outputs|] == r.outputs;
  }

  lemma SettledAt(s: State, i: nat)
    requires Ensure(s) == s && i < |s.outputs|
    ensures s.outputs[i].bar.Some? <==> Needs(s, Primary(s.outputs), i)
  {
    EnsureExact(s);
    assert Settled(s.outputs[i], s.outputs[i], Needs(s, Primary(s.outputs), i));
  }

  /** The primary output stays the same one; the new one is it only if it is alone. */
  lemma PrimaryAfter(s: State, name: string, enable: bool)
    requires Ensure(s) == s
    ensures var p, q := Primary(s.outputs), Primary(New(s, name, enable).outputs);
      q == if p.Some? then Some(p.value + 1) else if enable then Some(0) else None
    ensures Primary(s.outputs).None? <==> !AnyTaskbar(s.outputs)
  {
    var p := Primary(s.outputs);
    EnsureExact(s);
    PrimaryIs(s.outputs);
    assert forall i :: 0 <= i < |s.outputs| ==> Settled(s.outputs[i], s.outputs[i], Needs(s, p, i));
    PrimaryCons(New(s, name, enable).outputs[0], s.outputs);
    if p.Some? {
      assert s.outputs[p.value].bar.Some?;
    }
  }

  /** The scan from the oldest output reaches the newest one only if no other is on the scene, or
      none has a bar. */
  lemma PrimaryCons(o: Output, outputs: seq<Output>)
    ensures var p, q := Primary(outputs), Primary([o] + outputs);
      && (p.Some? ==> p.value < |outputs|)
      && q == if p.Some? && (outputs[p.value].bar.Some? || !o.scene || o.bar.None?) then Some(p.value + 1)
           else if o.scene then Some(0) else None
  {
    PrimaryIs(outputs);
    ScanCons(o, outputs, |outputs|, None);
  }

  function Shifted(p: Option<nat>): Option<nat> {
    if p.Some? then Some(p.value + 1) else None
  }

  lemma {:induction false} ScanCons(o: Output, outputs: seq<Output>, k: nat, primary: Option<nat>)
    requires k <= |outputs|
    requires primary.Some? ==> primary.value < |outputs| && outputs[primary.value].scene
    requires primary.Some? ==> outputs[primary.value].bar.None?
    ensures var p, q := Scan(outputs, k, primary), Scan([o] + outputs, k + 1, Shifted(primary));
      && (p.Some? ==> p.value < |outputs|)
      && q == if p.Some? && (outputs[p.value].bar.Some? || !o.scene || o.bar.None?) then Shifted(p)
              else if o.scene then Some(0) else None
  {
    var all := [o] + outputs;
    if k == 0 {
      assert all[0] == o;
      assert Scan(all, 0, Shifted(primary)) == Shifted(primary);
    } else {
      assert all[k] == outputs[k - 1];
      if !(outputs[k - 1].scene && outputs[k - 1].bar.Some?) {
        ScanCons(o, outputs, k - 1, if outputs[k - 1].scene && primary.None? then Some(k - 1) else primary);
      }
    }
  }
}
