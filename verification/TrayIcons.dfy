/** Tray icons: each bar draws an icon again only when its item, its generation or the icon size
    differ from what the buffer was drawn from. Items are named by the address they live at, which
    a later item may be given again. */
module TrayIcons {
  import opened Lists
  import opened Strip

  datatype Pixel = Pixel(a: nat, r: nat, g: nat, b: nat)

  datatype Icon = Icon(w: int, h: int, pixels: seq<Pixel>)

  const NO_ICON := Icon(0, 0, [])

  datatype Item = Item(bus: string, path: string, address: nat, gen: nat, icon: Icon)

  /** What a buffer shows. */
  datatype Picture = Nothing | Background(size: int) | Painted(size: int, icon: Icon)

  const MARGIN := 2

  function Drawing(icon: Icon, size: int): Picture {
    if icon.pixels != [] && icon.w > 0 && icon.h > 0 && size - 2 * MARGIN > 0 then Painted(size, icon)
    else Background(size)
  }

  /** A buffer and what it was drawn from. */
  datatype Buffer = Buffer(item: Option<nat>, gen: nat, size: int, picture: Picture)

  const NEW_BUFFER := Buffer(None, 0, 0, Nothing)

  predicate UpToDate(b: Buffer, item: Item, size: int) {
    b.item == Some(item.address) && b.gen == item.gen && b.size == size
  }

  function Redraw(b: Buffer, item: Item, size: int): Buffer {
    if UpToDate(b, item, size) then b
    else Buffer(Some(item.address), item.gen, size, Drawing(item.icon, size))
  }

  function BufferAt(buffers: seq<Buffer>, i: nat): Buffer {
    if i < |buffers| then buffers[i] else NEW_BUFFER
  }

  /** The buffers of a bar after drawing: one an item, reused where it is up to date. */
  function Redrawn(buffers: seq<Buffer>, items: seq<Item>, size: int): seq<Buffer> {
    seq(|items|, i requires 0 <= i < |items| => Redraw(BufferAt(buffers, i), items[i], size))
  }

  /** Drawing every icon from nothing. */
  function DrawnAll(items: seq<Item>, size: int): seq<Buffer> {
    Redrawn([], items, size)
  }

  // ---- bars and items ----

  datatype Bar = Bar(width: int, height: int, buffers: seq<Buffer>)

  datatype Tray = Tray(items: seq<Item>, bars: seq<Bar>, pad: int)

  predicate Sized(bar: Bar) {
    bar.width > 0 && bar.height > 0
  }

  function LaidOut(bar: Bar, items: seq<Item>, pad: int): Bar {
    if Sized(bar) then bar.(buffers := Redrawn(bar.buffers, items, IconSize(bar.height, pad))) else bar
  }

  function Refreshed(t: Tray): Tray {
    t.(bars := seq(|t.bars|, k requires 0 <= k < |t.bars| => LaidOut(t.bars[k], t.items, t.pad)))
  }

  predicate Same(item: Item, bus: string, path: string) {
    item.bus == bus && item.path == path
  }

  predicate Known(items: seq<Item>, bus: string, path: string) {
    exists i :: 0 <= i < |items| && Same(items[i], bus, path)
  }

  const DEFAULT_PATH := "/StatusNotifierItem"

  function BusOf(service: string, sender: string): string {
    if service != "" && service[0] == '/' then sender else service
  }

  function PathOf(service: string): string {
    if service != "" && service[0] == '/' then service else DEFAULT_PATH
  }

  /** A new item is put at an address where no live one is; `proxied` tells whether a proxy for it
      could be made. */
  function Register(t: Tray, service: string, sender: string, address: nat, proxied: bool): Tray {
    var bus, path := BusOf(service, sender), PathOf(service);
    if service == "" || Known(t.items, bus, path) || !proxied then t
    else Refreshed(t.(items := t.items + [Item(bus, path, address, 0, NO_ICON)]))
  }

  function OtherBus(bus: string): Item -> bool {
    (item: Item) => item.bus != bus
  }

  function Unregister(t: Tray, bus: string): Tray {
    var rest := Filter(t.items, OtherBus(bus));
    if |rest| == |t.items| then t else Refreshed(t.(items := rest))
  }

  /** Generations are 64-bit numbers. */
  const GENERATIONS := 0x1_0000_0000_0000_0000

  function WithIcon(item: Item, icon: Icon): Item {
    item.(icon := icon, gen := (item.gen + 1) % GENERATIONS)
  }

  function IconChanged(t: Tray, i: nat, icon: Icon): Tray
    requires i < |t.items|
  {
    Refreshed(t.(items := t.items[i := WithIcon(t.items[i], icon)]))
  }

  /** The bar gets the width of its output and the configured height; an output without a box
      changes nothing. */
  function Resized(t: Tray, k: nat, width: int, depth: int, height: int): Tray
    requires k < |t.bars|
  {
    if width <= 0 || depth <= 0 then t
    else t.(bars := t.bars[k := LaidOut(t.bars[k].(width := width, height := height), t.items, t.pad)])
  }

  datatype Event =
    | Registered(service: string, sender: string, address: nat, proxied: bool)
    | Unregistered(bus: string)
    | IconArrived(item: nat, icon: Icon)
    | BarCreated(height: int)
    | BarDeleted(bar: nat)
    | BarResized(bar: nat, width: int, depth: int, height: int)
    | BarDrawn(bar: nat)

  ghost predicate Possible(t: Tray, e: Event) {
    match e
    case Registered(_, _, address, _) => forall i :: 0 <= i < |t.items| ==> t.items[i].address != address
    case IconArrived(i, _) => i < |t.items|
    case BarDeleted(k) => k < |t.bars|
    case BarResized(k, _, _, _) => k < |t.bars|
    case BarDrawn(k) => k < |t.bars|
    case _ => true
  }

  ghost function Step(t: Tray, e: Event): Tray
    requires Possible(t, e)
  {
    match e
    case Registered(service, sender, address, proxied) => Register(t, service, sender, address, proxied)
    case Unregistered(bus) => Unregister(t, bus)
    case IconArrived(i, icon) => IconChanged(t, i, icon)
    case BarCreated(height) => t.(bars := t.bars + [Bar(0, height, [])])
    case BarDeleted(k) => t.(bars := t.bars[..k] + t.bars[k + 1..])
    case BarResized(k, width, depth, height) => Resized(t, k, width, depth, height)
    case BarDrawn(k) => t.(bars := t.bars[k := LaidOut(t.bars[k], t.items, t.pad)])
  }

  ghost predicate PossibleRun(t: Tray, es: seq<Event>)
    decreases |es|
  {
    es == [] || (Possible(t, es[0]) && PossibleRun(Step(t, es[0]), es[1..]))
  }

  ghost function Run(t: Tray, es: seq<Event>): Tray
    requires PossibleRun(t, es)
    decreases |es|
  {
    if es == [] then t else Run(Step(t, es[0]), es[1..])
  }

  // ---- the cache never shows an old icon ----

  /** A buffer that will not be drawn again shows what it should. */
  ghost predicate Honest(buffers: seq<Buffer>, items: seq<Item>, size: int) {
    forall i :: 0 <= i < |buffers| && i < |items| && UpToDate(buffers[i], items[i], size) ==>
      buffers[i].picture == Drawing(items[i].icon, size)
  }

  /** Drawing only what changed gives what drawing everything gives exactly when no buffer that is
      taken to be up to date shows something else. */
  lemma RedrawExact(buffers: seq<Buffer>, items: seq<Item>, size: int)
    ensures Redrawn(buffers, items, size) == DrawnAll(items, size) <==> Honest(buffers, items, size)
  {
    var r, all := Redrawn(buffers, items, size), DrawnAll(items, size);
    if Honest(buffers, items, size) {
      assert forall i :: 0 <= i < |items| ==> r[i] == all[i];
    }
    if r == all {
      forall i | 0 <= i < |buffers| && i < |items| && UpToDate(buffers[i], items[i], size)
        ensures buffers[i].picture == Drawing(items[i].icon, size)
      {
        assert r[i] == all[i];
      }
    }
  }

  /** A bar with a size shows the current icon of every item at its current size. */
  ghost predicate BarRight(bar: Bar, items: seq<Item>, pad: int) {
    Sized(bar) ==> bar.buffers == DrawnAll(items, IconSize(bar.height, pad))
  }

  ghost predicate AddressesDiffer(items: seq<Item>) {
    forall i, j :: 0 <= i < j < |items| ==> items[i].address != items[j].address
  }

  ghost predicate Inv(t: Tray) {
    && AddressesDiffer(t.items)
    && forall k :: 0 <= k < |t.bars| ==> BarRight(t.bars[k], t.items, t.pad)
  }

  /** The same item, or another generation of it. */
  ghost predicate Follows(was: seq<Item>, items: seq<Item>) {
    forall i :: 0 <= i < |was| && i < |items| && was[i].address == items[i].address ==>
      was[i].gen != items[i].gen || was[i] == items[i]
  }

  /** Old buffers stay honest when every old item that is still where it was is unchanged, or has
      another generation. */
  lemma DrawnHonest(was: seq<Item>, items: seq<Item>, size: int, size': int)
    requires Follows(was, items)
    ensures Honest(DrawnAll(was, size), items, size')
  {
  }

  lemma LayoutRight(bar: Bar, was: seq<Item>, items: seq<Item>, pad: int, height: int)
    requires Follows(was, items) && (Sized(bar) ==> bar.buffers == DrawnAll(was, IconSize(height, pad)))
    ensures BarRight(LaidOut(bar, items, pad), items, pad)
  {
    var size := IconSize(bar.height, pad);
    DrawnHonest(was, items, IconSize(height, pad), size);
    RedrawExact(bar.buffers, items, size);
  }

  lemma RefreshRight(t: Tray, was: seq<Item>)
    requires AddressesDiffer(t.items) && Follows(was, t.items)
    requires forall k :: 0 <= k < |t.bars| ==> BarRight(t.bars[k], was, t.pad)
    ensures Inv(Refreshed(t))
  {
    forall k | 0 <= k < |t.bars|
      ensures BarRight(LaidOut(t.bars[k], t.items, t.pad), t.items, t.pad)
    {
      LayoutRight(t.bars[k], was, t.items, t.pad, t.bars[k].height);
    }
  }

  lemma {:induction false} FilterAddresses(items: seq<Item>, p: Item -> bool)
    requires AddressesDiffer(items)
    ensures AddressesDiffer(Filter(items, p))
  {
    if items != [] {
      var rest := Filter(items[1..], p);
      FilterAddresses(items[1..], p);
      forall x | x in rest
        ensures x.address != items[0].address
      {
        var i :| 0 <= i < |items[1..]| && items[1..][i] == x;
        assert items[i + 1] == x;
      }
    }
  }

  /** Items keep their identity: same address, same item. */
  lemma RestAreItems(items: seq<Item>, rest: seq<Item>)
    requires AddressesDiffer(items) && forall x | x in rest :: x in items
    ensures Follows(items, rest)
  {
    forall i | 0 <= i < |items| && i < |rest| && items[i].address == rest[i].address
      ensures items[i] == rest[i]
    {
      assert rest[i] in items;
      var j :| 0 <= j < |items| && items[j] == rest[i];
      assert i == j;
    }
  }

  // ---- exactly when it is right ----

  /** A bar without a size gets one. */
  ghost predicate Regains(t: Tray, e: Event) {
    e.BarResized? && e.bar < |t.bars| && !Sized(t.bars[e.bar]) && e.width > 0 && e.depth > 0 && e.height > 0
  }

  /** No buffer that it kept is taken for a live item's: none, at the place of an item, has its
      address, its generation and the new size but another picture. */
  ghost predicate Clean(t: Tray, e: Event) {
    Regains(t, e) ==> Honest(t.bars[e.bar].buffers, t.items, IconSize(e.height, t.pad))
  }

  /** A resize keeps all bars right exactly when it does not give a size to a bar that kept such a
      buffer. */
  lemma ResizeExact(t: Tray, k: nat, width: int, depth: int, height: int)
    requires Inv(t) && k < |t.bars|
    ensures Inv(Resized(t, k, width, depth, height)) <==> Clean(t, BarResized(k, width, depth, height))
  {
    if width > 0 && depth > 0 {
      var bar, r := t.bars[k].(width := width, height := height), Resized(t, k, width, depth, height);
      if Sized(t.bars[k]) {
        LayoutRight(bar, t.items, t.items, t.pad, t.bars[k].height);
      } else {
        RedrawExact(bar.buffers, t.items, IconSize(height, t.pad));
      }
      assert r.bars[k] == LaidOut(bar, t.items, t.pad);
      assert forall j :: 0 <= j < |r.bars| && j != k ==> r.bars[j] == t.bars[j];
      assert Inv(r) <==> BarRight(r.bars[k], t.items, t.pad);
    }
  }

  /** No other step ever draws an old icon, whatever bars without a size have kept. */
  lemma StepExact(t: Tray, e: Event)
    requires Inv(t) && Possible(t, e)
    ensures Inv(Step(t, e)) <==> Clean(t, e)
  {
    match e
    case Registered(service, sender, address, _) =>
      var bus, path := BusOf(service, sender), PathOf(service);
      RefreshRight(t.(items := t.items + [Item(bus, path, address, 0, NO_ICON)]), t.items);
    case Unregistered(bus) =>
      var rest := Filter(t.items, OtherBus(bus));
      FilterAddresses(t.items, OtherBus(bus));
      RestAreItems(t.items, rest);
      RefreshRight(t.(items := rest), t.items);
    case IconArrived(i, icon) =>
      RefreshRight(t.(items := t.items[i := WithIcon(t.items[i], icon)]), t.items);
    case BarCreated(_) =>
    case BarDeleted(_) =>
    case BarResized(k, width, depth, height) => ResizeExact(t, k, width, depth, height);
    case BarDrawn(k) => LayoutRight(t.bars[k], t.items, t.items, t.pad, t.bars[k].height);
  }

  /** Every state of the run is right, the first and the last included. */
  ghost predicate AlwaysRight(t: Tray, es: seq<Event>)
    requires PossibleRun(t, es)
    decreases |es|
  {
    Inv(t) && (es == [] || AlwaysRight(Step(t, es[0]), es[1..]))
  }

  ghost predicate CleanRun(t: Tray, es: seq<Event>)
    requires PossibleRun(t, es)
    decreases |es|
  {
    es == [] || (Clean(t, es[0]) && CleanRun(Step(t, es[0]), es[1..]))
  }

  /** Whatever items come, change and go, and whichever addresses are used again: every bar that
      has a size always shows what drawing everything afresh would show, if and only if no bar that
      regains a size has kept a buffer that is taken for a live item's and shows another picture. */
  lemma {:induction false} CacheExact(t: Tray, es: seq<Event>)
    requires Inv(t) && PossibleRun(t, es)
    ensures AlwaysRight(t, es) <==> CleanRun(t, es)
    decreases |es|
  {
    if es != [] {
      StepExact(t, es[0]);
      if Clean(t, es[0]) {
        CacheExact(Step(t, es[0]), es[1..]);
      } else if es[1..] == [] {
        assert !AlwaysRight(Step(t, es[0]), es[1..]);
      }
    }
  }

  // ---- what makes a run clean ----

  /** The configured bar height is positive. */
  predicate Guarded(e: Event) {
    e.BarResized? ==> e.height > 0
  }

  /** No bar without a size holds a buffer. */
  ghost predicate NothingKept(t: Tray) {
    forall k :: 0 <= k < |t.bars| && !Sized(t.bars[k]) ==> t.bars[k].buffers == []
  }

  lemma StepKeeps(t: Tray, e: Event)
    requires Inv(t) && NothingKept(t) && Possible(t, e) && Guarded(e)
    ensures Inv(Step(t, e)) && NothingKept(Step(t, e))
  {
    StepExact(t, e);
  }

  /** While the configured height is positive, every bar that has a size shows what drawing
      everything afresh would show. */
  lemma {:induction false} CacheRefinesRedrawAll(t: Tray, es: seq<Event>)
    requires Inv(t) && NothingKept(t) && PossibleRun(t, es) && forall e | e in es :: Guarded(e)
    ensures Inv(Run(t, es)) && NothingKept(Run(t, es))
    decreases |es|
  {
    if es != [] {
      assert forall e | e in es[1..] :: e in es;
      assert es[0] in es;
      StepKeeps(t, es[0]);
      CacheRefinesRedrawAll(Step(t, es[0]), es[1..]);
    }
  }

  /** Every kept buffer is honest at its own size. */
  ghost predicate OwnHonest(buffers: seq<Buffer>, items: seq<Item>) {
    forall i :: 0 <= i < |buffers| && i < |items| ==> Truthful(buffers[i], items[i])
  }

  predicate Truthful(b: Buffer, item: Item) {
    UpToDate(b, item, b.size) ==> b.picture == Drawing(item.icon, b.size)
  }

  /** With such buffers, and with no others, a bar may regain any height. */
  lemma OwnHonestIs(buffers: seq<Buffer>, items: seq<Item>)
    ensures OwnHonest(buffers, items) <==> forall size :: Honest(buffers, items, size)
  {
    if forall size :: Honest(buffers, items, size) {
      forall i | 0 <= i < |buffers| && i < |items|
        ensures Truthful(buffers[i], items[i])
      {
        assert Honest(buffers, items, buffers[i].size);
      }
    }
  }

  /** What the steps that change the items do to the buffers that a bar without a size has kept: a new
      item, or a new icon, spoils them exactly when the buffer at its place was drawn from an item at
      the same address with the same generation and shows another picture. */
  lemma KeptAfterNewItem(buffers: seq<Buffer>, items: seq<Item>, item: Item)
    ensures OwnHonest(buffers, items + [item])
            <==> OwnHonest(buffers, items) && (|items| < |buffers| ==> Truthful(buffers[|items|], item))
  {
    var all := items + [item];
    assert forall i :: 0 <= i < |items| ==> all[i] == items[i];
    assert all[|items|] == item;
  }

  lemma KeptAfterNewIcon(buffers: seq<Buffer>, items: seq<Item>, i: nat, icon: Icon)
    requires OwnHonest(buffers, items) && i < |items|
    ensures OwnHonest(buffers, items[i := WithIcon(items[i], icon)])
            <==> (i < |buffers| ==> Truthful(buffers[i], WithIcon(items[i], icon)))
  {
    var all := items[i := WithIcon(items[i], icon)];
    assert forall j :: 0 <= j < |items| && j != i ==> all[j] == items[j];
    assert all[i] == WithIcon(items[i], icon);
  }

  /** Each kept buffer belongs to the item that is at its place, is no newer than it, and shows its
      icon if it is as new. */
  ghost predicate InStep(bar: Bar, items: seq<Item>) {
    && |bar.buffers| <= |items|
    && forall i :: 0 <= i < |bar.buffers| ==> InStepAt(bar.buffers[i], items[i])
  }

  ghost predicate InStepAt(b: Buffer, item: Item) {
    && b.item == Some(item.address) && b.gen <= item.gen
    && (b.gen == item.gen ==> b.picture == Drawing(item.icon, b.size))
  }

  ghost predicate AllInStep(t: Tray) {
    forall k :: 0 <= k < |t.bars| ==> InStep(t.bars[k], t.items)
  }

  /** No item goes while a bar without a size holds buffers, and no generation starts again. */
  ghost predicate Patient(t: Tray, e: Event) {
    && (e.Unregistered? ==> NothingKept(t))
    && (e.IconArrived? && e.item < |t.items| ==> t.items[e.item].gen + 1 < GENERATIONS)
  }

  lemma DrawnInStep(items: seq<Item>, bar: Bar, pad: int)
    requires BarRight(bar, items, pad) && (!Sized(bar) ==> InStep(bar, items))
    ensures InStep(bar, items)
  {
  }

  lemma InStepHonest(bar: Bar, items: seq<Item>, size: int)
    requires InStep(bar, items)
    ensures Honest(bar.buffers, items, size)
  {
  }

  /** Kept buffers stay in step with items that stay where they are and only get newer. */
  lemma RefreshInStep(t: Tray, r: Tray, was: seq<Item>)
    requires Inv(r) && r == Refreshed(t) && forall k :: 0 <= k < |t.bars| ==> InStep(t.bars[k], was)
    requires |was| <= |t.items|
    requires forall i :: 0 <= i < |was| ==>
      was[i].address == t.items[i].address && (was[i].gen < t.items[i].gen || was[i] == t.items[i])
    ensures AllInStep(r)
  {
    forall k | 0 <= k < |r.bars|
      ensures InStep(r.bars[k], r.items)
    {
      if !Sized(t.bars[k]) {
        assert r.bars[k] == t.bars[k];
      }
      DrawnInStep(r.items, r.bars[k], r.pad);
    }
  }

  lemma PatientStep(t: Tray, e: Event)
    requires Inv(t) && AllInStep(t) && Possible(t, e) && Patient(t, e)
    ensures Inv(Step(t, e)) && AllInStep(Step(t, e))
  {
    if e.BarResized? {
      InStepHonest(t.bars[e.bar], t.items, IconSize(e.height, t.pad));
    }
    StepExact(t, e);
    var r := Step(t, e);
    match e
    case Registered(service, sender, address, _) =>
      var bus, path := BusOf(service, sender), PathOf(service);
      if r != t {
        RefreshInStep(t.(items := t.items + [Item(bus, path, address, 0, NO_ICON)]), r, t.items);
      }
    case Unregistered(bus) =>
      forall k | 0 <= k < |r.bars|
        ensures InStep(r.bars[k], r.items)
      {
        DrawnInStep(r.items, r.bars[k], r.pad);
      }
    case IconArrived(i, icon) =>
      RefreshInStep(t.(items := t.items[i := WithIcon(t.items[i], icon)]), r, t.items);
    case BarCreated(_) =>
    case BarDeleted(_) =>
    case BarResized(k, _, _, _) => DrawnInStep(r.items, r.bars[k], r.pad);
    case BarDrawn(k) => DrawnInStep(r.items, r.bars[k], r.pad);
  }

  ghost predicate PatientRun(t: Tray, es: seq<Event>)
    requires PossibleRun(t, es)
    decreases |es|
  {
    es == [] || (Patient(t, es[0]) && PatientRun(Step(t, es[0]), es[1..]))
  }

  /** Bars may lose and regain their height, if no item goes in between: then too every bar that has
      a size shows what drawing everything afresh would show. */
  lemma {:induction false} HeightMayComeAndGo(t: Tray, es: seq<Event>)
    requires Inv(t) && AllInStep(t) && PossibleRun(t, es) && PatientRun(t, es)
    ensures Inv(Run(t, es))
    decreases |es|
  {
    if es != [] {
      PatientStep(t, es[0]);
      HeightMayComeAndGo(Step(t, es[0]), es[1..]);
    }
  }

  // ---- which items there are ----

  ghost predicate NamesDiffer(items: seq<Item>) {
    forall i, j :: 0 <= i < j < |items| ==> !Same(items[j], items[i].bus, items[i].path)
  }

  lemma {:induction false} FilterNames(items: seq<Item>, p: Item -> bool)
    requires NamesDiffer(items)
    ensures NamesDiffer(Filter(items, p))
  {
    if items != [] {
      var rest := Filter(items[1..], p);
      FilterNames(items[1..], p);
      forall x | x in rest
        ensures !Same(x, items[0].bus, items[0].path)
      {
        var i :| 0 <= i < |items[1..]| && items[1..][i] == x;
        assert items[i + 1] == x;
      }
    }
  }

  /** No item is ever listed twice. */
  lemma {:induction false} ItemsListedOnce(t: Tray, es: seq<Event>)
    requires NamesDiffer(t.items) && PossibleRun(t, es)
    ensures NamesDiffer(Run(t, es).items)
    decreases |es|
  {
    if es != [] {
      if es[0].Registered? {
        RegisterEffect(t, es[0].service, es[0].sender, es[0].address, es[0].proxied);
      } else if es[0].Unregistered? {
        FilterNames(t.items, OtherBus(es[0].bus));
      }
      ItemsListedOnce(Step(t, es[0]), es[1..]);
    }
  }

  /** Registering a named service leaves it listed once, after the others, if a proxy can be made. */
  lemma RegisterEffect(t: Tray, service: string, sender: string, address: nat, proxied: bool)
    requires NamesDiffer(t.items)
    ensures var r := Register(t, service, sender, address, proxied);
      && NamesDiffer(r.items) && |t.items| <= |r.items| <= |t.items| + 1 && r.items[..|t.items|] == t.items
      && (service != "" && proxied ==> Known(r.items, BusOf(service, sender), PathOf(service)))
  {
    var bus, path := BusOf(service, sender), PathOf(service);
    var r := Register(t, service, sender, address, proxied);
    if service != "" && !Known(t.items, bus, path) && proxied {
      assert Same(r.items[|t.items|], bus, path);
    }
  }

  /** What is listed is what the service said: an object path of the sender, or a bus name with the usual
      path. */
  lemma NamesAsSaid(t: Tray, service: string, sender: string, address: nat)
    requires Possible(t, Registered(service, sender, address, true))
    requires service != "" && !Known(t.items, BusOf(service, sender), PathOf(service))
    ensures var items := Step(t, Registered(service, sender, address, true)).items; var n := |t.items|;
      && |items| == n + 1 && items[..n] == t.items && items[n].address == address && items[n].icon == NO_ICON
      && (service[0] == '/' ==> items[n].bus == sender && items[n].path == service)
      && (service[0] != '/' ==> items[n].bus == service && items[n].path == "/StatusNotifierItem")
  {
  }

  /** A bus name that goes takes all its items and no others, which stay in order. */
  lemma {:induction false} UnregisterEffect(t: Tray, bus: string)
    ensures var r := Step(t, Unregistered(bus));
      && (forall item :: item in r.items <==> item in t.items && item.bus != bus)
      && multiset(r.items) <= multiset(t.items)
      && (forall item :: item in r.items ==> multiset(r.items)[item] == multiset(t.items)[item])
  {
    FilterCount(t.items, OtherBus(bus));
    var rest := Filter(t.items, OtherBus(bus));
    if |rest| == |t.items| {
      FilterShort(t.items, OtherBus(bus));
    }
  }

  lemma {:induction false} FilterShort(items: seq<Item>, p: Item -> bool)
    ensures |Filter(items, p)| <= |items|
    ensures |Filter(items, p)| == |items| ==> Filter(items, p) == items
  {
    if items != [] {
      FilterShort(items[1..], p);
    }
  }

  lemma {:induction false} FilterCount(items: seq<Item>, p: Item -> bool)
    ensures forall item :: multiset(Filter(items, p))[item] == if p(item) then multiset(items)[item] else 0
  {
    if items != [] {
      FilterCount(items[1..], p);
      assert items == [items[0]] + items[1..];
    }
  }

  /** A new icon replaces the old one of its item, under a generation of its own, and of no other. */
  lemma IconEffect(t: Tray, i: nat, icon: Icon)
    requires i < |t.items|
    ensures var r := Step(t, IconArrived(i, icon));
      && |r.items| == |t.items| && r.items[i].icon == icon && r.items[i].gen != t.items[i].gen
      && r.items[i] == t.items[i].(icon := icon, gen := r.items[i].gen)
      && (forall j :: 0 <= j < |t.items| && j != i ==> r.items[j] == t.items[j])
  {
  }

  /** A bar that is right shows each item, in order: its icon, if it has one and the bar is high enough for
      more than its margins, and a background otherwise. */
  lemma BarShows(bar: Bar, items: seq<Item>, pad: int, i: nat)
    requires BarRight(bar, items, pad) && Sized(bar) && i < |items|
    ensures |bar.buffers| == |items|
    ensures var size := IconSize(bar.height, pad); var icon := items[i].icon;
      bar.buffers[i].picture ==
        if |icon.pixels| > 0 && icon.w > 0 && icon.h > 0 && size > 4 then Painted(size, icon) else Background(size)
  {
  }

  /** A bar takes the width of its output and the configured height; an output without a box changes
      nothing, and no other bar changes. */
  lemma ResizeEffect(t: Tray, k: nat, width: int, depth: int, height: int)
    requires k < |t.bars|
    ensures var r := Step(t, BarResized(k, width, depth, height));
      && r.items == t.items && |r.bars| == |t.bars|
      && (forall j :: 0 <= j < |t.bars| && j != k ==> r.bars[j] == t.bars[j])
      && (width > 0 && depth > 0 ==> r.bars[k].width == width && r.bars[k].height == height)
      && (width <= 0 || depth <= 0 ==> r == t)
  {
  }

  /** A new bar comes last, without a size and without buffers; one that goes takes no other with it. */
  lemma BarEffect(t: Tray, height: int, k: nat)
    requires k < |t.bars|
    ensures var r := Step(t, BarCreated(height));
      && r == t.(bars := r.bars) && |r.bars| == |t.bars| + 1 && r.bars[..|t.bars|] == t.bars
      && r.bars[|t.bars|] == Bar(0, height, [])
    ensures var r := Step(t, BarDeleted(k));
      && r == t.(bars := r.bars) && |r.bars| == |t.bars| - 1
      && r.bars[..k] == t.bars[..k] && r.bars[k..] == t.bars[k + 1..]
  {
  }

  /** A service that came and went leaves the list as it was. */
  lemma RegisterUndone(t: Tray, service: string, sender: string, address: nat)
    requires service != "" && forall item | item in t.items :: item.bus != BusOf(service, sender)
    ensures Unregister(Register(t, service, sender, address, true), BusOf(service, sender)).items == t.items
  {
    var bus, path := BusOf(service, sender), PathOf(service);
    var item := Item(bus, path, address, 0, NO_ICON);
    assert !Known(t.items, bus, path);
    FilterAppend(t.items, [item], OtherBus(bus));
    FilterAll(t.items, OtherBus(bus));
    assert Filter([item], OtherBus(bus)) == [];
  }

  // ---- what happens when a bar loses its height ----

  const ONE := Icon(1, 1, [Pixel(255, 1, 1, 1)])
  const TWO := Icon(1, 1, [Pixel(255, 2, 2, 2)])

  /** A tray of one item with its icon, on a bar 100 pixels wide and `height` pixels high that shows
      the first icon. */
  function Showing(bus: string, icon: Icon, height: int): Tray {
    Tray([Item(bus, DEFAULT_PATH, 0, 1, icon)], [Bar(100, height, [Buffer(Some(0), 1, 30, Painted(30, ONE))])], 0)
  }

  /** A bar is made, an item comes with its icon, and the bar gets its size. */
  const SHOW: seq<Event> := [BarCreated(30), Registered("a", "", 0, true), IconArrived(0, ONE),
                             BarResized(0, 100, 60, 30)]

  /** The bar is made zero pixels high, its item is replaced by another one at the same address,
      and the bar gets its height back. */
  const SHRINK: seq<Event> := [BarResized(0, 100, 60, 0), Unregistered("a"), Registered("b", "", 0, true),
                               IconArrived(0, TWO), BarResized(0, 100, 60, 30)]

  lemma ShowSteps()
    ensures PossibleRun(Tray([], [], 0), SHOW) && Run(Tray([], [], 0), SHOW) == Showing("a", ONE, 30)
  {
    var t0 := Tray([], [], 0);
    var bar := Bar(0, 30, []);
    var a := Item("a", DEFAULT_PATH, 0, 0, NO_ICON);
    var t1 := Step(t0, SHOW[0]);
    assert t1 == Tray([], [bar], 0);
    var t2 := Step(t1, SHOW[1]);
    assert t2 == Tray([a], [bar], 0);
    var t3 := Step(t2, SHOW[2]);
    assert t3 == Tray([WithIcon(a, ONE)], [bar], 0);
    var t4 := Step(t3, SHOW[3]);
    assert t4.bars[0].buffers == [Buffer(Some(0), 1, 30, Painted(30, ONE))];
    assert t4 == Showing("a", ONE, 30);
    RunCons(t3, SHOW[3], []);
    RunCons(t2, SHOW[2], [SHOW[3]]);
    RunCons(t1, SHOW[1], [SHOW[2], SHOW[3]]);
    RunCons(t0, SHOW[0], [SHOW[1], SHOW[2], SHOW[3]]);
  }

  lemma ShrinkSteps()
    ensures PossibleRun(Showing("a", ONE, 30), SHRINK) && Run(Showing("a", ONE, 30), SHRINK) == Showing("b", TWO, 30)
  {
    var t0, low := Showing("a", ONE, 30), Showing("a", ONE, 0);
    var b := Item("b", DEFAULT_PATH, 0, 0, NO_ICON);
    assert Step(t0, SHRINK[0]) == low;
    var t2 := Step(low, SHRINK[1]);
    assert t2 == low.(items := []) by {
      assert Filter(low.items, OtherBus("a")) == [];
    }
    var t3 := Step(t2, SHRINK[2]);
    assert t3 == low.(items := [b]);
    var t4 := Step(t3, SHRINK[3]);
    assert t4 == Showing("b", TWO, 0);
    var t5 := Step(t4, SHRINK[4]);
    assert t5.bars[0].buffers == t0.bars[0].buffers;
    assert t5 == Showing("b", TWO, 30);
    RunCons(t4, SHRINK[4], []);
    RunCons(t3, SHRINK[3], [SHRINK[4]]);
    RunCons(t2, SHRINK[2], [SHRINK[3], SHRINK[4]]);
    RunCons(low, SHRINK[1], [SHRINK[2], SHRINK[3], SHRINK[4]]);
    RunCons(t0, SHRINK[0], [SHRINK[1], SHRINK[2], SHRINK[3], SHRINK[4]]);
  }

  lemma RunCons(t: Tray, e: Event, es: seq<Event>)
    requires Possible(t, e) && PossibleRun(Step(t, e), es)
    ensures PossibleRun(t, [e] + es) && Run(t, [e] + es) == Run(Step(t, e), es)
  {
    assert ([e] + es)[1..] == es;
  }

  lemma {:induction false} RunAppend(t: Tray, a: seq<Event>, b: seq<Event>)
    requires PossibleRun(t, a) && PossibleRun(Run(t, a), b)
    ensures PossibleRun(t, a + b) && Run(t, a + b) == Run(Run(t, a), b)
    decreases |a|
  {
    if a == [] {
      assert a + b == b;
    } else {
      assert (a + b)[1..] == a[1..] + b;
      RunAppend(Step(t, a[0]), a[1..], b);
    }
  }

  /** From an empty tray: a height of zero or less leaves buffers behind that nobody keeps up to date,
      and a bar can show the icon of an item that is gone in place of a live one. */
  lemma StaleAfterShrinking()
    ensures var t := Tray([], [], 0); PossibleRun(t, SHOW + SHRINK) && Inv(t) && !Inv(Run(t, SHOW + SHRINK))
  {
    var t := Showing("b", TWO, 30);
    ShowSteps();
    ShrinkSteps();
    RunAppend(Tray([], [], 0), SHOW, SHRINK);
    assert t.bars[0].buffers[0].picture == Painted(30, ONE);
    assert DrawnAll(t.items, 30)[0].picture == Painted(30, TWO);
  }
}
