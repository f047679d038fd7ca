/** The middle of a taskbar: workspace indicators, then launchers and windows; and the hit tests
    that tell which of them is under the cursor. */
module TaskRow {
  import opened Arith
  import opened Lists
  import opened Views
  import opened Pins
  import opened Strip

  /** Pixels between the last workspace indicator and the first slot, beside the usual gap. */
  const SEPARATION := 6

  /** A slot as drawn: its window, if any, its launcher, if any, and its pixels in the bar. */
  datatype Cell = Cell(view: View?, pin: Option<nat>, x: int, w: int)

  /** The measures of a row: where it starts, the gap, and the widths of a launcher and a window. */
  datatype Row = Row(left: int, pad: int, side: int, wide: int)

  function SlotWidth(row: Row, s: Slot): int {
    if s.button.Some? then row.wide else row.side
  }

  ghost predicate Indexed(slots: seq<Slot>, n: nat) {
    forall k :: 0 <= k < |slots| && slots[k].button.Some? ==> slots[k].button.value < n
  }

  function CellFor(s: Slot, views: seq<View>, x: int, row: Row): Cell
    requires s.button.Some? ==> s.button.value < |views|
  {
    Cell(if s.button.Some? then views[s.button.value] else null, s.pin, x, SlotWidth(row, s))
  }

  /** Where a row ends: one gap past its last slot. */
  function End(slots: seq<Slot>, row: Row): int {
    if slots == [] then row.left
    else var n := |slots| - 1; End(slots[..n], row) + SlotWidth(row, slots[n]) + row.pad
  }

  /** The slots from left to right. */
  function Drawn(slots: seq<Slot>, views: seq<View>, row: Row): (cells: seq<Cell>)
    requires Indexed(slots, |views|)
    ensures |cells| == |slots|
  {
    if slots == [] then []
    else
      var n := |slots| - 1;
      Drawn(slots[..n], views, row) + [CellFor(slots[n], views, End(slots[..n], row), row)]
  }

  function Launchers(slots: seq<Slot>): (n: nat)
    ensures n <= |slots|
  {
    if slots == [] then 0
    else Launchers(slots[..|slots| - 1]) + if slots[|slots| - 1].button.None? then 1 else 0
  }

  function RowLeft(shown: nat, side: int, pad: int): int {
    pad + shown * (side + pad) + SEPARATION
  }

  /** The pixels left for the windows themselves, launchers and gaps taken off. */
  function Room(width: int, launchers: nat, windows: nat, side: int, pad: int): int {
    width - launchers * (side + pad) - windows * pad
  }

  /** The width of a window's button, of at most `cap` pixels and at least one. */
  function ButtonWidth(room: int, windows: nat, cap: int): int {
    if windows == 0 then 1
    else
      var w := TruncDiv(room, windows);
      var capped := if w > cap then cap else w;
      if capped < 1 then 1 else capped
  }

  /** The row that a bar shows; `limit` is where the indicators on the right begin. */
  function RowFor(slots: seq<Slot>, limit: int, shown: nat, side: int, pad: int, cap: int): Row {
    var left := RowLeft(shown, side, pad);
    var launchers := Launchers(slots);
    var windows := |slots| - launchers;
    Row(left, pad, side, ButtonWidth(Room(limit - pad - left, launchers, windows, side, pad), windows, cap))
  }

  predicate OnCell(c: Cell, local: int) {
    c.x <= local < c.x + c.w
  }

  /** The first cell that a pixel is on. */
  function CellUnder(cells: seq<Cell>, local: int, from: nat := 0): (r: Option<nat>)
    requires from <= |cells|
    ensures r.Some? ==> from <= r.value < |cells| && OnCell(cells[r.value], local)
    ensures forall k :: from <= k < (if r.Some? then r.value else |cells|) ==> !OnCell(cells[k], local)
    decreases |cells| - from
  {
    if from == |cells| then None
    else if OnCell(cells[from], local) then Some(from)
    else CellUnder(cells, local, from + 1)
  }

  // ---- the row and its drawing ----

  /** Slots are drawn in order, each one exactly `pad` pixels after the one before it. */
  lemma {:induction false} DrawnAt(slots: seq<Slot>, views: seq<View>, row: Row, k: nat)
    requires Indexed(slots, |views|) && k < |slots|
    ensures var c := Drawn(slots, views, row)[k];
      && c == CellFor(slots[k], views, End(slots[..k], row), row)
      && c.x + c.w + row.pad == End(slots[..k + 1], row)
    decreases |slots|
  {
    var n := |slots| - 1;
    assert slots[..k + 1][..k] == slots[..k];
    if k < n {
      DrawnAt(slots[..n], views, row, k);
      assert slots[..n][..k] == slots[..k] && slots[..n][..k + 1] == slots[..k + 1];
    }
  }

  lemma {:induction false} EndMonotone(slots: seq<Slot>, row: Row, i: nat, j: nat)
    requires i <= j <= |slots| && row.pad >= 0 && row.side >= 1 && row.wide >= 1
    ensures End(slots[..i], row) <= End(slots[..j], row)
    decreases j
  {
    if i < j {
      assert slots[..j][..j - 1] == slots[..j - 1];
      EndMonotone(slots, row, i, j - 1);
    }
  }

  /** Any two slots are disjoint, in order, with at least the gap between them. */
  lemma SlotsApart(slots: seq<Slot>, views: seq<View>, row: Row, i: nat, j: nat)
    requires Indexed(slots, |views|) && i < j < |slots|
    requires row.pad >= 0 && row.side >= 1 && row.wide >= 1
    ensures var cells := Drawn(slots, views, row); cells[i].x + cells[i].w + row.pad <= cells[j].x
  {
    DrawnAt(slots, views, row, i);
    DrawnAt(slots, views, row, j);
    EndMonotone(slots, row, i + 1, j);
  }

  lemma FirstSlot(slots: seq<Slot>, views: seq<View>, row: Row, i: nat)
    requires Indexed(slots, |views|) && i < |slots|
    requires row.pad >= 0 && row.side >= 1 && row.wide >= 1
    ensures var c := Drawn(slots, views, row)[i]; row.left <= c.x && c.w >= 1 && c.x + c.w + row.pad <= End(slots, row)
  {
    DrawnAt(slots, views, row, i);
    EndMonotone(slots, row, 0, i);
    EndMonotone(slots, row, i + 1, |slots|);
    assert slots[..|slots|] == slots;
  }

  /** The hit test inverts the drawing: it names slot `i` for its pixels and for no others. */
  lemma HitInvertsDrawing(slots: seq<Slot>, views: seq<View>, row: Row, local: int, i: nat)
    requires Indexed(slots, |views|) && i < |slots|
    requires row.pad >= 0 && row.side >= 1 && row.wide >= 1
    ensures var cells := Drawn(slots, views, row);
      CellUnder(cells, local) == Some(i) <==> OnCell(cells[i], local)
  {
    var cells := Drawn(slots, views, row);
    var r := CellUnder(cells, local);
    if OnCell(cells[i], local) && r.Some? && r.value < i {
      SlotsApart(slots, views, row, r.value, i);
    }
  }

  lemma {:induction false} EndIs(slots: seq<Slot>, row: Row)
    ensures var l := Launchers(slots);
      End(slots, row) == row.left + l * (row.side + row.pad) + (|slots| - l) * (row.wide + row.pad)
  {
    if slots != [] {
      var n := |slots| - 1;
      EndIs(slots[..n], row);
      var l := Launchers(slots[..n]);
      if slots[n].button.None? {
        assert (l + 1) * (row.side + row.pad) == l * (row.side + row.pad) + row.side + row.pad;
      } else {
        assert (n - l + 1) * (row.wide + row.pad) == (n - l) * (row.wide + row.pad) + row.wide + row.pad;
      }
    }
  }

  /** A common width for `windows` buttons fits in the room exactly when one pixel each does, and
      no greater width under the cap would. */
  lemma WidthFits(room: int, windows: nat, cap: int)
    requires windows > 0
    ensures var w := ButtonWidth(room, windows, cap);
      && w >= 1
      && (windows * w <= room <==> windows <= room)
      && (w < cap ==> room < windows * (w + 1))
      && (w <= cap || w == 1)
  {
    var w, q := ButtonWidth(room, windows, cap), TruncDiv(room, windows);
    if room >= windows {
      assert room == q * windows + room % windows;
      if q < 1 {
        Scale(q, 0, windows);
      }
      Scale(w, q, windows);
      if w < cap {
        assert w == q;
        assert windows * (w + 1) == q * windows + windows;
      }
    } else {
      TruncSmall(room, windows);
      assert w == 1;
    }
  }

  lemma TruncSmall(a: int, n: int)
    requires n > 0 && a < n
    ensures TruncDiv(a, n) <= 0
  {
    if a >= 0 {
      DivMod(a, 0, a, n);
    } else {
      var p := -a / n;
      assert -a == p * n + -a % n;
      if p < 0 {
        Scale(p, -1, n);
      }
    }
  }

  /** The row, its last gap included, ends a gap before the indicators on the right if and only if
      the launchers and one pixel for each window fit; and then the windows are as wide as the cap
      and the room allow. */
  lemma RowFits(slots: seq<Slot>, limit: int, shown: nat, side: int, pad: int, cap: int)
    ensures var row := RowFor(slots, limit, shown, side, pad, cap);
      var launchers := Launchers(slots);
      var windows := |slots| - launchers;
      && (End(slots, row) <= limit - pad <==> row.left + launchers * (side + pad) + windows * (1 + pad) <= limit - pad)
      && (windows > 0 && row.wide < cap ==> limit - pad < End(slots, row.(wide := row.wide + 1)))
  {
    var row := RowFor(slots, limit, shown, side, pad, cap);
    var launchers := Launchers(slots);
    var windows := |slots| - launchers;
    EndIs(slots, row);
    EndIs(slots, row.(wide := row.wide + 1));
    AddGap(windows, row.wide, pad);
    AddGap(windows, row.wide + 1, pad);
    AddGap(windows, 1, pad);
    if windows > 0 {
      WidthFits(Room(limit - pad - row.left, launchers, windows, side, pad), windows, cap);
    }
  }

  lemma AddGap(n: int, w: int, pad: int)
    ensures n * (w + pad) == n * w + n * pad
  {
  }

  lemma {:induction false} AllIndexed(pins: seq<string>, buttons: seq<Button>)
    ensures Indexed(AllSlots(pins, buttons), |buttons|)
  {
    var claimed := ClaimedBy(MatchPins(pins, buttons, {}));
    var slots := AllSlots(pins, buttons);
    MatchPinsFair(pins, buttons, {});
    RestAre(buttons, claimed, 0);
    forall k | 0 <= k < |slots| && slots[k].button.Some?
      ensures slots[k].button.value < |buttons|
    {
      if k >= |pins| {
        assert slots[k] == RestSlots(buttons, claimed, 0)[k - |pins|];
      }
    }
  }

  // ---- the bar ----

  datatype Config = Config(height: int, top: bool, pad: int, cap: int, pins: seq<string>, allWorkspaces: bool)

  datatype Area = Area(x: int, y: int, w: int, h: int)

  ghost predicate Live(cells: seq<Cell>, views: seq<View>) {
    forall k :: 0 <= k < |cells| && cells[k].view != null ==> cells[k].view in views
  }

  class Taskbar {
    var cfg: Config
    var x: int
    var y: int
    var width: int
    var height: int
    var side: int              // of a workspace indicator, as drawn last
    var buttons: seq<View>
    var cells: seq<Cell>

    /** A bar that has a size shows live buttons only. */
    ghost predicate Valid()
      reads this
    {
      width > 0 && height > 0 ==> Live(cells, buttons)
    }

    constructor (cfg: Config)
      ensures Valid() && buttons == [] && cells == [] && width == 0 && this.cfg == cfg
    {
      this.cfg := cfg;
      x, y, width, height, side := 0, 0, 0, cfg.height, 0;
      buttons, cells := [], [];
    }

    /** The buttons as the row sees them. */
    function Tasks(current: int): (r: seq<Button>)
      reads `buttons, `cfg, buttons
      ensures |r| == |buttons|
    {
      var views, all := buttons, cfg.allWorkspaces;
      seq(|views|, i reads views requires 0 <= i < |views| =>
        Button(views[i].app, all || views[i].pinned || views[i].workspace == current))
    }

    /** The cells are what a bar with these indicators shows on this workspace. */
    ghost predicate LaidOut(w: Widths, current: int, shown: nat)
      reads this, buttons
    {
      var slots := AllSlots(cfg.pins, Tasks(current));
      && side == IconSize(height, cfg.pad)
      && Indexed(slots, |buttons|)
      && cells == Drawn(slots, buttons, RowFor(slots, RightLimit(width, cfg.pad, w), shown, side, cfg.pad, cfg.cap))
    }

    /** At most nine workspaces are shown. */
    method Layout(w: Widths, current: int, shown: nat)
      requires shown <= 9
      modifies `side, `cells
      ensures Valid()
      ensures if width <= 0 || height <= 0 then cells == old(cells) && side == old(side) else LaidOut(w, current, shown)
    {
      if width <= 0 || height <= 0 {
        return;
      }
      side := height - 2 * cfg.pad;
      if side < 1 {
        side := 1;
      }
      AllIndexed(cfg.pins, Tasks(current));
      var slots := BuildSlots(cfg.pins, Tasks(current));
      var limit := RightLimit(width, cfg.pad, w);
      var _, cursor := DrawIndicators(shown);
      DrawRow(slots, cursor + SEPARATION, limit, shown);
      assert slots == AllSlots(cfg.pins, Tasks(current));
      ShownLive(slots, buttons, RowFor(slots, limit, shown, side, cfg.pad, cfg.cap));
    }

    /** The workspace indicators, from left to right; the rest of the nine are hidden. */
    method DrawIndicators(shown: nat) returns (xs: seq<int>, cursor: int)
      ensures |xs| == if shown < 9 then shown else 9
      ensures forall i :: 0 <= i < |xs| ==> xs[i] == IndicatorX(side, cfg.pad, i)
      ensures shown <= 9 ==> cursor == IndicatorX(side, cfg.pad, shown)
    {
      xs, cursor := [], cfg.pad;
      for i := 0 to 9
        invariant |xs| == (if shown < i then shown else i) && cursor == IndicatorX(side, cfg.pad, |xs|)
        invariant forall j :: 0 <= j < |xs| ==> xs[j] == IndicatorX(side, cfg.pad, j)
      {
        if i >= shown {
          continue;
        }
        xs := xs + [cursor];
        assert (i + 1) * (side + cfg.pad) == i * (side + cfg.pad) + side + cfg.pad;
        cursor := cursor + side + cfg.pad;
      }
    }

    method DrawRow(slots: seq<Slot>, left: int, limit: int, ghost shown: nat)
      requires Indexed(slots, |buttons|) && left == RowLeft(shown, side, cfg.pad)
      modifies `cells
      ensures cells == Drawn(slots, buttons, RowFor(slots, limit, shown, side, cfg.pad, cfg.cap))
    {
      var launchers := CountLaunchers(slots);
      var windows := |slots| - launchers;
      var wide := 1;
      if windows > 0 {
        wide := TruncDiv(limit - cfg.pad - left - launchers * (side + cfg.pad) - windows * cfg.pad, windows);
        if wide > cfg.cap {
          wide := cfg.cap;
        }
        if wide < 1 {
          wide := 1;
        }
      }
      var at := left;
      cells := [];
      ghost var row := Row(left, cfg.pad, side, wide);
      for k := 0 to |slots|
        invariant cells == Drawn(slots[..k], buttons, row) && at == End(slots[..k], row)
      {
        assert slots[..k + 1][..k] == slots[..k];
        var s := slots[k];
        if s.button.Some? {
          cells := cells + [Cell(buttons[s.button.value], s.pin, at, wide)];
          at := at + wide + cfg.pad;
        } else {
          cells := cells + [Cell(null, s.pin, at, side)];
          at := at + side + cfg.pad;
        }
      }
      assert slots[..|slots|] == slots;
    }

    method CountLaunchers(slots: seq<Slot>) returns (n: nat)
      ensures n == Launchers(slots)
    {
      n := 0;
      for k := 0 to |slots|
        invariant n == Launchers(slots[..k])
      {
        assert slots[..k + 1][..k] == slots[..k];
        if slots[k].button.None? {
          n := n + 1;
        }
      }
      assert slots[..|slots|] == slots;
    }

    method ViewAdded(v: View, w: Widths, current: int, shown: nat)
      requires shown <= 9
      modifies this
      ensures Valid() && buttons == old(buttons) + [v] && cfg == old(cfg)
      ensures width == old(width) && height == old(height)
      ensures width > 0 && height > 0 ==> LaidOut(w, current, shown)
    {
      buttons := buttons + [v];
      Layout(w, current, shown);
    }

    method ViewRemoved(v: View, w: Widths, current: int, shown: nat)
      requires shown <= 9
      requires Valid()
      modifies this
      ensures Valid() && buttons == Remove(old(buttons), v) && cfg == old(cfg)
      ensures width == old(width) && height == old(height)
      ensures width > 0 && height > 0 && v in old(buttons) ==> LaidOut(w, current, shown)
    {
      for i := 0 to |buttons|
        invariant v !in buttons[..i] && Valid()
        invariant buttons == old(buttons) && cfg == old(cfg) && width == old(width) && height == old(height)
      {
        if buttons[i] != v {
          continue;
        }
        RemoveAt(buttons, i);
        buttons := buttons[..i] + buttons[i + 1..];
        Layout(w, current, shown);
        return;
      }
    }

    /** `box` is the place of the bar's output in the layout; empty when it has none. */
    method UpdateGeometry(box: Area, cfg: Config, w: Widths, current: int, shown: nat)
      requires shown <= 9
      requires Valid()
      modifies this
      ensures Valid() && buttons == old(buttons) && this.cfg == cfg
      ensures box.w <= 0 || box.h <= 0 ==> width == old(width) && height == old(height) && cells == old(cells)
      ensures box.w > 0 && box.h > 0 ==>
        && x == box.x && width == box.w && height == cfg.height
        && y == (if cfg.top then box.y else box.y + box.h - cfg.height)
        && (height > 0 ==> LaidOut(w, current, shown))
    {
      this.cfg := cfg;
      if box.w <= 0 || box.h <= 0 {
        return;
      }
      x := box.x;
      width := box.w;
      height := cfg.height;
      y := if cfg.top then box.y else box.y + box.h - height;
      Layout(w, current, shown);
    }

    predicate OnBar(px: real, py: real)
      reads this
    {
      y as real <= py < (y + height) as real && x as real <= px < (x + width) as real
    }

    /** The slot at a point of the screen. */
    ghost function CellAt(px: real, py: real): (r: Option<nat>)
      reads this
      ensures r.Some? ==> r.value < |cells|
    {
      if OnBar(px, py) then CellUnder(cells, Toward(px - x as real)) else None
    }

    method ViewAt(px: real, py: real) returns (v: View?)
      requires Valid()
      ensures v == match CellAt(px, py) case None => null case Some(k) => cells[k].view
      ensures v != null ==> v in buttons
    {
      if cells == [] || width <= 0 || !OnBar(px, py) {
        return null;
      }
      var local := Toward(px - x as real);
      for k := 0 to |cells|
        invariant CellUnder(cells, local) == CellUnder(cells, local, k)
      {
        if OnCell(cells[k], local) {
          return cells[k].view;
        }
      }
      return null;
    }

    method PinAt(px: real, py: real) returns (pin: Option<nat>)
      ensures pin == match CellAt(px, py)
        case None => None
        case Some(k) => if cells[k].view == null then cells[k].pin else None
    {
      if cells == [] || width <= 0 || !OnBar(px, py) {
        return None;
      }
      var local := Toward(px - x as real);
      for k := 0 to |cells|
        invariant CellUnder(cells, local) == CellUnder(cells, local, k)
      {
        if OnCell(cells[k], local) {
          return if cells[k].view == null && cells[k].pin.Some? then cells[k].pin else None;
        }
      }
      return None;
    }

    /** The workspace indicator at a point of the screen, -1 for none; `shown` indicators are. */
    function WorkspaceAt(px: real, py: real, shown: nat): int
      reads this
    {
      if width <= 0 || !OnBar(px, py) then -1
      else
        var local := Toward(px - x as real);
        var w := if side > 0 then side else IconSize(height, cfg.pad);
        if w + cfg.pad <= 0 then -1
        else
          var idx := TruncDiv(local - cfg.pad, w + cfg.pad);
          if idx < 0 || idx >= shown then -1
          else if local - cfg.pad - idx * (w + cfg.pad) >= w then -1
          else idx
    }
  }

  lemma {:induction false} ShownLive(slots: seq<Slot>, views: seq<View>, row: Row)
    requires Indexed(slots, |views|)
    ensures Live(Drawn(slots, views, row), views)
  {
    if slots != [] {
      ShownLive(slots[..|slots| - 1], views, row);
    }
  }

  // ---- which window a slot shows ----

  /** A slot shows the window of its button, and none if it has none, and is the slot of its pin. */
  lemma CellShows(bar: Taskbar, w: Widths, current: int, shown: nat, k: nat)
    requires bar.LaidOut(w, current, shown) && k < |bar.cells|
    ensures var slots := AllSlots(bar.cfg.pins, bar.Tasks(current)); var c := bar.cells[k];
      && |slots| == |bar.cells| && c.pin == slots[k].pin
      && (slots[k].button.None? ==> c.view == null)
      && (slots[k].button.Some? ==>
            slots[k].button.value < |bar.buttons| && c.view == bar.buttons[slots[k].button.value])
  {
    var slots := AllSlots(bar.cfg.pins, bar.Tasks(current));
    DrawnAt(slots, bar.buttons,
            RowFor(slots, RightLimit(bar.width, bar.cfg.pad, w), shown, bar.side, bar.cfg.pad, bar.cfg.cap), k);
  }

  /** Whether the workspace filter lets a window through. */
  predicate Passes(cfg: Config, v: View, current: int)
    reads v
  {
    cfg.allWorkspaces || v.pinned || v.workspace == current
  }

  /** The slot of a pin shows a window of its application or none; any other slot shows a window that the
      filter lets through. */
  lemma PinShowsItsApp(bar: Taskbar, w: Widths, current: int, shown: nat, k: nat)
    requires bar.LaidOut(w, current, shown) && k < |bar.cells|
    ensures var c := bar.cells[k]; var pins := bar.cfg.pins;
      && (k < |pins| ==> c.pin == Some(k) && (c.view != null ==> c.view.app == Some(pins[k]) && c.view in bar.buttons))
      && (k >= |pins| ==> c.pin == None && c.view != null && c.view in bar.buttons && Passes(bar.cfg, c.view, current))
  {
    var pins, tasks := bar.cfg.pins, bar.Tasks(current);
    CellShows(bar, w, current, shown, k);
    SlotsInOrder(pins, tasks);
    MatchPinsFair(pins, tasks, {});
    var matches := MatchPins(pins, tasks, {});
    if k < |pins| {
      assert AllSlots(pins, tasks)[k] == Slot(matches[k], Some(k));
    } else {
      RestAre(tasks, ClaimedBy(matches), 0);
      assert AllSlots(pins, tasks)[k] == RestSlots(tasks, ClaimedBy(matches), 0)[k - |pins|];
      assert Rest(tasks, ClaimedBy(matches), 0, AllSlots(pins, tasks)[k]);
    }
  }

  /** A window has one slot at most. */
  lemma WindowShownOnce(bar: Taskbar, w: Widths, current: int, shown: nat, i: nat, j: nat)
    requires bar.LaidOut(w, current, shown) && Distinct(bar.buttons) && i < |bar.cells| && j < |bar.cells|
    requires bar.cells[i].view != null && bar.cells[i].view == bar.cells[j].view
    ensures i == j
  {
    var slots := AllSlots(bar.cfg.pins, bar.Tasks(current));
    CellShows(bar, w, current, shown, i);
    CellShows(bar, w, current, shown, j);
    SlotsUnique(bar.cfg.pins, bar.Tasks(current), slots[i].button.value, i, j);
  }

  /** A window that the filter lets through, a pinned one on every workspace, has a slot; and a window has
      one only if it passes or its application is pinned to the bar. */
  lemma WindowShown(bar: Taskbar, w: Widths, current: int, shown: nat, b: nat)
    requires bar.LaidOut(w, current, shown) && Distinct(bar.buttons) && b < |bar.buttons|
    ensures var v := bar.buttons[b];
      && (Passes(bar.cfg, v, current) ==> exists k :: 0 <= k < |bar.cells| && bar.cells[k].view == v)
      && ((exists k :: 0 <= k < |bar.cells| && bar.cells[k].view == v) ==>
            Passes(bar.cfg, v, current) || exists p :: 0 <= p < |bar.cfg.pins| && v.app == Some(bar.cfg.pins[p]))
  {
    var v := bar.buttons[b];
    var slots := AllSlots(bar.cfg.pins, bar.Tasks(current));
    SlotsComplete(bar.cfg.pins, bar.Tasks(current), b);
    if Passes(bar.cfg, v, current) {
      var k :| Shows(slots, k, b);
      CellShows(bar, w, current, shown, k);
    }
    if k :| 0 <= k < |bar.cells| && bar.cells[k].view == v {
      PinShowsItsApp(bar, w, current, shown, k);
    }
  }

  /** The windows without a pin are shown in the order of their buttons. */
  lemma OwnSlotsInOrder(bar: Taskbar, w: Widths, current: int, shown: nat, i: nat, j: nat)
    requires bar.LaidOut(w, current, shown) && |bar.cfg.pins| <= i < j < |bar.cells|
    ensures exists a, b ::
      0 <= a < b < |bar.buttons| && bar.cells[i].view == bar.buttons[a] && bar.cells[j].view == bar.buttons[b]
  {
    var pins, tasks := bar.cfg.pins, bar.Tasks(current);
    var claimed := ClaimedBy(MatchPins(pins, tasks, {}));
    var slots, rest := AllSlots(pins, tasks), RestSlots(tasks, claimed, 0);
    CellShows(bar, w, current, shown, i);
    CellShows(bar, w, current, shown, j);
    RestAre(tasks, claimed, 0);
    assert slots[i] == rest[i - |pins|] && slots[j] == rest[j - |pins|];
  }

  /** A click on the slot of pin `p` finds a window of the application pinned there, or none, and then the
      launcher of that pin; a click on any other slot finds a window. */
  lemma ClickFindsWindow(bar: Taskbar, w: Widths, current: int, shown: nat, px: real, py: real)
    requires bar.LaidOut(w, current, shown) && bar.CellAt(px, py).Some?
    ensures var c := bar.cells[bar.CellAt(px, py).value];
      && (c.pin.Some? ==>
            c.pin.value < |bar.cfg.pins| && (c.view != null ==> c.view.app == Some(bar.cfg.pins[c.pin.value])))
      && (c.pin.None? ==> c.view != null && Passes(bar.cfg, c.view, current))
  {
    PinShowsItsApp(bar, w, current, shown, bar.CellAt(px, py).value);
  }

  /** The first slot starts six pixels and a gap past the last workspace indicator. */
  lemma RowStarts(bar: Taskbar, w: Widths, current: int, shown: nat)
    requires bar.LaidOut(w, current, shown) && bar.cells != [] && shown > 0
    ensures bar.cells[0].x == IndicatorX(bar.side, bar.cfg.pad, shown - 1) + bar.side + bar.cfg.pad + 6
  {
    var slots := AllSlots(bar.cfg.pins, bar.Tasks(current));
    DrawnAt(slots, bar.buttons,
            RowFor(slots, RightLimit(bar.width, bar.cfg.pad, w), shown, bar.side, bar.cfg.pad, bar.cfg.cap), 0);
    assert slots[..0] == [];
    var n := bar.side + bar.cfg.pad;
    assert shown * n == (shown - 1) * n + n;
  }

  // ---- the hit tests invert the drawing ----

  /** For every point of the screen: the slot found is number `k` if and only if the point is on
      the bar and, horizontally, on slot `k` as drawn. */
  lemma ClickFindsSlot(bar: Taskbar, w: Widths, current: int, shown: nat, px: real, py: real, k: nat)
    requires bar.LaidOut(w, current, shown) && bar.cfg.pad >= 0 && k < |bar.cells|
    ensures var c := bar.cells[k];
      bar.CellAt(px, py) == Some(k)
      <==> && bar.y as real <= py < (bar.y + bar.height) as real
           && bar.x as real <= px < (bar.x + bar.width) as real
           && (bar.x + c.x) as real <= px < (bar.x + c.x + c.w) as real
  {
    var slots := AllSlots(bar.cfg.pins, bar.Tasks(current));
    var row := RowFor(slots, RightLimit(bar.width, bar.cfg.pad, w), shown, bar.side, bar.cfg.pad, bar.cfg.cap);
    var c := bar.cells[k];
    HitInvertsDrawing(slots, bar.buttons, row, Toward(px - bar.x as real), k);
    FirstSlot(slots, bar.buttons, row, k);
    LeftPositive(shown, bar.side, bar.cfg.pad);
    TowardWithin(px - bar.x as real, c.x, c.x + c.w);
  }

  lemma LeftPositive(shown: nat, side: int, pad: int)
    requires side >= 1 && pad >= 0
    ensures RowLeft(shown, side, pad) >= pad + SEPARATION
  {
    Scale(0, shown, side + pad);
  }

  lemma TruncIs(a: int, n: int, i: nat)
    requires n > 0 && a > -n
    ensures TruncDiv(a, n) == i <==> (i * n <= a < i * n + n || (i == 0 && a < 0))
  {
    if a < 0 {
      DivMod(-a, 0, -a, n);
      Scale(0, i, n);
    } else {
      if i * n <= a < i * n + n {
        DivMod(a, i, a - i * n, n);
      }
      assert a == a / n * n + a % n;
    }
  }

  /** Where workspace indicator `i` is drawn. */
  function IndicatorX(side: int, pad: int, i: nat): int {
    pad + i * (side + pad)
  }

  /** For every point of the screen: the bar reports workspace `i` if and only if the point is on
      indicator `i` as drawn, or in the margin left of the first one; the whole height of the bar counts. */
  lemma WorkspaceAtInvertsDrawing(bar: Taskbar, shown: nat, px: real, py: real, i: nat)
    requires bar.side >= 1 && bar.cfg.pad >= 0
    ensures var left := bar.x + IndicatorX(bar.side, bar.cfg.pad, i);
      bar.WorkspaceAt(px, py, shown) == i
      <==> && i < shown && bar.y as real <= py < (bar.y + bar.height) as real
           && bar.x as real <= px < (bar.x + bar.width) as real
           && (left as real <= px < (left + bar.side) as real || (i == 0 && px < (bar.x + bar.cfg.pad) as real))
  {
    if bar.OnBar(px, py) {
      var pad, side, n := bar.cfg.pad, bar.side, bar.side + bar.cfg.pad;
      var r := px - bar.x as real;
      var local := Toward(r);
      assert local >= 0;
      TruncIs(local - pad, n, i);
      var a := i * n;
      Scale(0, i, n);
      TowardWithin(r, pad + a, pad + a + side);
      if pad > 0 {
        TowardWithin(r, 0, pad);
      }
    }
  }

  /** The indicators end left of the row. */
  lemma IndicatorsLeftOfRow(side: int, pad: int, i: nat, shown: nat)
    requires i < shown && side >= 1 && pad >= 0
    ensures IndicatorX(side, pad, i) + side + pad + SEPARATION <= RowLeft(shown, side, pad)
    ensures pad <= IndicatorX(side, pad, i)
  {
    var n := side + pad;
    Scale(i + 1, shown, n);
    Scale(0, i, n);
    assert (i + 1) * n == i * n + n;
  }

  /** No point is on a workspace indicator and on a slot at once. */
  lemma ClickIsUnambiguous(bar: Taskbar, w: Widths, current: int, shown: nat, px: real, py: real)
    requires bar.LaidOut(w, current, shown) && bar.cfg.pad >= 0
    ensures bar.WorkspaceAt(px, py, shown) == -1 || bar.CellAt(px, py) == None
  {
    var i := bar.WorkspaceAt(px, py, shown);
    var r := bar.CellAt(px, py);
    if i != -1 && r.Some? {
      var slots := AllSlots(bar.cfg.pins, bar.Tasks(current));
      var row := RowFor(slots, RightLimit(bar.width, bar.cfg.pad, w), shown, bar.side, bar.cfg.pad, bar.cfg.cap);
      FirstSlot(slots, bar.buttons, row, r.value);
      WorkspaceAtInvertsDrawing(bar, shown, px, py, i);
      ClickFindsSlot(bar, w, current, shown, px, py, r.value);
      IndicatorsLeftOfRow(bar.side, bar.cfg.pad, i, shown);
    }
  }

  /** When one pixel for each window fits, the row keeps clear of every indicator on the right. */
  lemma SlotsClearOfIndicators(bar: Taskbar, w: Widths, p: Placement, current: int, shown: nat, k: nat, j: nat)
    requires bar.LaidOut(w, current, shown) && bar.cfg.pad >= 0 && k < |bar.cells|
    requires LinedUp(bar.x, bar.width, bar.cfg.pad, w, p) && w.clock > 0 && w.layout > 0 && w.tray >= 0
    requires 0 < j < |Parts(w)|
    requires var slots := AllSlots(bar.cfg.pins, bar.Tasks(current));
      End(slots, RowFor(slots, RightLimit(bar.width, bar.cfg.pad, w), shown, bar.side, bar.cfg.pad, bar.cfg.cap))
      <= RightLimit(bar.width, bar.cfg.pad, w) - bar.cfg.pad
    ensures |Positions(w, p)| == |Parts(w)|
    ensures bar.x + bar.cells[k].x + bar.cells[k].w + 2 * bar.cfg.pad + w.tray <= Positions(w, p)[j]
  {
    var slots := AllSlots(bar.cfg.pins, bar.Tasks(current));
    var row := RowFor(slots, RightLimit(bar.width, bar.cfg.pad, w), shown, bar.side, bar.cfg.pad, bar.cfg.cap);
    FirstSlot(slots, bar.buttons, row, k);
    StripLaysOut(bar.x, bar.width, bar.cfg.pad, w, p, 0, j);
  }

  /** The row that this bar shows. */
  ghost function RowOf(bar: Taskbar, w: Widths, current: int, shown: nat): Row
    reads bar, bar.buttons
  {
    RowFor(AllSlots(bar.cfg.pins, bar.Tasks(current)), RightLimit(bar.width, bar.cfg.pad, w), shown, bar.side,
           bar.cfg.pad, bar.cfg.cap)
  }

  /** The indicators on the right are those of this bar, drawn in this pass, and the row fits. */
  ghost predicate FitsWith(bar: Taskbar, t: Indicators, current: int, shown: nat)
    reads bar, bar.buttons, t
  {
    && t.barX == bar.x && t.width == bar.width && t.height == bar.height && t.pad == bar.cfg.pad >= 0
    && LinedUp(t.barX, t.width, t.pad, t.Drawn(), t.Places()) && t.trayTotal >= 0
    && (t.trayTotal > 0 ==> t.trayX == t.barX + RightLimit(t.width, t.pad, t.Drawn().(tray := 0)) - t.trayTotal)
    && bar.LaidOut(t.Drawn(), current, shown)
    && End(AllSlots(bar.cfg.pins, bar.Tasks(current)), RowOf(bar, t.Drawn(), current, shown))
       <= RightLimit(bar.width, bar.cfg.pad, t.Drawn()) - bar.cfg.pad
  }

  /** Where the row of this bar has to end, on the screen. */
  ghost function LimitX(t: Indicators): int
    reads t
  {
    t.barX + RightLimit(t.width, t.pad, t.Drawn())
  }

  /** A point `gap` pixels left of where the row has to end hits nothing on the right, except that
      without a gap the tray also answers for the last fraction of a pixel. */
  lemma LeftOfLimit(t: Indicators, px: real, py: real, barY: int, n: nat, gap: int)
    requires t.pad >= 0 && t.trayTotal >= 0 && LinedUp(t.barX, t.width, t.pad, t.Drawn(), t.Places())
    requires t.trayTotal > 0 ==> t.trayX == t.barX + RightLimit(t.width, t.pad, t.Drawn().(tray := 0)) - t.trayTotal
    requires gap >= 0 && px + gap as real < LimitX(t) as real
    ensures !t.IdleAt(px, py, barY) && !t.VolumeAt(px, py, barY) && !t.BrightnessAt(px, py, barY)
    ensures t.TrayAt(px, py, barY, n) != -1 ==> gap == 0 && t.trayX as real - 1.0 < px < t.trayX as real
  {
    var w := t.Drawn();
    RightLimitIs(t.width, t.pad, w.(tray := 0));
    RightLimitIs(t.width, t.pad, w.(idle := 0, tray := 0));
    RightLimitIs(t.width, t.pad, w.(volume := 0, idle := 0, tray := 0));
  }

  /** When the row fits, one click has one answer over the whole bar: a point on a slot or a workspace
      indicator hits nothing on the right; except that with paddings of zero a slot may touch the tray,
      which also answers for the last fraction of a pixel of the slot. */
  lemma ClickHasOneAnswer(bar: Taskbar, t: Indicators, current: int, shown: nat, px: real, py: real, barY: int, n: nat)
    requires FitsWith(bar, t, current, shown)
    requires bar.CellAt(px, py).Some? || bar.WorkspaceAt(px, py, shown) != -1
    ensures !t.IdleAt(px, py, barY) && !t.VolumeAt(px, py, barY) && !t.BrightnessAt(px, py, barY)
    ensures t.TrayAt(px, py, barY, n) != -1 ==>
      bar.CellAt(px, py).Some? && bar.cfg.pad == 0 && t.trayX as real - 1.0 < px < t.trayX as real
  {
    if bar.WorkspaceAt(px, py, shown) == -1 {
      SlotEnds(bar, t, current, shown, px, py);
      LeftOfLimit(t, px, py, barY, n, 2 * bar.cfg.pad);
    } else {
      IndicatorEnds(bar, t, current, shown, px, py);
      LeftOfLimit(t, px, py, barY, n, SEPARATION);
    }
  }

  lemma SlotEnds(bar: Taskbar, t: Indicators, current: int, shown: nat, px: real, py: real)
    requires FitsWith(bar, t, current, shown) && bar.CellAt(px, py).Some?
    ensures px + (2 * bar.cfg.pad) as real < LimitX(t) as real
  {
    var k := bar.CellAt(px, py).value;
    CellEnds(bar, t, current, shown, k);
    ClickFindsSlot(bar, t.Drawn(), current, shown, px, py, k);
    Gap(px, bar.x + bar.cells[k].x + bar.cells[k].w, 2 * bar.cfg.pad, LimitX(t));
  }

  lemma Gap(x: real, n: int, gap: int, limit: int)
    requires x < n as real && n + gap <= limit
    ensures x + gap as real < limit as real
  {
  }

  lemma CellEnds(bar: Taskbar, t: Indicators, current: int, shown: nat, k: nat)
    requires FitsWith(bar, t, current, shown) && k < |bar.cells|
    ensures bar.x + bar.cells[k].x + bar.cells[k].w + 2 * bar.cfg.pad <= LimitX(t)
  {
    FirstSlot(AllSlots(bar.cfg.pins, bar.Tasks(current)), bar.buttons, RowOf(bar, t.Drawn(), current, shown), k);
  }

  lemma IndicatorEnds(bar: Taskbar, t: Indicators, current: int, shown: nat, px: real, py: real)
    requires FitsWith(bar, t, current, shown) && bar.WorkspaceAt(px, py, shown) != -1
    ensures px + SEPARATION as real < LimitX(t) as real
  {
    var i := bar.WorkspaceAt(px, py, shown);
    var slots := AllSlots(bar.cfg.pins, bar.Tasks(current));
    WorkspaceAtInvertsDrawing(bar, shown, px, py, i);
    IndicatorsLeftOfRow(bar.side, bar.cfg.pad, i, shown);
    EndMonotone(slots, RowOf(bar, t.Drawn(), current, shown), 0, |slots|);
    assert slots[..|slots|] == slots && slots[..0] == [];
  }

  /** A narrow output, two workspaces and two pins without windows: the launchers run into the
      clock, which starts 58 pixels from the right end. */
  lemma LaunchersOverrun()
    ensures var pad, side, width := 2, 26, 160;
      var w := Widths(56, 20, 0, 0, 0, 0, 0);
      var slots := AllSlots(["a", "b"], []);
      var row := RowFor(slots, RightLimit(width, pad, w), 2, side, pad, 100);
      && side == IconSize(30, pad) && Indexed(slots, 0) && |slots| == 2
      && Drawn(slots, [], row)[1].x + Drawn(slots, [], row)[1].w > Start(width, pad, [w.clock])
  {
    var w := Widths(56, 20, 0, 0, 0, 0, 0);
    var slots := AllSlots(["a", "b"], []);
    assert ["a", "b"][1..] == ["b"] && ["b"][1..] == [];
    assert MatchPins(["a", "b"], [], {}) == [None, None];
    assert slots == [Slot(None, Some(0)), Slot(None, Some(1))];
    var row := RowFor(slots, RightLimit(160, 2, w), 2, 26, 2, 100);
    assert slots[..1] == [Slot(None, Some(0))] && slots[..1][..0] == [];
    assert row.left == 64;
    assert End(slots[..1], row) == 92;
    DrawnAt(slots, [], row, 1);
    StartTwo(160, 2, 56, 0);
  }
}
