/** The right end of a taskbar: clock, keyboard layout, battery, brightness, volume and idle
    indicators and the tray. Seven functions each compute their own position. */
module Strip {
  import opened Arith
  import opened Lists

  /** The widths drawn last; zero means that the indicator is absent. */
  datatype Widths = Widths(clock: int, layout: int, battery: int, brightness: int, volume: int, idle: int, tray: int)

  function IfShown(w: int): seq<int> {
    if w > 0 then [w] else []
  }

  /** The indicators that are shown, from right to left, the tray excepted. */
  function Parts(w: Widths): seq<int> {
    [w.clock, w.layout] + IfShown(w.battery) + IfShown(w.brightness) + IfShown(w.volume) + IfShown(w.idle)
  }

  /** Where the last of `parts` starts when they are lined up from the right end. */
  function Start(width: int, pad: int, parts: seq<int>): int {
    if parts == [] then width
    else Start(width, pad, parts[..|parts| - 1]) - parts[|parts| - 1] - pad
  }

  lemma StartSnoc(width: int, pad: int, parts: seq<int>, w: int)
    ensures Start(width, pad, parts + [w]) == Start(width, pad, parts) - w - pad
    ensures Start(width, pad, parts + IfShown(w)) == Start(width, pad, parts) - if w > 0 then w + pad else 0
  {
    assert (parts + [w])[..|parts|] == parts;
    assert parts + [] == parts;
  }

  /** Where the task row has to end, as the row computes it. */
  function RightLimit(width: int, pad: int, w: Widths): int {
    var r0 := width - w.clock - pad - w.layout - pad;
    var r1 := if w.battery > 0 then r0 - (w.battery + pad) else r0;
    var r2 := if w.brightness > 0 then r1 - (w.brightness + pad) else r1;
    var r3 := if w.volume > 0 then r2 - (w.volume + pad) else r2;
    var r4 := if w.idle > 0 then r3 - (w.idle + pad) else r3;
    if w.tray > 0 then r4 - w.tray else r4
  }

  lemma RightLimitIs(width: int, pad: int, w: Widths)
    ensures RightLimit(width, pad, w) == Start(width, pad, Parts(w)) - if w.tray > 0 then w.tray else 0
  {
    var p := [w.clock, w.layout];
    StartTwo(width, pad, w.clock, w.layout);
    StartSnoc(width, pad, p, w.battery);
    StartSnoc(width, pad, p + IfShown(w.battery), w.brightness);
    StartSnoc(width, pad, p + IfShown(w.battery) + IfShown(w.brightness), w.volume);
    StartSnoc(width, pad, p + IfShown(w.battery) + IfShown(w.brightness) + IfShown(w.volume), w.idle);
  }

  lemma StartTwo(width: int, pad: int, a: int, b: int)
    ensures Start(width, pad, [a]) == width - a - pad
    ensures Start(width, pad, [a, b]) == width - a - pad - b - pad
  {
    assert [] + [a] == [a] && [a] + [b] == [a, b];
    StartSnoc(width, pad, [], a);
    StartSnoc(width, pad, [a], b);
  }

  /** Screen positions of the six indicators. */
  datatype Placement = Placed(clock: int, layout: int, battery: int, brightness: int, volume: int, idle: int)

  /** Each shown indicator is where its own function puts it. */
  predicate LinedUp(barX: int, width: int, pad: int, w: Widths, p: Placement) {
    && p.clock == barX + Start(width, pad, [w.clock])
    && p.layout == barX + Start(width, pad, [w.clock, w.layout])
    && (w.battery > 0 ==> p.battery == barX + Start(width, pad, [w.clock, w.layout, w.battery]))
    && (w.brightness > 0 ==>
          p.brightness == barX + Start(width, pad, Parts(w.(volume := 0, idle := 0, tray := 0))))
    && (w.volume > 0 ==> p.volume == barX + Start(width, pad, Parts(w.(idle := 0, tray := 0))))
    && (w.idle > 0 ==> p.idle == barX + Start(width, pad, Parts(w.(tray := 0))))
  }

  class Indicators {
    var barX: int
    var width: int
    var height: int
    var pad: int
    var clockW: int
    var layoutW: int
    var batteryW: int
    var brightnessW: int
    var volumeW: int
    var idleW: int
    var trayTotal: int
    var clockX: int
    var layoutX: int
    var batteryX: int
    var brightnessX: int   // screen coordinate, like the next three
    var volumeX: int
    var idleX: int
    var trayX: int

    constructor (barX: int, width: int, height: int, pad: int)
      ensures this.barX == barX && this.width == width && this.height == height && this.pad == pad
    {
      this.barX, this.width, this.height, this.pad := barX, width, height, pad;
      clockW, layoutW, batteryW, brightnessW, volumeW, idleW, trayTotal := 0, 0, 0, 0, 0, 0, 0;
      clockX, layoutX, batteryX, brightnessX, volumeX, idleX, trayX := 0, 0, 0, 0, 0, 0, 0;
    }

    function Drawn(): Widths
      reads this
    {
      Widths(clockW, layoutW, batteryW, brightnessW, volumeW, idleW, trayTotal)
    }

    /** The bar has a size. */
    predicate Sized()
      reads `width, `height
    {
      width > 0 && height > 0
    }

    /** ... and room for indicators between its paddings. */
    predicate Roomy()
      reads `width, `height, `pad
    {
      Sized() && height - 2 * pad > 0
    }

    /** `text` is the width of the text to be shown. */
    method RenderClock(text: nat)
      modifies `clockW, `clockX
      ensures !Roomy() ==> clockW == old(clockW) && clockX == old(clockX)
      ensures Roomy() ==> clockW == text + (height - 2 * pad) && clockX == Start(width, pad, [clockW])
    {
      if width <= 0 || height <= 0 {
        return;
      }
      var h := height - 2 * pad;
      if h <= 0 {
        return;
      }
      clockW := text + h;
      clockX := width - clockW - pad;
      StartTwo(width, pad, clockW, 0);
    }

    method RenderLayout(text: nat)
      modifies `layoutW, `layoutX
      ensures !Roomy() ==> layoutW == old(layoutW) && layoutX == old(layoutX)
      ensures Roomy() ==> layoutW == text + (height - 2 * pad) && layoutX == Start(width, pad, [clockW, layoutW])
    {
      if width <= 0 || height <= 0 {
        return;
      }
      var h := height - 2 * pad;
      if h <= 0 {
        return;
      }
      layoutW := text + h;
      layoutX := width - clockW - pad - layoutW - pad;
      StartTwo(width, pad, clockW, layoutW);
    }

    /** No text: there is no battery to show. */
    method RenderBattery(text: Option<nat>)
      modifies `batteryW, `batteryX
      ensures !Sized() ==> batteryW == old(batteryW) && batteryX == old(batteryX)
      ensures Sized() && text.None? ==> batteryW == 0 && batteryX == old(batteryX)
      ensures Sized() && text.Some? && !Roomy() ==> batteryW == old(batteryW) && batteryX == old(batteryX)
      ensures text.Some? && Roomy() ==>
        batteryW == text.value + (height - 2 * pad) && batteryX == Start(width, pad, [clockW, layoutW, batteryW])
    {
      if width <= 0 || height <= 0 {
        return;
      }
      if text.None? {
        batteryW := 0;
        return;
      }
      var h := height - 2 * pad;
      if h <= 0 {
        return;
      }
      batteryW := text.value + h;
      batteryX := width - clockW - pad - layoutW - pad - batteryW - pad;
      StartTwo(width, pad, clockW, layoutW);
      StartSnoc(width, pad, [clockW, layoutW], batteryW);
      assert [clockW, layoutW] + [batteryW] == [clockW, layoutW, batteryW];
    }

    method RenderBrightness(text: Option<nat>)
      modifies `brightnessW, `brightnessX
      ensures !Sized() ==> brightnessW == old(brightnessW) && brightnessX == old(brightnessX)
      ensures Sized() && text.None? ==> brightnessW == 0 && brightnessX == old(brightnessX)
      ensures Sized() && text.Some? && !Roomy() ==> brightnessW == old(brightnessW) && brightnessX == old(brightnessX)
      ensures text.Some? && Roomy() ==>
        brightnessW == text.value + (height - 2 * pad)
        && brightnessX == barX + RightLimit(width, pad, Widths(clockW, layoutW, batteryW, brightnessW, 0, 0, 0))
    {
      if width <= 0 || height <= 0 {
        return;
      }
      if text.None? {
        brightnessW := 0;
        return;
      }
      var h := height - 2 * pad;
      if h <= 0 {
        return;
      }
      brightnessW := text.value + h;
      var ix := width - clockW - pad - layoutW - pad;
      if batteryW > 0 {
        ix := ix - (batteryW + pad);
      }
      ix := ix - (brightnessW + pad);
      brightnessX := ix + barX;
    }

    method RenderVolume(text: Option<nat>)
      modifies `volumeW, `volumeX
      ensures !Sized() ==> volumeW == old(volumeW) && volumeX == old(volumeX)
      ensures Sized() && text.None? ==> volumeW == 0 && volumeX == old(volumeX)
      ensures Sized() && text.Some? && !Roomy() ==> volumeW == old(volumeW) && volumeX == old(volumeX)
      ensures text.Some? && Roomy() ==>
        volumeW == text.value + (height - 2 * pad)
        && volumeX == barX + RightLimit(width, pad, Widths(clockW, layoutW, batteryW, brightnessW, volumeW, 0, 0))
    {
      if width <= 0 || height <= 0 {
        return;
      }
      if text.None? {
        volumeW := 0;
        return;
      }
      var h := height - 2 * pad;
      if h <= 0 {
        return;
      }
      volumeW := text.value + h;
      var vx := width - clockW - pad - layoutW - pad;
      if batteryW > 0 {
        vx := vx - (batteryW + pad);
      }
      if brightnessW > 0 {
        vx := vx - (brightnessW + pad);
      }
      vx := vx - (volumeW + pad);
      volumeX := vx + barX;
    }

    method RenderIdle(text: nat)
      modifies `idleW, `idleX
      ensures !Roomy() ==> idleW == old(idleW) && idleX == old(idleX)
      ensures Roomy() ==>
        idleW == text + (height - 2 * pad)
        && idleX == barX + RightLimit(width, pad, Widths(clockW, layoutW, batteryW, brightnessW, volumeW, idleW, 0))
    {
      if width <= 0 || height <= 0 {
        return;
      }
      var h := height - 2 * pad;
      if h <= 0 {
        return;
      }
      idleW := text + h;
      var ix := width - clockW - pad - layoutW - pad;
      if batteryW > 0 {
        ix := ix - (batteryW + pad);
      }
      if brightnessW > 0 {
        ix := ix - (brightnessW + pad);
      }
      if volumeW > 0 {
        ix := ix - (volumeW + pad);
      }
      ix := ix - (idleW + pad);
      idleX := ix + barX;
    }

    function Places(): Placement
      reads this
    {
      Placed(barX + clockX, barX + layoutX, barX + batteryX, brightnessX, volumeX, idleX)
    }

    /** A whole pass over the right end of the bar, in the order of `layout`. On a bar without a size
        nothing is drawn; one without room for indicators draws the tray only. */
    method RenderAll(clock: nat, layout: nat, battery: Option<nat>, brightness: Option<nat>, volume: Option<nat>,
                     idle: nat, items: Option<nat>)
      returns (xs: seq<int>)
      modifies this
      ensures width == old(width) && height == old(height) && pad == old(pad) && barX == old(barX)
      ensures !Sized() ==> Drawn() == old(Drawn()) && Places() == old(Places()) && trayX == old(trayX) && xs == []
      ensures Sized() ==> TrayDrawn(items, xs)
      ensures Sized() ==>
        (battery.None? ==> batteryW == 0) && (brightness.None? ==> brightnessW == 0) && (volume.None? ==> volumeW == 0)
      ensures Sized() && !Roomy() ==> clockW == old(clockW) && layoutW == old(layoutW) && idleW == old(idleW)
      ensures Roomy() ==> LinedUp(barX, width, pad, Drawn(), Places()) && clockW > 0 && layoutW > 0 && idleW > 0
      ensures Roomy() ==>
        (battery.Some? <==> batteryW > 0) && (brightness.Some? <==> brightnessW > 0) && (volume.Some? <==> volumeW > 0)
    {
      if width <= 0 || height <= 0 {
        return [];
      }
      RenderIndicators(clock, layout, battery, brightness, volume, idle);
      ghost var w := Drawn();
      xs := RenderTray(items);
      assert Drawn() == w.(tray := trayTotal);
    }

    method RenderIndicators(clock: nat, layout: nat, battery: Option<nat>, brightness: Option<nat>, volume: Option<nat>,
                            idle: nat)
      requires Sized()
      modifies `clockW, `clockX, `layoutW, `layoutX, `batteryW, `batteryX, `brightnessW, `brightnessX,
               `volumeW, `volumeX, `idleW, `idleX
      ensures battery.None? ==> batteryW == 0
      ensures brightness.None? ==> brightnessW == 0
      ensures volume.None? ==> volumeW == 0
      ensures !Roomy() ==> clockW == old(clockW) && layoutW == old(layoutW) && idleW == old(idleW)
      ensures Roomy() ==> LinedUp(barX, width, pad, Drawn(), Places()) && clockW > 0 && layoutW > 0 && idleW > 0
      ensures Roomy() ==>
        (battery.Some? <==> batteryW > 0) && (brightness.Some? <==> brightnessW > 0) && (volume.Some? <==> volumeW > 0)
    {
      RenderRight(clock, layout, battery);
      RenderLeft(brightness, volume, idle);
      ghost var w := Drawn().(tray := 0);
      RightLimitIs(width, pad, w);
      RightLimitIs(width, pad, w.(idle := 0));
      RightLimitIs(width, pad, w.(volume := 0, idle := 0));
    }

    /** The three indicators whose place depends on one another only. */
    method RenderRight(clock: nat, layout: nat, battery: Option<nat>)
      requires Sized()
      modifies `clockW, `clockX, `layoutW, `layoutX, `batteryW, `batteryX
      ensures battery.None? ==> batteryW == 0
      ensures !Roomy() ==> clockW == old(clockW) && layoutW == old(layoutW)
      ensures Roomy() ==>
        && clockW > 0 && layoutW > 0 && (battery.Some? <==> batteryW > 0)
        && clockX == Start(width, pad, [clockW]) && layoutX == Start(width, pad, [clockW, layoutW])
        && (batteryW > 0 ==> batteryX == Start(width, pad, [clockW, layoutW, batteryW]))
    {
      RenderClock(clock);
      RenderLayout(layout);
      RenderBattery(battery);
    }

    /** The three that come after them. */
    method RenderLeft(brightness: Option<nat>, volume: Option<nat>, idle: nat)
      requires Sized()
      modifies `brightnessW, `brightnessX, `volumeW, `volumeX, `idleW, `idleX
      ensures (brightness.None? ==> brightnessW == 0) && (volume.None? ==> volumeW == 0)
      ensures !Roomy() ==> idleW == old(idleW)
      ensures Roomy() ==>
        && (brightness.Some? <==> brightnessW > 0) && (volume.Some? <==> volumeW > 0) && idleW > 0
        && (brightnessW > 0 ==>
              brightnessX == barX + RightLimit(width, pad, Drawn().(volume := 0, idle := 0, tray := 0)))
        && (volumeW > 0 ==> volumeX == barX + RightLimit(width, pad, Drawn().(idle := 0, tray := 0)))
        && idleX == barX + RightLimit(width, pad, Drawn().(tray := 0))
    {
      RenderBrightness(brightness);
      RenderVolume(volume);
      RenderIdle(idle);
    }

    /** The icons are lined up left of the indicators, `xs` being where each is drawn. */
    ghost predicate TrayDrawn(items: Option<nat>, xs: seq<int>)
      reads this
    {
      var n := if items.Some? then items.value else 0;
      var stride := IconSize(height, pad) + pad;
      && trayTotal == n * stride && |xs| == n
      && (n > 0 ==> trayX == barX + RightLimit(width, pad, Drawn().(tray := 0)) - trayTotal)
      && forall i :: 0 <= i < n ==> barX + xs[i] == trayX + i * stride
    }

    /** Lines up the square icons of the items, if there is a tray host. */
    method RenderTray(items: Option<nat>) returns (xs: seq<int>)
      modifies `trayTotal, `trayX
      ensures Sized() ==> TrayDrawn(items, xs)
      ensures !Sized() ==> trayTotal == 0 && xs == []
    {
      xs := [];
      if items.None? || width <= 0 || height <= 0 {
        trayTotal := 0;
        return;
      }
      var n := items.value;
      if n == 0 {
        trayTotal := 0;
        return;
      }
      var icon := height - 2 * pad;
      if icon < 1 {
        icon := 1;
      }
      var baseX := LeftOfIndicators();
      var stride := icon + pad;
      trayTotal := n * stride;
      trayX := barX + baseX - trayTotal;
      xs := TrayCells(n, baseX, stride);
    }

    /** Where the indicators that are shown begin. */
    method LeftOfIndicators() returns (baseX: int)
      ensures baseX == RightLimit(width, pad, Drawn().(tray := 0))
    {
      baseX := width - clockW - pad - layoutW - pad;
      if batteryW > 0 {
        baseX := baseX - (batteryW + pad);
      }
      if brightnessW > 0 {
        baseX := baseX - (brightnessW + pad);
      }
      if volumeW > 0 {
        baseX := baseX - (volumeW + pad);
      }
      if idleW > 0 {
        baseX := baseX - (idleW + pad);
      }
    }

    method TrayCells(n: nat, baseX: int, stride: int) returns (xs: seq<int>)
      ensures |xs| == n && forall i :: 0 <= i < n ==> xs[i] == baseX - n * stride + i * stride
    {
      xs := [];
      for i := 0 to n
        invariant |xs| == i
        invariant forall j :: 0 <= j < i ==> xs[j] == baseX - n * stride + j * stride
      {
        Distribute(n, i, stride);
        xs := xs + [baseX - (n - i) * stride];
      }
    }

    /** Which tray icon is at a point of the screen; -1 for none. */
    function TrayAt(x: real, y: real, barY: int, n: nat): int
      reads this
    {
      if trayTotal <= 0 || width <= 0 then -1
      else if y < barY as real || y >= (barY + height) as real then -1
      else
        var icon := height - 2 * pad;
        if icon < 1 || icon + pad <= 0 then -1
        else
          var local := Toward(x - trayX as real);
          if local < 0 || local >= trayTotal then -1
          else
            var idx := local / (icon + pad);
            if local - idx * (icon + pad) >= icon || idx < 0 || idx >= n then -1 else idx
    }

    /** Whether a point of the screen is on an indicator at `left` of width `w`, on a bar at `barY`. */
    predicate OnIndicator(left: int, w: int, x: real, y: real, barY: int)
      reads this
    {
      if w <= 0 || width <= 0 then false
      else if y < barY as real || y >= (barY + height) as real then false
      else
        var h := height - 2 * pad;
        && left as real <= x < (left + w) as real
        && (barY + pad) as real <= y < (barY + pad + h) as real
    }

    predicate IdleAt(x: real, y: real, barY: int)
      reads this
    {
      OnIndicator(idleX, idleW, x, y, barY)
    }

    predicate BrightnessAt(x: real, y: real, barY: int)
      reads this
    {
      OnIndicator(brightnessX, brightnessW, x, y, barY)
    }

    predicate VolumeAt(x: real, y: real, barY: int)
      reads this
    {
      OnIndicator(volumeX, volumeW, x, y, barY)
    }
  }

  function IconSize(height: int, pad: int): (s: int)
    ensures s >= 1
  {
    if height - 2 * pad < 1 then 1 else height - 2 * pad
  }

  lemma Distribute(n: int, i: int, a: int)
    ensures n * a - (n - i) * a == i * a
  {
  }

  // ---- the seven rectangles ----

  /** The indicator number `i` from the right. */
  function PartX(width: int, pad: int, parts: seq<int>, i: nat): int
    requires i < |parts|
  {
    Start(width, pad, parts[..i + 1])
  }

  /** Neighbours are exactly `pad` apart, and the first is `pad` from the end of the bar. */
  lemma PartsAdjacent(width: int, pad: int, parts: seq<int>, i: nat)
    requires i < |parts|
    ensures PartX(width, pad, parts, i) + parts[i] + pad == if i == 0 then width else PartX(width, pad, parts, i - 1)
  {
    assert parts[..i + 1] == parts[..i] + [parts[i]];
    StartSnoc(width, pad, parts[..i], parts[i]);
  }

  /** Any two indicators are disjoint, the gap between them being at least `pad`. */
  lemma {:induction false} PartsDisjoint(width: int, pad: int, parts: seq<int>, i: nat, j: nat)
    requires i < j < |parts| && pad >= 0 && forall k :: 0 <= k < |parts| ==> parts[k] > 0
    ensures PartX(width, pad, parts, j) + parts[j] + pad <= PartX(width, pad, parts, i)
    ensures Start(width, pad, parts) <= PartX(width, pad, parts, j)
    decreases |parts| - j, j
  {
    PartsAdjacent(width, pad, parts, j);
    if i < j - 1 {
      StartMonotone(width, pad, parts, i + 1, j);
    }
    StartMonotone(width, pad, parts, j + 1, |parts|);
    assert parts[..|parts|] == parts;
  }

  lemma {:induction false} StartMonotone(width: int, pad: int, parts: seq<int>, i: nat, j: nat)
    requires i <= j <= |parts| && pad >= 0 && forall k :: 0 <= k < |parts| ==> parts[k] > 0
    ensures Start(width, pad, parts[..j]) <= Start(width, pad, parts[..i])
    decreases j
  {
    if i < j {
      assert parts[..j] == parts[..j - 1] + [parts[j - 1]];
      StartSnoc(width, pad, parts[..j - 1], parts[j - 1]);
      StartMonotone(width, pad, parts, i, j - 1);
    }
  }

  function IfShownAt(w: int, x: int): seq<int> {
    if w > 0 then [x] else []
  }

  /** The positions of the shown indicators, from right to left. */
  function Positions(w: Widths, p: Placement): seq<int> {
    [p.clock, p.layout] + IfShownAt(w.battery, p.battery) + IfShownAt(w.brightness, p.brightness)
    + IfShownAt(w.volume, p.volume) + IfShownAt(w.idle, p.idle)
  }

  ghost predicate Agree(barX: int, width: int, pad: int, parts: seq<int>, xs: seq<int>) {
    |xs| == |parts| && forall i :: 0 <= i < |xs| ==> xs[i] == barX + PartX(width, pad, parts, i)
  }

  lemma AgreeSnoc(barX: int, width: int, pad: int, parts: seq<int>, xs: seq<int>, w: int, x: int)
    requires Agree(barX, width, pad, parts, xs)
    requires w > 0 ==> x == barX + Start(width, pad, parts + [w])
    ensures Agree(barX, width, pad, parts + IfShown(w), xs + IfShownAt(w, x))
  {
    var all := parts + IfShown(w);
    forall i | 0 <= i < |xs|
      ensures PartX(width, pad, all, i) == PartX(width, pad, parts, i)
    {
      assert all[..i + 1] == parts[..i + 1];
    }
    assert all[..|all|] == all;
  }

  /** Seven functions that each count from the right end agree on one line. */
  lemma LinedUpAgrees(barX: int, width: int, pad: int, w: Widths, p: Placement)
    requires LinedUp(barX, width, pad, w, p)
    ensures Agree(barX, width, pad, Parts(w), Positions(w, p))
  {
    var p2, x2 := [w.clock, w.layout], [p.clock, p.layout];
    var p3, x3 := p2 + IfShown(w.battery), x2 + IfShownAt(w.battery, p.battery);
    var p4, x4 := p3 + IfShown(w.brightness), x3 + IfShownAt(w.brightness, p.brightness);
    FirstTwoAgree(barX, width, pad, w, p);
    assert p2 + [w.battery] == [w.clock, w.layout, w.battery];
    AgreeSnoc(barX, width, pad, p2, x2, w.battery, p.battery);
    PrefixParts(w);
    AgreeSnoc(barX, width, pad, p3, x3, w.brightness, p.brightness);
    LastTwoAgree(barX, width, pad, w, p, p4, x4);
  }

  lemma FirstTwoAgree(barX: int, width: int, pad: int, w: Widths, p: Placement)
    requires LinedUp(barX, width, pad, w, p)
    ensures Agree(barX, width, pad, [w.clock, w.layout], [p.clock, p.layout])
  {
    var p2 := [w.clock, w.layout];
    assert p2[..1] == [w.clock] && p2[..2] == p2;
  }

  lemma LastTwoAgree(barX: int, width: int, pad: int, w: Widths, p: Placement, p4: seq<int>, x4: seq<int>)
    requires LinedUp(barX, width, pad, w, p) && Agree(barX, width, pad, p4, x4)
    requires p4 == [w.clock, w.layout] + IfShown(w.battery) + IfShown(w.brightness)
    ensures Agree(barX, width, pad, p4 + IfShown(w.volume) + IfShown(w.idle),
                  x4 + IfShownAt(w.volume, p.volume) + IfShownAt(w.idle, p.idle))
  {
    PrefixParts(w);
    AgreeSnoc(barX, width, pad, p4, x4, w.volume, p.volume);
    AgreeSnoc(barX, width, pad, p4 + IfShown(w.volume), x4 + IfShownAt(w.volume, p.volume), w.idle, p.idle);
  }

  lemma PrefixParts(w: Widths)
    ensures var p3 := [w.clock, w.layout] + IfShown(w.battery); var p4 := p3 + IfShown(w.brightness);
      var p5 := p4 + IfShown(w.volume);
      && (w.brightness > 0 ==> Parts(w.(volume := 0, idle := 0, tray := 0)) == p3 + [w.brightness])
      && (w.volume > 0 ==> Parts(w.(idle := 0, tray := 0)) == p4 + [w.volume])
      && (w.idle > 0 ==> Parts(w.(tray := 0)) == p5 + [w.idle])
  {
  }

  /** After a pass, any two of the shown indicators are disjoint with a gap of at least `pad`,
      and all of them, and the tray, lie right of where the task row has to end. */
  lemma StripLaysOut(barX: int, width: int, pad: int, w: Widths, p: Placement, i: nat, j: nat)
    requires LinedUp(barX, width, pad, w, p) && pad >= 0 && w.clock > 0 && w.layout > 0 && w.tray >= 0
    requires i < j < |Parts(w)|
    ensures |Positions(w, p)| == |Parts(w)|
    ensures Positions(w, p)[j] + Parts(w)[j] + pad <= Positions(w, p)[i]
    ensures barX + RightLimit(width, pad, w) + w.tray <= Positions(w, p)[j]
    ensures Positions(w, p)[0] + w.clock + pad == barX + width
  {
    LinedUpAgrees(barX, width, pad, w, p);
    RightLimitIs(width, pad, w);
    PartsDisjoint(width, pad, Parts(w), i, j);
    PartsAdjacent(width, pad, Parts(w), 0);
  }

  // ---- the tray inverts its drawing ----

  /** Within a row of `n` cells of `size` pixels, `gap` apart, the quotient names the cell. */
  lemma CellOf(local: int, size: int, gap: int, n: nat, i: int)
    requires size >= 1 && gap >= 0
    ensures (&& 0 <= local < n * (size + gap) && local / (size + gap) == i
             && local - local / (size + gap) * (size + gap) < size)
            <==> 0 <= i < n && i * (size + gap) <= local < i * (size + gap) + size
  {
    var s := size + gap;
    var q := local / s;
    assert local == q * s + local % s;
    if 0 <= i < n && i * s <= local < i * s + size {
      DivMod(local, i, local - i * s, s);
      Scale(i + 1, n, s);
      assert (i + 1) * s == i * s + s;
      Scale(0, i, s);
    }
    if 0 <= local < n * s {
      if q >= n {
        Scale(n, q, s);
      }
      if q < 0 {
        Scale(q, -1, s);
      }
    }
  }

  /** For every point of the screen: the tray reports icon `i` if and only if there is room between
      the paddings and the point is on the bar and, horizontally, on icon `i` as drawn or less than a
      pixel to the left of the first icon. */
  lemma TrayAtInvertsDrawing(t: Indicators, x: real, y: real, barY: int, n: nat, i: nat)
    requires t.width > 0 && t.height > 0 && t.pad >= 0
    requires t.trayTotal == n * (IconSize(t.height, t.pad) + t.pad)
    ensures var icon := IconSize(t.height, t.pad); var left := t.trayX + i * (icon + t.pad);
      t.TrayAt(x, y, barY, n) == i <==>
        && t.height - 2 * t.pad >= 1
        && i < n && barY as real <= y < (barY + t.height) as real
        && (left as real <= x < (left + icon) as real || (i == 0 && t.trayX as real - 1.0 < x < t.trayX as real))
  {
    var icon := IconSize(t.height, t.pad);
    var r := x - t.trayX as real;
    var local := Toward(r);
    CellOf(local, icon, t.pad, n, i);
    var a := i * (icon + t.pad);
    Scale(0, i, icon + t.pad);
    TowardWithin(r, a, a + icon);
  }

  /** A bar 24 pixels high with paddings of 12 pixels: an icon is drawn, one pixel wide, and no point
      hits it. */
  lemma IconOutOfReach(t: Indicators, x: real, y: real, barY: int)
    requires t.width > 0 && t.height == 24 && t.pad == 12
    ensures t.TrayDrawn(Some(1), [t.trayX - t.barX]) ==> t.trayTotal == 13 && IconSize(t.height, t.pad) == 1
    ensures t.TrayAt(x, y, barY, 1) == -1
  {
  }

  // ---- the other hit tests ----

  /** The rectangle that the indicator number `i` from the right is drawn in. */
  predicate InPart(t: Indicators, i: nat, x: real, y: real, barY: int)
    reads t
    requires i < |Parts(t.Drawn())|
  {
    var left, w := t.barX + PartX(t.width, t.pad, Parts(t.Drawn()), i), Parts(t.Drawn())[i];
    && left as real <= x < (left + w) as real
    && (barY + t.pad) as real <= y < (barY + t.height - t.pad) as real
  }

  /** Which of the shown indicators the idle, volume and brightness indicators are. */
  function IdlePart(w: Widths): nat {
    2 + |IfShown(w.battery)| + |IfShown(w.brightness)| + |IfShown(w.volume)|
  }

  function VolumePart(w: Widths): nat {
    2 + |IfShown(w.battery)| + |IfShown(w.brightness)|
  }

  function BrightnessPart(w: Widths): nat {
    2 + |IfShown(w.battery)|
  }

  /** After a pass over a bar with room for indicators, each of the three hit tests answers for
      exactly the rectangle that its indicator is drawn in; on a bar without room, where indicators
      drawn earlier may still be seen, none of them ever does. */
  lemma IndicatorHits(t: Indicators, x: real, y: real, barY: int)
    requires t.pad >= 0 && (t.Roomy() ==> LinedUp(t.barX, t.width, t.pad, t.Drawn(), t.Places()))
    ensures var w := t.Drawn();
      && (w.idle > 0 ==>
            IdlePart(w) < |Parts(w)| && (t.IdleAt(x, y, barY) <==> t.Roomy() && InPart(t, IdlePart(w), x, y, barY)))
      && (w.volume > 0 ==>
            && VolumePart(w) < |Parts(w)|
            && (t.VolumeAt(x, y, barY) <==> t.Roomy() && InPart(t, VolumePart(w), x, y, barY)))
      && (w.brightness > 0 ==>
            && BrightnessPart(w) < |Parts(w)|
            && (t.BrightnessAt(x, y, barY) <==> t.Roomy() && InPart(t, BrightnessPart(w), x, y, barY)))
    ensures t.idleW <= 0 ==> !t.IdleAt(x, y, barY)
    ensures t.volumeW <= 0 ==> !t.VolumeAt(x, y, barY)
    ensures t.brightnessW <= 0 ==> !t.BrightnessAt(x, y, barY)
  {
    var w, p := t.Drawn(), t.Places();
    WhichPart(w, p);
    if t.Roomy() {
      LinedUpAgrees(t.barX, t.width, t.pad, w, p);
    }
  }

  lemma WhichPart(w: Widths, p: Placement)
    ensures w.idle > 0 ==>
      && IdlePart(w) < |Parts(w)| == |Positions(w, p)| && Parts(w)[IdlePart(w)] == w.idle
      && Positions(w, p)[IdlePart(w)] == p.idle
    ensures w.volume > 0 ==>
      && VolumePart(w) < |Parts(w)| == |Positions(w, p)| && Parts(w)[VolumePart(w)] == w.volume
      && Positions(w, p)[VolumePart(w)] == p.volume
    ensures w.brightness > 0 ==>
      && BrightnessPart(w) < |Parts(w)| == |Positions(w, p)| && Parts(w)[BrightnessPart(w)] == w.brightness
      && Positions(w, p)[BrightnessPart(w)] == p.brightness
  {
  }

  /** No point hits two of idle, volume and brightness, and none of them is hit where a tray icon is. */
  lemma HitsExclude(t: Indicators, x: real, y: real, barY: int, n: nat)
    requires t.pad >= 0 && (t.Roomy() ==> LinedUp(t.barX, t.width, t.pad, t.Drawn(), t.Places()))
    requires t.trayTotal > 0 ==> t.trayX == t.barX + RightLimit(t.width, t.pad, t.Drawn().(tray := 0)) - t.trayTotal
    ensures !(t.IdleAt(x, y, barY) && t.VolumeAt(x, y, barY))
    ensures !(t.IdleAt(x, y, barY) && t.BrightnessAt(x, y, barY))
    ensures !(t.VolumeAt(x, y, barY) && t.BrightnessAt(x, y, barY))
    ensures t.TrayAt(x, y, barY, n) != -1 ==>
      !t.IdleAt(x, y, barY) && !t.VolumeAt(x, y, barY) && !t.BrightnessAt(x, y, barY)
  {
    var w := t.Drawn();
    RightLimitIs(t.width, t.pad, w.(tray := 0));
    RightLimitIs(t.width, t.pad, w.(idle := 0, tray := 0));
    RightLimitIs(t.width, t.pad, w.(volume := 0, idle := 0, tray := 0));
  }
}
