/** How the screen is divided: the taskbar, the usable area and the zones windows snap to. */
module Zones {
  import opened Arith
  import opened Lists

  datatype Box = Box(x: int, y: int, width: int, height: int)

  /** Whether a pixel lies in a box. */
  predicate In(b: Box, px: int, py: int) {
    b.x <= px < b.x + b.width && b.y <= py < b.y + b.height
  }

  datatype Edge = NoEdge | Left | Right | TopLeft | TopRight | BottomLeft | BottomRight
  datatype Side = AtLeft | AtRight | AtTop | AtBottom

  function TiledSides(e: Edge): set<Side> {
    match e
    case NoEdge => {}
    case Left => {AtLeft, AtTop, AtBottom}
    case Right => {AtRight, AtTop, AtBottom}
    case TopLeft => {AtLeft, AtTop}
    case TopRight => {AtRight, AtTop}
    case BottomLeft => {AtLeft, AtBottom}
    case BottomRight => {AtRight, AtBottom}
  }

  // ---- zones ----

  /** The zone that snapping to an edge gives, inside the usable area. */
  function Zone(e: Edge, a: Box): Box {
    var halfW, halfH := TruncDiv(a.width, 2), TruncDiv(a.height, 2);
    match e
    case NoEdge => a
    case Left => Box(a.x, a.y, halfW, a.height)
    case Right => Box(a.x + halfW, a.y, a.width - halfW, a.height)
    case TopLeft => Box(a.x, a.y, halfW, halfH)
    case TopRight => Box(a.x + halfW, a.y, a.width - halfW, halfH)
    case BottomLeft => Box(a.x, a.y + halfH, halfW, a.height - halfH)
    case BottomRight => Box(a.x + halfW, a.y + halfH, a.width - halfW, a.height - halfH)
  }

  /** The halves share out the usable area: no pixel is lost, doubled or gained, whatever the
      size of the area. */
  lemma HalvesPartition(a: Box, px: int, py: int)
    ensures In(a, px, py) <==> In(Zone(Left, a), px, py) || In(Zone(Right, a), px, py)
    ensures !(In(Zone(Left, a), px, py) && In(Zone(Right, a), px, py))
  {
  }

  predicate InQuarter(a: Box, e: Edge, px: int, py: int) {
    e in {TopLeft, TopRight, BottomLeft, BottomRight} && In(Zone(e, a), px, py)
  }

  /** So do the quarters. */
  lemma QuartersPartition(a: Box, px: int, py: int)
    ensures In(a, px, py) <==> exists e :: InQuarter(a, e, px, py)
    ensures forall e, f :: InQuarter(a, e, px, py) && InQuarter(a, f, px, py) ==> e == f
  {
    var halfW, halfH := TruncDiv(a.width, 2), TruncDiv(a.height, 2);
    var e := if px < a.x + halfW then (if py < a.y + halfH then TopLeft else BottomLeft)
             else (if py < a.y + halfH then TopRight else BottomRight);
    assert In(a, px, py) ==> InQuarter(a, e, px, py);
  }

  /** The sides of the screen that an edge names. */
  function SidesOf(e: Edge): set<Side> {
    (if e in {Left, TopLeft, BottomLeft} then {AtLeft} else {})
    + (if e in {Right, TopRight, BottomRight} then {AtRight} else {})
    + (if e in {TopLeft, TopRight} then {AtTop} else {})
    + (if e in {BottomLeft, BottomRight} then {AtBottom} else {})
  }

  /** A zone has the pixels of the area on the named sides of its middle; the middle pixel of an odd
      width goes to the right, that of an odd height to the bottom. */
  lemma ZoneOnItsSides(e: Edge, a: Box, px: int, py: int)
    requires In(a, px, py)
    ensures var left, top := 2 * (px - a.x) + 2 <= a.width, 2 * (py - a.y) + 2 <= a.height;
      In(Zone(e, a), px, py) <==>
        && (AtLeft in SidesOf(e) ==> left) && (AtRight in SidesOf(e) ==> !left)
        && (AtTop in SidesOf(e) ==> top) && (AtBottom in SidesOf(e) ==> !top)
  {
  }

  /** The client is told that it touches a side of the area exactly where its zone does. */
  lemma TiledWhereItTouches(e: Edge, a: Box)
    requires e != NoEdge && a.width >= 2 && a.height >= 2
    ensures var z := Zone(e, a);
      && (AtLeft in TiledSides(e) <==> z.x == a.x)
      && (AtRight in TiledSides(e) <==> z.x + z.width == a.x + a.width)
      && (AtTop in TiledSides(e) <==> z.y == a.y)
      && (AtBottom in TiledSides(e) <==> z.y + z.height == a.y + a.height)
    ensures TiledSides(NoEdge) == {}
  {
  }

  /** An output box minus its taskbar of height `bar`. */
  function UsableArea(output: Box, bar: int, top: bool): Box {
    Box(output.x, if top then output.y + bar else output.y, output.width, output.height - bar)
  }

  /** Where the taskbar itself is drawn. */
  function BarStrip(output: Box, bar: int, top: bool): Box {
    Box(output.x, if top then output.y else output.y + output.height - bar, output.width, bar)
  }

  ghost predicate Partition(whole: Box, a: Box, b: Box) {
    forall px, py :: (In(whole, px, py) <==> In(a, px, py) || In(b, px, py)) && !(In(a, px, py) && In(b, px, py))
  }

  /** Usable area and taskbar share out a non-empty output exactly when the configured bar
      height lies between zero and the height of the output. */
  lemma BarPartition(output: Box, bar: int, top: bool)
    requires output.width > 0 && output.height > 0
    ensures Partition(output, UsableArea(output, bar, top), BarStrip(output, bar, top))
            <==> 0 <= bar <= output.height
  {
    var u, s := UsableArea(output, bar, top), BarStrip(output, bar, top);
    if bar < 0 {
      var py := if top then output.y - 1 else output.y + output.height;
      assert In(u, output.x, py) && !In(output, output.x, py);
    } else if bar > output.height {
      var py := if top then output.y + output.height else output.y - 1;
      assert In(s, output.x, py) && !In(output, output.x, py);
    }
  }

  /** The bar has the outermost rows of the output, at the top or at the bottom. */
  lemma BarAtItsEdge(output: Box, bar: int, top: bool, px: int, py: int)
    requires In(output, px, py)
    ensures In(BarStrip(output, bar, top), px, py)
            <==> if top then py < output.y + bar else output.y + output.height <= py + bar
  {
  }

  // ---- snapping by dragging to an edge of the screen ----

  datatype Detected = Detected(edge: Edge, maximize: bool, zone: Box)

  const NOTHING := Detected(NoEdge, false, Box(0, 0, 0, 0))

  /** What a drag to the cursor position previews: `output` is the box of the output under the
      cursor, if there is one, and `ua` its usable area. */
  function DetectSnap(x: real, y: real, output: Option<Box>, ua: Box): Detected {
    if output.None? then NOTHING else DetectOn(x, y, output.value, ua)
  }

  function DetectOn(x: real, y: real, ob: Box, ua: Box): Detected {
    var atLeft := x <= (ob.x + 1) as real;
    var atRight := x >= (ob.x + ob.width - 2) as real;
    var atTop := y <= (ob.y + 1) as real;
    var atBottom := y >= (ob.y + ob.height - 2) as real;
    var halfW, halfH := TruncDiv(ua.width, 2), TruncDiv(ua.height, 2);
    if atLeft && atTop then Detected(TopLeft, false, Box(ua.x, ua.y, halfW, halfH))
    else if atRight && atTop then Detected(TopRight, false, Box(ua.x + halfW, ua.y, ua.width - halfW, halfH))
    else if atLeft && atBottom then Detected(BottomLeft, false, Box(ua.x, ua.y + halfH, halfW, ua.height - halfH))
    else if atRight && atBottom then
      Detected(BottomRight, false, Box(ua.x + halfW, ua.y + halfH, ua.width - halfW, ua.height - halfH))
    else if atLeft then Detected(Left, false, Box(ua.x, ua.y, halfW, ua.height))
    else if atRight then Detected(Right, false, Box(ua.x + halfW, ua.y, ua.width - halfW, ua.height))
    else if atTop then Detected(NoEdge, true, Box(ua.x, ua.y, ua.width, ua.height))
    else NOTHING
  }

  /** The cursor is on none of the edges that snap; the lower edge snaps at its corners only. */
  predicate Away(x: real, y: real, ob: Box) {
    (ob.x + 1) as real < x < (ob.x + ob.width - 2) as real && (ob.y + 1) as real < y
  }

  /** The previewed zone is the zone that the snap will use; the maximize preview is the whole
      usable area; nothing is previewed exactly when the cursor is on no output or away from the
      left, right and top edges of its output. */
  lemma PreviewIsZone(x: real, y: real, output: Option<Box>, ua: Box)
    ensures var d := DetectSnap(x, y, output, ua);
      && (d.edge != NoEdge ==> !d.maximize && d.zone == Zone(d.edge, ua))
      && (d.maximize ==> d.edge == NoEdge && d.zone == ua)
      && (d.edge == NoEdge && !d.maximize <==>
            output.None? || Away(x, y, output.value))
  {
  }

  /** For every point, an edge of the screen is found only if the cursor is at it: at the left one in
      the first two columns, at the right one in the last two, at the top one in the first two rows,
      at the bottom one in the last two. */
  lemma DetectedOnlyThere(x: real, y: real, ob: Box, ua: Box)
    ensures var d := DetectSnap(x, y, Some(ob), ua);
      && (AtLeft in SidesOf(d.edge) ==> x - ob.x as real <= 1.0)
      && (AtRight in SidesOf(d.edge) ==> (ob.x + ob.width) as real - x <= 2.0)
      && (AtTop in SidesOf(d.edge) || d.maximize ==> y - ob.y as real <= 1.0)
      && (AtBottom in SidesOf(d.edge) ==> (ob.y + ob.height) as real - y <= 2.0)
    ensures DetectSnap(x, y, None, ua).edge == NoEdge && !DetectSnap(x, y, None, ua).maximize
  {
  }

  /** ... and if opposite edges are apart, exactly then; at the top one alone the window is maximized,
      and at the bottom one alone nothing happens. */
  lemma DetectedExactly(x: real, y: real, ob: Box, ua: Box)
    requires ob.width > 3 && ob.height > 3
    ensures var d := DetectSnap(x, y, Some(ob), ua);
      var left, right := x - ob.x as real <= 1.0, (ob.x + ob.width) as real - x <= 2.0;
      var top, bottom := y - ob.y as real <= 1.0, (ob.y + ob.height) as real - y <= 2.0;
      && !(left && right) && !(top && bottom)
      && (AtLeft in SidesOf(d.edge) <==> left) && (AtRight in SidesOf(d.edge) <==> right)
      && (AtTop in SidesOf(d.edge) <==> top && (left || right))
      && (AtBottom in SidesOf(d.edge) <==> bottom && (left || right))
      && (d.maximize <==> top && !left && !right)
  {
  }
}
