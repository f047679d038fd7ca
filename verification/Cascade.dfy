/** Placing new windows: each steps down and right from the last, column after column. */
module Cascade {
  import opened Arith
  import opened Lists
  import opened Zones

  /** The diagonal step: a title bar and a border, 30 pixels if they have no height. */
  function StepSize(title: int, border: int): (s: int)
    ensures s > 0
    ensures title + border > 0 ==> s == title + border
    ensures title + border <= 0 ==> s == 30
  {
    if title + border <= 0 then 30 else title + border
  }

  function AtLeastZero(n: int): int {
    if n < 0 then 0 else n
  }

  /** Room to move right and down inside the area; an area of negative height counts as empty. */
  function RoomX(area: Box, width: int): int {
    AtLeastZero(area.width - width)
  }

  function RoomY(area: Box, height: int): int {
    AtLeastZero(AtLeastZero(area.height) - height)
  }

  /** How many windows went into the current column, and where that column starts. */
  datatype Cursor = Cursor(count: int, left: int)

  /** Column and row start for the next window. */
  function Advance(c: Cursor, roomX: int, roomY: int, step: int): Cursor {
    var d := if c.count * step > roomY then Cursor(0, c.left + 2 * step) else c;
    if d.left > roomX then d.(left := 0) else d
  }

  function OffsetX(c: Cursor, roomX: int, step: int): int {
    var x := c.left + c.count * step;
    if x > roomX then roomX else x
  }

  /** The top left corner of a window. */
  datatype Spot = Spot(x: int, y: int)

  class Placer {
    var cascadeN: int
    var cascadeX: int

    constructor ()
      ensures cascadeN == 0 && cascadeX == 0
    {
      cascadeN, cascadeX := 0, 0;
    }

    /** The top left corner for a window of the given decorated size, on an output with this usable
        area. A maximized or fullscreen window is not placed, nor one for which there is no output. */
    method Place(special: bool, output: Option<Box>, width: int, height: int, title: int, border: int)
      returns (at: Option<Spot>)
      modifies this
      ensures special || output.None? ==> at == None && cascadeN == old(cascadeN) && cascadeX == old(cascadeX)
      ensures !special && output.Some? ==>
        var area := output.value; var step := StepSize(title, border);
        var roomX, roomY := RoomX(area, width), RoomY(area, height);
        var c := Advance(Cursor(old(cascadeN), old(cascadeX)), roomX, roomY, step);
        && Cursor(cascadeN, cascadeX) == c.(count := c.count + 1)
        && at == Some(Spot(area.x + OffsetX(c, roomX, step), area.y + c.count * step))
    {
      if special {
        return None;
      }
      if output.None? {
        return None;
      }
      var area := output.value;
      var usable := area.height;
      if usable < 0 {
        usable := 0;
      }
      var step := title + border;
      if step <= 0 {
        step := 30;
      }
      var colStep := 2 * step;
      var maxX, maxY := area.width - width, usable - height;
      if maxX < 0 {
        maxX := 0;
      }
      if maxY < 0 {
        maxY := 0;
      }
      var offY := cascadeN * step;
      if offY > maxY {
        cascadeN := 0;
        offY := 0;
        cascadeX := cascadeX + colStep;
      }
      if cascadeX > maxX {
        cascadeX := 0;
      }
      var offX := cascadeX + cascadeN * step;
      if offX > maxX {
        offX := maxX;
      }
      cascadeN := cascadeN + 1;
      return Some(Spot(area.x + offX, area.y + offY));
    }
  }

  // ---- windows of all sizes ----

  /** The area contains the box. */
  predicate Inside(b: Box, area: Box) {
    area.x <= b.x && area.y <= b.y && b.x + b.width <= area.x + area.width && b.y + b.height <= area.y + area.height
  }

  predicate Started(c: Cursor) {
    c.count >= 0 && c.left >= 0
  }

  /** Whatever windows came before, and whatever the step was for them, a window is placed inside
      the usable area if and only if it fits in it. */
  lemma PlacedInside(c: Cursor, area: Box, width: int, height: int, title: int, border: int)
    requires Started(c) && width >= 0 && height >= 0
    ensures var step := StepSize(title, border); var roomX, roomY := RoomX(area, width), RoomY(area, height);
      var d := Advance(c, roomX, roomY, step);
      && Started(d.(count := d.count + 1))
      && (Inside(Box(area.x + OffsetX(d, roomX, step), area.y + d.count * step, width, height), area)
          <==> width <= area.width && height <= area.height)
  {
    var step := StepSize(title, border);
    var d := Advance(c, RoomX(area, width), RoomY(area, height), step);
    Scale(0, d.count, step);
  }

  /** The room is exactly how far a window that fits can be moved right and down inside the area. */
  lemma RoomExact(area: Box, width: int, height: int, dx: nat, dy: nat)
    requires 0 <= width <= area.width && 0 <= height <= area.height
    ensures Inside(Box(area.x + dx, area.y + dy, width, height), area)
            <==> dx <= RoomX(area, width) && dy <= RoomY(area, height)
  {
  }

  // ---- windows of one size ----

  /** The cursor after `k` placements of windows that leave the same room. */
  function After(k: nat, roomX: int, roomY: int, step: int): Cursor {
    if k == 0 then Cursor(0, 0)
    else
      var c := Advance(After(k - 1, roomX, roomY, step), roomX, roomY, step);
      c.(count := c.count + 1)
  }

  function Rows(roomY: int, step: int): (r: int)
    requires step > 0 && roomY >= 0
    ensures r > 0
  {
    roomY / step + 1
  }

  function Columns(roomX: int, step: int): (c: int)
    requires step > 0 && roomX >= 0
    ensures c > 0
  {
    roomX / (2 * step) + 1
  }

  /** A multiple of the step is within the room exactly when it is one of the rows. */
  lemma WithinRoom(n: int, room: int, step: int)
    requires step > 0 && room >= 0
    ensures n * step <= room <==> n <= room / step
  {
    var q := room / step;
    assert room == q * step + room % step;
    if n <= q {
      Scale(n, q, step);
    } else {
      Scale(q + 1, n, step);
      assert (q + 1) * step == q * step + step;
    }
  }

  /** Row and column of the `k`-th placement, counted from zero. */
  function Row(k: nat, roomY: int, step: int): int
    requires step > 0 && roomY >= 0
  {
    k % Rows(roomY, step)
  }

  function Column(k: nat, roomX: int, roomY: int, step: int): int
    requires step > 0 && roomX >= 0 && roomY >= 0
  {
    k / Rows(roomY, step) % Columns(roomX, step)
  }

  /** Where row and column of the next placement are. */
  lemma NextCell(k: nat, roomX: int, roomY: int, step: int)
    requires step > 0 && roomX >= 0 && roomY >= 0
    ensures var r, c := Row(k, roomY, step), Column(k, roomX, roomY, step);
      && 0 <= r < Rows(roomY, step) && 0 <= c < Columns(roomX, step)
      && (if r + 1 < Rows(roomY, step) then Row(k + 1, roomY, step) == r + 1 && Column(k + 1, roomX, roomY, step) == c
          else Row(k + 1, roomY, step) == 0
               && Column(k + 1, roomX, roomY, step) == if c + 1 < Columns(roomX, step) then c + 1 else 0)
  {
    var R, C := Rows(roomY, step), Columns(roomX, step);
    var q, r := k / R, k % R;
    assert k == q * R + r;
    if r + 1 < R {
      DivMod(k + 1, q, r + 1, R);
    } else {
      assert (q + 1) * R == q * R + R;
      DivMod(k + 1, q + 1, 0, R);
      var p, c := q / C, q % C;
      assert q == p * C + c;
      if c + 1 < C {
        DivMod(q + 1, p, c + 1, C);
      } else {
        assert (p + 1) * C == p * C + C;
        DivMod(q + 1, p + 1, 0, C);
      }
    }
  }

  lemma NextMultiple(n: int, step: int)
    ensures (n + 1) * step == n * step + step
  {
  }

  /** The cell after row `r` of column `c`. */
  lemma AdvanceFrom(r: int, c: int, roomX: int, roomY: int, step: int)
    requires step > 0 && roomX >= 0 && roomY >= 0
    requires 0 <= r < Rows(roomY, step) && 0 <= c < Columns(roomX, step)
    ensures Advance(Cursor(r + 1, c * (2 * step)), roomX, roomY, step) ==
      if r + 1 < Rows(roomY, step) then Cursor(r + 1, c * (2 * step))
      else Cursor(0, if c + 1 < Columns(roomX, step) then (c + 1) * (2 * step) else 0)
  {
    WithinRoom(r + 1, roomY, step);
    WithinRoom(c, roomX, 2 * step);
    WithinRoom(c + 1, roomX, 2 * step);
    NextMultiple(c, 2 * step);
  }

  /** The closed form: the `k`-th window goes to row `k mod R` of column `(k / R) mod C`. */
  lemma {:induction false} CascadeClosedForm(k: nat, roomX: int, roomY: int, step: int)
    requires step > 0 && roomX >= 0 && roomY >= 0
    ensures Advance(After(k, roomX, roomY, step), roomX, roomY, step)
            == Cursor(Row(k, roomY, step), Column(k, roomX, roomY, step) * (2 * step))
  {
    if k == 0 {
      DivMod(0, 0, 0, Rows(roomY, step));
      DivMod(0, 0, 0, Columns(roomX, step));
    } else {
      var r, c := Row(k - 1, roomY, step), Column(k - 1, roomX, roomY, step);
      CascadeClosedForm(k - 1, roomX, roomY, step);
      NextCell(k - 1, roomX, roomY, step);
      AdvanceFrom(r, c, roomX, roomY, step);
    }
  }

  /** ... which is the offset (min(2 step col + step row, room), step row) from the corner. */
  function CellX(k: nat, roomX: int, roomY: int, step: int): int
    requires step > 0 && roomX >= 0 && roomY >= 0
  {
    OffsetX(Cursor(Row(k, roomY, step), Column(k, roomX, roomY, step) * (2 * step)), roomX, step)
  }

  function CellY(k: nat, roomY: int, step: int): int
    requires step > 0 && roomY >= 0
  {
    Row(k, roomY, step) * step
  }

  /** ... as far as there is room to the right, and the next row is one step further right and down. */
  lemma CellSteps(k: nat, roomX: int, roomY: int, step: int)
    requires step > 0 && roomX >= 0 && roomY >= 0
    ensures var r, c := Row(k, roomY, step), Column(k, roomX, roomY, step);
      var x := 2 * step * c + step * r;
      && CellX(k, roomX, roomY, step) == (if x > roomX then roomX else x)
      && CellY(k, roomY, step) == step * r
      && CellX(0, roomX, roomY, step) == 0 && CellY(0, roomY, step) == 0
  {
    DivMod(0, 0, 0, Rows(roomY, step));
    DivMod(0, 0, 0, Columns(roomX, step));
    assert Column(k, roomX, roomY, step) * (2 * step) == 2 * step * Column(k, roomX, roomY, step);
  }

  /** Two windows land on the same spot if and only if they are in the same cell, or in the
      same row of two columns that both reach the right end of the room. */
  lemma SameSpot(k: nat, l: nat, roomX: int, roomY: int, step: int)
    requires step > 0 && roomX >= 0 && roomY >= 0
    ensures var r, c, d := Row(k, roomY, step), Column(k, roomX, roomY, step), Column(l, roomX, roomY, step);
      (CellX(k, roomX, roomY, step) == CellX(l, roomX, roomY, step) && CellY(k, roomY, step) == CellY(l, roomY, step))
      <==> r == Row(l, roomY, step)
           && (c == d || (c * (2 * step) + r * step >= roomX && d * (2 * step) + r * step >= roomX))
  {
    var r, s := Row(k, roomY, step), Row(l, roomY, step);
    var c, d := Column(k, roomX, roomY, step), Column(l, roomX, roomY, step);
    Different(r, s, step);
    Different(c, d, 2 * step);
  }

  lemma Different(a: int, b: int, n: int)
    requires n > 0
    ensures a * n == b * n <==> a == b
  {
    if a < b {
      Scale(a + 1, b, n);
      assert (a + 1) * n == a * n + n;
    } else if b < a {
      Scale(b + 1, a, n);
      assert (b + 1) * n == b * n + n;
    }
  }
}
