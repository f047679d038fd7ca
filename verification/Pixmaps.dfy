/** Reading a tray item's pixmaps: the best size is chosen and its straight alpha multiplied in. */
module Pixmaps {
  import opened Lists
  import opened Arith
  import opened TrayIcons

  /** Width, height, and bytes in the order alpha, red, green, blue. */
  datatype Pixmap = Pixmap(w: int, h: int, bytes: seq<nat>)

  const LARGEST := 1024

  function Abs(a: int): nat {
    if a < 0 then -a else a
  }

  function Distance(p: Pixmap, target: int): nat {
    Abs(p.w - target)
  }

  /** The first pixmap whose width is nearest to the target. */
  predicate Nearest(pixmaps: seq<Pixmap>, target: int, k: nat) {
    && k < |pixmaps|
    && (forall i :: 0 <= i < |pixmaps| ==> Distance(pixmaps[k], target) <= Distance(pixmaps[i], target))
    && (forall i :: 0 <= i < k ==> Distance(pixmaps[k], target) < Distance(pixmaps[i], target))
  }

  predicate Usable(p: Pixmap) {
    0 < p.w <= 1024 && 0 < p.h <= 1024 && 4 * (p.w * p.h) <= |p.bytes|
  }

  /** `c` times `a / 255`, rounded to nearest; `a` is neither 0 nor 255. */
  function Multiplied(c: nat, a: nat): nat {
    (c * a + 127) / 255
  }

  function Straight(p: Pixmap, i: nat): Pixel
    requires 4 * i + 3 < |p.bytes|
  {
    Pixel(p.bytes[4 * i], p.bytes[4 * i + 1], p.bytes[4 * i + 2], p.bytes[4 * i + 3])
  }

  function Premultiplied(p: Pixel): Pixel {
    if 0 < p.a < 255 then Pixel(p.a, Multiplied(p.r, p.a), Multiplied(p.g, p.a), Multiplied(p.b, p.a)) else p
  }

  predicate Converted(p: Pixmap, icon: Icon) {
    && Usable(p) && icon.w == p.w && icon.h == p.h && |icon.pixels| == p.w * p.h
    && forall i :: 0 <= i < |icon.pixels| ==> icon.pixels[i] == Premultiplied(Straight(p, i))
  }

  /** Every pixel of a usable pixmap can be read, and one that can be read and is not too large is usable. */
  lemma UsableExactly(p: Pixmap)
    ensures Usable(p)
            <==> 0 < p.w <= 1024 && 0 < p.h <= 1024 && forall i: nat :: i < p.w * p.h ==> 4 * i + 3 < |p.bytes|
  {
    if 0 < p.w && 0 < p.h {
      var n := p.w * p.h;
      Scale(1, p.w, p.h);
      if forall i: nat :: i < n ==> 4 * i + 3 < |p.bytes| {
        assert 4 * (n - 1) + 3 < |p.bytes|;
      }
    }
  }

  /** The width of the pixmap that is picked is as near to the target as any, and nearer than that of
      each one before it. */
  lemma NearestIs(pixmaps: seq<Pixmap>, target: int, k: nat, i: nat)
    requires Nearest(pixmaps, target, k) && i < |pixmaps|
    ensures var d := if pixmaps[k].w < target then target - pixmaps[k].w else pixmaps[k].w - target;
      && (pixmaps[i].w <= target - d || pixmaps[i].w >= target + d)
      && (i < k ==> pixmaps[i].w < target - d || pixmaps[i].w > target + d)
  {
  }

  method PickPixmap(pixmaps: seq<Pixmap>, target: int) returns (k: nat)
    requires pixmaps != []
    ensures Nearest(pixmaps, target, k)
  {
    k := 0;
    var least := Distance(pixmaps[0], target);
    for i := 0 to |pixmaps|
      invariant k < |pixmaps| && k <= i && least == Distance(pixmaps[k], target)
      invariant forall j :: 0 <= j < i ==> least <= Distance(pixmaps[j], target)
      invariant forall j :: 0 <= j < k ==> least < Distance(pixmaps[j], target)
    {
      var d := Distance(pixmaps[i], target);
      if d < least {
        k, least := i, d;
      }
    }
  }

  method DecodePixmaps(pixmaps: seq<Pixmap>, target: int) returns (icon: Option<Icon>)
    ensures icon.Some? ==> exists k: nat :: Nearest(pixmaps, target, k) && Converted(pixmaps[k], icon.value)
    ensures icon.None? ==> pixmaps == [] || exists k: nat :: Nearest(pixmaps, target, k) && !Usable(pixmaps[k])
  {
    if pixmaps == [] {
      return None;
    }
    var k := PickPixmap(pixmaps, target);
    var p := pixmaps[k];
    if p.w <= 0 || p.h <= 0 || p.w > LARGEST || p.h > LARGEST {
      return None;
    }
    var count := p.w * p.h;
    if |p.bytes| < count * 4 {
      return None;
    }
    var pixels := Convert(p, count);
    icon := Some(Icon(p.w, p.h, pixels));
    assert Converted(p, icon.value);
  }

  method Convert(p: Pixmap, count: nat) returns (pixels: seq<Pixel>)
    requires 4 * count <= |p.bytes|
    ensures |pixels| == count
    ensures forall i :: 0 <= i < count ==> pixels[i] == Premultiplied(Straight(p, i))
  {
    pixels := [];
    for i := 0 to count
      invariant |pixels| == i
      invariant forall j :: 0 <= j < i ==> pixels[j] == Premultiplied(Straight(p, j))
    {
      var a, r, g, b := p.bytes[4 * i], p.bytes[4 * i + 1], p.bytes[4 * i + 2], p.bytes[4 * i + 3];
      if a > 0 && a < 255 {
        r := (r * a + 127) / 255;
        g := (g * a + 127) / 255;
        b := (b * a + 127) / 255;
      }
      pixels := pixels + [Pixel(a, r, g, b)];
    }
  }

  predicate Byte(c: nat) {
    c < 256
  }

  predicate Bytes(p: Pixel) {
    Byte(p.a) && Byte(p.r) && Byte(p.g) && Byte(p.b)
  }

  /** No colour is stronger than the alpha, as the drawing library demands of its surfaces. */
  predicate Sound(p: Pixel) {
    p.r <= p.a && p.g <= p.a && p.b <= p.a
  }

  /** The product is rounded to nearest: no other byte is as near to `c * a / 255`. */
  lemma MultipliedNearest(c: nat, a: nat)
    ensures -127 <= c * a - 255 * Multiplied(c, a) <= 127
  {
  }

  lemma MultipliedAtMost(c: nat, a: nat)
    requires Byte(c) && 0 < a < 255
    ensures Multiplied(c, a) <= a
  {
    Scale(c, 255, a);
    var q := Multiplied(c, a);
    assert c * a + 127 == q * 255 + (c * a + 127) % 255;
  }

  /** The conversion makes a sound pixel of every pixel but one: a fully transparent pixel that
      still has a colour is passed on as it is. */
  lemma PremultipliedSound(p: Pixel)
    requires Bytes(p)
    ensures Sound(Premultiplied(p)) <==> p.a > 0 || (p.r == 0 && p.g == 0 && p.b == 0)
    ensures Bytes(Premultiplied(p))
  {
    if 0 < p.a < 255 {
      MultipliedAtMost(p.r, p.a);
      MultipliedAtMost(p.g, p.a);
      MultipliedAtMost(p.b, p.a);
    }
  }

  /** Each colour is multiplied by the alpha of its own pixel, to the nearest byte; the alpha stays, and
      so does a pixel that is opaque or fully transparent. */
  lemma PremultipliedEach(p: Pixel)
    ensures var q := Premultiplied(p);
      && q.a == p.a && (p.a == 0 || p.a >= 255 ==> q == p)
      && (0 < p.a < 255 ==>
            && -127 <= p.r * p.a - 255 * q.r <= 127
            && -127 <= p.g * p.a - 255 * q.g <= 127
            && -127 <= p.b * p.a - 255 * q.b <= 127)
  {
    MultipliedNearest(p.r, p.a);
    MultipliedNearest(p.g, p.a);
    MultipliedNearest(p.b, p.a);
  }

  /** The most significant byte, which comes first, is the alpha, then red, green and blue. */
  lemma NetworkOrder(p: Pixmap, before: seq<nat>, a: nat, r: nat, g: nat, b: nat, after: seq<nat>, i: nat)
    requires p.bytes == before + [a, r, g, b] + after && |before| == 4 * i
    ensures Straight(p, i) == Pixel(a, r, g, b)
  {
  }
}
