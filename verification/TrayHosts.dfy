/** The tray host and the bars that show it, as the program runs them. Each handler is proved to
    make the transition of `TrayIcons`. */
module TrayHosts {
  import opened Lists
  import T = TrayIcons

  class BarView {
    var width: int
    var height: int
    var buffers: seq<T.Buffer>

    constructor (height: int)
      ensures Model() == T.Bar(0, height, [])
    {
      this.width, this.height, this.buffers := 0, height, [];
    }

    function Model(): T.Bar
      reads this
    {
      T.Bar(width, height, buffers)
    }

    /** The tray's part of drawing the bar. */
    method Layout(items: seq<T.Item>, pad: int)
      modifies `buffers
      ensures Model() == T.LaidOut(old(Model()), items, pad)
    {
      if width <= 0 || height <= 0 {
        return;
      }
      FitBuffers(items);
      var size := height - 2 * pad;
      if size < 1 {
        size := 1;
      }
      ghost var was, all := old(buffers), T.Redrawn(old(buffers), items, size);
      for i := 0 to |items|
        invariant |buffers| == |items|
        invariant forall j :: 0 <= j < i ==> buffers[j] == all[j]
        invariant forall j :: i <= j < |items| ==> buffers[j] == T.BufferAt(was, j)
      {
        var b, item := buffers[i], items[i];
        if b.item != Some(item.address) || b.gen != item.gen || b.size != size {
          buffers := buffers[i := T.Buffer(Some(item.address), item.gen, size, T.Drawing(item.icon, size))];
        }
      }
      assert buffers == all;
    }

    /** As many buffers as items. */
    method FitBuffers(items: seq<T.Item>)
      modifies `buffers
      ensures |buffers| == |items|
      ensures forall j :: 0 <= j < |items| ==> buffers[j] == T.BufferAt(old(buffers), j)
    {
      while |buffers| < |items|
        invariant |old(buffers)| <= |buffers| || buffers == old(buffers)
        invariant |buffers| <= |items| || buffers == old(buffers)
        invariant forall j :: 0 <= j < |buffers| ==> buffers[j] == T.BufferAt(old(buffers), j)
      {
        buffers := buffers + [T.NEW_BUFFER];
      }
      while |buffers| > |items|
        invariant |buffers| >= |items|
        invariant forall j :: 0 <= j < |buffers| ==> buffers[j] == T.BufferAt(old(buffers), j)
      {
        buffers := buffers[..|buffers| - 1];
      }
    }
  }

  class TrayHost {
    var items: seq<T.Item>
    var bars: seq<BarView>
    const pad: int

    constructor (pad: int)
      ensures Valid() && Model() == T.Tray([], [], pad)
    {
      this.pad, this.items, this.bars := pad, [], [];
    }

    ghost predicate Valid()
      reads this
    {
      Distinct(bars)
    }

    ghost function Model(): T.Tray
      reads this, bars
    {
      var views := bars;
      T.Tray(items, seq(|views|, k reads views requires 0 <= k < |views| => views[k].Model()), pad)
    }

    method RefreshAll()
      requires Valid()
      modifies bars
      ensures Valid() && Model() == T.Refreshed(old(Model()))
    {
      for k := 0 to |bars|
        invariant forall j :: 0 <= j < k ==> bars[j].Model() == T.LaidOut(old(bars[j].Model()), items, pad)
        invariant forall j :: k <= j < |bars| ==> bars[j].Model() == old(bars[j].Model())
      {
        bars[k].Layout(items, pad);
      }
    }

    /** A service announces an item; `address` is where the new item is put, `proxied` whether a
        proxy can be made for it. */
    method HandleRegister(service: string, sender: string, address: nat, proxied: bool)
      requires Valid()
      modifies `items, bars
      ensures Valid() && Model() == T.Register(old(Model()), service, sender, address, proxied)
    {
      if service == "" {
        return;
      }
      var bus, path := service, T.DEFAULT_PATH;
      if service[0] == '/' {
        bus, path := sender, service;
      }
      for i := 0 to |items|
        invariant forall j :: 0 <= j < i ==> !T.Same(items[j], bus, path)
      {
        if items[i].bus == bus && items[i].path == path {
          assert T.Same(old(Model()).items[i], bus, path);
          return;
        }
      }
      assert !T.Known(old(Model()).items, bus, path);
      if !proxied {
        return;
      }
      items := items + [T.Item(bus, path, address, 0, T.NO_ICON)];
      assert Model() == old(Model()).(items := items);
      RefreshAll();
    }

    method HandleUnregister(bus: string)
      requires Valid()
      modifies `items, bars
      ensures Valid() && Model() == T.Unregister(old(Model()), bus)
    {
      var changed := Erase(bus);
      assert Model() == old(Model()).(items := items);
      if changed {
        RefreshAll();
      }
    }

    /** Erases every item of a bus name. */
    method Erase(bus: string) returns (changed: bool)
      modifies `items
      ensures items == Filter(old(items), T.OtherBus(bus))
      ensures changed <==> |items| != |old(items)|
      ensures !changed ==> items == old(items)
    {
      changed := false;
      var i := 0;
      ghost var p := T.OtherBus(bus);
      while i < |items|
        invariant i <= |items| <= |old(items)|
        invariant changed <==> |items| != |old(items)|
        invariant !changed ==> items == old(items)
        invariant items[..i] + Filter(items[i..], p) == Filter(old(items), p)
        decreases |items| - i
      {
        EraseStep(items, i, p);
        if items[i].bus == bus {
          items := items[..i] + items[i + 1..];
          changed := true;
        } else {
          i := i + 1;
        }
      }
      assert items[..i] == items && items[i..] == [];
    }

    /** A new icon for an item has been read. */
    method IconRead(i: nat, icon: T.Icon)
      requires Valid() && i < |items|
      modifies `items, bars
      ensures Valid() && Model() == T.IconChanged(old(Model()), i, icon)
    {
      items := items[i := items[i].(icon := icon, gen := (items[i].gen + 1) % T.GENERATIONS)];
      assert Model() == old(Model()).(items := items);
      RefreshAll();
    }

    method AddBar(height: int)
      requires Valid()
      modifies `bars
      ensures Valid() && Model() == old(Model()).(bars := old(Model()).bars + [T.Bar(0, height, [])])
    {
      var bar := new BarView(height);
      bars := bars + [bar];
      assert Model().bars == old(Model()).bars + [T.Bar(0, height, [])];
    }

    method RemoveBar(k: nat)
      requires Valid() && k < |bars|
      modifies `bars
      ensures Valid() && Model() == T.Step(old(Model()), T.BarDeleted(k))
    {
      bars := bars[..k] + bars[k + 1..];
      assert Model().bars == T.Step(old(Model()), T.BarDeleted(k)).bars;
    }

    method Draw(k: nat)
      requires Valid() && k < |bars|
      modifies bars
      ensures Valid() && Model() == T.Step(old(Model()), T.BarDrawn(k))
    {
      bars[k].Layout(items, pad);
      assert Model().bars == T.Step(old(Model()), T.BarDrawn(k)).bars;
    }

    method Resize(k: nat, width: int, depth: int, height: int)
      requires Valid() && k < |bars|
      modifies bars
      ensures Valid() && Model() == T.Resized(old(Model()), k, width, depth, height)
    {
      var bar := bars[k];
      if width <= 0 || depth <= 0 {
        return;
      }
      bar.width, bar.height := width, height;
      bar.Layout(items, pad);
      assert Model().bars == T.Resized(old(Model()), k, width, depth, height).bars;
    }
  }

  lemma EraseStep(s: seq<T.Item>, i: nat, p: T.Item -> bool)
    requires i < |s|
    ensures var kept := s[..i] + Filter(s[i..], p);
      if p(s[i]) then kept == s[..i + 1] + Filter(s[i + 1..], p)
      else var r := s[..i] + s[i + 1..]; kept == r[..i] + Filter(r[i..], p)
  {
    assert s[i..] == [s[i]] + s[i + 1..];
    FilterCons(s[i], s[i + 1..], p);
    if p(s[i]) {
      assert s[..i + 1] == s[..i] + [s[i]];
    } else {
      var r := s[..i] + s[i + 1..];
      assert r[..i] == s[..i] && r[i..] == s[i + 1..];
    }
  }
}
