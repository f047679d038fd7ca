/** Outputs as the program keeps them: objects in a list, whose fields are set in loops. Each
    handler is proved to make the transition of `Outputs`. */
module OutputLists {
  import opened Lists
  import O = Outputs

  class OutputItem {
    const name: string
    var scene: bool
    var inLayout: bool
    var bar: Option<nat>

    constructor (name: string)
      ensures this.name == name && Model() == O.Output(name, false, false, None)
    {
      this.name, scene, inLayout, bar := name, false, false, None;
    }

    function Model(): O.Output
      reads this
    {
      O.Output(name, scene, inLayout, bar)
    }

    method ApplyConfig(enable: bool)
      modifies this
      ensures Model() == O.Configured(old(Model()), enable)
    {
      if !enable {
        if bar.Some? {
          bar := None;
        }
        inLayout := false;
        scene := false;
        return;
      }
      inLayout := true;
      if !scene {
        scene := true;
      }
    }
  }

  function Models(items: seq<OutputItem>): (r: seq<O.Output>)
    reads items
    ensures |r| == |items| && forall i :: 0 <= i < |r| ==> r[i] == items[i].Model()
  {
    seq(|items|, i reads items requires 0 <= i < |items| => items[i].Model())
  }

  lemma ModelsCons(out: OutputItem, rest: seq<OutputItem>)
    ensures Models([out] + rest) == [out.Model()] + Models(rest)
  {
  }

  class OutputList {
    var outputs: seq<OutputItem>
    var everywhere: bool
    var next: nat

    constructor ()
      ensures Valid() && Model() == O.START
    {
      outputs, everywhere, next := [], false, 0;
    }

    ghost predicate Valid()
      reads this
    {
      Distinct(outputs)
    }

    function Model(): O.State
      reads this, outputs
    {
      O.State(Models(outputs), everywhere, next)
    }

    method AnyTaskbar() returns (any: bool)
      ensures any == O.AnyTaskbar(Models(outputs))
    {
      for i := 0 to |outputs|
        invariant forall j :: 0 <= j < i ==> outputs[j].bar.None?
      {
        if outputs[i].bar.Some? {
          assert Models(outputs)[i].bar.Some?;
          return true;
        }
      }
      return false;
    }

    method CreateTaskbar(out: OutputItem)
      modifies `next, out`bar
      ensures out.bar == Some(old(next)) && next == old(next) + 1
    {
      out.bar := Some(next);
      next := next + 1;
    }

    method OnNew(name: string, enable: bool)
      requires Valid()
      modifies this
      ensures Valid() && Model() == O.New(old(Model()), name, enable)
    {
      ghost var rest := outputs;
      var out := Insert(name);
      var any := AnyTaskbar();
      ModelsCons(out, rest);
      HeadWithout(out.Model(), Models(rest));
      SetUp(out, enable, any);
      ModelsCons(out, rest);
    }

    method Insert(name: string) returns (out: OutputItem)
      modifies `outputs
      ensures fresh(out) && outputs == [out] + old(outputs)
      ensures out.Model() == O.Output(name, false, false, None)
    {
      out := new OutputItem(name);
      outputs := [out] + outputs;
    }

    /** Gives a new output its bar, if it is to have one, before it enters the layout. */
    method SetUp(out: OutputItem, enable: bool, any: bool)
      modifies `next, out
      ensures var gets := enable && (everywhere || !any);
        && out.Model() == O.Configured(old(out.Model()).(bar := if gets then Some(old(next)) else old(out.bar)), enable)
        && next == if gets then old(next) + 1 else old(next)
    {
      if enable && (everywhere || !any) {
        CreateTaskbar(out);
      }
      out.ApplyConfig(enable);
    }

    method OnDestroy(k: nat)
      requires Valid() && k < |outputs|
      modifies `outputs, outputs
      ensures Valid() && Model() == O.Destroy(old(Model()), k)
    {
      var out := outputs[k];
      if out.bar.Some? {
        out.bar := None;
      }
      outputs := outputs[..k] + outputs[k + 1..];
      assert Models(outputs) == O.Destroy(old(Model()), k).outputs;
    }

    method FindPrimary() returns (primary: Option<nat>)
      ensures primary == O.Primary(Models(outputs))
    {
      primary := None;
      ghost var all := Models(outputs);
      for k := |outputs| downto 0
        invariant O.Primary(all) == O.Scan(all, k, primary)
      {
        var out := outputs[k];
        if !out.scene {
          continue;
        }
        if primary.None? {
          primary := Some(k);
        }
        if out.bar.Some? {
          primary := Some(k);
          break;
        }
      }
    }

    method EnsureTaskbars()
      requires Valid()
      modifies `next, outputs
      ensures Valid() && Model() == O.Ensure(old(Model()))
    {
      var primary := FindPrimary();
      GiveBars(primary);
    }

    method GiveBars(primary: Option<nat>)
      requires Valid()
      modifies `next, outputs
      ensures Model() == O.SettledWith(old(Model()), primary)
    {
      ghost var s := Model();
      for k := 0 to |outputs|
        invariant Valid() && O.Halfway(s, primary, k, Model())
      {
        O.HalfwayNext(s, primary, k, Model());
        EnsureAt(k, primary);
      }
      O.HalfwayEnd(s, primary, Model());
    }

    method EnsureAt(k: nat, primary: Option<nat>)
      requires Valid() && k < |outputs|
      modifies `next, outputs
      ensures Model() == O.GivenAt(old(Model()), primary, k)
    {
      var out := outputs[k];
      EnsureOne(out, out.scene && (everywhere || primary == Some(k)));
      assert Models(outputs) == old(Models(outputs))[k := out.Model()];
    }

    method EnsureOne(out: OutputItem, needs: bool)
      modifies `next, out`bar
      ensures out.Model() == O.Given(old(out.Model()), needs, old(next))
      ensures next == O.NextAfter(old(out.Model()), needs, old(next))
    {
      if needs && out.bar.None? {
        CreateTaskbar(out);
      } else if !needs && out.bar.Some? {
        out.bar := None;
      }
    }

    method ConfigureAll(disabled: set<string>)
      requires Valid()
      modifies outputs
      ensures Models(outputs) == O.ConfiguredAll(old(Models(outputs)), disabled)
    {
      for k := 0 to |outputs|
        invariant forall j :: 0 <= j < k ==> outputs[j].Model() == O.ConfiguredAll(old(Models(outputs)), disabled)[j]
        invariant forall j :: k <= j < |outputs| ==> outputs[j].Model() == old(Models(outputs))[j]
      {
        outputs[k].ApplyConfig(outputs[k].name !in disabled);
      }
    }

    /** The configuration has been read again. */
    method ReconfigureAll(everywhere: bool, disabled: set<string>)
      requires Valid()
      modifies `everywhere, `next, outputs
      ensures Valid() && Model() == O.Reload(old(Model()), everywhere, disabled)
    {
      this.everywhere := everywhere;
      ConfigureAll(disabled);
      EnsureTaskbars();
    }

    method FindOutput(name: string) returns (k: nat)
      ensures k == O.Find(Models(outputs), name)
    {
      ghost var all := Models(outputs);
      assert all[0..] == all;
      k := 0;
      while k < |outputs|
        invariant k <= |outputs| && O.Find(all, name) == O.Find(all[k..], name) + k
      {
        if outputs[k].name == name {
          return;
        }
        assert all[k..][1..] == all[k + 1..];
        k := k + 1;
      }
    }

    method ApplyHead(h: O.Head)
      requires Valid()
      modifies outputs
      ensures Models(outputs) == O.ApplyHead(old(Models(outputs)), h)
    {
      var k := FindOutput(h.name);
      if k == |outputs| {
        return;
      }
      outputs[k].ApplyConfig(h.enabled);
      assert Models(outputs) == O.ApplyHead(old(Models(outputs)), h);
    }

    /** An output manager asks for a new arrangement; `committed` is whether the backend took it. */
    method OnOutputMgrApply(heads: seq<O.Head>, committed: bool) returns (succeeded: bool)
      requires Valid()
      modifies `next, outputs
      ensures Valid() && succeeded == committed
      ensures Model() == if committed then O.Manage(old(Model()), heads) else old(Model())
    {
      if !committed {
        return false;
      }
      for k := 0 to |heads|
        invariant next == old(next) && Models(outputs) == O.ApplyHeads(old(Models(outputs)), heads, k)
      {
        ApplyHead(heads[k]);
      }
      EnsureTaskbars();
      return true;
    }
  }

  lemma HeadWithout(o: O.Output, rest: seq<O.Output>)
    requires o.bar.None?
    ensures O.AnyTaskbar([o] + rest) == O.AnyTaskbar(rest)
  {
    assert forall i :: 0 <= i < |rest| ==> ([o] + rest)[i + 1] == rest[i];
  }
}
