/** The commands that the configuration starts: each once, however often it is read again. */
module Execs {
  import opened Lists

  const MAX_EXECS := 64
  const MAX_CMD := 512

  /** A command up to its first NUL. */
  function UpToNul(cmd: string): (r: string) {
    if cmd == "" || cmd[0] == '\0' then "" else [cmd[0]] + UpToNul(cmd[1..])
  }

  /** What a slot of the table holds of a command. */
  function Stored(cmd: string): (r: string)
    ensures |r| < MAX_CMD
  {
    var s := UpToNul(cmd);
    if |s| < MAX_CMD then s else s[..MAX_CMD - 1]
  }

  /** A slot holds the longest part of a command that has no NUL and is at most 511 characters long. */
  lemma {:induction false} StoredLongest(cmd: string)
    ensures var s := Stored(cmd);
      && s <= cmd && '\0' !in s && |s| <= 511
      && (|s| == 511 || |s| == |cmd| || cmd[|s|] == '\0')
  {
    UpToNulIs(cmd);
  }

  lemma {:induction false} UpToNulIs(cmd: string)
    ensures var s := UpToNul(cmd); s <= cmd && '\0' !in s && (|s| == |cmd| || cmd[|s|] == '\0')
  {
    if cmd != "" && cmd[0] != '\0' {
      UpToNulIs(cmd[1..]);
    }
  }

  /** The commands queued by a configuration that calls `exec` with these; the call that finds the
      table full ends it. */
  function Queued(script: seq<string>): seq<string> {
    var n := if |script| < MAX_EXECS then |script| else MAX_EXECS;
    seq(n, i requires 0 <= i < n => Stored(script[i]))
  }

  /** The commands remembered as started, and all starts in order. */
  datatype Record = Record(ran: seq<string>, log: seq<string>)

  const START := Record([], [])

  function Launch(r: Record, c: string): Record {
    if c in r.ran then r
    else Record(if |r.ran| < MAX_EXECS then r.ran + [c] else r.ran, r.log + [c])
  }

  function LaunchAll(r: Record, cs: seq<string>): Record {
    if cs == [] then r else Launch(LaunchAll(r, cs[..|cs| - 1]), cs[|cs| - 1])
  }

  /** The configuration is read several times. */
  function Reloads(r: Record, scripts: seq<seq<string>>): Record {
    if scripts == [] then r else LaunchAll(Reloads(r, scripts[..|scripts| - 1]), Queued(scripts[|scripts| - 1]))
  }

  // ---- the fixed tables ----

  class Config {
    const execs: array<string>
    const ranExecs: array<string>
    var nexecs: nat
    var nran: nat
    ghost var log: seq<string>   // what was started

    ghost predicate Valid()
      reads this, execs, ranExecs
    {
      && execs != ranExecs
      && execs.Length == MAX_EXECS && ranExecs.Length == MAX_EXECS
      && nexecs <= MAX_EXECS && nran <= MAX_EXECS
    }

    constructor ()
      ensures Valid() && fresh(execs) && fresh(ranExecs)
      ensures nexecs == 0 && Model() == START
    {
      execs := new string[MAX_EXECS](i => "");
      ranExecs := new string[MAX_EXECS](i => "");
      nexecs, nran, log := 0, 0, [];
    }

    ghost function Model(): Record
      reads this, execs, ranExecs
      requires Valid()
    {
      Record(ranExecs[..nran], log)
    }

    /** One call of `exec`; false is the error that ends the configuration. */
    method LuaExec(cmd: string) returns (ok: bool)
      requires Valid()
      modifies `nexecs, execs
      ensures Valid() && Model() == old(Model())
      ensures ok == (old(nexecs) < MAX_EXECS)
      ensures execs[..nexecs] == if ok then old(execs[..nexecs]) + [Stored(cmd)] else old(execs[..nexecs])
    {
      if nexecs >= MAX_EXECS {
        return false;
      }
      ghost var was := execs[..nexecs];
      execs[nexecs] := Stored(cmd);
      nexecs := nexecs + 1;
      assert execs[..nexecs] == was + [Stored(cmd)];
      return true;
    }

    /** Reads a configuration that makes these calls. */
    method Load(script: seq<string>)
      requires Valid() && nexecs == 0
      modifies `nexecs, execs
      ensures Valid() && Model() == old(Model())
      ensures execs[..nexecs] == Queued(script)
    {
      for i := 0 to |script|
        invariant Valid() && Model() == old(Model())
        invariant nexecs == i && execs[..nexecs] == Queued(script)[..i] && i <= |Queued(script)|
      {
        var ok := LuaExec(script[i]);
        if !ok {
          return;
        }
      }
    }

    /** Whether a command has been started. */
    method Already(c: string) returns (already: bool)
      requires Valid()
      ensures already == (c in ranExecs[..nran])
    {
      for j := 0 to nran
        invariant c !in ranExecs[..j]
      {
        if c == ranExecs[j] {
          assert ranExecs[..nran][j] == c;
          return true;
        }
      }
      return false;
    }

    method RunExecs()
      requires Valid()
      modifies `nran, `log, ranExecs
      ensures Valid() && execs[..] == old(execs[..])
      ensures Model() == LaunchAll(old(Model()), execs[..nexecs])
    {
      ghost var queue := execs[..nexecs];
      for i := 0 to nexecs
        invariant Valid() && execs[..nexecs] == queue
        invariant Model() == LaunchAll(old(Model()), queue[..i])
      {
        assert queue[..i + 1][..i] == queue[..i];
        RunOne(execs[i]);
      }
      assert queue[..nexecs] == queue;
    }

    method RunOne(c: string)
      requires Valid()
      modifies `nran, `log, ranExecs
      ensures Valid() && Model() == Launch(old(Model()), c)
    {
      var already := Already(c);
      if already {
        return;
      }
      ghost var was := ranExecs[..nran];
      if nran < MAX_EXECS {
        ranExecs[nran] := c;
        nran := nran + 1;
        assert ranExecs[..nran] == was + [c];
      }
      log := log + [c];
    }

    method Reload(script: seq<string>)
      requires Valid()
      modifies this, execs, ranExecs
      ensures Valid() && Model() == LaunchAll(old(Model()), Queued(script))
    {
      nexecs := 0;
      Load(script);
      RunExecs();
    }
  }

  // ---- what is started, and how often ----

  lemma {:induction false} LaunchAllAppend(r: Record, a: seq<string>, b: seq<string>)
    ensures LaunchAll(r, a + b) == LaunchAll(LaunchAll(r, a), b)
    decreases |b|
  {
    if b == [] {
      assert a + b == a;
    } else {
      var n := |b| - 1;
      assert (a + b)[..|a + b| - 1] == a + b[..n];
      LaunchAllAppend(r, a, b[..n]);
    }
  }

  function Flatten(scripts: seq<seq<string>>): seq<string> {
    if scripts == [] then [] else Flatten(scripts[..|scripts| - 1]) + Queued(scripts[|scripts| - 1])
  }

  /** Only the order of the calls matters, not how they are spread over reloads. */
  lemma {:induction false} ReloadsFlatten(r: Record, scripts: seq<seq<string>>)
    ensures Reloads(r, scripts) == LaunchAll(r, Flatten(scripts))
    decreases |scripts|
  {
    if scripts != [] {
      var n := |scripts| - 1;
      ReloadsFlatten(r, scripts[..n]);
      LaunchAllAppend(r, Flatten(scripts[..n]), Queued(scripts[n]));
    }
  }

  /** The different commands in the order in which each comes first. */
  function Firsts(cs: seq<string>): (r: seq<string>)
    ensures forall c :: c in r <==> c in cs
  {
    if cs == [] then []
    else
      var n := |cs| - 1;
      var r := Firsts(cs[..n]);
      assert cs == cs[..n] + [cs[n]];
      if cs[n] in r then r else r + [cs[n]]
  }

  function Remembered(cs: seq<string>): seq<string> {
    var f := Firsts(cs);
    if |f| < MAX_EXECS then f else f[..MAX_EXECS]
  }

  /** How often a command is started: once when it is among the first 64 different ones, and
      otherwise every time it is asked for. */
  function Starts(cs: seq<string>, c: string): nat {
    if c in Remembered(cs) then 1 else multiset(cs)[c]
  }

  lemma {:induction false} StartedExactly(cs: seq<string>, c: string)
    ensures var r := LaunchAll(START, cs);
      r.ran == Remembered(cs) && multiset(r.log)[c] == Starts(cs, c)
    decreases |cs|
  {
    if cs != [] {
      var n := |cs| - 1;
      var was, last := cs[..n], cs[n];
      assert cs == was + [last];
      StartedExactly(was, c);
      RememberedNext(was, last);
      if last !in Remembered(was) {
        assert c !in Remembered(was) && c in Remembered(cs) ==> c == last;
      }
    }
  }

  lemma RememberedNext(was: seq<string>, last: string)
    ensures var r := Remembered(was);
      && Remembered(was + [last]) == (if last !in r && |r| < MAX_EXECS then r + [last] else r)
      && (last !in r && |r| < MAX_EXECS ==> multiset(was)[last] == 0)
  {
    assert (was + [last])[..|was|] == was;
    if |Firsts(was)| < MAX_EXECS {
      assert last in multiset(was) <==> last in was;
    }
  }

  lemma {:induction false} DistinctCounts(s: seq<string>)
    ensures Distinct(s) <==> forall c :: multiset(s)[c] <= 1
  {
    if s != [] {
      var n := |s| - 1;
      assert s == s[..n] + [s[n]];
      DistinctCounts(s[..n]);
      assert s[n] in s[..n] <==> multiset(s[..n])[s[n]] > 0;
      if s[n] in s[..n] {
        var i :| 0 <= i < n && s[..n][i] == s[n];
        assert s[i] == s[n] && multiset(s)[s[n]] >= 2;
      } else {
        assert Distinct(s[..n]) ==> Distinct(s);
        assert forall c :: multiset(s)[c] == multiset(s[..n])[c] + if c == s[n] then 1 else 0;
      }
    }
  }

  ghost predicate AskedOnce(cs: seq<string>, c: string) {
    c in cs && c !in Remembered(cs) ==> multiset(cs)[c] == 1
  }

  /** No command is started twice, over any number of reloads, if and only if each of those beyond
      the first 64 different ones is asked for only once. */
  lemma NeverTwiceExact(scripts: seq<seq<string>>)
    ensures var cs := Flatten(scripts);
      Distinct(Reloads(START, scripts).log) <==> forall c :: AskedOnce(cs, c)
  {
    var cs := Flatten(scripts);
    var log := Reloads(START, scripts).log;
    ReloadsFlatten(START, scripts);
    DistinctCounts(log);
    forall c
      ensures multiset(log)[c] == Starts(cs, c)
      ensures Starts(cs, c) <= 1 <==> AskedOnce(cs, c)
    {
      StartedExactly(cs, c);
      assert c in multiset(cs) <==> c in cs;
    }
    assert (forall c :: multiset(log)[c] <= 1) <==> (forall c :: AskedOnce(cs, c));
  }

  /** With at most 64 different commands in all, every one is started exactly once. */
  lemma UpToLimitOnce(scripts: seq<seq<string>>, c: string)
    requires |Firsts(Flatten(scripts))| <= 64
    ensures multiset(Reloads(START, scripts).log)[c] == if c in Flatten(scripts) then 1 else 0
  {
    ReloadsFlatten(START, scripts);
    StartedExactly(Flatten(scripts), c);
    var f := Firsts(Flatten(scripts));
    if |f| == MAX_EXECS {
      assert f[..MAX_EXECS] == f;
    }
  }

  // ---- more commands than are remembered ----

  /** Commands that differ in their length. */
  function Command(n: nat): string {
    seq(n + 1, i => 'a')
  }

  function Commands(n: nat): seq<string> {
    seq(n, i requires 0 <= i < n => Command(i))
  }

  lemma {:induction false} UpToNulWhole(cmd: string)
    requires '\0' !in cmd
    ensures UpToNul(cmd) == cmd
  {
    if cmd != "" {
      UpToNulWhole(cmd[1..]);
    }
  }

  lemma CommandStored(n: nat)
    requires n < MAX_CMD - 1
    ensures Stored(Command(n)) == Command(n)
  {
    UpToNulWhole(Command(n));
  }

  lemma CommandNew(n: nat)
    ensures Command(n) !in Commands(n)
  {
    forall i | 0 <= i < n
      ensures Commands(n)[i] != Command(n)
    {
      assert |Command(i)| == i + 1 && |Command(n)| == n + 1;
    }
  }

  lemma {:induction false} CommandsFirst(n: nat)
    ensures Firsts(Commands(n)) == Commands(n)
  {
    if n > 0 {
      assert Commands(n)[..n - 1] == Commands(n - 1);
      CommandsFirst(n - 1);
      CommandNew(n - 1);
    }
  }

  /** Three configurations: the first starts 64 commands, the next two one more and the same. */
  function Restarting(): seq<seq<string>> {
    [Commands(MAX_EXECS), [Command(MAX_EXECS)], [Command(MAX_EXECS)]]
  }

  lemma RestartingFlat()
    ensures Flatten(Restarting()) == Commands(MAX_EXECS) + [Command(MAX_EXECS), Command(MAX_EXECS)]
  {
    var r := Restarting();
    var all, last := Commands(MAX_EXECS), Command(MAX_EXECS);
    forall i | 0 <= i <= MAX_EXECS
      ensures Stored(Command(i)) == Command(i)
    {
      CommandStored(i);
    }
    assert Queued(all) == all && Queued([last]) == [last];
    assert r[..2] == [all, [last]] && r[..2][..1] == [all] && [all][..0] == [];
    assert Flatten([all]) == all;
    assert Flatten([all, [last]]) == all + [last];
  }

  lemma AskedTwice(all: seq<string>, c: string)
    requires c !in all && |all| == MAX_EXECS && Firsts(all) == all && Firsts(all + [c]) == all + [c]
    ensures Starts(all + [c, c], c) == 2
  {
    var cs := all + [c, c];
    assert cs[..|cs| - 1] == all + [c];
    assert Firsts(cs) == all + [c];
    assert Remembered(cs) == all;
    assert c !in multiset(all);
  }

  lemma LastAskedTwice()
    ensures var last := Command(MAX_EXECS); Starts(Commands(MAX_EXECS) + [last, last], last) == 2
  {
    var all, last := Commands(MAX_EXECS), Command(MAX_EXECS);
    CommandNew(MAX_EXECS);
    CommandsFirst(MAX_EXECS);
    CommandsFirst(MAX_EXECS + 1);
    assert all + [last] == Commands(MAX_EXECS + 1);
    AskedTwice(all, last);
  }

  /** The 65th command is started again when the configuration is read again. */
  lemma StartedTwice()
    ensures multiset(Reloads(START, Restarting()).log)[Command(MAX_EXECS)] == 2
  {
    var last := Command(MAX_EXECS);
    RestartingFlat();
    ReloadsFlatten(START, Restarting());
    StartedExactly(Commands(MAX_EXECS) + [last, last], last);
    LastAskedTwice();
  }
}
