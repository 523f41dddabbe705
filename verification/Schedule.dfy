/**
 The scheduler: it skips commands, replaces a command with replicas by that many numbered copies, and
 adds one WaitGroup token for each `Run` it launches. All per-process state is keyed by the names it gives,
 so when two of them coincide matters.
 */
module Schedule {
  import Decimal
  import opened RunFrames

  /** The parts of a command the scheduler reads or copies. */
  datatype Command = Command(name: string, replicas: int, dir: string, hook: bool)

  function ReplicaName(name: string, r: nat): string {
    name + "_" + Decimal.FormatNat(r)
  }

  /** A replica gets neither the working directory nor the post-start hook of the command it copies. */
  function Replica(c: Command, r: nat): Command {
    Command(ReplicaName(c.name, r), 0, "", false)
  }

  function Replicas(c: Command, n: nat): (runs: seq<Command>)
    ensures |runs| == n && forall r | 0 <= r < n :: runs[r] == Replica(c, r)
  {
    if n == 0 then [] else Replicas(c, n - 1) + [Replica(c, n - 1)]
  }

  function RunsOf(c: Command): seq<Command> {
    if c.replicas > 0 then Replicas(c, c.replicas) else [c]
  }

  function Unskipped(commands: seq<Command>, skip: seq<string>): seq<Command> {
    if commands == [] then []
    else
      var last := commands[|commands| - 1];
      Unskipped(commands[..|commands| - 1], skip) + if last.name in skip then [] else [last]
  }

  function AllRuns(commands: seq<Command>): seq<Command> {
    if commands == [] then [] else AllRuns(commands[..|commands| - 1]) + RunsOf(commands[|commands| - 1])
  }

  lemma UnskippedNext(commands: seq<Command>, skip: seq<string>, i: nat)
    requires i < |commands|
    ensures var runs := AllRuns(Unskipped(commands[..i], skip));
      AllRuns(Unskipped(commands[..i + 1], skip)) ==
      if commands[i].name in skip then runs else runs + RunsOf(commands[i])
  {
    var kept := Unskipped(commands[..i], skip);
    assert commands[..i + 1][..i] == commands[..i];
    assert kept + [] == kept && (kept + [commands[i]])[..|kept|] == kept;
    hide RunsOf;
  }

  /** Launches the numbered copies of a command. */
  method LaunchReplicas(c: Command, wg: WaitGroup) returns (runs: seq<Command>)
    requires c.replicas > 0
    modifies wg
    ensures runs == RunsOf(c) && wg.counter == old(wg.counter) + |runs|
  {
    runs := [];
    for r := 0 to c.replicas
      invariant runs == Replicas(c, r) && wg.counter == old(wg.counter) + |runs|
    {
      runs := runs + [Replica(c, r)];
      wg.Add(1);
    }
  }

  /**
   `NewSchedule`: one token more for every run launched, and its own token given back at the end.
   */
  method NewSchedule(commands: seq<Command>, skipCommands: seq<string>, wg: WaitGroup) returns (runs: seq<Command>)
    modifies wg
    ensures runs == AllRuns(Unskipped(commands, skipCommands))
    ensures wg.counter == old(wg.counter) + |runs| - 1
  {
    runs := [];
    for i := 0 to |commands|
      invariant runs == AllRuns(Unskipped(commands[..i], skipCommands))
      invariant wg.counter == old(wg.counter) + |runs|
    {
      var c := commands[i];
      UnskippedNext(commands, skipCommands, i);
      hide AllRuns, Unskipped;
      if c.name in skipCommands {
        continue;
      }
      if c.replicas > 0 {
        var copies := LaunchReplicas(c, wg);
        runs := runs + copies;
      } else {
        runs := runs + [c];
        wg.Add(1);
      }
    }
    assert commands[..|commands|] == commands;
    wg.Done();
  }

  /** Exactly the commands whose names are to be skipped are left out; each other stays as often as it was. */
  lemma {:induction false} UnskippedMeaning(commands: seq<Command>, skip: seq<string>, c: Command)
    ensures multiset(Unskipped(commands, skip))[c] == if c.name in skip then 0 else multiset(commands)[c]
  {
    if commands != [] {
      var n := |commands| - 1;
      assert commands == commands[..n] + [commands[n]];
      UnskippedMeaning(commands[..n], skip, c);
    }
  }

  /** `run` is copy `r` of the command: numbered, and bare of hook and directory. */
  predicate CopyOf(c: Command, r: nat, run: Command) {
    r < c.replicas && run == Command(c.name + "_" + Decimal.FormatNat(r), 0, "", false)
  }

  /** `run` is the command as it is, if it has no replicas, or one of its copies. */
  ghost predicate RunOf(c: Command, run: Command) {
    (c.replicas <= 0 && run == c) || exists r: nat :: CopyOf(c, r, run)
  }

  lemma RunsOfMeaning(c: Command, run: Command)
    ensures run in RunsOf(c) <==> RunOf(c, run)
  {
    if r: nat :| CopyOf(c, r, run) {
      assert RunsOf(c)[r] == run;
    } else if run in RunsOf(c) && c.replicas > 0 {
      var r :| 0 <= r < |RunsOf(c)| && RunsOf(c)[r] == run;
      assert CopyOf(c, r, run);
    }
  }

  /** The runs are those of the commands, and no others. */
  lemma {:induction false} RunsMeaning(commands: seq<Command>, run: Command)
    ensures run in AllRuns(commands) <==> exists i :: 0 <= i < |commands| && RunOf(commands[i], run)
  {
    if commands != [] {
      var n := |commands| - 1;
      RunsMeaning(commands[..n], run);
      RunsOfMeaning(commands[n], run);
      assert forall i | 0 <= i < n :: commands[..n][i] == commands[i];
      hide RunsOf, RunOf;
    }
  }

  /** A command keeps its hook and its directory only if it is not replicated. */
  lemma {:induction false} OnlyPlainRunsHaveHooks(commands: seq<Command>, run: Command)
    requires run in AllRuns(commands) && (run.hook || run.dir != "")
    ensures run in commands && run.replicas <= 0
  {
    var n := |commands| - 1;
    if run in AllRuns(commands[..n]) {
      OnlyPlainRunsHaveHooks(commands[..n], run);
    } else {
      assert run in RunsOf(commands[n]) && commands[n] in commands;
    }
  }

  // ---------- When the names are distinct ----------

  ghost predicate Distinct(runs: seq<Command>) {
    forall a, b | 0 <= a < b < |runs| :: runs[a].name != runs[b].name
  }

  ghost predicate Apart(xs: seq<Command>, ys: seq<Command>) {
    forall x, y | x in xs && y in ys :: x.name != y.name
  }

  /** `plain` is named like one of the replicas of `replicated`. */
  ghost predicate Clashes(plain: Command, replicated: Command) {
    exists r: nat :: r < replicated.replicas && plain.name == ReplicaName(replicated.name, r)
  }

  /** What two commands of a configuration must keep to. */
  ghost predicate Compatible(c: Command, d: Command) {
    if c.replicas > 0 && d.replicas <= 0 then !Clashes(d, c)
    else if c.replicas <= 0 && d.replicas > 0 then !Clashes(c, d)
    else c.name != d.name
  }

  lemma ReplicaNameInjective(n: string, q: nat, m: string, r: nat)
    requires ReplicaName(n, q) == ReplicaName(m, r)
    ensures n == m && q == r
  {
    var d, e := Decimal.FormatNat(q), Decimal.FormatNat(r);
    var whole := ReplicaName(n, q);
    UnderscoreIsLast(n, q, |m|);
    UnderscoreIsLast(m, r, |n|);
    assert whole[|n|] == '_' && whole[|m|] == '_';
    assert n == whole[..|n|] && m == whole[..|m|];
    assert d == whole[|n| + 1..] && e == whole[|m| + 1..];
    Decimal.FormatNatInjective(q, r);
  }

  lemma UnderscoreIsLast(n: string, q: nat, at: nat)
    ensures |n| < at < |ReplicaName(n, q)| ==> ReplicaName(n, q)[at] != '_'
  {
    if |n| < at < |ReplicaName(n, q)| {
      assert ReplicaName(n, q)[at] == Decimal.FormatNat(q)[at - |n| - 1];
      assert Decimal.FormatNat(q)[at - |n| - 1] in Decimal.FormatNat(q);
    }
  }

  /** The runs of two commands have no name in common exactly when the commands are compatible. */
  lemma RunsApart(c: Command, d: Command)
    ensures Apart(RunsOf(c), RunsOf(d)) <==> Compatible(c, d)
  {
    if c.replicas > 0 && d.replicas > 0 {
      if c.name == d.name {
        assert RunsOf(c)[0] in RunsOf(c) && RunsOf(d)[0] in RunsOf(d);
      } else {
        forall x, y | x in RunsOf(c) && y in RunsOf(d) ensures x.name != y.name {
          var q :| 0 <= q < c.replicas && x == Replica(c, q);
          var r :| 0 <= r < d.replicas && y == Replica(d, r);
          if x.name == y.name {
            ReplicaNameInjective(c.name, q, d.name, r);
          }
        }
      }
    } else if c.replicas > 0 {
      PlainApart(d, c);
    } else if d.replicas > 0 {
      PlainApart(c, d);
    } else {
      assert c in RunsOf(c) && d in RunsOf(d);
    }
  }

  lemma PlainApart(plain: Command, replicated: Command)
    requires plain.replicas <= 0 < replicated.replicas
    ensures Apart(RunsOf(plain), RunsOf(replicated)) <==> !Clashes(plain, replicated)
    ensures Apart(RunsOf(replicated), RunsOf(plain)) <==> !Clashes(plain, replicated)
  {
    assert plain in RunsOf(plain);
    forall r: nat | r < replicated.replicas ensures Replica(replicated, r) in RunsOf(replicated) {
      assert RunsOf(replicated)[r] == Replica(replicated, r);
    }
    if Clashes(plain, replicated) {
      var r: nat :| r < replicated.replicas && plain.name == ReplicaName(replicated.name, r);
      assert Replica(replicated, r).name == plain.name;
    }
  }

  lemma RunsOfDistinct(c: Command)
    ensures Distinct(RunsOf(c))
  {
    forall a, b | 0 <= a < b < |RunsOf(c)| ensures RunsOf(c)[a].name != RunsOf(c)[b].name {
      if RunsOf(c)[a].name == RunsOf(c)[b].name {
        ReplicaNameInjective(c.name, a, c.name, b);
      }
    }
  }

  lemma DistinctConcat(xs: seq<Command>, ys: seq<Command>)
    ensures Distinct(xs + ys) <==> Distinct(xs) && Distinct(ys) && Apart(xs, ys)
  {
    var all := xs + ys;
    if Distinct(all) {
      forall a, b | 0 <= a < b < |xs| ensures xs[a].name != xs[b].name {
        assert all[a] == xs[a] && all[b] == xs[b];
      }
      forall a, b | 0 <= a < b < |ys| ensures ys[a].name != ys[b].name {
        assert all[|xs| + a] == ys[a] && all[|xs| + b] == ys[b];
      }
      forall x, y | x in xs && y in ys ensures x.name != y.name {
        var a :| 0 <= a < |xs| && xs[a] == x;
        var b :| 0 <= b < |ys| && ys[b] == y;
        assert all[a] == x && all[|xs| + b] == y;
      }
    }
  }

  ghost predicate AllCompatible(commands: seq<Command>) {
    forall i, j | 0 <= i < j < |commands| :: Compatible(commands[i], commands[j])
  }

  lemma ApartConcat(xs: seq<Command>, ys: seq<Command>, zs: seq<Command>)
    ensures Apart(xs + ys, zs) <==> Apart(xs, zs) && Apart(ys, zs)
  {
    assert forall x :: x in xs + ys <==> x in xs || x in ys;
  }

  ghost predicate EachCompatible(commands: seq<Command>, d: Command) {
    forall i | 0 <= i < |commands| :: Compatible(commands[i], d)
  }

  lemma EachCompatibleSnoc(commands: seq<Command>, d: Command)
    requires commands != []
    ensures var n := |commands| - 1;
      EachCompatible(commands, d) <==> EachCompatible(commands[..n], d) && Compatible(commands[n], d)
  {
    hide Compatible;
    assert forall i | 0 <= i < |commands| - 1 :: commands[..|commands| - 1][i] == commands[i];
  }

  lemma {:induction false} ApartFromAll(commands: seq<Command>, d: Command)
    ensures Apart(AllRuns(commands), RunsOf(d)) <==> EachCompatible(commands, d)
  {
    if commands != [] {
      var n := |commands| - 1;
      hide RunsOf, Compatible, Apart, EachCompatible;
      ApartFromAll(commands[..n], d);
      RunsApart(commands[n], d);
      ApartConcat(AllRuns(commands[..n]), RunsOf(commands[n]), RunsOf(d));
      EachCompatibleSnoc(commands, d);
    }
  }

  /**
   The names given out are distinct if and only if every two commands scheduled are compatible: plain ones
   or replicated ones have different names, and no plain one is named like a replica.
   */
  lemma {:induction false} NamesDistinct(commands: seq<Command>)
    ensures Distinct(AllRuns(commands)) <==> AllCompatible(commands)
  {
    if commands != [] {
      var n := |commands| - 1;
      NamesDistinct(commands[..n]);
      RunsOfDistinct(commands[n]);
      DistinctConcat(AllRuns(commands[..n]), RunsOf(commands[n]));
      ApartFromAll(commands[..n], commands[n]);
      CompatibleSnoc(commands);
      assert AllRuns(commands) == AllRuns(commands[..n]) + RunsOf(commands[n]);
      hide AllRuns, RunsOf, AllCompatible, EachCompatible, Apart, Distinct;
    }
  }

  lemma CompatibleSnoc(commands: seq<Command>)
    requires commands != []
    ensures var n := |commands| - 1;
      AllCompatible(commands) <==> AllCompatible(commands[..n]) && EachCompatible(commands[..n], commands[n])
  {
    var n := |commands| - 1;
    assert forall i | 0 <= i < n :: commands[..n][i] == commands[i];
    hide Compatible;
  }

  /** Different names in the configuration are not enough: "a" with one replica and a plain "a_0" coincide. */
  lemma DistinctNamesMayClash(dir: string, hook: bool)
    ensures !Distinct(AllRuns([Command("a", 1, dir, hook), Command("a_0", 0, dir, hook)]))
  {
    var c, d := Command("a", 1, dir, hook), Command("a_0", 0, dir, hook);
    assert Decimal.FormatNat(0) == "0";
    assert d.name == ReplicaName(c.name, 0);
    assert Clashes(d, c) && !Compatible([c, d][0], [c, d][1]);
    NamesDistinct([c, d]);
  }
}
