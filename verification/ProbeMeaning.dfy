/**
 What the probe loop's counter, kill and status mean, said without the loop: in terms of the whole
 sequence of rounds a process has been through.

 A reset is an all-passing round when there is no hook, and otherwise only the one all-passing round on
 which the hook runs and succeeds. So with a hook the counter is reset at most once in the life of the
 process, and failures hours apart add up.
 */
module ProbeMeaning {
  import opened Wrappers
  import opened Probes

  /** None of the rounds met a cancelled routine or a shutdown. */
  ghost predicate Live(rounds: seq<Round>) {
    forall i | 0 <= i < |rounds| :: !rounds[i].cancelled && !rounds[i].shutdown
  }

  /** Round `i` is the first on which every probe passed. */
  ghost predicate FirstPass(rounds: seq<Round>, i: nat)
    requires i < |rounds|
  {
    AllPass(rounds[i]) && forall j | 0 <= j < i :: !AllPass(rounds[j])
  }

  ghost predicate IsReset(cfg: Config, rounds: seq<Round>, i: nat)
    requires i < |rounds|
  {
    if cfg.hook then FirstPass(rounds, i) && rounds[i].hookResult else AllPass(rounds[i])
  }

  ghost predicate HookFailsAt(cfg: Config, rounds: seq<Round>, i: nat)
    requires i < |rounds|
  {
    cfg.hook && FirstPass(rounds, i) && !rounds[i].hookResult
  }

  function TotalFails(rounds: seq<Round>): nat {
    if rounds == [] then 0 else TotalFails(rounds[..|rounds| - 1]) + Fails(rounds[|rounds| - 1].results)
  }

  /** Rounds `lo` up to `hi` hold no reset. */
  ghost predicate NoReset(cfg: Config, rounds: seq<Round>, lo: nat, hi: nat)
    requires hi <= |rounds|
  {
    forall i | lo <= i < hi :: !IsReset(cfg, rounds, i)
  }

  /** Rounds `lo` up to `hi` hold no reset and enough failing results to kill. */
  ghost predicate Fatal(cfg: Config, rounds: seq<Round>, lo: nat, hi: nat)
    requires hi <= |rounds|
  {
    lo <= hi && NoReset(cfg, rounds, lo, hi) && TotalFails(rounds[lo..hi]) >= Limit(cfg)
  }

  ghost predicate NoFatal(cfg: Config, rounds: seq<Round>, hi: nat)
    requires hi <= |rounds|
  {
    forall lo: nat :: !Fatal(cfg, rounds, lo, hi)
  }

  ghost predicate NoHookFailure(cfg: Config, rounds: seq<Round>, n: nat)
    requires n <= |rounds|
  {
    forall h | 0 <= h < n :: !HookFailsAt(cfg, rounds, h)
  }

  /** A fatal stretch ends within the first `n` rounds, before the hook has failed. */
  ghost predicate DiesOfProbes(cfg: Config, rounds: seq<Round>, n: nat)
    requires n <= |rounds|
  {
    exists hi: nat :: hi <= n && !NoFatal(cfg, rounds, hi) && NoHookFailure(cfg, rounds, hi)
  }

  /** The hook's one run fails within the first `n` rounds, before any fatal stretch has ended. */
  ghost predicate DiesOfHook(cfg: Config, rounds: seq<Round>, n: nat)
    requires n <= |rounds|
  {
    exists h: nat :: h < n && HookFailsAt(cfg, rounds, h) && forall hi: nat | hi <= h :: NoFatal(cfg, rounds, hi)
  }

  /** `count` is the failures since the last reset among the first `n` rounds; `lo` is the round after that reset. */
  ghost predicate CountsFrom(cfg: Config, rounds: seq<Round>, n: nat, lo: nat, count: nat)
    requires n <= |rounds|
  {
    && lo <= n && NoReset(cfg, rounds, lo, n) && (lo > 0 ==> IsReset(cfg, rounds, lo - 1))
    && count == TotalFails(rounds[lo..n])
  }

  ghost predicate Passed(rounds: seq<Round>, n: nat)
    requires n <= |rounds|
  {
    exists i: nat :: i < n && AllPass(rounds[i])
  }

  /**
   What the status should say after `n` rounds: the last round all passed, or with a hook, the hook has
   succeeded and no round since has failed.
   */
  ghost predicate Healthy(cfg: Config, rounds: seq<Round>, n: nat)
    requires n <= |rounds|
  {
    if cfg.hook then exists i: nat :: i < n && FirstPass(rounds, i) && forall j | i < j < n :: AllPass(rounds[j])
    else n > 0 && AllPass(rounds[n - 1])
  }

  lemma {:induction false} TotalSplit(xs: seq<Round>, ys: seq<Round>)
    ensures TotalFails(xs + ys) == TotalFails(xs) + TotalFails(ys)
  {
    if ys == [] {
      assert xs + ys == xs;
    } else {
      assert (xs + ys)[..|xs + ys| - 1] == xs + ys[..|ys| - 1];
      TotalSplit(xs, ys[..|ys| - 1]);
    }
  }

  lemma TotalNext(rounds: seq<Round>, lo: nat, n: nat)
    requires lo <= n < |rounds|
    ensures TotalFails(rounds[lo..n + 1]) == TotalFails(rounds[lo..n]) + Fails(rounds[n].results)
  {
    assert rounds[lo..n + 1][..n - lo] == rounds[lo..n];
  }

  /** While the count since the last reset is below the limit, no stretch ending now is fatal. */
  lemma BelowLimitNotFatal(cfg: Config, rounds: seq<Round>, n: nat, lo: nat, count: nat)
    requires n <= |rounds| && CountsFrom(cfg, rounds, n, lo, count) && count < Limit(cfg)
    ensures NoFatal(cfg, rounds, n)
  {
    forall from: nat ensures !Fatal(cfg, rounds, from, n) {
      if from < lo {
        assert IsReset(cfg, rounds, lo - 1);
      } else if from <= n {
        assert rounds[lo..n] == rounds[lo..from] + rounds[from..n];
        TotalSplit(rounds[lo..from], rounds[from..n]);
      }
    }
  }

  /** Everything that is true of a loop still running after the first `n` rounds. */
  ghost predicate Running(cfg: Config, rounds: seq<Round>, n: nat, lo: nat, m: Runner)
    requires n <= |rounds|
  {
    && m.stopped.None?
    && CountsFrom(cfg, rounds, n, lo, m.count) && m.count < Limit(cfg)
    && (m.hookDone <==> cfg.hook && Passed(rounds, n))
    && m.hookRuns == (if m.hookDone then 1 else 0)
    && NoHookFailure(cfg, rounds, n)
    && (forall hi: nat | hi <= n :: NoFatal(cfg, rounds, hi))
  }

  /** How one more round changes what the status should say. */
  lemma HealthyNext(cfg: Config, rounds: seq<Round>, n: nat)
    requires n < |rounds|
    ensures Passed(rounds, n + 1) <==> Passed(rounds, n) || AllPass(rounds[n])
    ensures Healthy(cfg, rounds, n + 1) <==>
      AllPass(rounds[n]) && (!cfg.hook || !Passed(rounds, n) || Healthy(cfg, rounds, n))
  {
    if cfg.hook && AllPass(rounds[n]) && !Passed(rounds, n) {
      assert FirstPass(rounds, n);
    }
  }

  lemma DiesLater(cfg: Config, rounds: seq<Round>, n: nat)
    requires n < |rounds|
    ensures DiesOfProbes(cfg, rounds, n) ==> DiesOfProbes(cfg, rounds, n + 1)
    ensures DiesOfHook(cfg, rounds, n) ==> DiesOfHook(cfg, rounds, n + 1)
  {
  }

  lemma NoFatalNext(cfg: Config, rounds: seq<Round>, n: nat)
    requires n < |rounds| && (forall hi: nat | hi <= n :: NoFatal(cfg, rounds, hi)) && NoFatal(cfg, rounds, n + 1)
    ensures forall hi: nat | hi <= n + 1 :: NoFatal(cfg, rounds, hi)
  {
    hide NoFatal;
  }

  /** A round with a failure adds to the count: it is no reset, and the hook does not run. */
  lemma CountsFailing(cfg: Config, rounds: seq<Round>, n: nat, lo: nat, count: nat)
    requires n < |rounds| && CountsFrom(cfg, rounds, n, lo, count) && !AllPass(rounds[n])
    ensures CountsFrom(cfg, rounds, n + 1, lo, count + Fails(rounds[n].results))
    ensures NoHookFailure(cfg, rounds, n) ==> NoHookFailure(cfg, rounds, n + 1)
    ensures Passed(rounds, n + 1) <==> Passed(rounds, n)
  {
    TotalNext(rounds, lo, n);
    HealthyNext(cfg, rounds, n);
    assert !IsReset(cfg, rounds, n) && !HookFailsAt(cfg, rounds, n);
    hide TotalFails, Healthy, Passed, IsReset, HookFailsAt, AllPass;
  }

  /** A round that all passes: the count starts again after a reset, and otherwise stays. */
  lemma CountsPassing(cfg: Config, rounds: seq<Round>, n: nat, lo: nat, count: nat)
    requires n < |rounds| && CountsFrom(cfg, rounds, n, lo, count) && AllPass(rounds[n])
    ensures IsReset(cfg, rounds, n) <==> (cfg.hook ==> !Passed(rounds, n) && rounds[n].hookResult)
    ensures HookFailsAt(cfg, rounds, n) <==> cfg.hook && !Passed(rounds, n) && !rounds[n].hookResult
    ensures if IsReset(cfg, rounds, n) then CountsFrom(cfg, rounds, n + 1, n + 1, 0)
            else CountsFrom(cfg, rounds, n + 1, lo, count)
    ensures NoHookFailure(cfg, rounds, n + 1) <==> NoHookFailure(cfg, rounds, n) && !HookFailsAt(cfg, rounds, n)
    ensures Passed(rounds, n + 1)
  {
    TotalNext(rounds, lo, n);
    assert rounds[n + 1..n + 1] == [] && TotalFails([]) == 0;
    assert FirstPass(rounds, n) <==> !Passed(rounds, n);
    hide TotalFails;
    assert NoHookFailure(cfg, rounds, n + 1) <==> NoHookFailure(cfg, rounds, n) && !HookFailsAt(cfg, rounds, n) by {
      hide HookFailsAt;
    }
  }

  /** A round with a failure. */
  lemma FailingRound(cfg: Config, rounds: seq<Round>, n: nat, lo: nat, m: Runner)
    requires cfg.configured > 0 && Live(rounds) && n < |rounds| && Running(cfg, rounds, n, lo, m)
    requires Fails(rounds[n].results) > 0
    ensures var t := After(cfg, m, rounds[n]);
      && (t.stopped.None? ==> Running(cfg, rounds, n + 1, lo, t))
      && (t.stopped.Some? ==> t.stopped == Some(Killed) && DiesOfProbes(cfg, rounds, n + 1) && t.hookRuns <= 1)
  {
    var t := After(cfg, m, rounds[n]);
    CountsFailing(cfg, rounds, n, lo, m.count);
    assert t.stopped.Some? ==> Fatal(cfg, rounds, lo, n + 1);
    hide TotalFails, Fails, Passed, CountsFrom, NoHookFailure, NoFatal, Fatal, WrittenAll;
    if t.stopped.None? {
      BelowLimitNotFatal(cfg, rounds, n + 1, lo, t.count);
      NoFatalNext(cfg, rounds, n);
    } else {
      NotNoFatal(cfg, rounds, lo, n + 1);
    }
  }

  lemma NotNoFatal(cfg: Config, rounds: seq<Round>, lo: nat, hi: nat)
    requires hi <= |rounds| && Fatal(cfg, rounds, lo, hi)
    ensures !NoFatal(cfg, rounds, hi)
  {
  }

  /** A round on which every probe passes. */
  lemma PassingRound(cfg: Config, rounds: seq<Round>, n: nat, lo: nat, m: Runner) returns (next: nat)
    requires cfg.configured > 0 && Live(rounds) && n < |rounds| && Running(cfg, rounds, n, lo, m)
    requires Fails(rounds[n].results) == 0
    ensures var t := After(cfg, m, rounds[n]);
      && (t.stopped.None? ==> Running(cfg, rounds, n + 1, next, t))
      && (t.stopped.Some? ==> t.stopped == Some(HookFailed) && DiesOfHook(cfg, rounds, n + 1) && t.hookRuns <= 1)
  {
    var t := After(cfg, m, rounds[n]);
    next := if IsReset(cfg, rounds, n) then n + 1 else lo;
    CountsPassing(cfg, rounds, n, lo, m.count);
    hide Fails, Passed, IsReset, HookFailsAt, CountsFrom, NoHookFailure, NoFatal, WrittenAll;
    if t.stopped.None? {
      BelowLimitNotFatal(cfg, rounds, n + 1, next, t.count);
      NoFatalNext(cfg, rounds, n);
    }
  }

  /** What a loop is like after `n` rounds, still running or stopped. */
  ghost predicate Meant(cfg: Config, rounds: seq<Round>, n: nat, lo: nat, m: Runner)
    requires n <= |rounds|
  {
    && m.hookRuns <= 1
    && (m.stopped.None? ==> Running(cfg, rounds, n, lo, m))
    && (m.stopped.Some? ==>
          || (m.stopped == Some(Killed) && DiesOfProbes(cfg, rounds, n))
          || (m.stopped == Some(HookFailed) && DiesOfHook(cfg, rounds, n)))
  }

  lemma MeantNext(cfg: Config, rounds: seq<Round>, n: nat, lo: nat, m: Runner) returns (next: nat)
    requires cfg.configured > 0 && Live(rounds) && n < |rounds| && Meant(cfg, rounds, n, lo, m)
    ensures Meant(cfg, rounds, n + 1, next, if m.stopped.Some? then m else After(cfg, m, rounds[n]))
  {
    next := lo;
    if m.stopped.Some? {
      DiesLater(cfg, rounds, n);
    } else if Fails(rounds[n].results) > 0 {
      FailingRound(cfg, rounds, n, lo, m);
      RunningHookRuns(cfg, rounds, n + 1, lo, After(cfg, m, rounds[n]));
    } else {
      next := PassingRound(cfg, rounds, n, lo, m);
      RunningHookRuns(cfg, rounds, n + 1, next, After(cfg, m, rounds[n]));
    }
    hide Running, DiesOfProbes, DiesOfHook, After, Fails, Live;
  }

  /**
   The loop and its meaning, after any number `n` of rounds that met no cancel and no shutdown: a loop
   still running has counted exactly the failures since the last reset; one that stopped was killed by a
   fatal stretch or by its hook.
   */
  lemma {:induction false} LoopMeaning(cfg: Config, maps: Maps, rounds: seq<Round>, n: nat) returns (lo: nat)
    requires cfg.configured > 0 && Live(rounds) && n <= |rounds|
    ensures Meant(cfg, rounds, n, lo, Loop(cfg, Fresh(maps), rounds[..n]))
    decreases n
  {
    if n == 0 {
      lo := 0;
      FreshRuns(cfg, maps, rounds);
    } else {
      lo := LoopMeaning(cfg, maps, rounds, n - 1);
      lo := MeantNext(cfg, rounds, n - 1, lo, Loop(cfg, Fresh(maps), rounds[..n - 1]));
      LoopAppend(cfg, Fresh(maps), rounds, n - 1);
      hide Meant, Loop, After, Live;
    }
  }

  lemma FreshRuns(cfg: Config, maps: Maps, rounds: seq<Round>)
    ensures Running(cfg, rounds, 0, 0, Fresh(maps)) && Loop(cfg, Fresh(maps), rounds[..0]) == Fresh(maps)
  {
    assert rounds[..0] == [] && rounds[0..0] == [];
    BelowLimitNotFatal(cfg, rounds, 0, 0, 0);
  }

  lemma RunningHookRuns(cfg: Config, rounds: seq<Round>, n: nat, lo: nat, m: Runner)
    requires n <= |rounds|
    ensures Running(cfg, rounds, n, lo, m) ==> m.hookRuns <= 1
  {
  }

  /**
   Exactly when the checker kills the process, whatever others write to the shared maps: for failed probes,
   if and only if some stretch of rounds without a reset holds at least the limit of failing results before
   the hook has failed; for its hook, if and only if the hook's run fails before any such stretch; and
   otherwise it is still looping. A process it kills is marked.
   */
  lemma KillsExactly(cfg: Config, maps: Maps, rounds: seq<Round>)
    requires cfg.configured > 0 && Live(rounds)
    ensures var m := Loop(cfg, Fresh(maps), rounds);
      && (m.stopped == Some(Killed) <==> DiesOfProbes(cfg, rounds, |rounds|))
      && (m.stopped == Some(HookFailed) <==> DiesOfHook(cfg, rounds, |rounds|))
      && (m.stopped.None? <==> !DiesOfProbes(cfg, rounds, |rounds|) && !DiesOfHook(cfg, rounds, |rounds|))
      && (m.stopped.Some? ==>
            && EntryOf(m.maps.killed, cfg.name) == Some(true)
            && EntryOf(m.maps.status, cfg.name) == if cfg.lock && m.stopped == Some(Killed) then None else Some(false))
      && m.hookRuns <= 1
  {
    assert rounds[..|rounds|] == rounds;
    var lo := LoopMeaning(cfg, maps, rounds, |rounds|);
    StoppedWrites(cfg, maps, rounds);
    hide Live, Loop;
  }

  // ---------- The entries written ----------

  function EntryOf(entries: map<string, bool>, name: string): Option<bool> {
    if name in entries then Some(entries[name]) else None
  }

  /** No other routine writes to this command's entries. */
  ghost predicate Alone(cfg: Config, rounds: seq<Round>) {
    forall i, w | 0 <= i < |rounds| && w in rounds[i].others :: w.name != cfg.name
  }

  lemma {:induction false} WritesElsewhere(maps: Maps, ws: seq<MapWrite>, name: string)
    requires forall w | w in ws :: w.name != name
    ensures EntryOf(WrittenAll(maps, ws).status, name) == EntryOf(maps.status, name)
    ensures EntryOf(WrittenAll(maps, ws).killed, name) == EntryOf(maps.killed, name)
  {
    if ws != [] {
      assert ws[|ws| - 1] in ws;
      WritesElsewhere(maps, ws[..|ws| - 1], name);
    }
  }

  /**
   What a loop that has killed its process leaves: the mark, and the status false, or no status if the process
   was killed for its probes and holds a shared lock.
   */
  lemma {:induction false} StoppedWrites(cfg: Config, maps: Maps, rounds: seq<Round>)
    requires cfg.configured > 0 && Live(rounds)
    ensures var m := Loop(cfg, Fresh(maps), rounds);
      m.stopped.Some? ==>
        && EntryOf(m.maps.killed, cfg.name) == Some(true)
        && EntryOf(m.maps.status, cfg.name) == if cfg.lock && m.stopped == Some(Killed) then None else Some(false)
  {
    if rounds != [] {
      StoppedWrites(cfg, maps, rounds[..|rounds| - 1]);
      hide WrittenAll, Fails;
    }
  }

  /** A round writes to its own command's entries only. */
  lemma OwnEntriesOnly(cfg: Config, m: Runner, rd: Round, name: string)
    requires name != cfg.name
    ensures var others := WrittenAll(m.maps, rd.others);
      && EntryOf(After(cfg, m, rd).maps.status, name) == EntryOf(others.status, name)
      && EntryOf(After(cfg, m, rd).maps.killed, name) == EntryOf(others.killed, name)
  {
    hide WrittenAll, Fails;
  }

  /**
   What the status entry says between rounds, and what the counter counts. The status is this loop's alone
   when no other routine writes to the command's entries; the count is so in any case.
   */
  lemma {:induction false} StatusMeaning(cfg: Config, maps: Maps, rounds: seq<Round>)
    requires cfg.configured > 0 && Live(rounds) && Loop(cfg, Fresh(maps), rounds).stopped.None?
    ensures EntryOf(maps.status, cfg.name) == Some(false) && Alone(cfg, rounds) ==>
      var m := Loop(cfg, Fresh(maps), rounds);
      && EntryOf(m.maps.status, cfg.name) == Some(Healthy(cfg, rounds, |rounds|))
      && EntryOf(m.maps.killed, cfg.name) == EntryOf(maps.killed, cfg.name)
    ensures Loop(cfg, Fresh(maps), rounds).count < Limit(cfg)
    ensures exists lo: nat :: CountsFrom(cfg, rounds, |rounds|, lo, Loop(cfg, Fresh(maps), rounds).count)
    ensures Loop(cfg, Fresh(maps), rounds).hookRuns == if cfg.hook && Passed(rounds, |rounds|) then 1 else 0
  {
    assert rounds[..|rounds|] == rounds;
    var lo := LoopMeaning(cfg, maps, rounds, |rounds|);
    if EntryOf(maps.status, cfg.name) == Some(false) && Alone(cfg, rounds) {
      EntriesMeaning(cfg, maps, rounds, |rounds|);
    }
  }

  lemma {:induction false} EntriesMeaning(cfg: Config, maps: Maps, rounds: seq<Round>, n: nat)
    requires cfg.configured > 0 && Live(rounds) && Alone(cfg, rounds) && n <= |rounds|
    requires EntryOf(maps.status, cfg.name) == Some(false) && Loop(cfg, Fresh(maps), rounds[..n]).stopped.None?
    ensures var m := Loop(cfg, Fresh(maps), rounds[..n]);
      && EntryOf(m.maps.status, cfg.name) == Some(Healthy(cfg, rounds, n))
      && EntryOf(m.maps.killed, cfg.name) == EntryOf(maps.killed, cfg.name)
    decreases n
  {
    if n == 0 {
      assert rounds[..0] == [];
    } else {
      LoopAppend(cfg, Fresh(maps), rounds, n - 1);
      var m := Loop(cfg, Fresh(maps), rounds[..n - 1]);
      hide Loop;
      EntriesMeaning(cfg, maps, rounds, n - 1);
      var lo := LoopMeaning(cfg, maps, rounds, n - 1);
      EntriesNext(cfg, rounds, n - 1, lo, m);
      hide After, Running;
    }
  }

  lemma EntriesNext(cfg: Config, rounds: seq<Round>, n: nat, lo: nat, m: Runner)
    requires cfg.configured > 0 && Live(rounds) && Alone(cfg, rounds) && n < |rounds|
    requires Running(cfg, rounds, n, lo, m) && EntryOf(m.maps.status, cfg.name) == Some(Healthy(cfg, rounds, n))
    requires After(cfg, m, rounds[n]).stopped.None?
    ensures var t := After(cfg, m, rounds[n]);
      && EntryOf(t.maps.status, cfg.name) == Some(Healthy(cfg, rounds, n + 1))
      && EntryOf(t.maps.killed, cfg.name) == EntryOf(m.maps.killed, cfg.name)
  {
    HealthyNext(cfg, rounds, n);
    WritesElsewhere(m.maps, rounds[n].others, cfg.name);
    hide Healthy, Passed, WrittenAll, CountsFrom, NoHookFailure, NoFatal, Alone;
  }

  /**
   With a hook there is no way back: once a round fails after the hook has run, the loop never makes the
   status true again, however many later rounds all pass.
   */
  lemma NoRecoveryWithHook(cfg: Config, maps: Maps, rounds: seq<Round>, failed: nat)
    requires cfg.configured > 0 && cfg.hook && Live(rounds) && Alone(cfg, rounds) && failed < |rounds|
    requires EntryOf(maps.status, cfg.name) == Some(false)
    requires Passed(rounds, failed) && !AllPass(rounds[failed])
    ensures EntryOf(Loop(cfg, Fresh(maps), rounds).maps.status, cfg.name) != Some(true)
  {
    assert rounds[..|rounds|] == rounds;
    if Loop(cfg, Fresh(maps), rounds).stopped.None? {
      EntriesMeaning(cfg, maps, rounds, |rounds|);
    } else {
      StoppedWrites(cfg, maps, rounds);
    }
  }

  /**
   Every round with a failure brings the kill nearer: from a counter below the limit, at most
   `Limit - count` rounds that each have a failure end in the kill, hook or no hook.
   */
  lemma {:induction false} FailingRoundsKill(cfg: Config, m: Runner, rounds: seq<Round>)
    requires cfg.configured > 0 && Live(rounds) && m.stopped.None? && m.count < Limit(cfg)
    requires forall i | 0 <= i < |rounds| :: Fails(rounds[i].results) > 0
    ensures var t := Loop(cfg, m, rounds);
      || (t.stopped == Some(Killed) && EntryOf(t.maps.killed, cfg.name) == Some(true))
      || (t.stopped.None? && m.count + |rounds| <= t.count < Limit(cfg))
    ensures |rounds| >= Limit(cfg) - m.count ==> Loop(cfg, m, rounds).stopped == Some(Killed)
  {
    if rounds != [] {
      FailingRoundsKill(cfg, m, rounds[..|rounds| - 1]);
    }
  }

  // ---------- Rounds that tell the loop to stop ----------

  /** The routine is cancelled, or the wrapper is shutting down. */
  predicate TellsToStop(rd: Round) {
    rd.cancelled || rd.shutdown
  }

  /** The first round that tells the loop to stop, or the number of rounds. */
  function FirstTold(rounds: seq<Round>): (k: nat)
    ensures k <= |rounds| && Live(rounds[..k]) && (k < |rounds| ==> TellsToStop(rounds[k]))
  {
    if rounds == [] || TellsToStop(rounds[0]) then 0
    else
      var k := FirstTold(rounds[1..]) + 1;
      assert forall i | 1 <= i < k :: rounds[..k][i] == rounds[1..][..k - 1][i - 1];
      k
  }

  /**
   A loop told to stop stops, at once and for that reason: nothing is probed any more, so nothing is counted
   and no hook runs, nobody is killed, and the maps change by the others' writes only.
   */
  lemma StopsWhenTold(cfg: Config, m: Runner, rounds: seq<Round>, k: nat)
    requires k < |rounds| && TellsToStop(rounds[k]) && Loop(cfg, m, rounds[..k]).stopped.None?
    ensures var before := Loop(cfg, m, rounds[..k]);
      Loop(cfg, m, rounds) == before.(maps := WrittenAll(before.maps, rounds[k].others),
                                      stopped := Some(if rounds[k].cancelled then Cancelled else ShuttingDown))
  {
    LoopAppend(cfg, m, rounds, k);
    LoopStopped(cfg, m, rounds, k + 1);
    hide Loop;
  }

  /**
   How any loop ends, whatever rounds it meets. Up to the first round that tells it to stop it is as the
   results and the hook alone make it; if it still runs there, that round stops it, and nothing later matters.
   */
  lemma EndsAsTold(cfg: Config, maps: Maps, rounds: seq<Round>)
    ensures var k := FirstTold(rounds); var before := Loop(cfg, Fresh(maps), rounds[..k]);
      Loop(cfg, Fresh(maps), rounds) ==
      if before.stopped.Some? || k == |rounds| then before
      else before.(maps := WrittenAll(before.maps, rounds[k].others),
                   stopped := Some(if rounds[k].cancelled then Cancelled else ShuttingDown))
  {
    var k := FirstTold(rounds);
    if Loop(cfg, Fresh(maps), rounds[..k]).stopped.Some? {
      LoopStopped(cfg, Fresh(maps), rounds, k);
    } else if k < |rounds| {
      StopsWhenTold(cfg, Fresh(maps), rounds, k);
    } else {
      assert rounds[..k] == rounds;
    }
  }

  /**
   With nothing to probe, the first round decides: told to stop, the loop writes nothing; otherwise the hook
   runs, and the status is true exactly if there is no hook or it succeeds.
   */
  lemma NothingProbed(cfg: Config, maps: Maps, rounds: seq<Round>)
    requires cfg.configured == 0 && rounds != []
    ensures var m, first := Loop(cfg, Fresh(maps), rounds), rounds[0];
      var others := WrittenAll(maps, first.others);
      && m.count == 0
      && (first.cancelled ==> m.stopped == Some(Cancelled) && m.maps == others && m.hookRuns == 0)
      && (!first.cancelled && first.shutdown ==>
            m.stopped == Some(ShuttingDown) && m.maps == others && m.hookRuns == 0)
      && (!TellsToStop(first) ==>
            && m.stopped == Some(NothingToProbe) && m.hookRuns == 1 && m.maps.killed == others.killed
            && m.maps.status == others.status[cfg.name := !cfg.hook || first.hookResult])
  {
    assert rounds[..0] == [] && Loop(cfg, Fresh(maps), rounds[..0]) == Fresh(maps);
    LoopAppend(cfg, Fresh(maps), rounds, 0);
    LoopStopped(cfg, Fresh(maps), rounds, 1);
    hide Loop;
  }

  /** How many failures kill: three if none is written, one if less than one is, and otherwise as many as written. */
  lemma LimitInNumbers(cfg: Config)
    ensures Limit(Defaulted(cfg)) == if cfg.threshold == 0 then 3 else if cfg.threshold < 1 then 1 else cfg.threshold
    ensures Defaulted(cfg) == cfg.(threshold := Defaulted(cfg).threshold)
  {
  }

  /**
   The threshold in numbers. None written means three: with one failing result a round, the third round kills
   and the second does not.
   */
  lemma ThirdFailureKills(cfg: Config, maps: Maps, rounds: seq<Round>)
    requires cfg.threshold == 0 && cfg.configured > 0 && Live(rounds) && |rounds| == 3
    requires forall i | 0 <= i < 3 :: Fails(rounds[i].results) == 1
    ensures Limit(Defaulted(cfg)) == 3
    ensures Loop(Defaulted(cfg), Fresh(maps), rounds[..2]).stopped.None?
    ensures Loop(Defaulted(cfg), Fresh(maps), rounds[..2]).count == 2
    ensures Loop(Defaulted(cfg), Fresh(maps), rounds).stopped == Some(Killed)
  {
    var d := Defaulted(cfg);
    assert rounds[..0] == [] && rounds[..3] == rounds && Loop(d, Fresh(maps), rounds[..0]) == Fresh(maps);
    LoopAppend(d, Fresh(maps), rounds, 0);
    LoopAppend(d, Fresh(maps), rounds, 1);
    LoopAppend(d, Fresh(maps), rounds, 2);
    hide Loop, Fails, WrittenAll;
  }
}
