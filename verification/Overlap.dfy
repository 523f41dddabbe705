/**
 Exclusion of processes, in time: at any moment of a run of all wrappers and the lock service, at most one
 of the processes started for a key has a live lease, and every other one that still runs is killed by its
 own probe loop within its failure threshold.
 */
module Overlap {
  import opened Wrappers
  import opened Fleet
  import L = LockProtocol
  import LockServer
  import Decimal
  import LeaseTiming
  import P = Probes
  import ProbeMeaning

  /** What a step of the fleet is to the lock service. */
  ghost function LockStep(f: Fleet, step: Step): seq<L.Step>
    requires Enabled(f, step)
  {
    match step
    case Net(net) => [net]
    case Local(_, _) => []
    case Grab(w, i) => [L.Deliver(f.clients[w][i])]
  }

  /** The lock service's part of a run of the fleet. */
  ghost function LockSteps(f: Fleet, steps: seq<Step>): seq<L.Step>
    requires Valid(f, steps)
    decreases |steps|
  {
    if steps == [] then [] else LockStep(f, steps[0]) + LockSteps(Next(f, steps[0]), steps[1..])
  }

  lemma LockAfter(f: Fleet, step: Step)
    requires Inv(f) && Enabled(f, step)
    ensures |LockStep(f, step)| <= 1
    ensures LockStep(f, step) == [] ==> Next(f, step).lock == f.lock
    ensures LockStep(f, step) != [] ==>
      L.Enabled(f.lock, LockStep(f, step)[0]) && Next(f, step).lock == L.Next(f.lock, LockStep(f, step)[0])
  {
    hide Inv, L.Next, L.Enabled;
    if step.Grab? {
      GrabIsFresh(f, step.w, step.i);
    }
  }

  /** It is a run of the lock protocol. */
  lemma {:induction false} LockRun(f: Fleet, steps: seq<Step>)
    requires Inv(f) && Valid(f, steps)
    ensures L.Valid(f.lock, LockSteps(f, steps))
    ensures L.Exec(f.lock, LockSteps(f, steps)) == Exec(f, steps).lock
    decreases |steps|
  {
    hide Inv, Next, Enabled, L.Next, L.Enabled, LockStep;
    if steps != [] {
      InvStep(f, steps[0]);
      LockAfter(f, steps[0]);
      LockRun(Next(f, steps[0]), steps[1..]);
      var first, rest := LockStep(f, steps[0]), LockSteps(Next(f, steps[0]), steps[1..]);
      if first == [] {
        assert first + rest == rest;
      } else {
        assert first + rest == [first[0]] + rest && ([first[0]] + rest)[1..] == rest;
      }
    }
  }

  /**
   Round `rd`'s last result is its lock probe, posted with the text of lease `id` and either lost on the way
   or answered from the store as it is after the fleet's run `moment`.
   */
  ghost predicate ProbedAfter(f: Fleet, moment: seq<Step>, id: L.LeaseId, rd: P.Round) {
    && Valid(f, moment) && rd.results != []
    && exists lost: bool, fails: bool ::
         rd.results[|rd.results| - 1] == LockServer.LockProbe(ReplyAfter(f, moment, id, lost, fails))
  }

  ghost function ReplyAfter(f: Fleet, moment: seq<Step>, id: L.LeaseId, lost: bool, fails: bool): Option<int>
    requires Valid(f, moment)
  {
    if lost then None
    else Some(LockServer.KeepAliveStatus(Exec(f, moment).lock.store, Decimal.FormatInt(id), fails))
  }

  lemma ProbedThere(f: Fleet, moment: seq<Step>, id: L.LeaseId, rd: P.Round)
    requires Inv(f) && ProbedAfter(f, moment, id, rd)
    ensures LeaseTiming.ProbedAt(f.lock, LockSteps(f, moment), id, rd)
  {
    hide Inv, Valid, Exec, L.Valid, L.Exec, LockServer.KeepAliveStatus, LockServer.LockProbe;
    LockRun(f, moment);
    var lost: bool, fails: bool :|
      rd.results[|rd.results| - 1] == LockServer.LockProbe(ReplyAfter(f, moment, id, lost, fails));
    assert ReplyAfter(f, moment, id, lost, fails)
           == LeaseTiming.ReplyAfter(f.lock, LockSteps(f, moment), id, lost, fails);
  }

  /** The start carries a lease that is live now. */
  ghost predicate Holds(f: Fleet, p: Place) {
    LockedStart(f, p) && StartAt(f, p).lease.Some? && StartAt(f, p).lease.value in f.lock.store.live
  }

  /** The command whose start it is wants the lock `key`. */
  ghost predicate For(f: Fleet, p: Place, key: L.Key) {
    LockedStart(f, p) && f.clients[p.w][p.i] in f.lock.clients && f.lock.clients[f.clients[p.w][p.i]].key == key
  }

  /** The probe loop of the process started at `p`, over rounds at the given later moments of the fleet's run. */
  ghost predicate ProbesItsLease(f: Fleet, p: Place, rounds: seq<P.Round>, moments: seq<seq<Step>>) {
    && LockedStart(f, p) && StartAt(f, p).lease.Some? && |moments| == |rounds|
    && forall i | 0 <= i < |rounds| :: ProbedAfter(f, moments[i], StartAt(f, p).lease.value, rounds[i])
  }

  /**
   A process whose lease is not live passes no further round, whatever happens in any wrapper and at the lock
   service, and is killed within its limit less the failures already counted, unless cancelled or shut down.
   */
  lemma LapsedIsKilled(init: Fleet, steps: seq<Step>, p: Place, cfg: P.Config, m: P.Runner,
                       rounds: seq<P.Round>, moments: seq<seq<Step>>)
    requires Init(init) && Valid(init, steps)
    requires ProbesItsLease(Exec(init, steps), p, rounds, moments) && !Holds(Exec(init, steps), p)
    requires cfg.configured > 0 && ProbeMeaning.Live(rounds) && m.stopped.None? && m.count < P.Limit(cfg)
    ensures forall i | 0 <= i < |rounds| :: !P.AllPass(rounds[i])
    ensures |rounds| >= P.Limit(cfg) - m.count ==> P.Loop(cfg, m, rounds).stopped == Some(P.Killed)
  {
    hide Init, Inv, Valid, Exec, P.Loop, P.Fails, ProbeMeaning.Live, L.Inv, ProbedAfter, LeaseTiming.ProbedAt;
    var f := Exec(init, steps);
    var id := StartAt(f, p).lease.value;
    StartIsWon(init, steps, p);
    LockInv(f);
    assert id in f.lock.grantedTo;
    var lockMoments := seq(|moments|, i requires 0 <= i < |moments| => Moment(f, moments[i]));
    forall i | 0 <= i < |rounds| ensures LeaseTiming.ProbedAt(f.lock, lockMoments[i], id, rounds[i]) {
      ProbedValid(f, moments[i], id, rounds[i]);
      ProbedThere(f, moments[i], id, rounds[i]);
    }
    LeaseTiming.BoundedOverlap(f.lock, id, cfg, m, rounds, lockMoments);
  }

  /** The lock service's part of a moment. */
  ghost function Moment(f: Fleet, moment: seq<Step>): seq<L.Step> {
    if Valid(f, moment) then LockSteps(f, moment) else []
  }

  lemma ProbedValid(f: Fleet, moment: seq<Step>, id: L.LeaseId, rd: P.Round)
    requires ProbedAfter(f, moment, id, rd)
    ensures Valid(f, moment)
  {
  }

  lemma LockInv(f: Fleet)
    requires Inv(f)
    ensures L.Inv(f.lock)
  {
  }

  /**
   At every moment of every run: of any two processes started for one key, in any wrappers, one at least has
   no live lease, and one that has none is killed within its threshold of further rounds.
   */
  lemma AllButOneAreKilled(init: Fleet, steps: seq<Step>, key: L.Key, p: Place, q: Place,
                           cfg: P.Config, m: P.Runner, rounds: seq<P.Round>, moments: seq<seq<Step>>)
    requires Init(init) && Valid(init, steps)
    requires For(Exec(init, steps), p, key) && For(Exec(init, steps), q, key) && p != q
    requires ProbesItsLease(Exec(init, steps), p, rounds, moments)
    requires cfg.configured > 0 && ProbeMeaning.Live(rounds) && m.stopped.None? && m.count < P.Limit(cfg)
    ensures !Holds(Exec(init, steps), p) || !Holds(Exec(init, steps), q)
    ensures !Holds(Exec(init, steps), p) ==>
      && (forall i | 0 <= i < |rounds| :: !P.AllPass(rounds[i]))
      && (|rounds| >= P.Limit(cfg) - m.count ==> P.Loop(cfg, m, rounds).stopped == Some(P.Killed))
  {
    hide Init, Valid, Exec, P.Loop, P.AllPass, ProbeMeaning.Live, ProbedAfter;
    if Holds(Exec(init, steps), p) {
      if Holds(Exec(init, steps), q) {
        OneLiveHolder(init, steps, p, q);
      }
    } else {
      LapsedIsKilled(init, steps, p, cfg, m, rounds, moments);
    }
  }
}
