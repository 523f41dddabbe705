/**
 The holder's side of the lock: what its probe loop does once the lease is lost, and when the loop is fast
 enough that the lease is never lost.
 */
module LeaseTiming {
  import opened Clock
  import opened Wrappers
  import opened LockProtocol
  import opened Probes
  import ProbeMeaning
  import AcquireLock
  import LockServer
  import Decimal

  // ---------- After the lease is lost ----------

  /**
   Round `rd`'s last result is its lock probe, posted with the lease's text and either lost on the way or
   answered from the store as it is after the run `moment`.
   */
  ghost predicate ProbedAt(s: System, moment: seq<Step>, id: LeaseId, rd: Round) {
    && Valid(s, moment) && rd.results != []
    && exists lost: bool, fails: bool ::
         rd.results[|rd.results| - 1] == LockServer.LockProbe(ReplyAfter(s, moment, id, lost, fails))
  }

  ghost function ReplyAfter(s: System, moment: seq<Step>, id: LeaseId, lost: bool, fails: bool): Option<int>
    requires Valid(s, moment)
  {
    if lost then None
    else Some(LockServer.KeepAliveStatus(Exec(s, moment).store, Decimal.FormatInt(id), fails))
  }

  /** A lock probe for a lease that has expired fails at every later moment. */
  lemma LostLeaseFailsProbe(s: System, moment: seq<Step>, id: LeaseId, rd: Round)
    requires Inv(s) && id in s.grantedTo && id !in s.store.live
    requires ProbedAt(s, moment, id, rd)
    ensures !AllPass(rd)
  {
    ExpiredStaysExpired(s, moment, id);
    LockServer.ProbeMeansLive(Exec(s, moment).store, Decimal.FormatInt(id), true);
    LockServer.ProbeMeansLive(Exec(s, moment).store, Decimal.FormatInt(id), false);
    assert s.grantedTo[id] in s.requests;
  }

  /**
   Bounded overlap. Once a command's lease has expired, whatever else happens at the servers and in etcd
   and whatever its other probes say, no later round passes, so none resets the counter, and the process
   is killed within `Limit - count` further rounds that meet no cancel and no shutdown.
   */
  lemma BoundedOverlap(s: System, id: LeaseId, cfg: Config, m: Runner, rounds: seq<Round>, moments: seq<seq<Step>>)
    requires Inv(s) && id in s.grantedTo && id !in s.store.live
    requires cfg.configured > 0 && ProbeMeaning.Live(rounds) && m.stopped.None? && m.count < Limit(cfg)
    requires |moments| == |rounds| && forall i | 0 <= i < |rounds| :: ProbedAt(s, moments[i], id, rounds[i])
    ensures forall i | 0 <= i < |rounds| :: !AllPass(rounds[i])
    ensures |rounds| >= Limit(cfg) - m.count ==> Loop(cfg, m, rounds).stopped == Some(Killed)
    ensures Loop(cfg, m, rounds).stopped.None? ==> Loop(cfg, m, rounds).count >= m.count + |rounds|
  {
    forall i | 0 <= i < |rounds| ensures !AllPass(rounds[i]) {
      LostLeaseFailsProbe(s, moments[i], id, rounds[i]);
    }
    ProbeMeaning.FailingRoundsKill(cfg, m, rounds);
  }

  // ---------- Keeping the lease ----------

  /**
   The times of one lap of the probe loop, in nanoseconds: from its start until its keepalive reaches
   etcd, from there until its probes and hook are done, and its sleep.
   */
  datatype Lap = Lap(before: nat, after: nat, pause: nat)

  /** When the keepalives of the laps reach etcd, for a loop that starts at `start`. */
  function Beats(start: int, laps: seq<Lap>): (beats: seq<int>)
    ensures |beats| == |laps|
    decreases |laps|
  {
    if laps == [] then []
    else
      var beat := start + laps[0].before;
      [beat] + Beats(beat + laps[0].after + laps[0].pause, laps[1..])
  }

  /** No beat comes before the one before it. */
  predicate Ordered(last: int, beats: seq<int>)
    decreases |beats|
  {
    beats == [] || (last <= beats[0] && Ordered(beats[0], beats[1..]))
  }

  /** Nor a full lease length (in nanoseconds) after it. */
  predicate Spaced(last: int, beats: seq<int>, length: int)
    decreases |beats|
  {
    beats == [] || (last <= beats[0] < last + length && Spaced(beats[0], beats[1..], length))
  }

  /** Every turn's probes take at most `probe`, the rest of its work at most `rest`, its sleep at most `pause`. */
  ghost predicate Within(laps: seq<Lap>, probe: int, rest: int, pause: int) {
    forall t | t in laps :: t.before <= probe && t.after <= rest && t.pause <= pause
  }

  lemma {:induction false} BeatsAreOrdered(last: int, start: int, laps: seq<Lap>)
    requires last <= start
    ensures Ordered(last, Beats(start, laps))
    decreases |laps|
  {
    if laps != [] {
      var beat := start + laps[0].before;
      BeatsAreOrdered(beat, beat + laps[0].after + laps[0].pause, laps[1..]);
      assert Beats(start, laps)[1..] == Beats(beat + laps[0].after + laps[0].pause, laps[1..]);
    }
  }

  /** Start-up and one period, each with a round's work, below the lease length: the beats are spaced. */
  lemma {:induction false} BeatsAreSpaced(last: int, start: int, laps: seq<Lap>,
                                          probe: int, rest: int, pause: int, length: int)
    requires Within(laps, probe, rest, pause) && last <= start
    requires start - last + probe < length && pause + rest + probe < length
    ensures Spaced(last, Beats(start, laps), length)
    decreases |laps|
  {
    if laps != [] {
      var beat := start + laps[0].before;
      assert laps[0] in laps && forall t | t in laps[1..] :: t in laps;
      BeatsAreSpaced(beat, beat + laps[0].after + laps[0].pause, laps[1..], probe, rest, pause, length);
      assert Beats(start, laps)[1..] == Beats(beat + laps[0].after + laps[0].pause, laps[1..]);
    }
  }

  /**
   Those two bounds are exact: every loop of laps within the given times is spaced if and only if start-up
   and period are both short enough. Two laps that take all the time they may are spaced only then.
   */
  lemma SpacedExactly(last: int, start: int, probe: nat, rest: nat, pause: nat, length: int)
    requires last <= start
    ensures (forall laps | Within(laps, probe, rest, pause) :: Spaced(last, Beats(start, laps), length))
            <==> start - last + probe < length && pause + rest + probe < length
  {
    if start - last + probe < length && pause + rest + probe < length {
      forall laps | Within(laps, probe, rest, pause) ensures Spaced(last, Beats(start, laps), length) {
        BeatsAreSpaced(last, start, laps, probe, rest, pause, length);
      }
    } else {
      var longest := Lap(probe, rest, pause);
      var laps := [longest, longest];
      assert Within(laps, probe, rest, pause);
      var beats := Beats(start, laps);
      assert laps[1..] == [longest] && beats[0] == start + probe;
      assert beats[1..] == Beats(start + probe + rest + pause, [longest]);
      assert beats[1..][0] == start + probe + rest + pause + probe;
      assert !Spaced(last, beats, length);
    }
  }

  /**
   A run in which the holder's keepalives reach etcd at the given times: time never passes a beat that has
   not been kept, and everybody else does as they like.
   */
  ghost predicate Paced(s: System, steps: seq<Step>, id: LeaseId, beats: seq<int>)
    decreases |steps|
  {
    steps == [] ||
    (Enabled(s, steps[0]) &&
     var rest := steps[1..];
     match steps[0]
     case Refresh(l) =>
       Paced(Next(s, steps[0]), rest, id,
             if l == id && beats != [] && s.store.clock == beats[0] then beats[1..] else beats)
     case Tick(d) =>
       beats != [] && s.store.clock + d <= beats[0] && Paced(Next(s, steps[0]), rest, id, beats)
     case _ => Paced(Next(s, steps[0]), rest, id, beats))
  }

  lemma {:induction false} PacedIsValid(s: System, steps: seq<Step>, id: LeaseId, beats: seq<int>)
    requires Paced(s, steps, id, beats)
    ensures Valid(s, steps)
    decreases |steps|
  {
    if steps != [] {
      var kept := steps[0] == Refresh(id) && beats != [] && s.store.clock == beats[0];
      hide Next, Enabled;
      PacedIsValid(Next(s, steps[0]), steps[1..], id, if kept then beats[1..] else beats);
    }
  }

  /** The lease was renewed at `last` for `ttl` seconds, and the next beat has not been missed. */
  ghost predicate InTime(s: System, id: LeaseId, ttl: int, last: int, beats: seq<int>) {
    && id in s.store.live && s.store.live[id].ttl == ttl > 0
    && s.store.live[id].deadline >= last + ttl * SECOND
    && last <= s.store.clock <= (if beats == [] then last else beats[0])
    && Spaced(last, beats, ttl * SECOND)
  }

  lemma InTimeStep(s: System, step: Step, id: LeaseId, ttl: int, last: int, beats: seq<int>)
    requires Inv(s) && Enabled(s, step) && InTime(s, id, ttl, last, beats)
    requires step.Tick? ==> beats != [] && s.store.clock + step.d <= beats[0]
    ensures InTime(Next(s, step), id, ttl, last, beats)
    ensures step == Refresh(id) && beats != [] && s.store.clock == beats[0] ==>
      InTime(Next(s, step), id, ttl, beats[0], beats[1..])
    ensures step != Expire(id)
  {
    assert id in s.grantedTo;
    hide Inv, RequestsAfter, ClientsAfter, GrantedAfter, Committed;
    if beats != [] {
      assert Spaced(beats[0], beats[1..], ttl * SECOND);
    }
  }

  lemma {:induction false} InTimeRun(s: System, steps: seq<Step>, id: LeaseId, ttl: int, last: int, beats: seq<int>)
    requires Inv(s) && InTime(s, id, ttl, last, beats) && Paced(s, steps, id, beats)
    ensures Valid(s, steps) && id in Exec(s, steps).store.live
    decreases |steps|
  {
    if steps != [] {
      var next := Next(s, steps[0]);
      InvStep(s, steps[0]);
      InTimeStep(s, steps[0], id, ttl, last, beats);
      hide Inv, InTime, Next, Enabled;
      if steps[0] == Refresh(id) && beats != [] && s.store.clock == beats[0] {
        InTimeRun(next, steps[1..], id, ttl, beats[0], beats[1..]);
      } else {
        InTimeRun(next, steps[1..], id, ttl, last, beats);
      }
    }
  }

  /** Whatever everybody else does, a holder with these keepalives keeps its lease. */
  ghost predicate Survives(s: System, id: LeaseId, beats: seq<int>) {
    forall steps | Paced(s, steps, id, beats) && Valid(s, steps) :: id in Exec(s, steps).store.live
  }

  /** Lease `id` has just been granted or renewed, for `ttl` seconds. */
  ghost predicate JustRenewed(s: System, id: LeaseId, ttl: int) {
    id in s.store.live && s.store.live[id] == Lease(ttl, s.store.clock + ttl * SECOND)
  }

  /** A run that begins by going to the next beat and keeping it is paced if the rest is. */
  lemma PacedByBeat(s: System, id: LeaseId, ttl: int, beats: seq<int>) returns (mid: System)
    requires JustRenewed(s, id, ttl) && beats != [] && s.store.clock <= beats[0] < s.store.clock + ttl * SECOND
    ensures JustRenewed(mid, id, ttl) && mid.store.clock == beats[0]
    ensures forall rest | Paced(mid, rest, id, beats[1..]) && Valid(mid, rest) ::
      var steps := [Tick(beats[0] - s.store.clock), Refresh(id)] + rest;
      Paced(s, steps, id, beats) && Valid(s, steps) && Exec(s, steps) == Exec(mid, rest)
  {
    var tick := Tick(beats[0] - s.store.clock);
    var ticked := Next(s, tick);
    mid := Next(ticked, Refresh(id));
    assert ticked.store.clock == beats[0] && id in ticked.store.live;
    hide StoreAfter, RequestsAfter, ClientsAfter, GrantedAfter;
    forall rest | Paced(mid, rest, id, beats[1..]) && Valid(mid, rest)
      ensures var steps := [tick, Refresh(id)] + rest;
        Paced(s, steps, id, beats) && Valid(s, steps) && Exec(s, steps) == Exec(mid, rest)
    {
      var later := [Refresh(id)] + rest;
      var steps := [tick, Refresh(id)] + rest;
      assert later[1..] == rest && steps[1..] == later;
      assert Paced(ticked, later, id, beats) && Valid(ticked, later) && Exec(ticked, later) == Exec(mid, rest);
    }
  }

  lemma ExpiresNow(s: System, id: LeaseId, beats: seq<int>)
    requires Enabled(s, Expire(id))
    ensures var steps := [Expire(id)];
      Paced(s, steps, id, beats) && Valid(s, steps) && id !in Exec(s, steps).store.live
  {
    var t := Next(s, Expire(id));
    assert [Expire(id)][1..] == [] && id !in t.store.live;
    assert Valid(t, []) && Exec(t, []) == t && Paced(t, [], id, beats);
  }

  /** A missed beat can cost the lease: some run that keeps every beat up to it lets the lease expire. */
  lemma {:induction false} MissedBeat(s: System, id: LeaseId, ttl: int, beats: seq<int>) returns (steps: seq<Step>)
    requires JustRenewed(s, id, ttl) && Ordered(s.store.clock, beats)
    requires ttl <= 0 || !Spaced(s.store.clock, beats, ttl * SECOND)
    ensures Paced(s, steps, id, beats) && Valid(s, steps) && id !in Exec(s, steps).store.live
    decreases |beats|
  {
    if ttl <= 0 {
      steps := [Expire(id)];
      ExpiresNow(s, id, beats);
    } else if beats[0] >= s.store.clock + ttl * SECOND {
      var tick := Tick(ttl * SECOND);
      var late := Next(s, tick);
      steps := [tick, Expire(id)];
      ExpiresNow(late, id, beats);
      assert steps[1..] == [Expire(id)];
    } else {
      var mid := PacedByBeat(s, id, ttl, beats);
      var rest := MissedBeat(mid, id, ttl, beats[1..]);
      steps := [Tick(beats[0] - s.store.clock), Refresh(id)] + rest;
    }
  }

  /**
   Retention, exactly. A lease just renewed survives every run in which its holder's keepalives get through
   at the given times if and only if it has a positive length and no two keepalives are that far apart.
   */
  lemma RetentionExactly(s: System, id: LeaseId, ttl: int, beats: seq<int>)
    requires Inv(s) && JustRenewed(s, id, ttl) && Ordered(s.store.clock, beats)
    ensures Survives(s, id, beats) <==> ttl > 0 && Spaced(s.store.clock, beats, ttl * SECOND)
  {
    if ttl > 0 && Spaced(s.store.clock, beats, ttl * SECOND) {
      forall steps | Paced(s, steps, id, beats) && Valid(s, steps) ensures id in Exec(s, steps).store.live {
        InTimeRun(s, steps, id, ttl, s.store.clock, beats);
      }
    } else {
      var steps := MissedBeat(s, id, ttl, beats);
    }
  }

  /** What the acquire loop ends with is what retention starts from. */
  lemma AcquiredIsJustRenewed(s: System, c: ClientId, r: RequestId, key: Key, header: Option<int>, id: LeaseId)
    requires AcquireLock.Asked(s, c, r, key, header) && LockServer.FullLength(s, r, id)
    ensures JustRenewed(s, id, LockServer.LeaseSeconds(header))
  {
  }

  /**
   Timed retention. A client was just answered 201 for a lease of length header `d`. If its loop starts
   soon enough and goes round fast enough, measured against the whole seconds of `d`, then over every run in
   which its keepalives get through the lease stays live and the key never changes hands.
   */
  lemma TimedRetention(s: System, steps: seq<Step>, r: RequestId, d: nat, start: int, laps: seq<Lap>,
                       probe: int, rest: int, pause: int)
    requires Inv(s) && r in s.requests && s.requests[r].pc.Won?
    requires var length := LockServer.LeaseSeconds(Some(d)) * SECOND;
      && JustRenewed(s, s.requests[r].pc.lease, LockServer.LeaseSeconds(Some(d)))
      && s.store.clock <= start && start - s.store.clock + probe < length
      && pause + rest + probe < length && probe >= 0
    requires Within(laps, probe, rest, pause) && Paced(s, steps, s.requests[r].pc.lease, Beats(start, laps))
    ensures Valid(s, steps)
    ensures var key, id, t := s.requests[r].key, s.requests[r].pc.lease, Exec(s, steps);
      && id in t.store.live && key in t.store.bindings && t.store.bindings[key] == id
      && forall q | LiveWinner(t, q) && t.requests[q].key == key :: q == r
  {
    var ttl, id, key := LockServer.LeaseSeconds(Some(d)), s.requests[r].pc.lease, s.requests[r].key;
    BeatsAreSpaced(s.store.clock, start, laps, probe, rest, pause, ttl * SECOND);
    InTimeRun(s, steps, id, ttl, s.store.clock, Beats(start, laps));
    BoundExactlyWhileLive(s, steps, key);
    InvRun(s, steps);
    PersistsRun(s, steps);
  }

  /**
   With the defaults, a two-second lease and a first probe after five seconds, the bound is never met: a
   holder that has just won can lose the key before its first keepalive, however fast its probes are.
   */
  lemma DefaultsLoseTheKey(s: System, r: RequestId, start: int, laps: seq<Lap>) returns (steps: seq<Step>)
    requires Inv(s) && r in s.requests && s.requests[r].pc.Won?
    requires var ttl := LockServer.LeaseSeconds(AcquireLock.Header(AcquireLock.DEFAULT_TTL));
      JustRenewed(s, s.requests[r].pc.lease, ttl)
    requires start >= s.store.clock + 5 * SECOND && laps != []
    ensures Valid(s, steps) && Paced(s, steps, s.requests[r].pc.lease, Beats(start, laps))
    ensures var key, id, t := s.requests[r].key, s.requests[r].pc.lease, Exec(s, steps);
      && key in s.store.bindings && s.store.bindings[key] == id
      && !(key in t.store.bindings && t.store.bindings[key] == id)
    ensures !Survives(s, s.requests[r].pc.lease, Beats(start, laps))
  {
    BeatsAreOrdered(s.store.clock, start, laps);
    steps := MissedBeat(s, s.requests[r].pc.lease, 2, Beats(start, laps));
    assert WinnersBound(s);
    BoundExactlyWhileLive(s, steps, s.requests[r].key);
    hide Inv;
  }
}
