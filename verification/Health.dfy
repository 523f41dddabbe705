/**
 The wrapper's shared `State` and the floating-pid probe that reads it. The maps are updated in place
 under one lock, so each method is one atomic step.
 */
module Health {
  import opened Clock
  import opened RestartHistory

  class State {
    var shutdown: bool
    var killed: map<string, bool>
    var status: map<string, bool>
    var pids: map<string, int>
    var starts: map<string, seq<int>>
    /** Every start ever recorded; the program keeps only the last ten of each name. */
    ghost var allStarts: map<string, seq<int>>

    ghost predicate Valid()
      reads this
    {
      && starts.Keys == allStarts.Keys
      && forall name | name in starts :: name in allStarts && starts[name] == Kept(allStarts[name])
    }

    constructor ()
      ensures Valid() && !shutdown && killed == map[] && status == map[] && pids == map[] && allStarts == map[]
    {
      shutdown := false;
      killed, status, pids := map[], map[], map[];
      starts, allStarts := map[], map[];
    }

    predicate IsShutdown()
      reads this
    {
      shutdown
    }

    /** A name that was never marked reads as not killed. */
    predicate IsKilled(name: string)
      reads this
    {
      name in killed && killed[name]
    }

    function StartsOf(name: string): seq<int>
      reads this
    {
      if name in starts then starts[name] else []
    }

    ghost function AllStartsOf(name: string): seq<int>
      reads this
    {
      if name in allStarts then allStarts[name] else []
    }

    lemma StartsAreKept(name: string)
      requires Valid()
      ensures StartsOf(name) == Kept(AllStartsOf(name))
    {
    }

    method SetShutdown()
      requires Valid()
      modifies this`shutdown
      ensures Valid() && shutdown
    {
      shutdown := true;
    }

    method SetState(name: string, healthy: bool)
      requires Valid()
      modifies this`status
      ensures Valid() && status == old(status)[name := healthy]
    {
      status := status[name := healthy];
    }

    method RemoveState(name: string)
      requires Valid()
      modifies this`status
      ensures Valid() && status == old(status) - {name}
    {
      status := status - {name};
    }

    method SetKillState(name: string, value: bool)
      requires Valid()
      modifies this`killed
      ensures Valid() && killed == old(killed)[name := value]
    {
      killed := killed[name := value];
    }

    /** Records the pid and the start time, and keeps only the last ten start times. */
    method SetPid(name: string, pid: int, now: int)
      requires Valid()
      modifies this`pids, this`starts, this`allStarts
      ensures Valid() && pids == old(pids)[name := pid]
      ensures allStarts == old(allStarts)[name := old(AllStartsOf(name)) + [now]]
      ensures |StartsOf(name)| <= 10
    {
      ghost var full := AllStartsOf(name) + [now];
      var points := StartsOf(name) + [now];
      KeptAppend(AllStartsOf(name), now);
      if |points| > HISTORY {
        points := points[|points| - HISTORY..];
      }
      assert points == Kept(full) && |points| <= HISTORY;
      hide Kept;
      pids := pids[name := pid];
      starts := starts[name := points];
      allStarts := allStarts[name := full];
    }

    /** Every recorded pid, one for each name. */
    method GetPids() returns (all: seq<int>)
      ensures |all| == |pids| && forall pid :: pid in all <==> pid in pids.Values
    {
      all := [];
      var todo := pids.Keys;
      while todo != {}
        invariant todo <= pids.Keys && |all| + |todo| == |pids|
        invariant forall pid :: pid in all <==> exists name :: name in pids.Keys - todo && pids[name] == pid
        decreases |todo|
      {
        var name :| name in todo;
        all := all + [pids[name]];
        todo := todo - {name};
      }
    }

    /** The number of recent starts of `name`; `clock[i]` is what the clock reads when the i-th start is examined. */
    method NumOfRestarts(name: string, period: int, clock: seq<int>) returns (r: nat)
      requires |clock| == |StartsOf(name)|
      ensures r == CountRecent(StartsOf(name), clock, period)
    {
      var data := StartsOf(name);
      r := 0;
      for i := 0 to |data|
        invariant r == CountRecent(data[..i], clock[..i], period)
      {
        assert data[..i + 1][..i] == data[..i] && clock[..i + 1][..i] == clock[..i];
        if Recent(data[i], clock[i], period) {
          r := r + 1;
        }
      }
      assert data[..|data|] == data && clock[..|data|] == clock;
    }
  }

  /**
   The floating-pid probe, with the defaults filled in. `clock` is what the clock reads as each kept start is
   examined, never before `first` nor after `last`. Healthy if the starts ever made within the period of the
   first reading do not exceed the threshold; unhealthy, unless the threshold is ten or more, if those within
   the period less a second of the last reading do; and exactly so when the clock stands still.
   */
  method FloatingPid(state: State, name: string, period: int, threshold: int, clock: seq<int>,
                     ghost first: int, ghost last: int)
    returns (healthy: bool)
    requires state.Valid() && NonDecreasing(state.AllStartsOf(name)) && |clock| == |state.StartsOf(name)|
    requires forall t | t in clock :: first <= t <= last
    ensures var p := if period == 0 then 10 * SECOND else period;
      var t := if threshold == 0 then 1 else threshold;
      var all := state.AllStartsOf(name);
      && (healthy <==> CountRecent(state.StartsOf(name), clock, p) <= t)
      && (t >= 10 || CountYounger(all, first, p) <= t ==> healthy)
      && (t < 10 && CountYounger(all, last, p - SECOND + 1) > t ==> !healthy)
      && (first == last ==> (healthy <==> t >= 10 || CountAt(all, first, p) <= t))
  {
    hide Kept, CountRecent, CountAt, CountYounger, NonDecreasing;
    state.StartsAreKept(name);
    var p, t := period, threshold;
    if p == 0 {
      p := DEFAULT_PERIOD;
    }
    if t == 0 {
      t := DEFAULT_THRESHOLD;
    }
    var r := state.NumOfRestarts(name, p, clock);
    VerdictBounds(state.AllStartsOf(name), clock, p, t, first, last);
    return r <= t;
  }
}
