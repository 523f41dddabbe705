/**
 Counting recent process starts. Times are in nanoseconds; the comparison is made on whole seconds, as
 `Time.Unix` gives them.
 */
module RestartHistory {
  import opened Clock

  const HISTORY := 10
  const DEFAULT_PERIOD := 10 * SECOND
  const DEFAULT_THRESHOLD := 1

  function Min(a: int, b: int): int {
    if a < b then a else b
  }

  function Unix(t: int): int {
    t / SECOND
  }

  /** The test made on one start of the history. */
  predicate Recent(point: int, now: int, period: int) {
    Unix(now - period) < Unix(point)
  }

  /** The number of recent starts when the clock is read afresh for each start: `clock[i]` is the i-th reading. */
  function CountRecent(points: seq<int>, clock: seq<int>, period: int): nat
    requires |clock| == |points|
  {
    if points == [] then 0
    else
      var n := |points| - 1;
      CountRecent(points[..n], clock[..n], period) + if Recent(points[n], clock[n], period) then 1 else 0
  }

  /** The number of starts that pass `test`. */
  function Count(points: seq<int>, test: int -> bool): nat {
    if points == [] then 0
    else Count(points[..|points| - 1], test) + if test(points[|points| - 1]) then 1 else 0
  }

  function RecentAt(now: int, period: int): int -> bool {
    point => Recent(point, now, period)
  }

  /** Whether a start's exact age is less than `limit` nanoseconds. */
  function YoungerThan(now: int, limit: int): int -> bool {
    point => now - point < limit
  }

  /** The number of recent starts for one clock reading. */
  function CountAt(points: seq<int>, now: int, period: int): nat {
    Count(points, RecentAt(now, period))
  }

  /** The number of starts whose exact age is less than `limit` nanoseconds. */
  function CountYounger(points: seq<int>, now: int, limit: int): nat {
    Count(points, YoungerThan(now, limit))
  }

  ghost predicate NonDecreasing(xs: seq<int>) {
    forall i, j | 0 <= i < j < |xs| :: xs[i] <= xs[j]
  }

  /** What the state keeps of a full history: its last ten starts. */
  function Kept(all: seq<int>): seq<int> {
    if |all| > HISTORY then all[|all| - HISTORY..] else all
  }

  /** Appending to the kept starts and cutting again keeps what cutting the full history would. */
  lemma KeptAppend(all: seq<int>, now: int)
    ensures Kept(all + [now]) == Kept(Kept(all) + [now])
    ensures |Kept(all)| <= 10
  {
  }

  // ---------- Truncation to seconds ----------

  lemma RecentSandwich(point: int, now: int, period: int)
    ensures now - point <= period - SECOND ==> Recent(point, now, period)
    ensures Recent(point, now, period) ==> now - point < period
  {
    var x := now - period;
    assert SECOND * Unix(x) <= x < SECOND * Unix(x) + SECOND;
    assert SECOND * Unix(point) <= point < SECOND * Unix(point) + SECOND;
  }

  lemma RecentIsMonotone(point: int, t1: int, t2: int, period: int)
    requires t1 <= t2 && Recent(point, t2, period)
    ensures Recent(point, t1, period)
  {
    assert (t1 - period) / SECOND <= (t2 - period) / SECOND;
  }

  /**
   For any history and any non-decreasing clock readings between `first` and `last`, the loop counts every
   start aged at most the period less a second, and no start aged the period or more.
   */
  lemma {:induction false} WindowBounds(points: seq<int>, clock: seq<int>, period: int, first: int, last: int)
    requires |clock| == |points| && forall t | t in clock :: first <= t <= last
    ensures CountYounger(points, last, period - SECOND + 1) <= CountRecent(points, clock, period)
    ensures CountRecent(points, clock, period) <= CountYounger(points, first, period)
  {
    if points != [] {
      var n := |points| - 1;
      assert forall t | t in clock[..n] :: t in clock;
      WindowBounds(points[..n], clock[..n], period, first, last);
      assert clock[n] in clock;
      RecentSandwich(points[n], clock[n], period);
      RecentSandwich(points[n], last, period);
      if Recent(points[n], last, period) {
        RecentIsMonotone(points[n], clock[n], last, period);
      }
    }
  }

  /** With one clock reading for the whole loop, the loop's count is `CountAt`. */
  lemma {:induction false} SteadyClock(points: seq<int>, clock: seq<int>, period: int, now: int)
    requires |clock| == |points| && forall t | t in clock :: t == now
    ensures CountRecent(points, clock, period) == CountAt(points, now, period)
  {
    if points != [] {
      var n := |points| - 1;
      assert clock[n] in clock;
      assert forall t | t in clock[..n] :: t in clock;
      SteadyClock(points[..n], clock[..n], period, now);
    }
  }

  // ---------- The bounded history against the full one ----------

  /** A test that a start passes whenever an earlier one does. */
  ghost predicate Upward(test: int -> bool) {
    forall p, q | p <= q && test(p) :: test(q)
  }

  lemma {:induction false} CountSplit(xs: seq<int>, ys: seq<int>, test: int -> bool)
    ensures Count(xs + ys, test) == Count(xs, test) + Count(ys, test)
  {
    if ys == [] {
      assert xs + ys == xs;
    } else {
      var n := |ys| - 1;
      assert (xs + ys)[..|xs + ys| - 1] == xs + ys[..n];
      CountSplit(xs, ys[..n], test);
    }
  }

  lemma {:induction false} CountAllOrNone(points: seq<int>, test: int -> bool)
    ensures (forall p | p in points :: test(p)) ==> Count(points, test) == |points|
    ensures (forall p | p in points :: !test(p)) ==> Count(points, test) == 0
    ensures Count(points, test) <= |points|
  {
    if points != [] {
      var n := |points| - 1;
      assert points[n] in points && forall p | p in points[..n] :: p in points;
      CountAllOrNone(points[..n], test);
      if forall p | p in points :: test(p) {
        assert test(points[n]) && forall p | p in points[..n] :: test(p);
      }
      if forall p | p in points :: !test(p) {
        assert !test(points[n]) && forall p | p in points[..n] :: !test(p);
      }
    }
  }

  /** Either nothing before the cut passes or everything after it does. */
  lemma CutIsSharp(all: seq<int>, cut: nat, test: int -> bool)
    requires NonDecreasing(all) && Upward(test) && cut <= |all|
    ensures Count(all[..cut], test) == 0 || Count(all[cut..], test) == |all| - cut
  {
    if p :| p in all[..cut] && test(p) {
      var i :| 0 <= i < cut && all[i] == p;
      forall q | q in all[cut..] ensures test(q) {
        var j :| 0 <= j < |all[cut..]| && all[cut..][j] == q;
        assert all[i] <= all[cut + j];
      }
      CountAllOrNone(all[cut..], test);
    } else {
      CountAllOrNone(all[..cut], test);
    }
  }

  /** Keeping ten starts loses nothing up to ten: the kept count is the full count, capped at ten. */
  lemma KeptCount(all: seq<int>, test: int -> bool)
    requires NonDecreasing(all) && Upward(test)
    ensures Count(Kept(all), test) == Min(10, Count(all, test))
  {
    CountAllOrNone(Kept(all), test);
    if |all| > HISTORY {
      var cut := |all| - HISTORY;
      assert all == all[..cut] + all[cut..];
      CountSplit(all[..cut], all[cut..], test);
      CutIsSharp(all, cut, test);
    }
  }

  /** The same for the two counts a verdict is made of. */
  lemma KeptCounts(all: seq<int>, now: int, period: int)
    requires NonDecreasing(all)
    ensures CountAt(Kept(all), now, period) == Min(10, CountAt(all, now, period))
    ensures CountYounger(Kept(all), now, period) == Min(10, CountYounger(all, now, period))
  {
    forall p, q | p <= q && Recent(p, now, period) ensures Recent(q, now, period) {
      assert p / SECOND <= q / SECOND;
    }
    KeptCount(all, RecentAt(now, period));
    KeptCount(all, YoungerThan(now, period));
  }

  /** The probe's verdict on the kept history is its verdict on every start ever made. */
  ghost predicate VerdictsAgree(all: seq<int>, now: int, period: int, threshold: int) {
    CountAt(Kept(all), now, period) <= threshold <==> CountAt(all, now, period) <= threshold
  }

  /** Starts all at one instant are all recent for a while. */
  lemma BurstCount(n: nat, period: int)
    ensures NonDecreasing(seq(n, _ => 0)) && CountAt(seq(n, _ => 0), period - 1, period) == n
  {
    CountAllOrNone(seq(n, _ => 0), RecentAt(period - 1, period));
  }

  /**
   The verdict on the kept history is the verdict on all starts, for every history with non-decreasing times
   and every clock reading, if and only if the threshold is below ten. A threshold of ten or more never fails,
   so one more start than the threshold, all at one instant, is a history on which the two verdicts differ.
   */
  lemma VerdictAgrees(period: int, threshold: int)
    ensures (forall all, now | NonDecreasing(all) :: VerdictsAgree(all, now, period, threshold))
            <==> threshold < 10
    ensures threshold >= 10 ==> forall all, now :: CountAt(Kept(all), now, period) <= threshold
  {
    forall all, now | NonDecreasing(all) && threshold < HISTORY ensures VerdictsAgree(all, now, period, threshold) {
      KeptCounts(all, now, period);
    }
    if threshold >= HISTORY {
      forall all, now ensures CountAt(Kept(all), now, period) <= threshold {
        CountAllOrNone(Kept(all), RecentAt(now, period));
      }
      var burst := seq(threshold + 1, _ => 0);
      BurstCount(threshold + 1, period);
      KeptCounts(burst, period - 1, period);
      assert !VerdictsAgree(burst, period - 1, period, threshold);
    }
  }

  /**
   The loop's verdict on the kept starts, for any clock readings between `first` and `last`: it passes if the
   starts ever made within the period of the first reading are within the threshold, and fails, if it can fail
   at all, when those within the period less a second of the last reading are not.
   */
  lemma VerdictBounds(all: seq<int>, clock: seq<int>, period: int, threshold: int, first: int, last: int)
    requires NonDecreasing(all) && |clock| == |Kept(all)| && forall t | t in clock :: first <= t <= last
    ensures threshold >= 10 || CountYounger(all, first, period) <= threshold ==>
      CountRecent(Kept(all), clock, period) <= threshold
    ensures threshold < 10 && CountYounger(all, last, period - SECOND + 1) > threshold ==>
      CountRecent(Kept(all), clock, period) > threshold
    ensures first == last ==>
      (CountRecent(Kept(all), clock, period) <= threshold <==>
       threshold >= 10 || CountAt(all, first, period) <= threshold)
  {
    WindowBounds(Kept(all), clock, period, first, last);
    KeptCounts(all, first, period);
    KeptCounts(all, last, period - SECOND + 1);
    if first == last {
      SteadyClock(Kept(all), clock, period, first);
    }
  }
}
