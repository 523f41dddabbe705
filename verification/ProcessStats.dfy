/**
 The stats routine of one process: it reads `/proc`, adds the CPU time used since the last reading to a
 counter, gives up after three failed readings in a row, and marks the process killed above its memory
 limit. Floating-point numbers are modelled as reals.
 */
module ProcessStats {
  import opened Wrappers
  import opened Health
  import opened StatFile

  const FAILURE_THRESHOLD := 3

  const CLOCK_TICKS := 100.0
  const PAGE_SIZE := 4096.0

  /** One look at the stat file: it cannot be read or parsed, or it gives CPU seconds and memory bytes. */
  datatype Reading = Unreadable | Sample(cpu: real, memory: real)

  /** A column as a number: text that is none counts as zero. `parse` is `strconv.ParseFloat`. */
  function Number(parse: string -> Option<real>, column: string): real {
    match parse(column)
    case None => 0.0
    case Some(value) => value
  }

  /** What a stat file says, `file` being its text if it can be read. */
  function ReadingOf(file: Option<string>, parse: string -> Option<real>, clockTicks: real, pageSize: real): Reading
    requires clockTicks != 0.0
  {
    if file.None? || AfterParen(file.value).None? then Unreadable
    else
      var columns := Columns(AfterParen(file.value).value);
      if |columns| < 23 then Unreadable
      else Sample((Number(parse, columns[12]) + Number(parse, columns[13])) / clockTicks,
                  Number(parse, columns[22]) * pageSize)
  }

  /**
   For a name that moves no column, the reading is the 12th and 13th field, user and system time in hundredths
   of a second, and the 22nd, resident pages of 4096 bytes. A field that is no number counts as zero.
   */
  lemma ReadingOfLine(pid: string, name: string, fields: seq<string>, parse: string -> Option<real>,
                      user: real, system: real, pages: real)
    requires ')' !in pid && |fields| >= 22 && forall w | w in fields :: ' ' !in w
    requires Spaces(NameTail(name)) == 0
    requires parse(fields[11]) == Some(user) || (parse(fields[11]) == None && user == 0.0)
    requires parse(fields[12]) == Some(system) || (parse(fields[12]) == None && system == 0.0)
    requires parse(fields[21]) == Some(pages) || (parse(fields[21]) == None && pages == 0.0)
    ensures ReadingOf(Some(Line(pid, name, fields)), parse, CLOCK_TICKS, PAGE_SIZE) ==
            Sample((user + system) / 100.0, pages * 4096.0)
  {
    FieldsFound(pid, name, fields);
    var columns := Columns(AfterParen(Line(pid, name, fields)).value);
    assert fields == columns[1..];
    hide Line, Columns, AfterParen, NameTail, Spaces;
    assert fields[11] == columns[12] && fields[12] == columns[13] && fields[21] == columns[22];
  }

  /** There is no reading if and only if there is no file, or no ')' in it, or fewer than 22 spaces after the first. */
  lemma NoReading(file: Option<string>, parse: string -> Option<real>)
    ensures ReadingOf(file, parse, CLOCK_TICKS, PAGE_SIZE).Unreadable? <==>
      file.None? || ')' !in file.value || Spaces(file.value[FirstParen(file.value) + 1..]) < 22
  {
    if file.Some? {
      AfterFirstParen(file.value);
      if ')' in file.value {
        ColumnsCount(AfterParen(file.value).value);
      }
    }
    hide Spaces, Columns, AfterParen;
  }

  /** The reader, which remembers the CPU seconds of its last good reading. */
  class ProcStat {
    const clockTicks: real
    const pageSize: real
    var cpuSeconds: real

    /** Zero means the default. */
    constructor (clockTicks: real, pageSize: real)
      ensures this.clockTicks == (if clockTicks == 0.0 then CLOCK_TICKS else clockTicks) != 0.0
      ensures this.pageSize == if pageSize == 0.0 then PAGE_SIZE else pageSize
      ensures cpuSeconds == 0.0
    {
      this.clockTicks := if clockTicks == 0.0 then CLOCK_TICKS else clockTicks;
      this.pageSize := if pageSize == 0.0 then PAGE_SIZE else pageSize;
      cpuSeconds := 0.0;
    }

    method Stat(file: Option<string>, parse: string -> Option<real>)
      returns (cpu: real, delta: real, memory: real, failed: bool)
      requires clockTicks != 0.0
      modifies this
      ensures var reading := ReadingOf(file, parse, clockTicks, pageSize);
        && (failed <==> reading.Unreadable?)
        && (failed ==> cpu == delta == memory == 0.0 && cpuSeconds == old(cpuSeconds))
        && (!failed ==>
              cpu == cpuSeconds == reading.cpu && delta == reading.cpu - old(cpuSeconds) && memory == reading.memory)
    {
      if file.None? {
        return 0.0, 0.0, 0.0, true;
      }
      var rest := AfterParen(file.value);
      if rest.None? {
        return 0.0, 0.0, 0.0, true;
      }
      var columns := Columns(rest.value);
      if |columns| < 23 {
        return 0.0, 0.0, 0.0, true;
      }
      cpu := (Number(parse, columns[12]) + Number(parse, columns[13])) / clockTicks;
      memory := Number(parse, columns[22]) * pageSize;
      delta := cpu - cpuSeconds;
      cpuSeconds := cpu;
      failed := false;
    }
  }

  /** The CPU seconds of the last sample among the first `n` readings. */
  function LastCpu(readings: seq<Reading>, n: nat): real
    requires n <= |readings|
  {
    if n == 0 then 0.0
    else if readings[n - 1].Sample? then readings[n - 1].cpu
    else LastCpu(readings, n - 1)
  }

  /** Reading `i` counts as failed: no sample, or one whose CPU, CPU difference and memory sum to zero. */
  predicate FailsAt(readings: seq<Reading>, i: nat)
    requires i < |readings|
  {
    readings[i].Unreadable? ||
    readings[i].cpu + (readings[i].cpu - LastCpu(readings, i)) + readings[i].memory == 0.0
  }

  /** The CPU seconds of the last reading among the first `n` that did not fail. */
  function LastGoodCpu(readings: seq<Reading>, n: nat): real
    requires n <= |readings|
  {
    if n == 0 then 0.0
    else if !FailsAt(readings, n - 1) then readings[n - 1].cpu
    else LastGoodCpu(readings, n - 1)
  }

  /** The last three of the first `n` readings failed. */
  predicate ThreeFailed(readings: seq<Reading>, n: nat)
    requires n <= |readings|
  {
    n >= 3 && FailsAt(readings, n - 1) && FailsAt(readings, n - 2) && FailsAt(readings, n - 3)
  }

  /** How many of the first `n` readings have failed since the last good one. */
  function FailedInARow(readings: seq<Reading>, n: nat): nat
    requires n <= |readings|
  {
    if n == 0 || !FailsAt(readings, n - 1) then 0 else FailedInARow(readings, n - 1) + 1
  }

  lemma ThreeInARow(readings: seq<Reading>, n: nat)
    requires n <= |readings|
    ensures ThreeFailed(readings, n) <==> FailedInARow(readings, n) >= FAILURE_THRESHOLD
  {
    hide FailsAt;
    assert n >= 1 ==>
      FailedInARow(readings, n) == if FailsAt(readings, n - 1) then FailedInARow(readings, n - 1) + 1 else 0;
    assert n >= 2 ==>
      FailedInARow(readings, n - 1) == if FailsAt(readings, n - 2) then FailedInARow(readings, n - 2) + 1 else 0;
    assert n >= 3 ==>
      FailedInARow(readings, n - 2) == if FailsAt(readings, n - 3) then FailedInARow(readings, n - 3) + 1 else 0;
  }

  predicate OverLimit(readings: seq<Reading>, i: nat, limitMB: real)
    requires i < |readings|
  {
    !FailsAt(readings, i) && limitMB > 0.0 && readings[i].memory / 1000000.0 > limitMB
  }

  /** Some good reading among the first `n` is over the limit. */
  ghost predicate WasOverLimit(readings: seq<Reading>, n: nat, limitMB: real)
    requires n <= |readings|
  {
    exists i: nat :: i < n && OverLimit(readings, i, limitMB)
  }

  lemma OverLimitNext(readings: seq<Reading>, n: nat, limitMB: real)
    requires n < |readings|
    ensures WasOverLimit(readings, n + 1, limitMB) <==>
      WasOverLimit(readings, n, limitMB) || OverLimit(readings, n, limitMB)
  {
    hide OverLimit;
  }

  /** The limit is in megabytes of a million bytes, and none if it is not positive. */
  lemma OverLimitMeaning(readings: seq<Reading>, i: nat, limitMB: real)
    requires i < |readings|
    ensures OverLimit(readings, i, limitMB) <==>
      !FailsAt(readings, i) && limitMB > 0.0 && readings[i].memory > limitMB * 1000000.0
  {
    hide FailsAt;
  }

  /** What a process's readings are like: CPU time never falls, nothing is negative. */
  ghost predicate Plausible(readings: seq<Reading>) {
    && (forall i | 0 <= i < |readings| && readings[i].Sample? :: readings[i].cpu >= 0.0 && readings[i].memory >= 0.0)
    && (forall i, j | 0 <= i < j < |readings| && readings[i].Sample? && readings[j].Sample? ::
          readings[i].cpu <= readings[j].cpu)
  }

  /** The last good CPU reading is the last CPU reading: an all-zero sample that counts as failed has lost nothing. */
  lemma {:induction false} NothingLost(readings: seq<Reading>, n: nat)
    requires Plausible(readings) && n <= |readings|
    ensures LastGoodCpu(readings, n) == LastCpu(readings, n) >= 0.0
    ensures forall j | n <= j < |readings| && readings[j].Sample? :: LastCpu(readings, n) <= readings[j].cpu
    decreases n
  {
    if n > 0 {
      NothingLost(readings, n - 1);
    }
  }

  /** A reading fails if it is none, or if the process has used no CPU time and holds no memory. */
  lemma FailsMeaning(readings: seq<Reading>, i: nat)
    requires Plausible(readings) && i < |readings|
    ensures FailsAt(readings, i) <==>
      readings[i].Unreadable? || (readings[i].cpu == 0.0 && readings[i].memory == 0.0)
  {
    NothingLost(readings, i);
  }

  /** Before the first reading. */
  lemma NoReadingYet(readings: seq<Reading>, limitMB: real)
    ensures LastCpu(readings, 0) == LastGoodCpu(readings, 0) == 0.0 && FailedInARow(readings, 0) == 0
    ensures !ThreeFailed(readings, 0) && !WasOverLimit(readings, 0, limitMB)
  {
  }

  /** One reading more. */
  lemma NextReading(readings: seq<Reading>, n: nat, limitMB: real)
    requires n < |readings| && Plausible(readings)
    ensures var r, last := readings[n], LastCpu(readings, n);
      var fails := r.Unreadable? || r.cpu + (r.cpu - last) + r.memory == 0.0;
      && last == LastGoodCpu(readings, n) && (r.Sample? ==> last <= r.cpu)
      && LastCpu(readings, n + 1) == (if r.Sample? then r.cpu else last)
      && LastGoodCpu(readings, n + 1) == (if fails then LastGoodCpu(readings, n) else r.cpu)
      && FailedInARow(readings, n + 1) == (if fails then FailedInARow(readings, n) + 1 else 0)
      && (ThreeFailed(readings, n + 1) <==> FailedInARow(readings, n + 1) >= FAILURE_THRESHOLD)
      && (WasOverLimit(readings, n + 1, limitMB) <==>
            WasOverLimit(readings, n, limitMB) || (!fails && limitMB > 0.0 && r.memory / 1000000.0 > limitMB))
  {
    NothingLost(readings, n);
    ThreeInARow(readings, n + 1);
    OverLimitNext(readings, n, limitMB);
    hide WasOverLimit, ThreeFailed;
  }

  /** What the stat files say, one after the other. */
  function Readings(files: seq<Option<string>>, parse: string -> Option<real>): (readings: seq<Reading>)
    ensures |readings| == |files|
    ensures forall i | 0 <= i < |files| :: readings[i] == ReadingOf(files[i], parse, CLOCK_TICKS, PAGE_SIZE)
  {
    seq(|files|, i requires 0 <= i < |files| => ReadingOf(files[i], parse, CLOCK_TICKS, PAGE_SIZE))
  }

  /**
   `GetStats` over the stat files it looks at until it gives up or is cancelled; `used` is how many. What it
   adds to the counter totals its last good CPU reading, it gives up exactly at the first three failures in
   a row, and it marks the process killed exactly if some good reading before that is over the limit.
   */
  method GetStats(state: State, name: string, limitMB: real, files: seq<Option<string>>, parse: string -> Option<real>)
    returns (counter: real, gaveUp: bool, used: nat)
    requires state.Valid() && Plausible(Readings(files, parse))
    modifies state`killed
    ensures state.Valid() && used <= |files|
    ensures counter == LastGoodCpu(Readings(files, parse), used)
    ensures gaveUp <==> ThreeFailed(Readings(files, parse), used)
    ensures forall n: nat | n < used :: !ThreeFailed(Readings(files, parse), n)
    ensures !gaveUp ==> used == |files|
    ensures state.killed ==
      if WasOverLimit(Readings(files, parse), used, limitMB) then old(state.killed)[name := true]
      else old(state.killed)
  {
    hide ReadingOf, WasOverLimit, ThreeFailed, State.Valid, Plausible, LastCpu, LastGoodCpu, FailedInARow;
    ghost var readings := Readings(files, parse);
    NoReadingYet(readings, limitMB);
    var proc := new ProcStat(0.0, 0.0);
    var failedStatCollection: nat := 0;
    counter, used := 0.0, 0;
    while used < |files|
      invariant state.Valid() && used <= |files| && proc.clockTicks == CLOCK_TICKS && proc.pageSize == PAGE_SIZE
      invariant proc.cpuSeconds == LastCpu(readings, used) && counter == LastGoodCpu(readings, used)
      invariant failedStatCollection == FailedInARow(readings, used) < FAILURE_THRESHOLD
      invariant forall n: nat | n <= used :: !ThreeFailed(readings, n)
      invariant state.killed ==
        if WasOverLimit(readings, used, limitMB) then old(state.killed)[name := true] else old(state.killed)
    {
      NextReading(readings, used, limitMB);
      var cpuSeconds, cpuDelta, memoryUsage, failed := proc.Stat(files[used], parse);
      used := used + 1;
      if failed || cpuSeconds + cpuDelta + memoryUsage == 0.0 {
        failedStatCollection := failedStatCollection + 1;
        if failedStatCollection >= FAILURE_THRESHOLD {
          gaveUp := true;
          return;
        }
        continue;
      }
      failedStatCollection := 0;
      counter := counter + cpuDelta;
      if limitMB > 0.0 && memoryUsage / 1000000.0 > limitMB {
        state.SetKillState(name, true);
      }
    }
    gaveUp := false;
  }
}
