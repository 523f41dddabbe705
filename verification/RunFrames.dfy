/**
 `Command.Run` as the recursive code it is: start the process, wait for its exit, decide by five reads of
 the shared state, and restart by a deferred call inside the same frame.

 A `Life` is one process of the command. Its five `Change`s are what other routines do to the shared state
 before each of the five reads; the reads take the lock one at a time, so anything may change in between.
 */
module RunFrames {
  import opened Wrappers
  import opened Health

  /**
   What other routines do in a gap. They may set the shutdown flag, which nobody unsets, and leave the killed
   mark set or cleared: a chain of the same name clears the mark when it restarts.
   */
  datatype Change = Change(shutdown: bool, mark: Option<bool>) {
    /** The mark after the gap. */
    predicate MarkLeft(marked: bool) {
      mark == Some(true) || (mark.None? && marked)
    }
  }

  datatype Life = Life(starts: bool, pid: int, now: int,
                       c1: Change, c2: Change, c3: Change, c4: Change, c5: Change)
  {
    /** The shutdown flag is set in some gap of this life. */
    predicate ShutsDown() {
      c1.shutdown || c2.shutdown || c3.shutdown || c4.shutdown || c5.shutdown
    }

    /** What the first guard reads: the mark, and the flag, if it gets to it. */
    predicate MarkedAtFirst(marked: bool) {
      c1.MarkLeft(marked)
    }

    predicate DownAtFirst(shutdown: bool) {
      shutdown || c1.shutdown || c2.shutdown
    }

    /** What the second guard reads: the flag, and the mark, if it gets to it. */
    predicate DownAtSecond(shutdown: bool) {
      DownAtFirst(shutdown) || c3.shutdown
    }

    predicate MarkedAtSecond(marked: bool) {
      c4.MarkLeft(c3.MarkLeft(c2.MarkLeft(c1.MarkLeft(marked))))
    }

    /** No other chain clears the mark. */
    predicate NeverCleared() {
      c1.mark != Some(false) && c2.mark != Some(false) && c3.mark != Some(false) && c4.mark != Some(false)
    }
  }

  /** A wait for tasks to finish. */
  class WaitGroup {
    var counter: int

    constructor ()
      ensures counter == 0
    {
      counter := 0;
    }

    method Add(n: int)
      modifies this
      ensures counter == old(counter) + n
    {
      counter := counter + n;
    }

    method Done()
      modifies this
      ensures counter == old(counter) - 1
    {
      counter := counter - 1;
    }
  }

  /** No mark but the one of `name` has changed. */
  predicate MarksAt(before: map<string, bool>, after: map<string, bool>, name: string) {
    after == before || after == before[name := true] || after == before[name := false]
  }

  lemma MarksAtTrans(a: map<string, bool>, b: map<string, bool>, c: map<string, bool>, name: string)
    requires MarksAt(a, b, name) && MarksAt(b, c, name)
    ensures MarksAt(a, c, name)
  {
    assert a[name := true][name := true] == a[name := true] && a[name := true][name := false] == a[name := false];
    assert a[name := false][name := true] == a[name := true] && a[name := false][name := false] == a[name := false];
  }

  method Disturb(state: State, name: string, change: Change)
    requires state.Valid()
    modifies state`shutdown, state`killed
    ensures state.Valid()
    ensures state.shutdown == (old(state.shutdown) || change.shutdown)
    ensures state.IsKilled(name) <==> change.MarkLeft(old(state.IsKilled(name)))
    ensures state.killed ==
      if change.mark.Some? then old(state.killed)[name := change.mark.value] else old(state.killed)
    ensures MarksAt(old(state.killed), state.killed, name)
  {
    if change.shutdown {
      state.SetShutdown();
    }
    if change.mark.Some? {
      state.SetKillState(name, change.mark.value);
    }
  }

  lemma StaysMarked(life: Life, marked: bool)
    ensures life.NeverCleared() && life.MarkedAtFirst(marked) ==> life.MarkedAtSecond(marked)
  {
    NotCleared(life.c2);
    NotCleared(life.c3);
    NotCleared(life.c4);
  }

  lemma NotCleared(change: Change)
    ensures change.mark != Some(false) ==> change.MarkLeft(true)
  {
    if change.mark.Some? {
      assert change.mark == if change.mark.value then Some(true) else Some(false);
    }
  }

  lemma LeftUnmarked(change: Change)
    ensures change.MarkLeft(false) <==> change.mark == Some(true)
  {
  }

  method Clear(state: State, name: string)
    requires state.Valid()
    modifies state`killed
    ensures state.Valid() && !state.IsKilled(name) && MarksAt(old(state.killed), state.killed, name)
  {
    state.SetKillState(name, false);
  }

  /**
   The decision after the child's exit. The command restarts exactly if the shutdown flag is still unset at
   the last read, whatever the killed marks are and whenever they are set or cleared. It ends without
   cancelling its routines exactly when neither guard holds: the first reads a mark or no flag, the second a
   flag and no mark. When no other chain clears marks, that is a flag set just between the two guards with
   no mark by then.
   */
  method AfterExit(state: State, name: string, life: Life) returns (restart: bool, cancelled: bool)
    requires state.Valid()
    modifies state`shutdown, state`killed
    ensures state.Valid()
    ensures MarksAt(old(state.killed), state.killed, name)
    ensures state.AllStartsOf(name) == old(state.AllStartsOf(name))
    ensures restart <==> !old(state.shutdown) && !life.ShutsDown()
    ensures restart <==> !state.shutdown
    ensures !cancelled <==>
      && (life.MarkedAtFirst(old(state.IsKilled(name))) || !life.DownAtFirst(old(state.shutdown)))
      && life.DownAtSecond(old(state.shutdown)) && !life.MarkedAtSecond(old(state.IsKilled(name)))
    ensures life.NeverCleared() ==>
      (!cancelled <==>
       && !life.DownAtFirst(old(state.shutdown)) && life.c3.shutdown
       && !life.MarkedAtSecond(old(state.IsKilled(name))))
    ensures restart ==> cancelled && (state.IsKilled(name) <==> life.c5.mark == Some(true))
  {
    hide Change.MarkLeft, State.Valid, MarksAt;
    StaysMarked(life, state.IsKilled(name));
    ghost var marks := state.killed;
    Disturb(state, name, life.c1);
    ghost var marks1 := state.killed;
    var killed := state.IsKilled(name);
    Disturb(state, name, life.c2);
    MarksAtTrans(marks, marks1, state.killed, name);
    if !killed && state.IsShutdown() {
      return false, true;
    }
    ghost var marks2 := state.killed;
    restart, cancelled := SecondGuard(state, name, life);
    MarksAtTrans(marks, marks2, state.killed, name);
  }

  /** The decision from the second guard on. */
  method SecondGuard(state: State, name: string, life: Life) returns (restart: bool, cancelled: bool)
    requires state.Valid()
    modifies state`shutdown, state`killed
    ensures state.Valid()
    ensures MarksAt(old(state.killed), state.killed, name)
    ensures state.AllStartsOf(name) == old(state.AllStartsOf(name))
    ensures restart <==> !old(state.shutdown) && !life.c3.shutdown && !life.c4.shutdown && !life.c5.shutdown
    ensures state.shutdown <==>
      old(state.shutdown) || life.c3.shutdown || life.c4.shutdown || (cancelled && life.c5.shutdown)
    ensures !cancelled <==>
      (old(state.shutdown) || life.c3.shutdown) && !life.c4.MarkLeft(life.c3.MarkLeft(old(state.IsKilled(name))))
    ensures restart ==> cancelled && (state.IsKilled(name) <==> life.c5.mark == Some(true))
  {
    hide Change.MarkLeft, State.Valid, MarksAt;
    LeftUnmarked(life.c5);
    ghost var marks := state.killed;
    Disturb(state, name, life.c3);
    ghost var marks3 := state.killed;
    var down := state.IsShutdown();
    Disturb(state, name, life.c4);
    MarksAtTrans(marks, marks3, state.killed, name);
    cancelled := false;
    restart := false;
    if !down || state.IsKilled(name) {
      ghost var marks4 := state.killed;
      Clear(state, name);
      MarksAtTrans(marks, marks4, state.killed, name);
      cancelled := true;
      ghost var marks5 := state.killed;
      Disturb(state, name, life.c5);
      MarksAtTrans(marks, marks5, state.killed, name);
      if !state.IsShutdown() {
        restart := true;
      }
    }
  }

  /** A chain of frames finished, still waits for its child, or ended the whole wrapper at a failed start. */
  datatype Fate = Finished | Waiting | Fatal

  datatype Account = Account(outcome: Fate, starts: nat)

  /** What a chain does over the given lives; the killed marks do not appear in it. */
  function AccountOf(shutdown: bool, lives: seq<Life>): (account: Account)
    ensures account.starts <= |lives|
  {
    if lives == [] then Account(Waiting, 0)
    else if !lives[0].starts then Account(Fatal, 0)
    else if shutdown || lives[0].ShutsDown() then Account(Finished, 1)
    else
      var rest := AccountOf(false, lives[1..]);
      rest.(starts := rest.starts + 1)
  }

  /** When the processes of these lives were started. */
  function Times(lives: seq<Life>): seq<int> {
    if lives == [] then [] else [lives[0].now] + Times(lives[1..])
  }

  /** The pids recorded after the processes of the first `n` lives. */
  function PidsAfter(pids: map<string, int>, name: string, lives: seq<Life>, n: nat): map<string, int>
    requires n <= |lives|
  {
    if n > 0 then pids[name := lives[n - 1].pid] else pids
  }

  lemma PidsNext(pids: map<string, int>, name: string, lives: seq<Life>, n: nat)
    requires n < |lives|
    ensures PidsAfter(pids[name := lives[0].pid], name, lives[1..], n) == PidsAfter(pids, name, lives, n + 1)
    ensures PidsAfter(pids, name, lives, 0) == pids && PidsAfter(pids, name, lives, 1) == pids[name := lives[0].pid]
  {
  }

  /** A process is started and recorded. */
  method Record(state: State, name: string, life: Life)
    requires state.Valid()
    modifies state`pids, state`starts, state`allStarts
    ensures state.Valid() && state.pids == old(state.pids)[name := life.pid]
    ensures state.AllStartsOf(name) == old(state.AllStartsOf(name)) + [life.now]
  {
    state.SetPid(name, life.pid, life.now);
  }

  /**
   `Run`. Each process started is recorded, with its pid and the time of its start. A finished call gives back
   exactly the one token it was started with, however many frames it nested; a call that has not finished
   holds one token for every frame on its stack.
   */
  method Run(state: State, name: string, wg: WaitGroup, lives: seq<Life>) returns (outcome: Fate, ghost frames: nat)
    requires state.Valid()
    modifies state, wg
    ensures state.Valid()
    ensures outcome == AccountOf(old(state.shutdown), lives).outcome
    ensures var n := AccountOf(old(state.shutdown), lives).starts;
      && state.AllStartsOf(name) == old(state.AllStartsOf(name)) + Times(lives[..n])
      && state.pids == PidsAfter(old(state.pids), name, lives, n)
    ensures state.status == old(state.status) && MarksAt(old(state.killed), state.killed, name)
    ensures outcome.Finished? ==> frames == 0 && state.shutdown
    ensures !outcome.Finished? ==> frames == 1 + AccountOf(old(state.shutdown), lives).starts
    ensures wg.counter == old(wg.counter) - 1 + frames
    decreases |lives|
  {
    hide State.Valid, State.AllStartsOf, Life.ShutsDown, MarksAt, Times, PidsAfter;
    NothingYet(lives, state.pids, state.killed, name);
    if lives == [] {
      return Waiting, 1;
    }
    if !lives[0].starts {
      return Fatal, 1;
    }
    TimesNext(lives, AccountOf(false, lives[1..]).starts);
    PidsNext(state.pids, name, lives, AccountOf(false, lives[1..]).starts);
    Record(state, name, lives[0]);
    ghost var marks := state.killed;
    var restart, cancelled := AfterExit(state, name, lives[0]);
    if restart {
      wg.Add(1);
      ghost var before := state.killed;
      outcome, frames := Run(state, name, wg, lives[1..]);
      MarksAtTrans(marks, before, state.killed, name);
      if !outcome.Finished? {
        return outcome, frames + 1;
      }
    }
    wg.Done();
    return Finished, 0;
  }

  lemma NothingYet(lives: seq<Life>, pids: map<string, int>, killed: map<string, bool>, name: string)
    ensures Times(lives[..0]) == [] && PidsAfter(pids, name, lives, 0) == pids && MarksAt(killed, killed, name)
  {
  }

  lemma TimesNext(lives: seq<Life>, n: nat)
    requires lives != [] && n < |lives|
    ensures Times(lives[..n + 1]) == [lives[0].now] + Times(lives[1..][..n])
    ensures Times(lives[..1]) == [lives[0].now] && Times(lives[..0]) == []
  {
    assert lives[..n + 1][1..] == lives[1..][..n];
    assert lives[..1][1..] == [];
  }

  /**
   What the account says, life by life: the chain finishes after `k` restarts if and only if the first
   `k + 1` processes start, none of the first `k` lives meets a shutdown, and the next one does. With the
   flag set beforehand, the first process is the last.
   */
  lemma {:induction false} AccountMeaning(shutdown: bool, lives: seq<Life>, k: nat)
    ensures AccountOf(shutdown, lives) == Account(Finished, k + 1) <==>
      && k < |lives| && (lives[k].ShutsDown() || (shutdown && k == 0)) && (shutdown ==> k == 0)
      && (forall i | 0 <= i <= k :: lives[i].starts) && (forall i | 0 <= i < k :: !lives[i].ShutsDown())
    decreases k
  {
    if lives != [] && k > 0 {
      AccountMeaning(false, lives[1..], k - 1);
      assert forall i | 1 <= i < |lives| :: lives[i] == lives[1..][i - 1];
    }
    if lives != [] && k == 0 && lives[0].starts && !lives[0].ShutsDown() {
      FinishedMeansStarted(lives[1..]);
    }
  }

  lemma {:induction false} FinishedMeansStarted(lives: seq<Life>)
    ensures AccountOf(false, lives).outcome.Finished? ==> AccountOf(false, lives).starts > 0
  {
  }
}
