/**
 The wrapper's side of an acquisition: `CreateLease` posts one request and reads the reply, and
 `AcquireSharedLock` repeats it until it has a lease or the command's context is done. Sleeps between
 attempts are not steps of their own: everybody else may move before any of them.
 */
module AcquireLock {
  import opened Clock
  import opened Wrappers
  import opened LockProtocol
  import opened LockServer
  import opened Health
  import Decimal

  /** The length written in the configuration: nothing, a duration, or text that is not one. */
  datatype LengthText = Unset | Duration(nanoseconds: int) | Garbage

  const DEFAULT_TTL := Duration(2 * SECOND)

  function Header(ttl: LengthText): Option<int> {
    if ttl.Duration? then Some(ttl.nanoseconds) else None
  }

  /** The shared-lock section of a command: the lease text it holds and the length it asks for. */
  class SharedLock {
    var lease: string
    var ttl: LengthText

    constructor (ttl: LengthText)
      ensures lease == "" && this.ttl == ttl
    {
      lease := "";
      this.ttl := ttl;
    }
  }

  /**
   One try: what others do first, whether the context is done by then, the number of the request, what the
   server meets, and whether the reply is lost. A number already in use stands for a post that reached no
   server, and so does a client that the script has already made busy.
   */
  datatype Attempt = Attempt(before: seq<Step>, cancelled: bool, r: RequestId, script: Script, lost: bool)

  /** Request `r` of client `c`, not there `before`, has won lease `id` for `key` by `now`. */
  ghost predicate WonSince(before: System, now: System, c: ClientId, r: RequestId, key: Key, id: LeaseId) {
    && r !in before.requests && r in now.requests
    && now.requests[r].client == c && now.requests[r].key == key && now.requests[r].pc == Won(id)
  }

  /** Lease text that names a lease won by request `winner` for the key since `before`, and just renewed. */
  ghost predicate HoldsText(world: World, before: System, from: nat, c: ClientId, key: Key, lease: string,
                            winner: RequestId)
    reads world
  {
    && Decimal.ParseInt(lease).Number?
    && c in world.now.clients && world.now.clients[c].status == Holding(Decimal.ParseInt(lease).value)
    && WonSince(before, world.now, c, winner, key, Decimal.ParseInt(lease).value)
    && FullLength(world.now, winner, Decimal.ParseInt(lease).value)
    && CreatedDuring(world.states, from, |world.trace|, key, Decimal.ParseInt(lease).value)
  }

  lemma HoldsSince(world: World, early: System, before: System, earlier: nat, from: nat, c: ClientId, key: Key,
                   lease: string, winner: RequestId)
    requires HoldsText(world, before, from, c, key, lease, winner) && earlier <= from
    requires early.requests.Keys <= before.requests.Keys
    ensures HoldsText(world, early, earlier, c, key, lease, winner)
  {
    hide FullLength, Decimal.ParseInt;
    CreatedInLonger(world.states, from, |world.trace|, world.states, earlier, |world.trace|, key,
                    Decimal.ParseInt(lease).value);
    hide CreatedDuring;
  }

  /**
   `CreateLease`: the lease text of a 201, "" for any other reply, or an error when no reply arrives. Lease
   text always names a lease that this very request won for the client's key during the call, just renewed for
   the whole length asked for. No reply arrives exactly if the client is busy or the number used when the call
   begins, the reply is lost, or others make the client give up; a reply gives the text exactly if it is a 201.
   */
  method CreateLease(world: World, c: ClientId, name: string, header: Option<int>, attempt: Attempt)
    returns (lease: string, failed: bool)
    requires world.WellFormed() && c in world.now.clients && world.now.clients[c].key == "/shared-lock/" + name
    modifies world
    ensures world.Extends()
    ensures failed ==> lease == ""
    ensures !CanPost(old(world.now), c, attempt.r) ==> failed && world.now == old(world.now)
    ensures CanPost(old(world.now), c, attempt.r) ==>
      && Asked(world.now, c, attempt.r, "/shared-lock/" + name, header)
      && (attempt.lost ==> failed)
      && (failed ==> attempt.lost || Lose(c) in attempt.script.All())
      && (!failed ==> (lease != "" <==> Answered201(world.now, attempt.r)))
      && (lease == "" && Lose(c) !in attempt.script.All() ==>
            c in world.now.clients && world.now.clients[c].status.Idle?)
    ensures forall q | q in world.now.requests && q !in old(world.now.requests) ::
      q == attempt.r || Sends(attempt.script.All(), q)
    ensures lease != "" ==>
      HoldsText(world, old(world.now), |old(world.trace)|, c, "/shared-lock/" + name, lease, attempt.r)
    ensures CanPost(old(world.now), c, attempt.r) && attempt.script.Uninterrupted() && !attempt.lost ==>
      (lease != "" <==> AnswerAlone(old(world.now), "/shared-lock/" + name, attempt.script).Created?)
  {
    hide Inv, Behaviour, Next, Enabled, CreatedDuring, Unfit, AnswerAlone, Sends;
    var r := attempt.r;
    if !world.now.clients[c].status.Idle? || r in world.now.requests {
      return "", true;
    }
    var writer := new ResponseWriter();
    // The body posted is JSON that names the key; here it is the name itself, and decoding gives it back.
    HandleLease(world, writer, c, r, Posted(true, true, name), text => text, header, attempt.script);
    if attempt.lost || world.now.clients[c].status != Waiting(r) {
      world.GiveUp(c);
      return "", true;
    }
    ghost var states, to := world.states, |world.trace|;
    world.Receive(c, r);
    if writer.Sent() == CREATED {
      CreatedInLonger(states, |old(world.trace)|, to, world.states, |old(world.trace)|, |world.trace|,
                      PREFIX + name, Decimal.ParseInt(writer.body).value);
      return writer.body, false;
    }
    return "", false;
  }

  /** The client is free to post, under a number nobody used. */
  predicate CanPost(s: System, c: ClientId, r: RequestId) {
    c in s.clients && s.clients[c].status.Idle? && r !in s.requests
  }

  /** Request `r` of the client was posted for the key, asking for the header's whole seconds, and was answered. */
  predicate Asked(s: System, c: ClientId, r: RequestId, key: Key, header: Option<int>) {
    && r in s.requests && ReplyOf(s.requests[r].pc).Some?
    && s.requests[r] == Request(c, key, LeaseSeconds(header), s.requests[r].pc)
  }

  predicate Answered201(s: System, r: RequestId) {
    r in s.requests && s.requests[r].pc.Won?
  }

  // ---------- The acquire loop ----------

  /**
   Nobody else acts for client `c` while it tries: its numbers are its own and all different, nobody posts for
   it between the tries, and nobody makes it give up within one.
   */
  ghost predicate LeftAlone(s: System, c: ClientId, attempts: seq<Attempt>) {
    && c in s.clients && s.clients[c].status.Idle?
    && (forall i | 0 <= i < |attempts| :: attempts[i].r !in s.requests && Lose(c) !in attempts[i].script.All())
    && (forall i, j | 0 <= i < j < |attempts| :: attempts[i].r != attempts[j].r)
    && (forall i | 0 <= i < |attempts| :: !SendsFor(attempts[i].before, c))
    && (forall i, j | 0 <= i < |attempts| && 0 <= j < |attempts| ::
          !Sends(attempts[i].before, attempts[j].r) && !Sends(attempts[i].script.All(), attempts[j].r))
  }

  /** The loop comes to attempt `i`: no earlier one, nor it itself, finds the context done. */
  ghost predicate Comes(attempts: seq<Attempt>, i: nat)
    requires i < |attempts|
  {
    forall j | 0 <= j <= i :: !attempts[j].cancelled
  }

  /** Attempt `i` was made, asked for the length, and brought no lease: its reply was lost or was no 201. */
  ghost predicate CameToNothing(s: System, c: ClientId, key: Key, header: Option<int>, attempt: Attempt) {
    Asked(s, c, attempt.r, key, header) && (attempt.lost || !Answered201(s, attempt.r))
  }

  /** What a try that brought no lease leaves behind: `s` before its post, `t` after its reply, if any. */
  ghost predicate TriedOnce(s: System, t: System, c: ClientId, key: Key, header: Option<int>, attempt: Attempt,
                            failed: bool) {
    && (forall q | q in t.requests && q !in s.requests :: q == attempt.r || Sends(attempt.script.All(), q))
    && (CanPost(s, c, attempt.r) ==>
          && Asked(t, c, attempt.r, key, header)
          && (failed ==> attempt.lost || Lose(c) in attempt.script.All())
          && (!failed ==> !Answered201(t, attempt.r))
          && (Lose(c) !in attempt.script.All() ==> c in t.clients && t.clients[c].status.Idle?))
  }

  /** A try that brought no lease, after others moved, when nobody else acts for the client. */
  lemma AfterTry(start: System, s: System, mid: System, t: System, c: ClientId, key: Key, header: Option<int>,
                 attempts: seq<Attempt>, i: nat, failed: bool)
    requires i < |attempts| && LeftAlone(start, c, attempts)
    requires Free(s, c, attempts, i) && Tried(s, c, key, header, attempts, i)
    requires Apart(s, mid, attempts[i].before) && TriedOnce(mid, t, c, key, header, attempts[i], failed)
    requires AnswersKept(s, t)
    ensures Free(t, c, attempts, i + 1) && Tried(t, c, key, header, attempts, i + 1)
  {
    FreeAfterOthers(start, s, mid, c, attempts, i);
    TriedStays(s, t, c, key, header, attempts, i);
    assert CanPost(mid, c, attempts[i].r) && Lose(c) !in attempts[i].script.All();
    FreeAfterTry(start, mid, t, c, attempts, i);
    assert CameToNothing(t, c, key, header, attempts[i]);
    hide CameToNothing, Asked, AnswersKept, Apart, LeftAlone, Free;
  }

  /** The client is free for attempt `from` and the later ones. */
  ghost predicate Free(s: System, c: ClientId, attempts: seq<Attempt>, from: nat) {
    && c in s.clients && s.clients[c].status.Idle?
    && forall j | from <= j < |attempts| :: attempts[j].r !in s.requests
  }

  /** The attempts before `n` came to nothing. */
  ghost predicate Tried(s: System, c: ClientId, key: Key, header: Option<int>, attempts: seq<Attempt>, n: nat)
    requires n <= |attempts|
  {
    forall j | 0 <= j < n :: CameToNothing(s, c, key, header, attempts[j])
  }

  lemma FreeAfterOthers(start: System, s: System, t: System, c: ClientId, attempts: seq<Attempt>, i: nat)
    requires LeftAlone(start, c, attempts) && i < |attempts| && Free(s, c, attempts, i)
    requires Apart(s, t, attempts[i].before)
    ensures Free(t, c, attempts, i)
  {
    hide Sends, SendsFor;
  }

  lemma FreeAfterTry(start: System, s: System, t: System, c: ClientId, attempts: seq<Attempt>, i: nat)
    requires LeftAlone(start, c, attempts) && i < |attempts| && Free(s, c, attempts, i)
    requires forall q | q in t.requests && q !in s.requests :: q == attempts[i].r || Sends(attempts[i].script.All(), q)
    requires c in t.clients && t.clients[c].status.Idle?
    ensures Free(t, c, attempts, i + 1)
  {
    hide Sends, SendsFor;
  }

  lemma StartsFree(s: System, c: ClientId, key: Key, header: Option<int>, attempts: seq<Attempt>)
    ensures LeftAlone(s, c, attempts) ==> Free(s, c, attempts, 0) && Tried(s, c, key, header, attempts, 0)
  {
  }

  lemma TriedMeans(s: System, c: ClientId, key: Key, header: Option<int>, attempts: seq<Attempt>, n: nat)
    requires n <= |attempts| && Tried(s, c, key, header, attempts, n) && (n < |attempts| ==> attempts[n].cancelled)
    ensures forall i | 0 <= i < |attempts| && Comes(attempts, i) :: CameToNothing(s, c, key, header, attempts[i])
  {
    hide CameToNothing;
  }

  lemma TriedStays(s: System, t: System, c: ClientId, key: Key, header: Option<int>, attempts: seq<Attempt>, n: nat)
    requires n <= |attempts| && Tried(s, c, key, header, attempts, n) && AnswersKept(s, t)
    ensures Tried(t, c, key, header, attempts, n)
  {
    forall j | 0 <= j < n ensures CameToNothing(t, c, key, header, attempts[j]) {
      assert CameToNothing(s, c, key, header, attempts[j]);
      NothingStays(s, t, c, key, header, attempts[j]);
    }
  }

  lemma NothingStays(s: System, t: System, c: ClientId, key: Key, header: Option<int>, attempt: Attempt)
    requires CameToNothing(s, c, key, header, attempt) && AnswersKept(s, t)
    ensures CameToNothing(t, c, key, header, attempt)
  {
    assert t.requests[attempt.r] == s.requests[attempt.r].(pc := t.requests[attempt.r].pc);
  }

  /** One turn of the loop: others move, the context is looked at, and if it is not done, a lease is asked for. */
  method TryOnce(world: World, c: ClientId, name: string, header: Option<int>, attempts: seq<Attempt>, i: nat,
                 ghost start: System)
    returns (lease: string, cancelled: bool)
    requires world.WellFormed() && c in world.now.clients && world.now.clients[c].key == "/shared-lock/" + name
    requires i < |attempts|
    modifies world
    ensures world.Extends()
    ensures cancelled == attempts[i].cancelled
    ensures lease != "" ==>
      && !cancelled && !attempts[i].lost
      && HoldsText(world, old(world.now), |old(world.trace)|, c, "/shared-lock/" + name, lease, attempts[i].r)
      && Asked(world.now, c, attempts[i].r, "/shared-lock/" + name, header)
    ensures var key := "/shared-lock/" + name;
      lease == "" && LeftAlone(start, c, attempts)
      && Free(old(world.now), c, attempts, i) && Tried(old(world.now), c, key, header, attempts, i) ==>
        if cancelled then Tried(world.now, c, key, header, attempts, i)
        else Free(world.now, c, attempts, i + 1) && Tried(world.now, c, key, header, attempts, i + 1)
  {
    hide Inv, Next, Enabled, Behaviour, CreatedDuring, Decimal.ParseInt, Apart, AnswersKept, LeftAlone, Free, Tried;
    hide Asked, HoldsText, CameToNothing, AnswerAlone;
    ghost var key, was, from, early := "/shared-lock/" + name, world.now, |world.trace|, world.states;
    BehaviourLength(world.states, world.trace);
    world.Others(attempts[i].before);
    if attempts[i].cancelled {
      AnswersKeptSince(world.states, world.trace, early, from);
      if Tried(was, c, key, header, attempts, i) {
        TriedStays(was, world.now, c, key, header, attempts, i);
      }
      return "", true;
    }
    ghost var mid, at := world.now, |world.trace|;
    cancelled := false;
    var failed;
    lease, failed := CreateLease(world, c, name, header, attempts[i]);
    if !failed && lease != "" {
      HoldsSince(world, was, mid, from, at, c, key, lease, attempts[i].r);
      return;
    }
    AnswersKeptSince(world.states, world.trace, early, from);
    if LeftAlone(start, c, attempts) && Free(was, c, attempts, i) && Tried(was, c, key, header, attempts, i) {
      AfterTry(start, was, mid, world.now, c, key, header, attempts, i, failed);
    }
  }

  /**
   `AcquireSharedLock` over its tries. Without a shared lock it does nothing. Otherwise the command's status
   entry is removed, the default length filled in, and every try asks for that length. If it acquires, the
   lease text names a lease that a try won for the key during the call, just renewed for the whole length; the
   old text stays if it does not. When nobody else acts for the client, it does not acquire only if every try
   it came to was posted and answered, with its reply lost or no 201, and it came to all up to one that found
   the context done.
   */
  method AcquireSharedLock(world: World, state: State, c: ClientId, name: string, lock: SharedLock?,
                           attempts: seq<Attempt>)
    returns (acquired: bool, ghost winner: RequestId)
    requires world.WellFormed() && c in world.now.clients && world.now.clients[c].key == "/shared-lock/" + name
    requires state.Valid()
    modifies world, state`status, lock
    ensures world.Extends() && state.Valid()
    ensures lock == null ==> !acquired && state.status == old(state.status) && world.now == old(world.now)
    ensures lock != null ==> state.status == old(state.status) - {name}
    ensures lock != null ==> lock.ttl == if old(lock.ttl).Unset? then Duration(2 * SECOND) else old(lock.ttl)
    ensures lock != null && !acquired ==> lock.lease == old(lock.lease)
    ensures acquired ==>
      && HoldsText(world, old(world.now), |old(world.trace)|, c, "/shared-lock/" + name, lock.lease, winner)
      && Asked(world.now, c, winner, "/shared-lock/" + name, Header(lock.ttl))
      && exists i :: 0 <= i < |attempts| && winner == attempts[i].r && !attempts[i].lost && Comes(attempts, i)
    ensures lock != null && !acquired && LeftAlone(old(world.now), c, attempts) ==>
      forall i | 0 <= i < |attempts| && Comes(attempts, i) ::
        CameToNothing(world.now, c, "/shared-lock/" + name, Header(lock.ttl), attempts[i])
  {
    hide Inv, Next, Enabled, Behaviour, CreatedDuring, Decimal.ParseInt, Apart, AnswersKept, LeftAlone, Free, Tried;
    hide Asked, HoldsText, CameToNothing;
    winner := 0;
    if lock == null {
      return false, winner;
    }
    if lock.ttl.Unset? {
      lock.ttl := DEFAULT_TTL;
    }
    state.RemoveState(name);
    ghost var key := "/shared-lock/" + name;
    StartsFree(world.now, c, key, Header(lock.ttl), attempts);
    for i := 0 to |attempts|
      invariant world.Extends() && state.Valid()
      invariant state.status == old(state.status) - {name} && lock.lease == old(lock.lease)
      invariant lock.ttl == if old(lock.ttl).Unset? then DEFAULT_TTL else old(lock.ttl)
      invariant forall j | 0 <= j < i :: !attempts[j].cancelled
      invariant LeftAlone(old(world.now), c, attempts) ==>
        Free(world.now, c, attempts, i) && Tried(world.now, c, key, Header(lock.ttl), attempts, i)
    {
      ghost var before, from := world.now, |world.trace|;
      var lease, cancelled := TryOnce(world, c, name, Header(lock.ttl), attempts, i, old(world.now));
      if cancelled {
        if LeftAlone(old(world.now), c, attempts) {
          TriedMeans(world.now, c, key, Header(lock.ttl), attempts, i);
        }
        return false, winner;
      }
      if lease != "" {
        HoldsSince(world, old(world.now), before, |old(world.trace)|, from, c, key, lease, attempts[i].r);
        lock.lease := lease;
        return true, attempts[i].r;
      }
    }
    if LeftAlone(old(world.now), c, attempts) {
      TriedMeans(world.now, c, key, Header(lock.ttl), attempts, |attempts|);
    }
    acquired := false;
  }
}
