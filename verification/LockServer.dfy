/**
 The lock server's own code: the `/lease` and `/keepalive` handlers and `GetLease`, written as the
 imperative sequences they are, running against the shared world of `LockProtocol`.

 Between any two store calls other actors move: a `Script` says which of their steps happen there and
 which of this request's own calls fail. A method is proved for every script, so for every interleaving.
 */
module LockServer {
  import opened Clock
  import opened Wrappers
  import opened LockProtocol
  import Decimal

  const PREFIX := "/shared-lock/"
  const DEFAULT_LEASE_DURATION := 10

  const OK := 200
  const CREATED := 201
  const ACCEPTED := 202
  const NO_CONTENT := 204
  const BAD_REQUEST := 400
  const SERVER_ERROR := 500

  // ---------- The lease length ----------

  /** Conversion of a floating number of seconds to an integer: truncation toward zero. */
  function WholeSeconds(duration: int): int {
    if duration < 0 then -((-duration) / SECOND) else duration / SECOND
  }

  /**
   The lease length, in seconds, asked of etcd. `header` is the parsed `x-lease-ttl`, in nanoseconds.
   A header that does not parse falls back to the constant 10, which is read as nanoseconds.
   */
  function LeaseSeconds(header: Option<int>): int {
    WholeSeconds(match header case None => DEFAULT_LEASE_DURATION case Some(d) => d)
  }

  /**
   Truncation takes off less than a second, towards zero, so a lease of a non-negative length is never longer
   than asked for, and is exact for whole seconds only.
   */
  lemma LeaseSecondsBounds(d: int)
    ensures d >= 0 ==> LeaseSeconds(Some(d)) * 1_000_000_000 <= d < (LeaseSeconds(Some(d)) + 1) * 1_000_000_000
    ensures d <= 0 ==> (LeaseSeconds(Some(d)) - 1) * 1_000_000_000 < d <= LeaseSeconds(Some(d)) * 1_000_000_000
    ensures LeaseSeconds(Some(d)) * 1_000_000_000 == d <==> d % 1_000_000_000 == 0
    ensures LeaseSeconds(Some(d)) == 0 <==> -1_000_000_000 < d < 1_000_000_000
    ensures LeaseSeconds(None) == 0
  {
    if d < 0 {
      assert -d == SECOND * (-d / SECOND) + -d % SECOND;
    }
  }

  // ---------- The reply being written ----------

  /** The status that counts once `code` is written after `early`. */
  function FirstOf(early: Option<int>, code: int): int {
    if early.Some? then early.value else code
  }

  /** An HTTP reply under construction: the first status written is the one that counts. */
  class ResponseWriter {
    var status: Option<int>
    var body: string

    constructor ()
      ensures status == None && body == ""
    {
      status := None;
      body := "";
    }

    /** The status the client sees: 200 when the handler wrote none. */
    function Sent(): (code: int)
      reads this
    {
      FirstOf(status, OK)
    }

    method WriteHeader(code: int)
      modifies this
      ensures body == old(body)
      ensures status == Some(FirstOf(old(status), code))
    {
      if status.None? {
        status := Some(code);
      }
    }

    method Write(text: string)
      modifies this
      ensures body == old(body) + text
      ensures status == Some(FirstOf(old(status), OK))
    {
      WriteHeader(OK);
      body := body + text;
    }
  }

  // ---------- The shared world ----------

  /** A behaviour of the protocol: consecutive states, each reached from the one before by an enabled step. */
  ghost predicate Behaviour(states: seq<System>, trace: seq<Step>) {
    && |states| == |trace| + 1
    && (forall i | 0 <= i < |trace| :: Enabled(states[i], trace[i]) && states[i + 1] == Next(states[i], trace[i]))
  }

  /** A behaviour is a run of the machine, so everything proved of runs holds of it. */
  lemma {:induction false} BehaviourIsRun(states: seq<System>, trace: seq<Step>)
    requires Behaviour(states, trace)
    ensures Valid(states[0], trace) && Exec(states[0], trace) == states[|trace|]
    decreases |trace|
  {
    if trace != [] {
      var n := |trace| - 1;
      assert Behaviour(states[..n + 1], trace[..n]) by {
        forall i | 0 <= i < n
          ensures Enabled(states[..n + 1][i], trace[..n][i])
          ensures states[..n + 1][i + 1] == Next(states[..n + 1][i], trace[..n][i])
        {
          assert Enabled(states[i], trace[i]) && states[i + 1] == Next(states[i], trace[i]);
        }
      }
      BehaviourIsRun(states[..n + 1], trace[..n]);
      assert Enabled(states[n], trace[n]);
      ExecOne(states[n], trace[n]);
      ExecConcat(states[0], trace[..n], [trace[n]]);
      assert trace[..n] + [trace[n]] == trace;
    }
  }

  /** The step is taken by request `r`. */
  predicate Own(step: Step, r: RequestId) {
    match step
    case Send(_, q, _) => q == r
    case Deliver(_) => false
    case Lose(_) => false
    case Release(_) => false
    case Refresh(_) => false
    case Tick(_) => false
    case Expire(_) => false
    case _ => step.r == r
  }

  lemma OthersKeepRequest(s: System, step: Step, r: RequestId)
    requires Enabled(s, step) && r in s.requests && !Own(step, r)
    ensures r in Next(s, step).requests && Next(s, step).requests[r] == s.requests[r]
  {
  }

  datatype GrantFault = Granting(id: LeaseId) | Refused | Orphaning(id: LeaseId)

  /** What the rest of the world does before each call of a request, and which of the request's calls fail. */
  datatype Script = Script(
    beforeGet: seq<Step>, getFails: bool,
    beforeGrant: seq<Step>, grant: GrantFault,
    beforeTxn: seq<Step>, txnFails: bool,
    beforeKeepAlive: seq<Step>, keepAliveFails: bool, renewedAnyway: bool)
  {
    /** What others do from before the transaction on, from before the grant on, and in all. */
    function FromTxn(): seq<Step> {
      beforeTxn + beforeKeepAlive
    }

    function FromGrant(): seq<Step> {
      beforeGrant + FromTxn()
    }

    function All(): seq<Step> {
      beforeGet + FromGrant()
    }

    predicate Uninterrupted() {
      beforeGet == [] && beforeGrant == [] && beforeTxn == [] && beforeKeepAlive == []
    }

    /** After the get, no call of the request's own fails, and etcd offers a lease. */
    predicate Works() {
      grant.Granting? && !txnFails && !keepAliveFails
    }
  }

  /** One of the steps posts request `q`. */
  predicate Sends(steps: seq<Step>, q: RequestId) {
    exists i :: 0 <= i < |steps| && steps[i].Send? && steps[i].r == q
  }

  /** Others posted no requests but those in `steps`, and unless they made it give up, a waiting client still waits. */
  ghost predicate Calm(s: System, t: System, r: RequestId, steps: seq<Step>) {
    && (forall q | q in t.requests && q !in s.requests :: Sends(steps, q))
    && (forall c | c in s.clients && s.clients[c].status == Waiting(r) && Lose(c) !in steps ::
          c in t.clients && t.clients[c].status == Waiting(r))
  }

  lemma CalmSame(s: System, t: System, r: RequestId, steps: seq<Step>)
    requires t.requests.Keys == s.requests.Keys && t.clients == s.clients
    ensures Calm(s, t, r, steps)
  {
  }

  lemma CalmTrans(s: System, t: System, u: System, r: RequestId, xs: seq<Step>, ys: seq<Step>)
    requires Calm(s, t, r, xs) && Calm(t, u, r, ys)
    ensures Calm(s, u, r, xs + ys)
  {
    forall q | q in u.requests && q !in s.requests ensures Sends(xs + ys, q) {
      SendsMore(xs, ys, q);
    }
  }

  lemma SendsMore(xs: seq<Step>, ys: seq<Step>, q: RequestId)
    ensures Sends(xs, q) || Sends(ys, q) ==> Sends(xs + ys, q)
  {
    if i :| 0 <= i < |xs| && xs[i].Send? && xs[i].r == q {
      assert (xs + ys)[i] == xs[i];
    }
    if i :| 0 <= i < |ys| && ys[i].Send? && ys[i].r == q {
      assert (xs + ys)[|xs| + i] == ys[i];
    }
  }

  /** A call of the request's own, after others have moved, and before they move again. */
  lemma CalmCall(s: System, t: System, u: System, r: RequestId, xs: seq<Step>, ys: seq<Step>)
    requires Calm(s, t, r, xs) && u.requests.Keys == t.requests.Keys && u.clients == t.clients
    ensures Calm(s, u, r, xs) && Calm(s, u, r, xs + ys)
  {
    CalmSame(t, u, r, []);
    CalmSame(t, u, r, ys);
    CalmTrans(s, t, u, r, xs, []);
    CalmTrans(s, t, u, r, xs, ys);
    assert xs + [] == xs;
  }

  lemma CalmSinceArrival(s: System, arrived: System, t: System, c: ClientId, r: RequestId, steps: seq<Step>)
    requires Calm(arrived, t, r, steps) && arrived.requests.Keys == s.requests.Keys + {r}
    requires c in arrived.clients && arrived.clients[c].status == Waiting(r)
    ensures Lose(c) !in steps ==> c in t.clients && t.clients[c].status == Waiting(r)
    ensures forall q | q in t.requests && q !in s.requests :: q == r || Sends(steps, q)
  {
    hide Sends;
  }

  /** Others posted no requests but those in `steps`, and an idle client for whom they posted none is still idle. */
  ghost predicate Apart(s: System, t: System, steps: seq<Step>) {
    && (forall q | q in t.requests && q !in s.requests :: Sends(steps, q))
    && (forall c | c in s.clients && s.clients[c].status.Idle? && !SendsFor(steps, c) ::
          c in t.clients && t.clients[c].status.Idle?)
  }

  /** One of the steps posts a request for client `c`. */
  predicate SendsFor(steps: seq<Step>, c: ClientId) {
    exists i :: 0 <= i < |steps| && steps[i].Send? && steps[i].c == c
  }

  lemma SendsForMore(xs: seq<Step>, ys: seq<Step>, c: ClientId)
    ensures SendsFor(xs, c) || SendsFor(ys, c) ==> SendsFor(xs + ys, c)
  {
    if i :| 0 <= i < |xs| && xs[i].Send? && xs[i].c == c {
      assert (xs + ys)[i] == xs[i];
    }
    if i :| 0 <= i < |ys| && ys[i].Send? && ys[i].c == c {
      assert (xs + ys)[|xs| + i] == ys[i];
    }
  }

  lemma ApartSelf(s: System)
    ensures Apart(s, s, [])
  {
  }

  lemma ApartMore(s: System, t: System, xs: seq<Step>, ys: seq<Step>)
    requires Apart(s, t, xs)
    ensures Apart(s, t, xs + ys)
  {
    forall q | q in t.requests && q !in s.requests ensures Sends(xs + ys, q) {
      SendsMore(xs, ys, q);
    }
    forall c | c in s.clients && s.clients[c].status.Idle? && !SendsFor(xs + ys, c)
      ensures c in t.clients && t.clients[c].status.Idle?
    {
      SendsForMore(xs, ys, c);
    }
  }

  lemma ApartTrans(s: System, t: System, u: System, xs: seq<Step>, ys: seq<Step>)
    requires Apart(s, t, xs) && Apart(t, u, ys)
    ensures Apart(s, u, xs + ys)
  {
    hide Sends, SendsFor;
    forall q | q in u.requests && q !in s.requests ensures Sends(xs + ys, q) {
      SendsMore(xs, ys, q);
    }
    forall c | c in s.clients && s.clients[c].status.Idle? && !SendsFor(xs + ys, c)
      ensures c in u.clients && u.clients[c].status.Idle?
    {
      SendsForMore(xs, ys, c);
    }
  }

  lemma ApartStep(s: System, step: Step)
    requires Enabled(s, step)
    ensures Apart(s, Next(s, step), [step])
  {
    hide StoreAfter, PcAfter, GrantedAfter;
    if step.Send? {
      assert [step][0].Send? && [step][0].r == step.r && [step][0].c == step.c;
    }
  }

  /** An answer is final, and a request keeps what it asked for. */
  ghost predicate AnswersKept(s: System, t: System) {
    forall r | r in s.requests ::
      && r in t.requests && t.requests[r] == s.requests[r].(pc := t.requests[r].pc)
      && (ReplyOf(s.requests[r].pc).Some? ==> ReplyOf(t.requests[r].pc) == ReplyOf(s.requests[r].pc))
  }

  lemma AnswersKeptStep(s: System, step: Step)
    requires Enabled(s, step)
    ensures AnswersKept(s, Next(s, step))
  {
    hide StoreAfter, ClientsAfter, GrantedAfter, FreshLease;
  }

  lemma BehaviourLength(states: seq<System>, trace: seq<Step>)
    requires Behaviour(states, trace)
    ensures |states| == |trace| + 1
  {
  }

  /** Since an earlier moment of a behaviour. */
  lemma AnswersKeptSince(states: seq<System>, trace: seq<Step>, early: seq<System>, lo: nat)
    requires Behaviour(states, trace) && early <= states && |early| == lo + 1 <= |trace| + 1
    ensures |states| == |trace| + 1 && AnswersKept(early[lo], states[|trace|])
  {
    AnswersKeptBetween(states, trace, lo, |trace|);
  }

  lemma {:induction false} AnswersKeptBetween(states: seq<System>, trace: seq<Step>, lo: nat, hi: nat)
    requires Behaviour(states, trace) && lo <= hi <= |trace|
    ensures AnswersKept(states[lo], states[hi])
    decreases hi
  {
    hide AnswersKept;
    if lo != hi {
      AnswersKeptBetween(states, trace, lo, hi - 1);
      AnswersKeptStep(states[hi - 1], trace[hi - 1]);
      AnswersKeptTrans(states[lo], states[hi - 1], states[hi]);
    } else {
      AnswersKeptSelf(states[lo]);
    }
  }

  lemma AnswersKeptSelf(s: System)
    ensures AnswersKept(s, s)
  {
  }

  lemma AnswersKeptTrans(s: System, t: System, u: System)
    requires AnswersKept(s, t) && AnswersKept(t, u)
    ensures AnswersKept(s, u)
  {
    hide ReplyOf;
  }

  /** One step of somebody else's. */
  lemma CalmStep(s: System, step: Step, r: RequestId)
    requires Enabled(s, step) && !Own(step, r) && r in s.requests && ReplyOf(s.requests[r].pc).None?
    ensures Calm(s, Next(s, step), r, [step])
  {
    hide StoreAfter, PcAfter, GrantedAfter;
    if step.Send? {
      assert [step][0].Send? && [step][0].r == step.r;
    }
  }

  /** Requests and clients are never forgotten, and a client keeps its key. */
  ghost predicate Grown(s: System, t: System) {
    && s.requests.Keys <= t.requests.Keys
    && forall c | c in s.clients :: c in t.clients && t.clients[c].key == s.clients[c].key
  }

  /** Request `r` may be offered lease `id`, as far as `s` tells afterwards: it is in range and went to no other. */
  predicate Offered(s: System, r: RequestId, id: LeaseId) {
    0 < id <= MAX_LEASE_ID && !(id in s.grantedTo && s.grantedTo[id] != r)
  }

  /** Lease `id` was granted to request `r`, and has expired. */
  predicate Gone(s: System, r: RequestId, id: LeaseId) {
    id in s.grantedTo && s.grantedTo[id] == r && id !in s.store.live
  }

  /** Lease `id` has just been renewed for the whole length request `r` asked for. */
  predicate FullLength(s: System, r: RequestId, id: LeaseId) {
    && r in s.requests && id in s.store.live
    && s.store.live[id] == Lease(s.requests[r].ttl, s.store.clock + s.requests[r].ttl * SECOND)
  }

  /** What the guarded transaction answers: whether the key was absent, or nothing when the lease is gone. */
  function WouldCommit(st: Store, q: Request): Option<bool>
    requires q.pc.AtTxn?
  {
    if q.key in st.bindings then Some(false) else if q.pc.lease in st.live then Some(true) else None
  }

  class World {
    var now: System
    ghost var states: seq<System>
    ghost var trace: seq<Step>

    ghost predicate WellFormed()
      reads this
    {
      && Behaviour(states, trace)
      && states[|trace|] == now
      && Inv(now)
    }

    constructor (start: System)
      requires Inv(start)
      ensures WellFormed() && now == start && trace == []
    {
      now := start;
      states := [start];
      trace := [];
    }

    /** Everything that happened since was appended to the same behaviour. */
    twostate predicate Extends()
      reads this
    {
      && WellFormed()
      && old(trace) <= trace && old(states) <= states
      && Grown(old(now), now)
    }

    method Take(step: Step)
      requires WellFormed() && Enabled(now, step)
      modifies this
      ensures Extends() && now == Next(old(now), step)
      ensures trace == old(trace) + [step] && states == old(states) + [now]
    {
      InvStep(now, step);
      PersistsStep(now, step);
      hide Inv, Next, Enabled, RequestsPersist, GrantsPersist;
      now := Next(now, step);
      trace := trace + [step];
      states := states + [now];
    }

    /** The other actors move: any of `steps` that are possible and are not request `r`'s own. */
    method Interfere(r: RequestId, steps: seq<Step>)
      requires WellFormed() && r in now.requests
      modifies this
      ensures Extends()
      ensures r in now.requests && now.requests[r] == old(now).requests[r]
      ensures ReplyOf(old(now).requests[r].pc).None? ==> Calm(old(now), now, r, steps)
      ensures steps == [] ==> now == old(now)
    {
      hide Inv, Calm;
      CalmSame(now, now, r, []);
      for i := 0 to |steps|
        invariant Extends()
        invariant r in now.requests && now.requests[r] == old(now).requests[r]
        invariant ReplyOf(old(now).requests[r].pc).None? ==> Calm(old(now), now, r, steps[..i])
        invariant i == 0 ==> now == old(now)
      {
        ghost var before := now;
        assert steps[..i + 1] == steps[..i] + [steps[i]];
        if Enabled(now, steps[i]) && !Own(steps[i], r) {
          OthersKeepRequest(now, steps[i], r);
          if ReplyOf(now.requests[r].pc).None? {
            CalmStep(now, steps[i], r);
          }
          Take(steps[i]);
        } else {
          CalmSame(now, now, r, [steps[i]]);
        }
        if ReplyOf(old(now).requests[r].pc).None? {
          CalmTrans(old(now), before, now, r, steps[..i], [steps[i]]);
        }
      }
      assert steps[..|steps|] == steps;
    }

    /** The other actors move, before this client has a request under way. */
    method Others(steps: seq<Step>)
      requires WellFormed()
      modifies this
      ensures Extends()
      ensures Apart(old(now), now, steps)
    {
      hide Inv, Apart;
      ApartSelf(now);
      for i := 0 to |steps|
        invariant Extends()
        invariant Apart(old(now), now, steps[..i])
      {
        ghost var before := now;
        assert steps[..i + 1] == steps[..i] + [steps[i]];
        if Enabled(now, steps[i]) {
          ApartStep(now, steps[i]);
          Take(steps[i]);
          ApartTrans(old(now), before, now, steps[..i], [steps[i]]);
        } else {
          ApartMore(old(now), now, steps[..i], [steps[i]]);
        }
      }
      assert steps[..|steps|] == steps;
    }

    /** Exactly one step was taken: it is the last one of the behaviour. */
    twostate predicate Stepped()
      reads this
    {
      && Extends()
      && |trace| == |old(trace)| + 1 == |states| - 1
      && states[|old(trace)|] == old(now) && states[|trace|] == now
    }

    /** A client's request arrives. */
    method Arrive(c: ClientId, r: RequestId, ttl: int)
      requires WellFormed() && c in now.clients && now.clients[c].status.Idle? && r !in now.requests
      modifies this
      ensures Stepped() && r in now.requests
      ensures now == old(now).(requests := now.requests, clients := now.clients)
      ensures now.requests == old(now).requests[r := Request(c, old(now.clients[c].key), ttl, AtGet)]
      ensures now.clients == old(now).clients[c := old(now).clients[c].(status := Waiting(r))]
    {
      Take(Send(c, r, ttl));
    }

    /** etcd `Get`: whether the key is there, or no answer. */
    method Get(r: RequestId, fails: bool) returns (present: Option<bool>)
      requires WellFormed() && r in now.requests && now.requests[r].pc.AtGet?
      modifies this
      ensures Stepped() && r in now.requests
      ensures present == if fails then None else Some(old(now.requests[r].key in now.store.bindings))
      ensures now.requests[r] == old(now.requests[r]).(pc :=
        match present case None => Failed(false) case Some(true) => Busy case Some(false) => AtGrant)
      ensures now == old(now).(requests := now.requests) && now.requests.Keys == old(now).requests.Keys
    {
      if fails {
        Take(GetError(r));
        return None;
      }
      Take(Step.Get(r));
      return Some(now.requests[r].pc.Busy?);
    }

    /** etcd `Grant`: a fresh lease, or an error that may have left a lease nobody knows of. */
    method Grant(r: RequestId, fault: GrantFault) returns (id: Option<LeaseId>)
      requires WellFormed() && r in now.requests && now.requests[r].pc.AtGrant?
      modifies this
      ensures Extends() && r in now.requests
      ensures id == if fault.Granting? && FreshLease(old(now), fault.id) then Some(fault.id) else None
      ensures id.None? && fault.Granting? ==> !Offered(now, r, fault.id)
      ensures id.Some? ==> now.store == Granted(old(now).store, id.value, now.requests[r].ttl)
      ensures now.clients == old(now).clients && now.requests.Keys == old(now).requests.Keys
      ensures now.requests[r] == old(now.requests[r]).(pc := if id.Some? then AtTxn(id.value) else Failed(false))
    {
      match fault {
        case Granting(granted) =>
          if FreshLease(now, granted) {
            Take(Step.Grant(r, granted));
            return Some(granted);
          }
          Take(GrantError(r));
        case Refused =>
          Take(GrantError(r));
        case Orphaning(granted) =>
          Take(if FreshLease(now, granted) then GrantLost(r, granted) else GrantError(r));
      }
      return None;
    }

    /** The transaction "if the key is absent, put it with the lease": whether the guard held, or an error. */
    method Commit(r: RequestId, fails: bool) returns (succeeded: Option<bool>)
      requires WellFormed() && r in now.requests && now.requests[r].pc.AtTxn?
      modifies this
      ensures Stepped() && r in now.requests
      ensures now.requests[r] == old(now.requests[r]).(pc := now.requests[r].pc)
      ensures succeeded == if fails then None else WouldCommit(old(now).store, old(now).requests[r])
      ensures succeeded.None? ==> ReplyOf(now.requests[r].pc) == Some(Error)
      ensures succeeded.None? && !fails ==> Gone(now, r, old(now.requests[r].pc.lease))
      ensures succeeded == Some(true) ==> now.store == old(now).store.(bindings := now.store.bindings)
      ensures now.clients == old(now).clients && now.requests.Keys == old(now).requests.Keys
      ensures succeeded == Some(false) ==>
        now.requests[r].pc == Busy && old(now.requests[r].key in now.store.bindings)
      ensures succeeded == Some(true) ==>
        && now.requests[r].pc == AtKeepAlive(old(now.requests[r].pc.lease))
        && old(now.requests[r].key !in now.store.bindings)
        && now.requests[r].key in now.store.bindings
        && now.store.bindings[now.requests[r].key] == old(now.requests[r].pc.lease)
    {
      if fails {
        Take(TxnError(r));
        return None;
      }
      Take(Txn(r));
      return if now.requests[r].pc.Failed? then None else Some(now.requests[r].pc.AtKeepAlive?);
    }

    /** etcd `KeepAliveOnce` for the lease of request `r`. It fails if the call fails or the lease is already gone. */
    method KeepAliveOnce(r: RequestId, fails: bool, renewedAnyway: bool) returns (failed: bool)
      requires WellFormed() && r in now.requests && now.requests[r].pc.AtKeepAlive?
      modifies this
      ensures Extends() && r in now.requests
      ensures failed <==> fails || old(now.requests[r].pc.lease !in now.store.live)
      ensures failed && !fails ==> Gone(now, r, old(now.requests[r].pc.lease))
      ensures !failed ==> FullLength(now, r, old(now.requests[r].pc.lease))
      ensures now.clients == old(now).clients && now.requests.Keys == old(now).requests.Keys
      ensures now.requests[r] ==
              old(now.requests[r]).(pc := if failed then Failed(true) else Won(old(now.requests[r].pc.lease)))
    {
      if fails {
        Take(KeepAliveError(r, renewedAnyway && now.requests[r].pc.lease in now.store.live));
        return true;
      }
      Take(KeepAlive(r));
      return now.requests[r].pc.Failed?;
    }

    /** The reply to its request reaches the client. */
    method Receive(c: ClientId, r: RequestId)
      requires WellFormed() && c in now.clients && now.clients[c].status == Waiting(r)
      requires r in now.requests && ReplyOf(now.requests[r].pc).Some?
      modifies this
      ensures Extends() && c in now.clients
      ensures now == old(now).(clients := now.clients)
      ensures now.clients[c].status ==
        match old(ReplyOf(now.requests[r].pc).value) case Created(l) => Holding(l) case _ => Idle
    {
      Take(Deliver(c));
    }

    /** The client stops waiting, if it waits. */
    method GiveUp(c: ClientId)
      requires WellFormed() && c in now.clients
      modifies this
      ensures Extends() && c in now.clients
      ensures now == old(now).(clients := now.clients)
      ensures now.clients[c].status == if old(now).clients[c].status.Waiting? then Idle else old(now).clients[c].status
    {
      if now.clients[c].status.Waiting? {
        Take(Lose(c));
      }
    }

    /** A client's renewal of a lease it names. */
    method KeepLeaseOnce(id: LeaseId, fails: bool, renewedAnyway: bool) returns (failed: bool)
      requires WellFormed()
      modifies this
      ensures Extends()
      ensures failed <==> fails || id !in old(now).store.live
      ensures now == if id in old(now).store.live && (!fails || renewedAnyway)
                     then Next(old(now), Refresh(id)) else old(now)
    {
      if id in now.store.live && (!fails || renewedAnyway) {
        Take(Refresh(id));
        return fails;
      }
      return true;
    }
  }

  /** Between positions `from` and `to` of a behaviour there is a moment when `key` is taken. */
  ghost predicate TakenDuring(states: seq<System>, from: nat, to: nat, key: Key) {
    exists n :: from <= n < to && n < |states| && key in states[n].store.bindings
  }

  /** Between those positions there is a step that turns `key` from free to bound to `id`. */
  ghost predicate CreatedDuring(states: seq<System>, from: nat, to: nat, key: Key, id: LeaseId) {
    exists n :: from <= n < to && n + 1 < |states| && key !in states[n].store.bindings
      && key in states[n + 1].store.bindings && states[n + 1].store.bindings[key] == id
  }

  lemma TakenNow(states: seq<System>, from: nat, to: nat, n: nat, key: Key)
    requires from <= n < to && n < |states| && key in states[n].store.bindings
    ensures TakenDuring(states, from, to, key)
  {
  }

  lemma CreatedAtStep(states: seq<System>, n: nat, key: Key, id: LeaseId)
    requires n + 1 < |states| && key !in states[n].store.bindings
    requires key in states[n + 1].store.bindings && states[n + 1].store.bindings[key] == id
    ensures CreatedDuring(states, n, n + 1, key, id)
  {
  }

  /** In a longer stretch of a longer behaviour the binding still happens. */
  lemma CreatedInLonger(states: seq<System>, from: nat, to: nat, longer: seq<System>, earlier: nat, later: nat,
                        key: Key, id: LeaseId)
    requires states <= longer && earlier <= from && to <= later && CreatedDuring(states, from, to, key, id)
    ensures CreatedDuring(longer, earlier, later, key, id)
  {
  }

  // ---------- GetLease ----------

  /**
   What `GetLease` reports, by its two results and the status it wrote after the status `early`, is the
   request's recorded answer.
   */
  predicate Reports(pc: Pc, early: Option<int>, status: Option<int>, id: LeaseId, failed: bool) {
    if failed then ReplyOf(pc) == Some(Error) && id == 0 && status in {early, Some(FirstOf(early, 500))}
    else if id == 0 then pc == Busy && status == Some(FirstOf(early, 202))
    else pc == Won(id) && status == Some(FirstOf(early, 201)) && 0 < id <= MAX_LEASE_ID
  }

  /** The report was true at one instant between two positions of the behaviour. */
  ghost predicate Decided(states: seq<System>, from: nat, to: nat, key: Key, id: LeaseId, failed: bool) {
    failed || if id == 0 then TakenDuring(states, from, to, key) else CreatedDuring(states, from, to, key, id)
  }

  lemma DecidedInLonger(states: seq<System>, from: nat, to: nat, earlier: nat, key: Key, id: LeaseId, failed: bool)
    requires earlier <= from && Decided(states, from, to, key, id, failed)
    ensures Decided(states, earlier, to, key, id, failed)
  {
  }

  /**
   After the get, the request cannot win: one of its own calls fails, the lease offered it is out of range or
   somebody else's, or it expired before the request was done.
   */
  predicate Unfit(s: System, r: RequestId, script: Script) {
    !script.Works() || !Offered(s, r, script.grant.id) || Gone(s, r, script.grant.id)
  }

  /** What the request is answered when nobody interferes, `s` being the state when it starts. */
  function AnswerAlone(s: System, key: Key, script: Script): Reply {
    if script.getFails then Error
    else if key in s.store.bindings then Accepted
    else if script.Works() && FreshLease(s, script.grant.id) then Created(script.grant.id)
    else Error
  }

  lemma SameAnswerAlone(s: System, t: System, key: Key, script: Script)
    requires s.store == t.store && s.grantedTo == t.grantedTo
    ensures AnswerAlone(s, key, script) == AnswerAlone(t, key, script)
  {
  }

  /** The two results of `GetLease` that stand for an answer. */
  predicate Stands(reply: Reply, id: LeaseId, failed: bool) {
    match reply
    case Created(l) => !failed && id == l != 0
    case Accepted => !failed && id == 0
    case Error => failed && id == 0
  }

  /**
   `GetLease` for request `r`: it returns the lease id (0 for none) and whether it returned an error. Its
   decision is made at one instant inside the call: a 202 saw the key taken then, and the lease of a 201
   bound the key then. It fails only for a reason, wins only the lease etcd offered it, renewed for the whole
   length asked for, and alone it answers exactly as its own calls and the key let it.
   */
  method GetLease(world: World, writer: ResponseWriter, r: RequestId, script: Script)
    returns (id: LeaseId, failed: bool)
    requires world.WellFormed() && r in world.now.requests && world.now.requests[r].pc.AtGet?
    modifies world, writer
    ensures world.Extends() && writer.body == old(writer.body)
    ensures r in world.now.requests
    ensures world.now.requests[r] == old(world.now.requests[r]).(pc := world.now.requests[r].pc)
    ensures Reports(world.now.requests[r].pc, old(writer.status), writer.status, id, failed)
    ensures Decided(world.states, |old(world.trace)|, |world.trace|, old(world.now.requests[r].key), id, failed)
    ensures failed ==> script.getFails || Unfit(world.now, r, script)
    ensures !failed ==> !script.getFails
    ensures !failed && id != 0 ==> script.Works() && id == script.grant.id && FullLength(world.now, r, id)
    ensures script.Uninterrupted() ==>
      Stands(AnswerAlone(old(world.now), old(world.now.requests[r].key), script), id, failed)
    ensures Calm(old(world.now), world.now, r, script.All())
  {
    hide Inv, Behaviour, Next, Enabled, Calm, Unfit, FullLength, TakenDuring, CreatedDuring;
    world.Interfere(r, script.beforeGet);
    ghost var before := world.now;
    var present := world.Get(r, script.getFails);
    CalmCall(old(world.now), before, world.now, r, script.beforeGet, script.FromGrant());
    ghost var seen, at := world.now, |world.trace| - 1;
    if present.None? {
      return 0, true;
    }
    if present.value {
      TakenNow(world.states, |old(world.trace)|, |world.trace|, at, world.now.requests[r].key);
      writer.WriteHeader(ACCEPTED);
      return 0, false;
    }
    id, failed := CreateKey(world, writer, r, script);
    DecidedInLonger(world.states, at + 1, |world.trace|, |old(world.trace)|, world.now.requests[r].key, id, failed);
    CalmTrans(old(world.now), seen, world.now, r, script.beforeGet, script.FromGrant());
  }

  /** The rest of `GetLease`, once the key was seen absent: grant, transaction, renewal. */
  method CreateKey(world: World, writer: ResponseWriter, r: RequestId, script: Script)
    returns (id: LeaseId, failed: bool)
    requires world.WellFormed() && r in world.now.requests && world.now.requests[r].pc.AtGrant?
    modifies world, writer
    ensures world.Extends() && writer.body == old(writer.body)
    ensures r in world.now.requests
    ensures world.now.requests[r] == old(world.now.requests[r]).(pc := world.now.requests[r].pc)
    ensures Reports(world.now.requests[r].pc, old(writer.status), writer.status, id, failed)
    ensures Decided(world.states, |old(world.trace)|, |world.trace|, old(world.now.requests[r].key), id, failed)
    ensures failed ==> Unfit(world.now, r, script)
    ensures !failed && id != 0 ==> script.Works() && id == script.grant.id && FullLength(world.now, r, id)
    ensures script.Uninterrupted() && old(world.now.requests[r].key !in world.now.store.bindings) ==>
      (failed <==> !script.Works() || !FreshLease(old(world.now), script.grant.id)) && (!failed ==> id != 0)
    ensures Calm(old(world.now), world.now, r, script.FromGrant())
  {
    hide Inv, Behaviour, Next, Enabled, Calm, TakenDuring, CreatedDuring;
    world.Interfere(r, script.beforeGrant);
    ghost var before := world.now;
    var granted := world.Grant(r, script.grant);
    CalmCall(old(world.now), before, world.now, r, script.beforeGrant, script.FromTxn());
    ghost var withLease, from := world.now, |world.trace|;
    if granted.None? {
      writer.WriteHeader(SERVER_ERROR);
      return 0, true;
    }
    id, failed := CommitKey(world, writer, r, granted.value, script);
    CalmTrans(old(world.now), withLease, world.now, r, script.beforeGrant, script.FromTxn());
    DecidedInLonger(world.states, from, |world.trace|, |old(world.trace)|, world.now.requests[r].key, id, failed);
  }

  /** The rest of `GetLease`, once there is a lease: transaction and renewal. */
  method CommitKey(world: World, writer: ResponseWriter, r: RequestId, lease: LeaseId, script: Script)
    returns (id: LeaseId, failed: bool)
    requires world.WellFormed() && r in world.now.requests && world.now.requests[r].pc == AtTxn(lease)
    requires 0 < lease <= MAX_LEASE_ID
    modifies world, writer
    ensures world.Extends() && writer.body == old(writer.body)
    ensures r in world.now.requests
    ensures world.now.requests[r] == old(world.now.requests[r]).(pc := world.now.requests[r].pc)
    ensures Reports(world.now.requests[r].pc, old(writer.status), writer.status, id, failed)
    ensures Decided(world.states, |old(world.trace)|, |world.trace|, old(world.now.requests[r].key), id, failed)
    ensures failed ==> script.txnFails || script.keepAliveFails || Gone(world.now, r, lease)
    ensures !failed && id != 0 ==>
      !script.txnFails && !script.keepAliveFails && id == lease && FullLength(world.now, r, id)
    ensures script.Uninterrupted() && old(WouldCommit(world.now.store, world.now.requests[r])) == Some(true) ==>
      (failed <==> script.txnFails || script.keepAliveFails) && (!failed ==> id == lease)
    ensures Calm(old(world.now), world.now, r, script.FromTxn())
  {
    hide Inv, Behaviour, Next, Enabled, TakenDuring, CreatedDuring, Calm;
    world.Interfere(r, script.beforeTxn);
    ghost var before := world.now;
    var succeeded := world.Commit(r, script.txnFails);
    CalmCall(old(world.now), before, world.now, r, script.beforeTxn, script.beforeKeepAlive);
    ghost var committed := world.now;
    if succeeded.None? {
      return 0, true;
    }
    ghost var key, at, states := world.now.requests[r].key, |world.trace| - 1, world.states;
    if !succeeded.value {
      TakenNow(states, |old(world.trace)|, |world.trace|, at, key);
      writer.WriteHeader(ACCEPTED);
      return 0, false;
    }
    CreatedAtStep(states, at, key, lease);

    failed := Renew(world, writer, r, script);
    CalmTrans(old(world.now), committed, world.now, r, script.beforeTxn, script.beforeKeepAlive);
    if failed {
      return 0, true;
    }
    CreatedInLonger(states, at, at + 1, world.states, |old(world.trace)|, |world.trace|, key, lease);
    return lease, false;
  }

  /** The end of `GetLease`, once the key is bound: one renewal, and the status. */
  method Renew(world: World, writer: ResponseWriter, r: RequestId, script: Script) returns (failed: bool)
    requires world.WellFormed() && r in world.now.requests && world.now.requests[r].pc.AtKeepAlive?
    modifies world, writer
    ensures world.Extends() && writer.body == old(writer.body)
    ensures r in world.now.requests
    ensures var q := old(world.now.requests[r]);
      world.now.requests[r] == q.(pc := if failed then Failed(true) else Won(q.pc.lease))
    ensures writer.status == Some(FirstOf(old(writer.status), if failed then 500 else 201))
    ensures var lease := old(world.now.requests[r].pc.lease);
      && (failed ==> script.keepAliveFails || Gone(world.now, r, lease))
      && (!failed ==> !script.keepAliveFails && FullLength(world.now, r, lease))
      && (script.Uninterrupted() && old(lease in world.now.store.live) ==> (failed <==> script.keepAliveFails))
    ensures Calm(old(world.now), world.now, r, script.beforeKeepAlive)
  {
    hide Inv, Behaviour, Next, Enabled, Calm;
    world.Interfere(r, script.beforeKeepAlive);
    ghost var before := world.now;
    failed := world.KeepAliveOnce(r, script.keepAliveFails, script.renewedAnyway);
    CalmCall(old(world.now), before, world.now, r, script.beforeKeepAlive, []);
    if failed {
      writer.WriteHeader(SERVER_ERROR);
      return;
    }
    writer.WriteHeader(CREATED);
  }

  // ---------- The /lease handler ----------

  /**
   A request as a handler reads it: its method, whether its body was read and closed without an error, and
   the text read (none for another method than POST).
   */
  datatype Posted = Posted(isPost: bool, intact: bool, text: string) {
    /** The status written while the body is read, before the handler does anything. */
    function EarlyStatus(): Option<int> {
      if !isPost then Some(400) else if !intact then Some(500) else None
    }

    function Data(): string {
      if isPost then text else ""
    }
  }

  /** `readHTTPBody`. The handlers do not look at the status it may have written: they go on. */
  method ReadHTTPBody(writer: ResponseWriter, request: Posted) returns (data: string)
    requires writer.status == None
    modifies writer
    ensures writer.status == request.EarlyStatus() && writer.body == old(writer.body)
    ensures data == request.Data()
    ensures request.isPost ==> data == request.text && writer.status == if request.intact then None else Some(500)
    ensures !request.isPost ==> data == "" && writer.status == Some(400)
  {
    if !request.isPost {
      writer.WriteHeader(BAD_REQUEST);
      return "";
    }
    if !request.intact {
      writer.WriteHeader(SERVER_ERROR);
    }
    return request.text;
  }

  /** The status of an answer. */
  function StatusOf(reply: Reply): int {
    match reply
    case Created(_) => 201
    case Accepted => 202
    case Error => 500
  }

  /** What a report tells: the answer, and the status that counts once the handler has written its own. */
  lemma Reported(pc: Pc, early: Option<int>, status: Option<int>, id: LeaseId, failed: bool)
    requires Reports(pc, early, status, id, failed)
    ensures ReplyOf(pc).Some? && Stands(ReplyOf(pc).value, id, failed) && (id == 0 || 0 < id <= MAX_LEASE_ID)
    ensures FirstOf(status, if failed then 500 else 200) == FirstOf(early, StatusOf(ReplyOf(pc).value))
    ensures ReplyOf(pc).value.Created? ==> id != 0
    ensures var sent := FirstOf(status, if failed then 500 else 200);
      early.None? ==> (sent == 201 <==> pc.Won?) && (sent == 202 <==> pc.Busy?) && sent in {201, 202, 500}
  {
  }

  /**
   The `/lease` handler. `keyOf` is what JSON decoding finds in the key field ("" in text that is not JSON)
   and `header` the parsed length header. Whatever was posted, the lease is asked for. For a body read
   intact the status is 201, 202 or 500 as the request was decided; otherwise the early status hides the
   answer. The reply's text parses back to the lease id of a request that won.
   */
  method HandleLease(world: World, writer: ResponseWriter, c: ClientId, r: RequestId,
                     request: Posted, keyOf: string -> string, header: Option<int>, script: Script)
    requires world.WellFormed() && writer.status == None && writer.body == ""
    requires c in world.now.clients && world.now.clients[c].status.Idle? && r !in world.now.requests
    requires world.now.clients[c].key == PREFIX + keyOf(request.Data())
    modifies world, writer
    ensures world.Extends()
    ensures r in world.now.requests
    ensures var pc := world.now.requests[r].pc;
      world.now.requests[r] == Request(c, old(world.now.clients[c].key), LeaseSeconds(header), pc)
    ensures ReplyOf(world.now.requests[r].pc).Some?
    ensures var reply := ReplyOf(world.now.requests[r].pc).value;
      && (reply.Error? ==> script.getFails || Unfit(world.now, r, script))
      && (!reply.Error? ==> !script.getFails)
      && (reply.Created? ==>
            script.Works() && reply.lease == script.grant.id && FullLength(world.now, r, reply.lease))
      && (script.Uninterrupted() ==> reply == AnswerAlone(old(world.now), old(world.now.clients[c].key), script))
    ensures Lose(c) !in script.All() ==> c in world.now.clients && world.now.clients[c].status == Waiting(r)
    ensures forall q | q in world.now.requests && q !in old(world.now.requests) :: q == r || Sends(script.All(), q)
    ensures request.isPost && request.intact ==>
      && (writer.Sent() == 201 <==> world.now.requests[r].pc.Won?)
      && (writer.Sent() == 202 <==> world.now.requests[r].pc.Busy?)
      && writer.Sent() in {201, 202, 500}
    ensures var reply := ReplyOf(world.now.requests[r].pc);
      && reply.Some?
      && writer.Sent() == FirstOf(request.EarlyStatus(), StatusOf(reply.value))
      && (reply.value.Created? ==>
            0 < reply.value.lease && Decimal.ParseInt(writer.body) == Decimal.Number(reply.value.lease))
      && (!reply.value.Created? ==> Decimal.ParseInt(writer.body) == Decimal.Number(0))
      && Decided(world.states, |old(world.trace)|, |world.trace|, old(world.now.clients[c].key),
                 Decimal.ParseInt(writer.body).Result(), reply.value.Error?)
  {
    hide Inv, Behaviour, Next, Enabled, Decided, Decimal.ParseInt, Decimal.FormatInt, Calm, FullLength, Unfit;
    hide Reports, StatusOf, ReplyOf, AnswerAlone, Sends;
    var data := ReadHTTPBody(writer, request);
    world.Arrive(c, r, LeaseSeconds(header));
    ghost var from, arrived := |world.trace|, world.now;
    SameAnswerAlone(old(world.now), arrived, old(world.now.clients[c].key), script);
    var id, failed := GetLease(world, writer, r, script);
    Reported(world.now.requests[r].pc, request.EarlyStatus(), writer.status, id, failed);
    CalmSinceArrival(old(world.now), arrived, world.now, c, r, script.All());
    DecidedInLonger(world.states, from, |world.trace|, |old(world.trace)|, old(world.now.clients[c].key), id, failed);
    if failed {
      writer.WriteHeader(SERVER_ERROR);
    }
    writer.Write(Decimal.FormatInt(id));
    assert writer.body == Decimal.FormatInt(id);
    Decimal.RoundTrip(id);
  }

  // ---------- The /keepalive handler ----------

  /** The status of a `/keepalive` for `body` in store `st`. */
  function KeepAliveStatus(st: Store, body: string, fails: bool): int {
    var parsed := Decimal.ParseInt(body);
    if !parsed.Number? then 500
    else if !fails && parsed.value in st.live then 200
    else 204
  }

  /**
   The `/keepalive` handler. A body that is a live lease's id renews it and sends 200; an id that is not
   live sends 204; a body that does not parse sends 500 whatever the store says, because that status is
   written first, and a request that is no intact post has its early status.
   */
  method HandleKeepAlive(world: World, writer: ResponseWriter, request: Posted, fails: bool, renewedAnyway: bool)
    requires world.WellFormed() && writer.status == None
    modifies world, writer
    ensures world.Extends()
    ensures writer.Sent() ==
            FirstOf(request.EarlyStatus(), KeepAliveStatus(old(world.now).store, request.Data(), fails))
    ensures request.isPost && request.intact ==>
      var parsed := Decimal.ParseInt(request.text);
      && (!parsed.Number? ==> writer.Sent() == 500)
      && (parsed.Number? ==>
            writer.Sent() == if parsed.value in old(world.now).store.live && !fails then 200 else 204)
    ensures var id := Decimal.ParseInt(request.Data()).Result();
      world.now == if id in old(world.now).store.live && (!fails || renewedAnyway)
                   then Next(old(world.now), Refresh(id)) else old(world.now)
  {
    hide Inv, Next, Behaviour;
    var data := ReadHTTPBody(writer, request);
    var parsed := Decimal.ParseInt(data);
    if !parsed.Number? {
      writer.WriteHeader(SERVER_ERROR);
    }
    var failed := world.KeepLeaseOnce(parsed.Result(), fails, renewedAnyway);
    if failed {
      writer.WriteHeader(NO_CONTENT);
    }
  }

  // ---------- The lock probe ----------

  /** `LockProbe.Run` on the outcome of its post: no reply, or a status. */
  predicate LockProbe(reply: Option<int>) {
    reply.Some? && reply.value != NO_CONTENT
  }

  /**
   For lease text taken from a 201 reply the probe passes only if the lease is live in etcd. For text
   that does not parse it passes always, live lease or not.
   */
  lemma ProbeMeansLive(st: Store, body: string, fails: bool)
    ensures (LockProbe(Some(KeepAliveStatus(st, body, fails))) ==>
             Decimal.ParseInt(body).Number? && Decimal.ParseInt(body).value in st.live)
            <==> (Decimal.ParseInt(body).Number?)
    ensures forall id: LeaseId | 0 < id <= MAX_LEASE_ID && body == Decimal.FormatInt(id) ::
      LockProbe(Some(KeepAliveStatus(st, body, fails))) <==> !fails && id in st.live
  {
    forall id: LeaseId | 0 < id <= MAX_LEASE_ID && body == Decimal.FormatInt(id)
      ensures LockProbe(Some(KeepAliveStatus(st, body, fails))) <==> !fails && id in st.live
    {
      Decimal.RoundTrip(id);
    }
  }
}
