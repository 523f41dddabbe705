/**
 The atomic lock service that the four-step protocol implements, and the proof that it does.

 In the service a request decides in one instant: it creates the key if the key is absent, or finds it
 taken. It answers later. 201 may only be answered by a request that created the key, 202 only by one
 that found it taken, and an error answer says nothing: the request may have decided either way, may
 still decide after the answer, or may never decide.
 */
module LockService {
  import opened Clock
  import opened Wrappers
  import opened LockProtocol

  datatype Outcome = Undecided | Acquired | Refused

  datatype Verdict = Yes | No | Unknown

  datatype Call = Call(key: Key, outcome: Outcome, answer: Option<Verdict>)

  datatype Service = Service(owner: map<Key, RequestId>, calls: map<RequestId, Call>)

  datatype Action =
    | Invoke(r: RequestId, key: Key)
    | Decide(r: RequestId)
    | Answer(r: RequestId, verdict: Verdict)
    | Free(key: Key)

  ghost predicate Allowed(a: Service, act: Action) {
    match act
    case Invoke(r, _) => r !in a.calls
    case Decide(r) => r in a.calls && a.calls[r].outcome.Undecided?
    case Answer(r, verdict) =>
      && r in a.calls && a.calls[r].answer.None?
      && (verdict.Yes? ==> a.calls[r].outcome.Acquired?)
      && (verdict.No? ==> a.calls[r].outcome.Refused?)
    case Free(key) => key in a.owner
  }

  /** `Decide` is the whole service: an atomic create-if-absent. */
  function Perform(a: Service, act: Action): Service
    requires Allowed(a, act)
  {
    match act
    case Invoke(r, key) => a.(calls := a.calls[r := Call(key, Undecided, None)])
    case Decide(r) =>
      var key := a.calls[r].key;
      if key in a.owner then a.(calls := a.calls[r := a.calls[r].(outcome := Refused)])
      else Service(a.owner[key := r], a.calls[r := a.calls[r].(outcome := Acquired)])
    case Answer(r, verdict) => a.(calls := a.calls[r := a.calls[r].(answer := Some(verdict))])
    case Free(key) => a.(owner := a.owner - {key})
  }

  ghost predicate AllowedAll(a: Service, acts: seq<Action>)
    decreases |acts|
  {
    acts == [] || (Allowed(a, acts[0]) && AllowedAll(Perform(a, acts[0]), acts[1..]))
  }

  ghost function PerformAll(a: Service, acts: seq<Action>): Service
    requires AllowedAll(a, acts)
    decreases |acts|
  {
    if acts == [] then a else PerformAll(Perform(a, acts[0]), acts[1..])
  }

  lemma {:induction false} PerformAppend(a: Service, xs: seq<Action>, ys: seq<Action>)
    requires AllowedAll(a, xs) && AllowedAll(PerformAll(a, xs), ys)
    ensures AllowedAll(a, xs + ys)
    ensures PerformAll(a, xs + ys) == PerformAll(PerformAll(a, xs), ys)
    decreases |xs|
  {
    if xs == [] {
      assert xs + ys == ys;
    } else {
      PerformAppend(Perform(a, xs[0]), xs[1..], ys);
      assert (xs + ys)[1..] == xs[1..] + ys;
    }
  }

  // ---------- What the service sees of the protocol ----------

  function OutcomeOf(pc: Pc): Outcome {
    match pc
    case AtKeepAlive(_) => Acquired
    case Won(_) => Acquired
    case Busy => Refused
    case Failed(true) => Acquired
    case _ => Undecided
  }

  function AnswerOf(pc: Pc): Option<Verdict> {
    match ReplyOf(pc)
    case None => None
    case Some(Created(_)) => Some(Yes)
    case Some(Accepted) => Some(No)
    case Some(Error) => Some(Unknown)
  }

  ghost function View(s: System): Service
    requires BindingsKeyed(s)
  {
    Service(
      map k | k in s.store.bindings :: s.grantedTo[s.store.bindings[k]],
      map r | r in s.requests :: Call(s.requests[r].key, OutcomeOf(s.requests[r].pc), AnswerOf(s.requests[r].pc)))
  }

  /** The key an expiring lease frees, if any: a lease binds at most one. */
  ghost function FreedKeys(s: System, id: LeaseId): set<Key> {
    set k | k in s.store.bindings && s.store.bindings[k] == id
  }

  /**
   What each protocol step means to the service. The deciding instant is the `Get` that finds the key,
   or else the transaction, late transactions included.
   */
  ghost function Image(s: System, step: Step): seq<Action>
    requires Enabled(s, step)
  {
    match step
    case Send(c, r, _) => [Invoke(r, s.clients[c].key)]
    case Get(r) => if s.requests[r].key in s.store.bindings then [Decide(r), Answer(r, No)] else []
    case GetError(r) => [Answer(r, Unknown)]
    case GrantError(r) => [Answer(r, Unknown)]
    case GrantLost(r, _) => [Answer(r, Unknown)]
    case Txn(r) =>
      if s.requests[r].key in s.store.bindings then [Decide(r), Answer(r, No)]
      else if s.requests[r].pc.lease in s.store.live then [Decide(r)]
      else [Answer(r, Unknown)]
    case TxnError(r) => [Answer(r, Unknown)]
    case TxnResolve(r, applied) =>
      if applied && TxnBinds(s.store, s.requests[r].key, s.requests[r].pc.lease) then [Decide(r)] else []
    case KeepAlive(r) => [Answer(r, if s.requests[r].pc.lease in s.store.live then Yes else Unknown)]
    case KeepAliveError(r, _) => [Answer(r, Unknown)]
    case Expire(id) => if FreedKeys(s, id) == {} then [] else [Free(FreedKey(s, id))]
    case _ => []
  }

  ghost function FreedKey(s: System, id: LeaseId): (k: Key)
    requires FreedKeys(s, id) != {}
    ensures k in FreedKeys(s, id)
  {
    var k :| k in FreedKeys(s, id);
    k
  }

  lemma FreedKeyIsOnly(s: System, id: LeaseId)
    requires Inv(s) && FreedKeys(s, id) != {}
    ensures FreedKeys(s, id) == {FreedKey(s, id)}
  {
    forall k | k in FreedKeys(s, id) ensures k == FreedKey(s, id) {
      LeaseBindsOneKey(s, [], id, k, FreedKey(s, id));
    }
  }

  lemma One(a: Service, act: Action)
    requires Allowed(a, act)
    ensures AllowedAll(a, [act]) && PerformAll(a, [act]) == Perform(a, act)
  {
  }

  lemma Two(a: Service, x: Action, y: Action)
    requires Allowed(a, x) && Allowed(Perform(a, x), y)
    ensures AllowedAll(a, [x, y]) && PerformAll(a, [x, y]) == Perform(Perform(a, x), y)
  {
    One(a, x);
    One(Perform(a, x), y);
    PerformAppend(a, [x], [y]);
    assert [x] + [y] == [x, y];
  }

  ghost predicate GrantsKept(s: System, t: System) {
    forall id | id in s.grantedTo :: id in t.grantedTo && t.grantedTo[id] == s.grantedTo[id]
  }

  /** Only request `r` moved, so the view of the calls changes at `r` only. */
  lemma CallsAfter(s: System, t: System, r: RequestId)
    requires BindingsKeyed(s) && BindingsKeyed(t) && r in s.requests && r in t.requests
    requires t.requests == s.requests[r := s.requests[r].(pc := t.requests[r].pc)]
    ensures View(t).calls ==
            View(s).calls[r := Call(s.requests[r].key, OutcomeOf(t.requests[r].pc), AnswerOf(t.requests[r].pc))]
  {
    var moved := View(s).calls[r := Call(s.requests[r].key, OutcomeOf(t.requests[r].pc), AnswerOf(t.requests[r].pc))];
    assert t.requests.Keys == s.requests.Keys;
    hide BindingsKeyed, OutcomeOf, AnswerOf;
    forall q | q in t.requests ensures View(t).calls[q] == moved[q] {
      if q != r {
        assert t.requests[q] == s.requests[q];
      }
    }
    assert View(t).calls.Keys == moved.Keys;
  }

  lemma OwnersAfter(s: System, t: System)
    requires BindingsKeyed(s) && BindingsKeyed(t) && GrantsKept(s, t)
    requires t.store.bindings == s.store.bindings
    ensures View(t).owner == View(s).owner
  {
    forall k | k in s.store.bindings ensures View(t).owner[k] == View(s).owner[k] {
      var bound := s.store.bindings[k];
      assert t.grantedTo[bound] == s.grantedTo[bound];
      assert View(s).owner[k] == s.grantedTo[bound];
    }
  }

  lemma OwnersAfterBind(s: System, t: System, key: Key, id: LeaseId)
    requires BindingsKeyed(s) && BindingsKeyed(t) && GrantsKept(s, t)
    requires id in s.grantedTo && t.store.bindings == s.store.bindings[key := id]
    ensures View(t).owner == View(s).owner[key := s.grantedTo[id]]
  {
    forall k | k in t.store.bindings && k != key ensures View(t).owner[k] == View(s).owner[k] {
      var bound := s.store.bindings[k];
      assert t.grantedTo[bound] == s.grantedTo[bound];
      assert View(s).owner[k] == s.grantedTo[bound];
    }
  }

  lemma SimulateGet(s: System, r: RequestId)
    requires BindingsKeyed(s) && Enabled(s, Get(r)) && BindingsKeyed(Next(s, Get(r)))
    ensures AllowedAll(View(s), Image(s, Get(r)))
    ensures PerformAll(View(s), Image(s, Get(r))) == View(Next(s, Get(r)))
  {
    var t := Next(s, Get(r));
    CallsAfter(s, t, r);
    OwnersAfter(s, t);
    if s.requests[r].key in s.store.bindings {
      Two(View(s), Decide(r), Answer(r, No));
    }
  }

  lemma SimulateGrant(s: System, r: RequestId, id: LeaseId)
    requires BindingsKeyed(s) && Enabled(s, Grant(r, id)) && BindingsKeyed(Next(s, Grant(r, id)))
    ensures Image(s, Grant(r, id)) == [] && View(Next(s, Grant(r, id))) == View(s)
  {
    hide ClientsAfter;
    var t := Next(s, Grant(r, id));
    CallsAfter(s, t, r);
    OwnersAfter(s, t);
    assert View(t).calls == View(s).calls;
  }

  /** A call before the transaction fails. */
  lemma SimulateFailure(s: System, step: Step)
    requires BindingsKeyed(s) && Enabled(s, step) && BindingsKeyed(Next(s, step))
    requires step.GetError? || step.GrantError? || step.GrantLost?
    ensures AllowedAll(View(s), Image(s, step))
    ensures PerformAll(View(s), Image(s, step)) == View(Next(s, step))
  {
    hide ClientsAfter;
    var t := Next(s, step);
    CallsAfter(s, t, step.r);
    OwnersAfter(s, t);
    One(View(s), Answer(step.r, Unknown));
  }

  lemma SimulateTxn(s: System, r: RequestId)
    requires BindingsKeyed(s) && RequestsOwnLeases(s) && Enabled(s, Txn(r)) && BindingsKeyed(Next(s, Txn(r)))
    ensures AllowedAll(View(s), Image(s, Txn(r)))
    ensures PerformAll(View(s), Image(s, Txn(r))) == View(Next(s, Txn(r)))
  {
    hide ClientsAfter, FreshLease;
    var t := Next(s, Txn(r));
    CallsAfter(s, t, r);
    if s.requests[r].key in s.store.bindings {
      OwnersAfter(s, t);
      Two(View(s), Decide(r), Answer(r, No));
    } else if s.requests[r].pc.lease in s.store.live {
      OwnersAfterBind(s, t, s.requests[r].key, s.requests[r].pc.lease);
      One(View(s), Decide(r));
    } else {
      OwnersAfter(s, t);
      One(View(s), Answer(r, Unknown));
    }
  }

  lemma SimulateTxnError(s: System, r: RequestId)
    requires BindingsKeyed(s) && Enabled(s, TxnError(r)) && BindingsKeyed(Next(s, TxnError(r)))
    ensures AllowedAll(View(s), Image(s, TxnError(r)))
    ensures PerformAll(View(s), Image(s, TxnError(r))) == View(Next(s, TxnError(r)))
  {
    hide ClientsAfter, FreshLease;
    CallsAfter(s, Next(s, TxnError(r)), r);
    OwnersAfter(s, Next(s, TxnError(r)));
    One(View(s), Answer(r, Unknown));
  }

  lemma SimulateTxnResolve(s: System, r: RequestId, applied: bool)
    requires BindingsKeyed(s) && RequestsOwnLeases(s) && Enabled(s, TxnResolve(r, applied))
    requires BindingsKeyed(Next(s, TxnResolve(r, applied)))
    ensures AllowedAll(View(s), Image(s, TxnResolve(r, applied)))
    ensures PerformAll(View(s), Image(s, TxnResolve(r, applied))) == View(Next(s, TxnResolve(r, applied)))
  {
    hide ClientsAfter, FreshLease;
    var t := Next(s, TxnResolve(r, applied));
    CallsAfter(s, t, r);
    if applied && TxnBinds(s.store, s.requests[r].key, s.requests[r].pc.lease) {
      OwnersAfterBind(s, t, s.requests[r].key, s.requests[r].pc.lease);
      One(View(s), Decide(r));
    } else {
      OwnersAfter(s, t);
      assert View(t).calls == View(s).calls;
    }
  }

  lemma SimulateKeepAlive(s: System, step: Step)
    requires BindingsKeyed(s) && Enabled(s, step) && BindingsKeyed(Next(s, step))
    requires step.KeepAlive? || step.KeepAliveError?
    ensures AllowedAll(View(s), Image(s, step))
    ensures PerformAll(View(s), Image(s, step)) == View(Next(s, step))
  {
    hide ClientsAfter, FreshLease;
    CallsAfter(s, Next(s, step), step.r);
    OwnersAfter(s, Next(s, step));
    One(View(s), Image(s, step)[0]);
  }

  lemma SimulateExpire(s: System, id: LeaseId)
    requires Inv(s) && Enabled(s, Expire(id)) && Inv(Next(s, Expire(id)))
    ensures AllowedAll(View(s), Image(s, Expire(id)))
    ensures PerformAll(View(s), Image(s, Expire(id))) == View(Next(s, Expire(id)))
  {
    var a, b := View(s), View(Next(s, Expire(id)));
    assert a.calls == b.calls;
    if FreedKeys(s, id) == {} {
      assert forall k | k in s.store.bindings :: s.store.bindings[k] != id by {
        forall k | k in s.store.bindings ensures s.store.bindings[k] != id {
          assert k !in FreedKeys(s, id);
        }
      }
      assert a.owner == b.owner;
    } else {
      var key := FreedKey(s, id);
      FreedKeyIsOnly(s, id);
      One(a, Free(key));
      assert forall k | k in s.store.bindings :: s.store.bindings[k] == id <==> k in FreedKeys(s, id);
      assert Perform(a, Free(key)).owner == b.owner;
    }
  }

  lemma SimulateSend(s: System, step: Step)
    requires BindingsKeyed(s) && Enabled(s, step) && BindingsKeyed(Next(s, step)) && step.Send?
    ensures AllowedAll(View(s), Image(s, step))
    ensures PerformAll(View(s), Image(s, step)) == View(Next(s, step))
  {
    OwnersAfter(s, Next(s, step));
    One(View(s), Image(s, step)[0]);
    assert Perform(View(s), Image(s, step)[0]).calls == View(Next(s, step)).calls;
  }

  lemma SimulateSilent(s: System, step: Step)
    requires BindingsKeyed(s) && Enabled(s, step) && BindingsKeyed(Next(s, step))
    requires step.Deliver? || step.Lose? || step.Release? || step.Refresh? || step.Tick?
    ensures Image(s, step) == [] && View(Next(s, step)) == View(s)
  {
    OwnersAfter(s, Next(s, step));
    assert View(Next(s, step)).calls == View(s).calls;
  }

  /** Every protocol step is a step, two steps, or no step of the atomic service. */
  lemma SimulateStep(s: System, step: Step)
    requires Inv(s) && Enabled(s, step)
    ensures Inv(Next(s, step))
    ensures AllowedAll(View(s), Image(s, step))
    ensures PerformAll(View(s), Image(s, step)) == View(Next(s, step))
  {
    hide Next, Enabled, BindingsLive, LeasesOwned, WinnersBound, ClientsKnown;
    InvStep(s, step);
    match step {
      case Send(_, _, _) => SimulateSend(s, step);
      case Get(r) => SimulateGet(s, r);
      case GetError(_) => SimulateFailure(s, step);
      case Grant(r, id) => SimulateGrant(s, r, id);
      case GrantError(_) => SimulateFailure(s, step);
      case GrantLost(_, _) => SimulateFailure(s, step);
      case Txn(r) => SimulateTxn(s, r);
      case TxnError(r) => SimulateTxnError(s, r);
      case TxnResolve(r, applied) => SimulateTxnResolve(s, r, applied);
      case KeepAlive(_) => SimulateKeepAlive(s, step);
      case KeepAliveError(_, _) => SimulateKeepAlive(s, step);
      case Expire(id) => SimulateExpire(s, id);
      case _ => SimulateSilent(s, step);
    }
  }

  /** The actions of the service that a whole run of the protocol performs. */
  ghost function History(s: System, steps: seq<Step>): seq<Action>
    requires Inv(s) && Valid(s, steps)
    decreases |steps|
  {
    if steps == [] then []
    else
      InvStep(s, steps[0]);
      Image(s, steps[0]) + History(Next(s, steps[0]), steps[1..])
  }

  /**
   Refinement: every run of the four-step protocol, under any interleaving, is a run of the atomic
   create-if-absent service with the same owners and the same answers.
   */
  lemma {:induction false} Refinement(s: System, steps: seq<Step>)
    requires Inv(s) && Valid(s, steps)
    ensures Inv(Exec(s, steps))
    ensures AllowedAll(View(s), History(s, steps))
    ensures PerformAll(View(s), History(s, steps)) == View(Exec(s, steps))
    decreases |steps|
  {
    if steps != [] {
      var next := Next(s, steps[0]);
      SimulateStep(s, steps[0]);
      Refinement(next, steps[1..]);
      PerformAppend(View(s), Image(s, steps[0]), History(next, steps[1..]));
    }
  }

  /**
   What an answer tells the client, over every run: 201 means this request created the key, 202 means it
   found the key taken and never takes it, and 500 leaves both possible.
   */
  lemma AnswersMean(init: System, steps: seq<Step>, r: RequestId)
    requires Init(init) && Valid(init, steps) && r in Exec(init, steps).requests
    ensures Inv(Exec(init, steps))
    ensures var call := View(Exec(init, steps)).calls[r];
      && (call.answer == Some(Yes) ==> call.outcome.Acquired?)
      && (call.answer == Some(No) <==> call.outcome.Refused?)
    ensures forall k | k in View(Exec(init, steps)).owner && View(Exec(init, steps)).owner[k] == r ::
      View(Exec(init, steps)).calls[r].outcome.Acquired? && k == View(Exec(init, steps)).calls[r].key
  {
    hide Valid, Exec, BindingsLive, WinnersBound, ClientsKnown;
    InvRun(init, steps);
    var s := Exec(init, steps);
    forall k | k in View(s).owner && View(s).owner[k] == r
      ensures View(s).calls[r].outcome.Acquired? && k == View(s).calls[r].key
    {
      assert BoundBy(s, k, r);
    }
  }

  // ---------- What is possible ----------

  /** Client `c` may post request `r` for a free key, and `id` may be the next lease granted. */
  ghost predicate FreeFor(s: System, c: ClientId, r: RequestId, id: LeaseId) {
    && c in s.clients && s.clients[c].status.Idle? && s.clients[c].key !in s.store.bindings
    && r !in s.requests && FreshLease(s, id)
  }

  /** The request has come as far as its transaction, with lease `id`. */
  ghost predicate AboutToCommit(s: System, t: System, c: ClientId, r: RequestId, ttl: int, id: LeaseId) {
    && c in s.clients && c in t.clients && t.clients == s.clients[c := Client(s.clients[c].key, Waiting(r))]
    && r in t.requests && t.requests == s.requests[r := Request(c, s.clients[c].key, ttl, AtTxn(id))]
    && t.store == Granted(s.store, id, ttl) && t.grantedTo == s.grantedTo[id := r]
  }

  function UpToCommit(c: ClientId, r: RequestId, ttl: int, id: LeaseId): seq<Step> {
    [Send(c, r, ttl), Get(r), Grant(r, id)]
  }

  lemma ReachCommit(s: System, c: ClientId, r: RequestId, ttl: int, id: LeaseId)
    requires FreeFor(s, c, r, id)
    ensures Valid(s, UpToCommit(c, r, ttl, id))
    ensures AboutToCommit(s, Exec(s, UpToCommit(c, r, ttl, id)), c, r, ttl, id)
  {
    var s1 := Next(s, Send(c, r, ttl));
    assert Enabled(s1, Get(r)) && s1.requests[r] == Request(c, s.clients[c].key, ttl, AtGet);
    var s2 := Next(s1, Get(r));
    assert s2 == s1.(requests := s1.requests[r := Request(c, s.clients[c].key, ttl, AtGrant)]);
    ExecOne(s, Send(c, r, ttl));
    ExecOne(s1, Get(r));
    ExecOne(s2, Grant(r, id));
    ExecConcat(s, [Send(c, r, ttl)], [Get(r)]);
    ExecConcat(s, [Send(c, r, ttl)] + [Get(r)], [Grant(r, id)]);
    assert UpToCommit(c, r, ttl, id) == [Send(c, r, ttl)] + [Get(r)] + [Grant(r, id)];
  }

  /** A client alone gets a free key: its request is answered 201, and it holds a live lease bound to the key. */
  lemma UncontendedAcquires(s: System, c: ClientId, r: RequestId, ttl: int, id: LeaseId) returns (steps: seq<Step>)
    requires Inv(s) && FreeFor(s, c, r, id)
    ensures Valid(s, steps)
    ensures var t := Exec(s, steps);
      && LiveHolder(t, c) && t.clients[c].status == Holding(id)
      && t.store.bindings == s.store.bindings[s.clients[c].key := id]
      && t.store.live[id] == Lease(ttl, s.store.clock + ttl * SECOND)
  {
    hide Inv, Next, Enabled;
    ReachCommit(s, c, r, ttl, id);
    var s3 := Exec(s, UpToCommit(c, r, ttl, id));
    steps := GoodCommit(s, s3, c, r, ttl, id);
    hide Exec, Valid;
    ExecConcat(s, UpToCommit(c, r, ttl, id), steps);
    steps := UpToCommit(c, r, ttl, id) + steps;
  }

  lemma GoodCommit(s: System, s3: System, c: ClientId, r: RequestId, ttl: int, id: LeaseId) returns (steps: seq<Step>)
    requires FreeFor(s, c, r, id) && AboutToCommit(s, s3, c, r, ttl, id)
    ensures Valid(s3, steps)
    ensures var t := Exec(s3, steps);
      && LiveHolder(t, c) && t.clients[c].status == Holding(id)
      && t.store.bindings == s.store.bindings[s.clients[c].key := id]
      && t.store.live[id] == Lease(ttl, s.store.clock + ttl * SECOND)
  {
    var s4 := Next(s3, Txn(r));
    assert s4.requests[r].pc == AtKeepAlive(id) && s4.clients == s3.clients;
    var s5 := Next(s4, KeepAlive(r));
    assert s5.requests[r].pc == Won(id) && s5.clients == s3.clients;
    ExecOne(s3, Txn(r));
    ExecOne(s4, KeepAlive(r));
    ExecOne(s5, Deliver(c));
    hide Exec, Valid;
    ExecConcat(s4, [KeepAlive(r)], [Deliver(c)]);
    ExecConcat(s3, [Txn(r)], [KeepAlive(r)] + [Deliver(c)]);
    steps := [Txn(r)] + ([KeepAlive(r)] + [Deliver(c)]);
  }

  /**
   An error answer tells a client nothing: there are two runs in which it sees the same, an error, and in
   one of them the key is bound by its request, in the other the key is free.
   */
  lemma ErrorTellsNothing(s: System, c: ClientId, r: RequestId, ttl: int, id: LeaseId)
    returns (taken: seq<Step>, lost: seq<Step>)
    requires Inv(s) && FreeFor(s, c, r, id)
    ensures Valid(s, taken) && Valid(s, lost)
    ensures Exec(s, taken).clients == Exec(s, lost).clients == s.clients
    ensures r in Exec(s, taken).requests && ReplyOf(Exec(s, taken).requests[r].pc) == Some(Error)
    ensures r in Exec(s, lost).requests && ReplyOf(Exec(s, lost).requests[r].pc) == Some(Error)
    ensures Exec(s, taken).store.bindings == s.store.bindings[s.clients[c].key := id]
    ensures Exec(s, lost).store.bindings == s.store.bindings
  {
    hide Inv, Next, Enabled;
    ReachCommit(s, c, r, ttl, id);
    var s3 := Exec(s, UpToCommit(c, r, ttl, id));
    taken := FailedCommit(s, s3, c, r, ttl, id, true);
    lost := FailedCommit(s, s3, c, r, ttl, id, false);
    hide Exec, Valid;
    ExecConcat(s, UpToCommit(c, r, ttl, id), taken);
    ExecConcat(s, UpToCommit(c, r, ttl, id), lost);
    taken := UpToCommit(c, r, ttl, id) + taken;
    lost := UpToCommit(c, r, ttl, id) + lost;
  }

  lemma FailedCommit(s: System, s3: System, c: ClientId, r: RequestId, ttl: int, id: LeaseId, applied: bool)
    returns (steps: seq<Step>)
    requires FreeFor(s, c, r, id) && AboutToCommit(s, s3, c, r, ttl, id)
    ensures Valid(s3, steps)
    ensures var t := Exec(s3, steps);
      && t.clients == s.clients && r in t.requests && ReplyOf(t.requests[r].pc) == Some(Error)
      && t.store.bindings == if applied then s.store.bindings[s.clients[c].key := id] else s.store.bindings
  {
    var s4 := Next(s3, TxnError(r));
    assert s4.requests[r].pc == InDoubt(id) && s4.store == s3.store;
    var s5 := Next(s4, Deliver(c));
    assert s5.requests == s4.requests && s5.store == s4.store && s5.clients == s.clients;
    ExecOne(s3, TxnError(r));
    ExecOne(s4, Deliver(c));
    ExecOne(s5, TxnResolve(r, applied));
    hide Exec, Valid;
    ExecConcat(s4, [Deliver(c)], [TxnResolve(r, applied)]);
    ExecConcat(s3, [TxnError(r)], [Deliver(c)] + [TxnResolve(r, applied)]);
    steps := [TxnError(r)] + ([Deliver(c)] + [TxnResolve(r, applied)]);
  }
}
