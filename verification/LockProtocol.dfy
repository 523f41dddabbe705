/**
 The shared-lock protocol as a state machine: any number of lock servers answering `/lease`
 requests, any number of clients, and the etcd store between them.

 A request runs the four store calls of `GetLease` one at a time, so every interleaving of requests,
 keepalives, expiries, failed calls and lost replies is a run of this machine. The servers keep no
 state of their own, so "which server" never matters.

 What is assumed of etcd is written into `Next`: the guarded transaction is one step, lease ids are
 fresh positive 64-bit numbers, a put on a lease that is gone fails, expiry removes the key bound to
 the lease, an expired lease never comes back, and nobody else writes the keys.
 */
module LockProtocol {
  import opened Clock
  import opened Wrappers

  type Key = string
  type LeaseId = int
  type RequestId = nat
  type ClientId = nat

  const MAX_LEASE_ID := 0x7FFF_FFFF_FFFF_FFFF

  /** A live lease: its length in seconds and the instant (in nanoseconds) before which it cannot expire. */
  datatype Lease = Lease(ttl: int, deadline: int)

  datatype Store = Store(bindings: map<Key, LeaseId>, live: map<LeaseId, Lease>, clock: int)

  /** The answer to a `/lease` request: 201 with a lease, 202, or 500. */
  datatype Reply = Created(lease: LeaseId) | Accepted | Error

  /**
   Where a request stands. `InDoubt` is a request already answered 500 because the transaction call
   failed, while etcd may still apply the transaction. `Failed` records whether the key was bound.
   */
  datatype Pc =
    | AtGet
    | AtGrant
    | AtTxn(lease: LeaseId)
    | AtKeepAlive(lease: LeaseId)
    | InDoubt(lease: LeaseId)
    | Won(lease: LeaseId)
    | Busy
    | Failed(tookEffect: bool)

  datatype Request = Request(client: ClientId, key: Key, ttl: int, pc: Pc)

  datatype Status = Idle | Waiting(request: RequestId) | Holding(lease: LeaseId)

  /** One command of one wrapper that wants the lock `key`. */
  datatype Client = Client(key: Key, status: Status)

  datatype System = System(
    store: Store,
    requests: map<RequestId, Request>,
    clients: map<ClientId, Client>,
    grantedTo: map<LeaseId, RequestId>)

  datatype Step =
    | Send(c: ClientId, r: RequestId, ttl: int)
    | Deliver(c: ClientId)
    | Lose(c: ClientId)
    | Release(c: ClientId)
    | Get(r: RequestId)
    | GetError(r: RequestId)
    | Grant(r: RequestId, id: LeaseId)
    | GrantError(r: RequestId)
    | GrantLost(r: RequestId, id: LeaseId)
    | Txn(r: RequestId)
    | TxnError(r: RequestId)
    | TxnResolve(r: RequestId, applied: bool)
    | KeepAlive(r: RequestId)
    | KeepAliveError(r: RequestId, renewed: bool)
    | Refresh(id: LeaseId)
    | Tick(d: nat)
    | Expire(id: LeaseId)

  function ReplyOf(pc: Pc): Option<Reply> {
    match pc
    case Won(l) => Some(Created(l))
    case Busy => Some(Accepted)
    case InDoubt(_) => Some(Error)
    case Failed(_) => Some(Error)
    case _ => None
  }

  // ---------- The store's calls ----------

  function Renewed(st: Store, id: LeaseId): Store
    requires id in st.live
  {
    st.(live := st.live[id := st.live[id].(deadline := st.clock + st.live[id].ttl * SECOND)])
  }

  function Granted(st: Store, id: LeaseId, ttl: int): Store {
    st.(live := st.live[id := Lease(ttl, st.clock + ttl * SECOND)])
  }

  function Bound(st: Store, key: Key, id: LeaseId): Store {
    st.(bindings := st.bindings[key := id])
  }

  /** The guarded transaction of request `q`: it binds the key if the key is absent and the lease is live. */
  function Committed(st: Store, q: Request): Store {
    var known := KnownLease(q.pc);
    if known.Some? && TxnBinds(st, q.key, known.value) then Bound(st, q.key, known.value) else st
  }

  function Expired(st: Store, id: LeaseId): Store {
    st.(live := st.live - {id}, bindings := map k | k in st.bindings && st.bindings[k] != id :: st.bindings[k])
  }

  // ---------- Steps ----------

  predicate Enabled(s: System, step: Step) {
    match step
    case Send(c, r, _) => c in s.clients && s.clients[c].status.Idle? && r !in s.requests
    case Deliver(c) =>
      && c in s.clients && s.clients[c].status.Waiting? && s.clients[c].status.request in s.requests
      && ReplyOf(s.requests[s.clients[c].status.request].pc).Some?
    case Lose(c) => c in s.clients && s.clients[c].status.Waiting?
    case Release(c) => c in s.clients && s.clients[c].status.Holding?
    case Get(r) => r in s.requests && s.requests[r].pc.AtGet?
    case GetError(r) => r in s.requests && s.requests[r].pc.AtGet?
    case Grant(r, id) => r in s.requests && s.requests[r].pc.AtGrant? && FreshLease(s, id)
    case GrantError(r) => r in s.requests && s.requests[r].pc.AtGrant?
    case GrantLost(r, id) => r in s.requests && s.requests[r].pc.AtGrant? && FreshLease(s, id)
    case Txn(r) => r in s.requests && s.requests[r].pc.AtTxn?
    case TxnError(r) => r in s.requests && s.requests[r].pc.AtTxn?
    case TxnResolve(r, _) => r in s.requests && s.requests[r].pc.InDoubt?
    case KeepAlive(r) => r in s.requests && s.requests[r].pc.AtKeepAlive?
    case KeepAliveError(r, renewed) =>
      r in s.requests && s.requests[r].pc.AtKeepAlive? && (renewed ==> s.requests[r].pc.lease in s.store.live)
    case Refresh(id) => id in s.store.live
    case Tick(_) => true
    case Expire(id) => id in s.store.live && s.store.live[id].deadline <= s.store.clock
  }

  predicate FreshLease(s: System, id: LeaseId) {
    0 < id <= MAX_LEASE_ID && id !in s.grantedTo
  }

  /** True when the guarded transaction of a request for `key` with lease `id` would bind the key. */
  predicate TxnBinds(st: Store, key: Key, id: LeaseId) {
    key !in st.bindings && id in st.live
  }

  /** What a step does to the store. */
  function StoreAfter(s: System, step: Step): Store
    requires Enabled(s, step)
  {
    match step
    case Grant(r, id) => Granted(s.store, id, s.requests[r].ttl)
    case GrantLost(r, id) => Granted(s.store, id, s.requests[r].ttl)
    case Txn(r) => Committed(s.store, s.requests[r])
    case TxnResolve(r, applied) => if applied then Committed(s.store, s.requests[r]) else s.store
    case KeepAlive(r) =>
      if s.requests[r].pc.lease in s.store.live then Renewed(s.store, s.requests[r].pc.lease) else s.store
    case KeepAliveError(r, renewed) => if renewed then Renewed(s.store, s.requests[r].pc.lease) else s.store
    case Refresh(id) => Renewed(s.store, id)
    case Tick(d) => s.store.(clock := s.store.clock + d)
    case Expire(id) => Expired(s.store, id)
    case _ => s.store
  }

  /** The request a step moves along, if it moves one. */
  function Mover(step: Step): Option<RequestId> {
    match step
    case Get(r) => Some(r)
    case GetError(r) => Some(r)
    case Grant(r, _) => Some(r)
    case GrantError(r) => Some(r)
    case GrantLost(r, _) => Some(r)
    case Txn(r) => Some(r)
    case TxnError(r) => Some(r)
    case TxnResolve(r, _) => Some(r)
    case KeepAlive(r) => Some(r)
    case KeepAliveError(r, _) => Some(r)
    case _ => None
  }

  /** Where a step leaves the request it moves. */
  function PcAfter(s: System, step: Step): Pc
    requires Enabled(s, step) && Mover(step).Some?
  {
    var q := s.requests[Mover(step).value];
    match step
    case Get(_) => if q.key in s.store.bindings then Busy else AtGrant
    case Grant(_, id) => AtTxn(id)
    case Txn(_) =>
      if q.key in s.store.bindings then Busy
      else if q.pc.lease in s.store.live then AtKeepAlive(q.pc.lease)
      else Failed(false)
    case TxnError(_) => InDoubt(q.pc.lease)
    case TxnResolve(_, applied) => Failed(applied && TxnBinds(s.store, q.key, q.pc.lease))
    case KeepAlive(_) => if q.pc.lease in s.store.live then Won(q.pc.lease) else Failed(true)
    case KeepAliveError(_, _) => Failed(true)
    case _ => Failed(false)
  }

  function RequestsAfter(s: System, step: Step): map<RequestId, Request>
    requires Enabled(s, step)
  {
    if step.Send? then s.requests[step.r := Request(step.c, s.clients[step.c].key, step.ttl, AtGet)]
    else
      match Mover(step)
      case None => s.requests
      case Some(r) => s.requests[r := s.requests[r].(pc := PcAfter(s, step))]
  }

  function WithStatus(s: System, c: ClientId, status: Status): map<ClientId, Client>
    requires c in s.clients
  {
    s.clients[c := s.clients[c].(status := status)]
  }

  function ClientsAfter(s: System, step: Step): map<ClientId, Client>
    requires Enabled(s, step)
  {
    match step
    case Send(c, r, _) => WithStatus(s, c, Waiting(r))
    case Deliver(c) =>
      (match ReplyOf(s.requests[s.clients[c].status.request].pc).value
       case Created(l) => WithStatus(s, c, Holding(l))
       case _ => WithStatus(s, c, Idle))
    case Lose(c) => WithStatus(s, c, Idle)
    case Release(c) => WithStatus(s, c, Idle)
    case _ => s.clients
  }

  function GrantedAfter(s: System, step: Step): map<LeaseId, RequestId> {
    match step
    case Grant(r, id) => s.grantedTo[id := r]
    case GrantLost(r, id) => s.grantedTo[id := r]
    case _ => s.grantedTo
  }

  function Next(s: System, step: Step): System
    requires Enabled(s, step)
  {
    System(StoreAfter(s, step), RequestsAfter(s, step), ClientsAfter(s, step), GrantedAfter(s, step))
  }

  // ---------- Runs ----------

  ghost predicate Init(s: System) {
    && s.store.bindings == map[] && s.store.live == map[]
    && s.requests == map[] && s.grantedTo == map[]
    && (forall c | c in s.clients :: s.clients[c].status.Idle?)
  }

  ghost predicate Valid(s: System, steps: seq<Step>)
    decreases |steps|
  {
    steps == [] || (Enabled(s, steps[0]) && Valid(Next(s, steps[0]), steps[1..]))
  }

  ghost function Exec(s: System, steps: seq<Step>): System
    requires Valid(s, steps)
    decreases |steps|
  {
    if steps == [] then s else Exec(Next(s, steps[0]), steps[1..])
  }

  lemma {:induction false} ExecConcat(s: System, xs: seq<Step>, ys: seq<Step>)
    requires Valid(s, xs) && Valid(Exec(s, xs), ys)
    ensures Valid(s, xs + ys) && Exec(s, xs + ys) == Exec(Exec(s, xs), ys)
    decreases |xs|
  {
    hide Next, Enabled;
    if xs == [] {
      assert xs + ys == ys;
    } else {
      ExecConcat(Next(s, xs[0]), xs[1..], ys);
      assert (xs + ys)[1..] == xs[1..] + ys;
    }
  }

  lemma ExecOne(s: System, step: Step)
    requires Enabled(s, step)
    ensures Valid(s, [step]) && Exec(s, [step]) == Next(s, step)
  {
    hide Next, Enabled;
    assert [step][1..] == [] && Valid(Next(s, step), []) && Exec(Next(s, step), []) == Next(s, step);
  }

  // ---------- The invariant ----------

  ghost predicate BindingsLive(s: System) {
    forall k | k in s.store.bindings :: s.store.bindings[k] in s.store.live
  }

  ghost predicate LeasesOwned(s: System) {
    && (forall id | id in s.store.live :: id in s.grantedTo)
    && (forall id | id in s.grantedTo :: 0 < id <= MAX_LEASE_ID && s.grantedTo[id] in s.requests)
  }

  /** A request has no lease before its grant. */
  ghost predicate NoneBeforeGrant(s: System) {
    forall id | id in s.grantedTo && s.grantedTo[id] in s.requests ::
      !s.requests[s.grantedTo[id]].pc.AtGet? && !s.requests[s.grantedTo[id]].pc.AtGrant?
  }

  /** A live lease has the length its request asked for. */
  ghost predicate LengthsAsked(s: System) {
    forall id | id in s.store.live && id in s.grantedTo && s.grantedTo[id] in s.requests ::
      s.store.live[id].ttl == s.requests[s.grantedTo[id]].ttl
  }

  /** The lease a request still knows about. */
  function KnownLease(pc: Pc): Option<LeaseId> {
    match pc
    case AtTxn(l) => Some(l)
    case AtKeepAlive(l) => Some(l)
    case InDoubt(l) => Some(l)
    case Won(l) => Some(l)
    case _ => None
  }

  /** A request at this point has bound its key. */
  predicate HasBound(pc: Pc) {
    pc.AtKeepAlive? || pc.Won? || pc == Failed(true)
  }

  ghost predicate RequestsOwnLeases(s: System) {
    forall r | r in s.requests && KnownLease(s.requests[r].pc).Some? ::
      KnownLease(s.requests[r].pc).value in s.grantedTo && s.grantedTo[KnownLease(s.requests[r].pc).value] == r
  }

  /** The request whose lease is bound to `k`. */
  ghost predicate BoundBy(s: System, k: Key, r: RequestId) {
    && k in s.store.bindings && s.store.bindings[k] in s.grantedTo
    && s.grantedTo[s.store.bindings[k]] == r && r in s.requests
  }

  /** Whatever key a lease is bound to, it is the key its own request asked for. */
  ghost predicate BindingsKeyed(s: System) {
    forall k | k in s.store.bindings ::
      s.store.bindings[k] in s.grantedTo && BoundBy(s, k, s.grantedTo[s.store.bindings[k]])
      && s.requests[s.grantedTo[s.store.bindings[k]]].key == k
  }

  /** A binding is the work of a request that got past the transaction. */
  ghost predicate BindingsMade(s: System) {
    forall k, r | BoundBy(s, k, r) :: HasBound(s.requests[r].pc)
  }

  /** A request that bound its key keeps it for as long as its lease is live. */
  ghost predicate WinnersBound(s: System) {
    forall r | r in s.requests && (s.requests[r].pc.AtKeepAlive? || s.requests[r].pc.Won?) ::
      s.requests[r].pc.lease in s.store.live ==>
        s.requests[r].key in s.store.bindings && s.store.bindings[s.requests[r].key] == s.requests[r].pc.lease
  }

  ghost predicate ClientsKnown(s: System) {
    forall c | c in s.clients ::
      match s.clients[c].status
      case Idle => true
      case Waiting(r) => r in s.requests && s.requests[r].client == c && s.requests[r].key == s.clients[c].key
      case Holding(l) =>
        && l in s.grantedTo && s.grantedTo[l] in s.requests
        && s.requests[s.grantedTo[l]].pc == Won(l)
        && s.requests[s.grantedTo[l]].client == c && s.requests[s.grantedTo[l]].key == s.clients[c].key
  }

  ghost predicate Inv(s: System) {
    && BindingsLive(s)
    && LeasesOwned(s)
    && NoneBeforeGrant(s)
    && LengthsAsked(s)
    && RequestsOwnLeases(s)
    && BindingsKeyed(s)
    && BindingsMade(s)
    && WinnersBound(s)
    && ClientsKnown(s)
  }

  lemma BindingsLiveStep(s: System, step: Step)
    requires Inv(s) && Enabled(s, step)
    ensures BindingsLive(Next(s, step))
  {
    hide RequestsAfter, ClientsAfter, GrantedAfter, BindingsKeyed, BindingsMade, WinnersBound, ClientsKnown;
  }

  lemma LeasesOwnedStep(s: System, step: Step)
    requires Inv(s) && Enabled(s, step)
    ensures LeasesOwned(Next(s, step))
  {
    hide PcAfter, ClientsAfter, BindingsLive, BindingsKeyed, BindingsMade, WinnersBound, ClientsKnown;
    hide NoneBeforeGrant, LengthsAsked;
  }

  lemma NoneBeforeGrantStep(s: System, step: Step)
    requires Inv(s) && Enabled(s, step)
    ensures NoneBeforeGrant(Next(s, step))
  {
    hide StoreAfter, ClientsAfter, BindingsLive, BindingsKeyed, BindingsMade, WinnersBound, ClientsKnown;
    hide RequestsOwnLeases, LengthsAsked;
  }

  /** A step keeps the length of a lease, or gives a new lease the length its request asked for. */
  lemma LengthAfter(s: System, step: Step, id: LeaseId)
    requires Enabled(s, step) && id in Next(s, step).store.live
    ensures
      || (id in s.store.live && Next(s, step).store.live[id].ttl == s.store.live[id].ttl)
      || ((step.Grant? || step.GrantLost?) && step.id == id && step.r in s.requests
          && Next(s, step).store.live[id].ttl == s.requests[step.r].ttl && Next(s, step).grantedTo[id] == step.r)
  {
    hide RequestsAfter, ClientsAfter;
  }

  lemma LengthsAskedStep(s: System, step: Step)
    requires Inv(s) && Enabled(s, step)
    ensures LengthsAsked(Next(s, step))
  {
    var t := Next(s, step);
    RequestsPersistStep(s, step);
    GrantsPersistStep(s, step);
    forall id | id in t.store.live && id in t.grantedTo && t.grantedTo[id] in t.requests
      ensures t.store.live[id].ttl == t.requests[t.grantedTo[id]].ttl
    {
      LengthAfter(s, step, id);
      hide Next, Enabled, BindingsLive, BindingsKeyed, BindingsMade, WinnersBound, ClientsKnown, NoneBeforeGrant;
    }
  }

  lemma RequestsOwnLeasesStep(s: System, step: Step)
    requires Inv(s) && Enabled(s, step)
    ensures RequestsOwnLeases(Next(s, step))
  {
    hide StoreAfter, ClientsAfter, BindingsLive, BindingsKeyed, BindingsMade, WinnersBound, ClientsKnown;
  }

  lemma BindingsKeyedStep(s: System, step: Step)
    requires Inv(s) && Enabled(s, step)
    ensures BindingsKeyed(Next(s, step))
  {
    var t := Next(s, step);
    RequestsPersistStep(s, step);
    forall k | k in t.store.bindings
      ensures t.store.bindings[k] in t.grantedTo && BoundBy(t, k, t.grantedTo[t.store.bindings[k]])
      ensures t.requests[t.grantedTo[t.store.bindings[k]]].key == k
    {
      if k in s.store.bindings {
        assert BoundBy(s, k, s.grantedTo[s.store.bindings[k]]);
      }
    }
  }

  /** A bound key changes in one way only: its lease expires, and then it is free. */
  lemma FreedOnlyByExpiry(s: System, step: Step, k: Key)
    requires Inv(s) && Enabled(s, step) && k in s.store.bindings
    ensures step == Expire(s.store.bindings[k]) <==> k !in Next(s, step).store.bindings
    ensures k in Next(s, step).store.bindings ==> Next(s, step).store.bindings[k] == s.store.bindings[k]
    ensures k in Next(s, step).store.bindings <==> s.store.bindings[k] in Next(s, step).store.live
  {
    assert s.store.bindings[k] in s.store.live && s.store.bindings[k] in s.grantedTo;
    hide Inv;
  }

  /** A key newly bound is bound by the transaction of the request that asked for it. */
  lemma NewlyBound(s: System, step: Step, k: Key)
    requires Enabled(s, step) && k !in s.store.bindings && k in Next(s, step).store.bindings
    ensures step.Txn? || step.TxnResolve?
    ensures s.requests[step.r].key == k && Next(s, step).store.bindings[k] == s.requests[step.r].pc.lease
    ensures s.requests[step.r].pc.lease in s.store.live && HasBound(PcAfter(s, step))
  {
    hide RequestsAfter, ClientsAfter, GrantedAfter;
  }

  lemma HasBoundStays(s: System, step: Step, r: RequestId)
    requires Enabled(s, step) && r in s.requests && HasBound(s.requests[r].pc)
    ensures r in Next(s, step).requests && HasBound(Next(s, step).requests[r].pc)
  {
    hide StoreAfter, ClientsAfter, GrantedAfter, FreshLease;
  }

  lemma BindingsMadeStep(s: System, step: Step)
    requires Inv(s) && Enabled(s, step)
    ensures BindingsMade(Next(s, step))
  {
    var t := Next(s, step);
    forall k, r | BoundBy(t, k, r) ensures HasBound(t.requests[r].pc) {
      if k in s.store.bindings {
        FreedOnlyByExpiry(s, step, k);
        GrantsPersistStep(s, step);
        assert BoundBy(s, k, r);
        HasBoundStays(s, step, r);
      } else {
        NewlyBound(s, step, k);
        GrantsPersistStep(s, step);
      }
      hide StoreAfter, PcAfter, ClientsAfter, GrantedAfter;
    }
  }

  /** How a request comes to hold a binding: by its transaction, or because it held it before. */
  lemma WinnerBefore(s: System, step: Step, r: RequestId)
    requires Enabled(s, step) && r in Next(s, step).requests
    requires Next(s, step).requests[r].pc.AtKeepAlive? || Next(s, step).requests[r].pc.Won?
    ensures r in s.requests && Next(s, step).requests[r].key == s.requests[r].key
    ensures KnownLease(s.requests[r].pc) == Some(Next(s, step).requests[r].pc.lease)
    ensures step == Txn(r) || s.requests[r].pc.AtKeepAlive? || s.requests[r].pc.Won?
    ensures step == Txn(r) ==> TxnBinds(s.store, s.requests[r].key, s.requests[r].pc.lease)
  {
    hide StoreAfter, ClientsAfter, GrantedAfter, FreshLease;
  }

  lemma WinnersBoundStep(s: System, step: Step)
    requires Inv(s) && Enabled(s, step)
    ensures WinnersBound(Next(s, step))
  {
    var t := Next(s, step);
    forall r | r in t.requests && (t.requests[r].pc.AtKeepAlive? || t.requests[r].pc.Won?)
               && t.requests[r].pc.lease in t.store.live
      ensures t.requests[r].key in t.store.bindings && t.store.bindings[t.requests[r].key] == t.requests[r].pc.lease
    {
      WinnerBefore(s, step, r);
      if step != Txn(r) {
        GrantsPersistStep(s, step);
        FreedOnlyByExpiry(s, step, s.requests[r].key);
        hide StoreAfter, RequestsAfter, ClientsAfter, GrantedAfter, PcAfter;
      }
    }
  }

  lemma ClientsKnownStep(s: System, step: Step)
    requires Inv(s) && Enabled(s, step)
    ensures ClientsKnown(Next(s, step))
  {
    RequestsPersistStep(s, step);
    hide StoreAfter, PcAfter, BindingsLive, BindingsKeyed, BindingsMade, WinnersBound;
  }

  lemma InvStep(s: System, step: Step)
    requires Inv(s) && Enabled(s, step)
    ensures Inv(Next(s, step))
  {
    BindingsLiveStep(s, step);
    LeasesOwnedStep(s, step);
    NoneBeforeGrantStep(s, step);
    LengthsAskedStep(s, step);
    RequestsOwnLeasesStep(s, step);
    BindingsKeyedStep(s, step);
    BindingsMadeStep(s, step);
    WinnersBoundStep(s, step);
    ClientsKnownStep(s, step);
  }

  lemma {:induction false} InvRun(s: System, steps: seq<Step>)
    requires Inv(s) && Valid(s, steps)
    ensures Inv(Exec(s, steps))
    decreases |steps|
  {
    if steps != [] {
      InvStep(s, steps[0]);
      InvRun(Next(s, steps[0]), steps[1..]);
    }
  }

  // ---------- Exclusion ----------

  /** Request `r` was answered 201 with a lease that is still live. */
  ghost predicate LiveWinner(s: System, r: RequestId) {
    r in s.requests && s.requests[r].pc.Won? && s.requests[r].pc.lease in s.store.live
  }

  /** Client `c` was answered 201 with a lease that is still live. */
  ghost predicate LiveHolder(s: System, c: ClientId) {
    c in s.clients && s.clients[c].status.Holding? && s.clients[c].status.lease in s.store.live
  }

  /**
   Mutual exclusion over every run: a key whose winner's lease is live is bound to exactly that lease,
   so two requests for one key are never both answered 201 with live leases.
   */
  lemma RequestExclusion(init: System, steps: seq<Step>, r1: RequestId, r2: RequestId)
    requires Init(init) && Valid(init, steps)
    requires LiveWinner(Exec(init, steps), r1) && LiveWinner(Exec(init, steps), r2)
    requires Exec(init, steps).requests[r1].key == Exec(init, steps).requests[r2].key
    ensures r1 == r2
    ensures var s := Exec(init, steps); var key := s.requests[r1].key;
      key in s.store.bindings && s.store.bindings[key] == s.requests[r1].pc.lease
  {
    InvRun(init, steps);
  }

  /** The same for the clients themselves, whatever replies were lost and however often they retried. */
  lemma ClientExclusion(init: System, steps: seq<Step>, c1: ClientId, c2: ClientId)
    requires Init(init) && Valid(init, steps)
    requires LiveHolder(Exec(init, steps), c1) && LiveHolder(Exec(init, steps), c2)
    requires Exec(init, steps).clients[c1].key == Exec(init, steps).clients[c2].key
    ensures c1 == c2
    ensures var s := Exec(init, steps); var key := s.clients[c1].key;
      key in s.store.bindings && s.store.bindings[key] == s.clients[c1].status.lease
  {
    var s := Exec(init, steps);
    InvRun(init, steps);
    var l1, l2 := s.clients[c1].status.lease, s.clients[c2].status.lease;
    assert s.requests[s.grantedTo[l1]].pc == Won(l1);
    assert s.requests[s.grantedTo[l2]].pc == Won(l2);
  }

  // ---------- Leases bind one key, and are the only way a key is freed ----------

  /** Requests keep their client and key, and an answer is final. */
  ghost predicate RequestsPersist(s: System, t: System) {
    forall r | r in s.requests ::
      && r in t.requests && t.requests[r].key == s.requests[r].key && t.requests[r].client == s.requests[r].client
      && t.requests[r].ttl == s.requests[r].ttl
      && (s.requests[r].pc.Won? || s.requests[r].pc.Busy? || s.requests[r].pc.Failed? ==>
            t.requests[r].pc == s.requests[r].pc)
  }

  /** A granted id keeps its request, and a granted lease that is gone does not come back. */
  ghost predicate GrantsPersist(s: System, t: System) {
    forall id | id in s.grantedTo ::
      && id in t.grantedTo && t.grantedTo[id] == s.grantedTo[id]
      && (id !in s.store.live ==> id !in t.store.live)
  }

  /** What no step undoes. */
  ghost predicate Persists(s: System, t: System) {
    && RequestsPersist(s, t)
    && GrantsPersist(s, t)
    && s.store.clock <= t.store.clock
    && (forall c | c in s.clients :: c in t.clients && t.clients[c].key == s.clients[c].key)
  }

  lemma RequestsPersistStep(s: System, step: Step)
    requires Enabled(s, step)
    ensures RequestsPersist(s, Next(s, step))
  {
    hide StoreAfter, ClientsAfter, GrantedAfter, FreshLease;
  }

  lemma GrantsPersistStep(s: System, step: Step)
    requires Inv(s) && Enabled(s, step)
    ensures GrantsPersist(s, Next(s, step))
  {
    hide RequestsAfter, ClientsAfter;
  }

  lemma PersistsStep(s: System, step: Step)
    requires Inv(s) && Enabled(s, step)
    ensures Persists(s, Next(s, step))
  {
    RequestsPersistStep(s, step);
    GrantsPersistStep(s, step);
    hide Inv, RequestsPersist, GrantsPersist, RequestsAfter, GrantedAfter;
  }

  lemma {:induction false} PersistsRun(s: System, steps: seq<Step>)
    requires Inv(s) && Valid(s, steps)
    ensures Persists(s, Exec(s, steps))
    decreases |steps|
  {
    if steps != [] {
      InvStep(s, steps[0]);
      PersistsStep(s, steps[0]);
      PersistsRun(Next(s, steps[0]), steps[1..]);
    }
  }

  /** Over a whole run a lease binds at most one key. */
  lemma LeaseBindsOneKey(s: System, steps: seq<Step>, id: LeaseId, k1: Key, k2: Key)
    requires Inv(s) && Valid(s, steps)
    requires k1 in s.store.bindings && s.store.bindings[k1] == id
    requires k2 in Exec(s, steps).store.bindings && Exec(s, steps).store.bindings[k2] == id
    ensures k1 == k2
  {
    InvRun(s, steps);
    PersistsRun(s, steps);
  }

  /** The lease of a request that lost the race (answered 202 after its grant) never binds any key afterwards. */
  lemma LosersLeaseNeverBinds(s: System, steps: seq<Step>, id: LeaseId, k: Key)
    requires Inv(s) && Valid(s, steps)
    requires id in s.grantedTo && s.requests[s.grantedTo[id]].pc.Busy?
    requires k in Exec(s, steps).store.bindings
    ensures Exec(s, steps).store.bindings[k] != id
  {
    InvRun(s, steps);
    PersistsRun(s, steps);
  }

  /** A lease that is gone stays gone: once expired it is never live again and never bound again. */
  lemma ExpiredStaysExpired(s: System, steps: seq<Step>, id: LeaseId)
    requires Inv(s) && Valid(s, steps)
    requires id in s.grantedTo && id !in s.store.live
    ensures id !in Exec(s, steps).store.live
    ensures forall k | k in Exec(s, steps).store.bindings :: Exec(s, steps).store.bindings[k] != id
  {
    InvRun(s, steps);
    PersistsRun(s, steps);
  }

  /**
   Over any run a key stays bound to the lease that took it exactly as long as that lease is live. So a
   key whose acquisition was never reported to any client (error reply, lost reply) is not leaked: the
   expiry of the single lease bound to it frees it.
   */
  lemma {:induction false} BoundExactlyWhileLive(s: System, steps: seq<Step>, k: Key)
    requires Inv(s) && Valid(s, steps) && k in s.store.bindings
    ensures var t := Exec(s, steps); var id := s.store.bindings[k];
      (k in t.store.bindings && t.store.bindings[k] == id) <==> id in t.store.live
    decreases |steps|
  {
    if steps != [] {
      var next := Next(s, steps[0]);
      InvStep(s, steps[0]);
      FreedOnlyByExpiry(s, steps[0], k);
      if k in next.store.bindings {
        BoundExactlyWhileLive(next, steps[1..], k);
      } else {
        ExpiredStaysExpired(next, steps[1..], s.store.bindings[k]);
      }
    }
  }
}
