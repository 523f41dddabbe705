/**
 Any number of wrappers and the lock service, run together: each command of each wrapper is a client of the
 protocol, and a chain leaves its acquire loop with a lease only by being delivered a 201.

 The supervisor machine takes the freshness of acquired leases for granted; here it is proved, and joined
 with the exclusion of the lock: of all the processes ever started for a key, in any wrapper, one at most
 carries a live lease.
 */
module Fleet {
  import opened Wrappers
  import L = LockProtocol
  import S = Supervisor
  import R = SupervisorResults

  /** `clients[w][i]` is the protocol client of chain `i` of wrapper `w`. */
  datatype Fleet = Fleet(lock: L.System, sups: seq<S.Sup>, clients: seq<seq<L.ClientId>>)

  /** `Grab(w, i)`: the reply 201 to the request of chain `i` of wrapper `w` arrives. */
  datatype Step = Net(net: L.Step) | Local(w: nat, local: S.Step) | Grab(w: nat, i: nat)

  /** The lease a delivery to client `c` would carry. */
  function Delivered(lock: L.System, c: L.ClientId): Option<L.LeaseId>
    requires L.Enabled(lock, L.Deliver(c))
  {
    match L.ReplyOf(lock.requests[lock.clients[c].status.request].pc).value
    case Created(l) => Some(l)
    case _ => None
  }

  /** Chain `i` of wrapper `w` exists and waits for its lock. */
  predicate Waits(f: Fleet, w: nat, i: nat) {
    && w < |f.sups| && w < |f.clients| && i < |f.clients[w]|
    && !f.sups[w].exited && S.At(f.sups[w], i, S.Acquiring) && f.sups[w].chains[i].locked
  }

  ghost predicate Enabled(f: Fleet, step: Step) {
    match step
    case Net(net) =>
      && L.Enabled(f.lock, net)
      && (net.Deliver? && (exists cs :: cs in f.clients && net.c in cs) ==> Delivered(f.lock, net.c).None?)
    case Local(w, local) => w < |f.sups| && S.Enabled(f.sups[w], local) && !local.Acquired?
    case Grab(w, i) =>
      Waits(f, w, i) && L.Enabled(f.lock, L.Deliver(f.clients[w][i])) && Delivered(f.lock, f.clients[w][i]).Some?
  }

  ghost function Next(f: Fleet, step: Step): Fleet
    requires Enabled(f, step)
  {
    match step
    case Net(net) => f.(lock := L.Next(f.lock, net))
    case Local(w, local) => f.(sups := f.sups[w := S.Next(f.sups[w], local)])
    case Grab(w, i) =>
      var acquired := S.Acquired(i, Delivered(f.lock, f.clients[w][i]).value);
      if S.Enabled(f.sups[w], acquired)
      then f.(lock := L.Next(f.lock, L.Deliver(f.clients[w][i])), sups := f.sups[w := S.Next(f.sups[w], acquired)])
      else f
  }

  ghost predicate Valid(f: Fleet, steps: seq<Step>)
    decreases |steps|
  {
    steps == [] || (Enabled(f, steps[0]) && Valid(Next(f, steps[0]), steps[1..]))
  }

  ghost function Exec(f: Fleet, steps: seq<Step>): Fleet
    requires Valid(f, steps)
    decreases |steps|
  {
    if steps == [] then f else Exec(Next(f, steps[0]), steps[1..])
  }

  ghost predicate Init(f: Fleet) {
    && L.Init(f.lock) && |f.clients| == |f.sups|
    && forall w | 0 <= w < |f.sups| :: S.Init(f.sups[w]) && |f.clients[w]| == |f.sups[w].chains|
  }

  /** Lease `l` was won, for its key, by a request of client `c`, and nobody is still waiting for that answer. */
  ghost predicate WonBy(lock: L.System, l: L.LeaseId, c: L.ClientId) {
    && l in lock.grantedTo && lock.grantedTo[l] in lock.requests && c in lock.clients
    && lock.requests[lock.grantedTo[l]].pc == L.Won(l) && lock.requests[lock.grantedTo[l]].client == c
    && lock.requests[lock.grantedTo[l]].key == lock.clients[c].key
    && forall d | d in lock.clients :: lock.clients[d].status != L.Waiting(lock.grantedTo[l])
  }

  /** Every lease a wrapper's chain acquired was won by the client of that chain. */
  ghost predicate Linked(lock: L.System, sup: S.Sup, clients: seq<L.ClientId>) {
    && |clients| == |sup.chains|
    && forall l | l in sup.origins ::
         sup.origins[l].chain < |clients| && WonBy(lock, l, clients[sup.origins[l].chain])
  }

  /** No lease was acquired in two wrappers. */
  ghost predicate LeasesApart(sups: seq<S.Sup>) {
    forall v, w, l | 0 <= v < w < |sups| && l in sups[v].origins :: l !in sups[w].origins
  }

  ghost predicate Inv(f: Fleet) {
    && L.Inv(f.lock) && |f.clients| == |f.sups|
    && (forall w | 0 <= w < |f.sups| :: S.Inv(f.sups[w]) && Linked(f.lock, f.sups[w], f.clients[w]))
    && LeasesApart(f.sups)
  }

  /** While somebody still waits for the answer, the lease counts as nobody's. */
  lemma NotWonYet(lock: L.System, l: L.LeaseId, c: L.ClientId)
    requires l in lock.grantedTo && c in lock.clients && lock.clients[c].status == L.Waiting(lock.grantedTo[l])
    ensures forall d :: !WonBy(lock, l, d)
  {
  }

  /** The lease delivered to an acquiring chain was never acquired before, by any chain of any wrapper, in any frame. */
  lemma GrabIsFresh(f: Fleet, w: nat, i: nat)
    requires Inv(f) && Enabled(f, Grab(w, i))
    ensures var l := Delivered(f.lock, f.clients[w][i]).value;
      && (forall v | 0 <= v < |f.sups| :: l !in f.sups[v].origins)
      && S.Enabled(f.sups[w], S.Acquired(i, l))
  {
    var c := f.clients[w][i];
    var r := f.lock.clients[c].status.request;
    var l := Delivered(f.lock, c).value;
    assert f.lock.requests[r].pc == L.Won(l) && f.lock.grantedTo[l] == r;
    NotWonYet(f.lock, l, c);
    hide L.Inv, S.Inv, WonBy;
    forall v | 0 <= v < |f.sups| ensures l !in f.sups[v].origins {
      assert Linked(f.lock, f.sups[v], f.clients[v]);
    }
  }

  lemma WonStays(lock: L.System, net: L.Step, l: L.LeaseId, c: L.ClientId)
    requires L.Inv(lock) && L.Enabled(lock, net) && WonBy(lock, l, c)
    ensures WonBy(L.Next(lock, net), l, c)
  {
    L.PersistsStep(lock, net);
    hide L.Inv, L.StoreAfter, L.PcAfter, L.GrantedAfter;
  }

  lemma LinkedStays(lock: L.System, net: L.Step, sup: S.Sup, clients: seq<L.ClientId>)
    requires L.Inv(lock) && L.Enabled(lock, net) && Linked(lock, sup, clients)
    ensures Linked(L.Next(lock, net), sup, clients)
  {
    hide L.Inv, L.Next, L.Enabled, WonBy;
    forall l | l in sup.origins ensures WonBy(L.Next(lock, net), l, clients[sup.origins[l].chain]) {
      WonStays(lock, net, l, clients[sup.origins[l].chain]);
    }
  }

  lemma NetStep(f: Fleet, net: L.Step)
    requires Inv(f) && Enabled(f, Net(net))
    ensures Inv(Next(f, Net(net)))
  {
    hide L.Inv, S.Inv, L.Next, L.Enabled, Linked;
    L.InvStep(f.lock, net);
    forall w | 0 <= w < |f.sups| ensures Linked(L.Next(f.lock, net), f.sups[w], f.clients[w]) {
      LinkedStays(f.lock, net, f.sups[w], f.clients[w]);
    }
  }

  lemma LocalStep(f: Fleet, w: nat, local: S.Step)
    requires Inv(f) && Enabled(f, Local(w, local))
    ensures Inv(Next(f, Local(w, local)))
  {
    hide L.Inv, S.Inv, S.Next, S.Enabled, WonBy;
    S.InvStep(f.sups[w], local);
    S.OriginsAfter(f.sups[w], local);
    S.SameLength(f.sups[w], local);
  }

  lemma GrabStep(f: Fleet, w: nat, i: nat)
    requires Inv(f) && Enabled(f, Grab(w, i))
    ensures Inv(Next(f, Grab(w, i)))
    ensures var l := Delivered(f.lock, f.clients[w][i]).value;
      Next(f, Grab(w, i)).sups == f.sups[w := S.Next(f.sups[w], S.Acquired(i, l))]
  {
    hide L.Inv, S.Inv, L.Next, S.Next, L.Enabled, S.Enabled, WonBy;
    var c := f.clients[w][i];
    var l := Delivered(f.lock, c).value;
    var acquired := S.Acquired(i, l);
    var lock, sup := L.Next(f.lock, L.Deliver(c)), f.sups[w];
    GrabIsFresh(f, w, i);
    L.InvStep(f.lock, L.Deliver(c));
    S.InvStep(sup, acquired);
    S.OriginsAfter(sup, acquired);
    S.SameLength(sup, acquired);
    DeliveredIsWon(f.lock, c);
    forall v | 0 <= v < |f.sups| ensures Linked(lock, f.sups[v], f.clients[v]) {
      LinkedStays(f.lock, L.Deliver(c), f.sups[v], f.clients[v]);
    }
    LinkedGrows(lock, sup, S.Next(sup, acquired), f.clients[w], l, i);
    hide Linked;
  }

  lemma DeliveredIsWon(lock: L.System, c: L.ClientId)
    requires L.Inv(lock) && L.Enabled(lock, L.Deliver(c)) && Delivered(lock, c).Some?
    ensures WonBy(L.Next(lock, L.Deliver(c)), Delivered(lock, c).value, c)
  {
    var r, l := lock.clients[c].status.request, Delivered(lock, c).value;
    assert lock.requests[r].pc == L.Won(l) && lock.grantedTo[l] == r;
    assert lock.requests[r].client == c && lock.requests[r].key == lock.clients[c].key;
    assert forall d | d in lock.clients && lock.clients[d].status == L.Waiting(r) :: d == c;
    hide L.Inv, L.StoreAfter, L.PcAfter, L.GrantedAfter;
  }

  lemma LinkedGrows(lock: L.System, sup: S.Sup, grown: S.Sup, clients: seq<L.ClientId>, l: L.LeaseId, i: nat)
    requires Linked(lock, sup, clients) && i < |clients| && WonBy(lock, l, clients[i])
    requires |grown.chains| == |sup.chains| && i < |sup.chains|
    requires grown.origins == sup.origins[l := S.Origin(i, sup.chains[i].frames)]
    ensures Linked(lock, grown, clients)
  {
    hide WonBy;
  }

  lemma InvStep(f: Fleet, step: Step)
    requires Inv(f) && Enabled(f, step)
    ensures Inv(Next(f, step))
  {
    hide Inv, Next, Enabled;
    match step {
      case Net(net) => NetStep(f, net);
      case Local(w, local) => LocalStep(f, w, local);
      case Grab(w, i) => GrabStep(f, w, i);
    }
  }

  lemma {:induction false} InvRun(f: Fleet, steps: seq<Step>)
    requires Inv(f) && Valid(f, steps)
    ensures Inv(Exec(f, steps))
    decreases |steps|
  {
    hide Inv, Next, Enabled;
    if steps != [] {
      InvStep(f, steps[0]);
      InvRun(Next(f, steps[0]), steps[1..]);
    }
  }

  lemma InitInv(f: Fleet)
    requires Init(f)
    ensures Inv(f)
  {
    forall w | 0 <= w < |f.sups| ensures S.Inv(f.sups[w]) && f.sups[w].origins == map[] {
      assert S.Init(f.sups[w]);
      S.InitInv(f.sups[w]);
    }
    hide S.Inv;
  }

  lemma {:induction false} WrappersStay(f: Fleet, steps: seq<Step>)
    requires Valid(f, steps)
    ensures |Exec(f, steps).sups| == |f.sups|
    decreases |steps|
  {
    if steps != [] {
      assert |Next(f, steps[0]).sups| == |f.sups|;
      hide Next, Enabled;
      WrappersStay(Next(f, steps[0]), steps[1..]);
    }
  }

  /** What a step is to wrapper `w`. */
  ghost function SupStep(f: Fleet, step: Step, w: nat): seq<S.Step>
    requires Enabled(f, step)
  {
    match step
    case Net(_) => []
    case Local(v, local) => if v == w then [local] else []
    case Grab(v, i) => if v == w then [S.Acquired(i, Delivered(f.lock, f.clients[v][i]).value)] else []
  }

  /** Wrapper `w`'s part of a run of them all. */
  ghost function SupSteps(f: Fleet, steps: seq<Step>, w: nat): seq<S.Step>
    requires Valid(f, steps)
    decreases |steps|
  {
    if steps == [] then [] else SupStep(f, steps[0], w) + SupSteps(Next(f, steps[0]), steps[1..], w)
  }

  lemma SupAfter(f: Fleet, step: Step, w: nat)
    requires Inv(f) && Enabled(f, step) && w < |f.sups|
    ensures |Next(f, step).sups| == |f.sups| && |SupStep(f, step, w)| <= 1
    ensures SupStep(f, step, w) == [] ==> Next(f, step).sups[w] == f.sups[w]
    ensures SupStep(f, step, w) != [] ==>
      var local := SupStep(f, step, w)[0];
      S.Enabled(f.sups[w], local) && Next(f, step).sups[w] == S.Next(f.sups[w], local)
  {
    hide Inv, S.Next, S.Enabled, L.Next, L.Enabled;
    if step.Grab? {
      GrabStep(f, step.w, step.i);
      GrabIsFresh(f, step.w, step.i);
    }
  }

  /** It is a run of the supervisor machine, whose freshness condition is met at every acquisition. */
  lemma {:induction false} SupRun(f: Fleet, steps: seq<Step>, w: nat)
    requires Inv(f) && Valid(f, steps) && w < |f.sups|
    ensures |Exec(f, steps).sups| == |f.sups|
    ensures S.Valid(f.sups[w], SupSteps(f, steps, w))
    ensures S.Exec(f.sups[w], SupSteps(f, steps, w)) == Exec(f, steps).sups[w]
    decreases |steps|
  {
    hide Inv, Next, Enabled, S.Next, S.Enabled, SupStep;
    if steps != [] {
      InvStep(f, steps[0]);
      SupAfter(f, steps[0], w);
      SupRun(Next(f, steps[0]), steps[1..], w);
      var first, rest := SupStep(f, steps[0], w), SupSteps(Next(f, steps[0]), steps[1..], w);
      if first == [] {
        assert first + rest == rest;
      } else {
        assert first + rest == [first[0]] + rest && ([first[0]] + rest)[1..] == rest;
      }
    }
  }

  /** Start `a` of chain `i` of wrapper `w`. */
  datatype Place = Place(w: nat, i: nat, a: nat)

  /** The place is a start of a command with a shared lock. */
  predicate LockedStart(f: Fleet, p: Place) {
    && p.w < |f.sups| && p.w < |f.clients| && p.i < |f.sups[p.w].chains| && p.i < |f.clients[p.w]|
    && p.a < |f.sups[p.w].chains[p.i].starts| && f.sups[p.w].chains[p.i].locked
  }

  function StartAt(f: Fleet, p: Place): S.Start
    requires LockedStart(f, p)
  {
    f.sups[p.w].chains[p.i].starts[p.a]
  }

  lemma SupReachable(init: Fleet, steps: seq<Step>, w: nat)
    requires Init(init) && Valid(init, steps) && w < |Exec(init, steps).sups|
    ensures R.Reachable(Exec(init, steps).sups[w])
  {
    WrappersStay(init, steps);
    InitInv(init);
    InitAt(init, w);
    hide Init, Inv, Valid, Exec;
    SupRun(init, steps, w);
    assert R.Reaches(init.sups[w], Exec(init, steps).sups[w]);
  }

  lemma StartIsWon(init: Fleet, steps: seq<Step>, p: Place)
    requires Init(init) && Valid(init, steps) && LockedStart(Exec(init, steps), p)
    ensures Inv(Exec(init, steps)) && R.Reachable(Exec(init, steps).sups[p.w])
    ensures var f := Exec(init, steps); var start := StartAt(f, p);
      && start.lease.Some? && WonBy(f.lock, start.lease.value, f.clients[p.w][p.i])
      && start.lease.value in f.sups[p.w].origins
      && f.sups[p.w].origins[start.lease.value] == S.Origin(p.i, start.frame)
  {
    hide Init, L.Inv, S.Inv, WonBy, Valid, Exec, R.Reachable;
    var f := Exec(init, steps);
    SupReachable(init, steps, p.w);
    InitInv(init);
    InvRun(init, steps);
    R.LockedStartsAreLeased(f.sups[p.w], p.i, p.a, p.i, p.a);
    assert Linked(f.lock, f.sups[p.w], f.clients[p.w]);
  }

  lemma InitAt(f: Fleet, w: nat)
    requires Init(f)
    ensures w < |f.sups| ==> S.Init(f.sups[w])
  {
  }

  /**
   Over every run of any number of wrappers and the lock service: each start of a command with a shared lock
   carries a lease that the service answered 201 for, to a request of that very command, acquired in the
   same frame, and carried by no other start of any command of any wrapper.
   */
  lemma LockedStartsHoldWonLeases(init: Fleet, steps: seq<Step>, p: Place, q: Place)
    requires Init(init) && Valid(init, steps)
    requires LockedStart(Exec(init, steps), p) && LockedStart(Exec(init, steps), q)
    ensures var f := Exec(init, steps); var start := StartAt(f, p);
      && start.lease.Some? && WonBy(f.lock, start.lease.value, f.clients[p.w][p.i])
      && start.lease.value in f.sups[p.w].origins
      && f.sups[p.w].origins[start.lease.value] == S.Origin(p.i, start.frame)
      && (StartAt(f, q).lease == start.lease ==> p == q)
  {
    hide Valid, Exec, Init, WonBy, Linked, L.Inv, S.Inv, R.Reachable;
    var f := Exec(init, steps);
    StartIsWon(init, steps, p);
    StartIsWon(init, steps, q);
    if StartAt(f, q).lease == StartAt(f, p).lease && p.w == q.w {
      R.LockedStartsAreLeased(f.sups[p.w], p.i, p.a, q.i, q.a);
    }
  }

  /**
   Exclusion of processes: of all processes ever started for one key, by any commands of any wrappers, one
   at most carries a lease that is still live, and the key is bound to exactly that lease.
   */
  lemma OneLiveHolder(init: Fleet, steps: seq<Step>, p: Place, q: Place)
    requires Init(init) && Valid(init, steps)
    requires LockedStart(Exec(init, steps), p) && LockedStart(Exec(init, steps), q)
    requires var f := Exec(init, steps);
      && f.clients[p.w][p.i] in f.lock.clients && f.clients[q.w][q.i] in f.lock.clients
      && f.lock.clients[f.clients[p.w][p.i]].key == f.lock.clients[f.clients[q.w][q.i]].key
      && StartAt(f, p).lease.Some? && StartAt(f, p).lease.value in f.lock.store.live
      && StartAt(f, q).lease.Some? && StartAt(f, q).lease.value in f.lock.store.live
    ensures p == q
    ensures var f := Exec(init, steps); var key := f.lock.clients[f.clients[p.w][p.i]].key;
      key in f.lock.store.bindings && Some(f.lock.store.bindings[key]) == StartAt(f, p).lease
  {
    hide Valid, Exec, Init, S.Inv, L.Inv, WonBy, R.Reachable;
    LockedStartsHoldWonLeases(init, steps, p, q);
    LockedStartsHoldWonLeases(init, steps, q, p);
    StartIsWon(init, steps, p);
    var f := Exec(init, steps);
    WonAndLiveIsBound(f.lock, StartAt(f, p).lease.value, f.clients[p.w][p.i]);
    WonAndLiveIsBound(f.lock, StartAt(f, q).lease.value, f.clients[q.w][q.i]);
  }

  lemma WonAndLiveIsBound(lock: L.System, l: L.LeaseId, c: L.ClientId)
    requires L.Inv(lock) && WonBy(lock, l, c) && l in lock.store.live
    ensures lock.clients[c].key in lock.store.bindings && lock.store.bindings[lock.clients[c].key] == l
  {
  }
}
