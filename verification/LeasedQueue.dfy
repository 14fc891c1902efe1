// The leased job queue of ports/jobs/jobs_test.go: what each critical section of the store
// does, and the transition system of any number of workers sharing one store.

module LeasedQueue {
  import opened Base
  import opened Delivery
  import Decimal

  datatype Phase = Pending | Active | Completed

  datatype StoredJob<+P> = StoredJob(id: string, typ: string, payload: P, processAt: int,
                                     phase: Phase, leaseUntil: int, attempts: nat)

  datatype Store = Store(now: int, leaseTTL: int, horizon: int, seqNo: nat,
                         jobs: map<string, StoredJob<Bytes>>, unavailable: bool, acceptButFail: bool)

  datatype Reply = Enqueued(id: string) | EmptyType | BeyondHorizon | ContextDone | BackendUnavailable | AckLost

  // ----- the critical sections of the store -----

  predicate OutOfHorizon(s: Store, processAt: int) {
    s.horizon > 0 && processAt != 0 && processAt > s.now + s.horizon
  }

  function Insert(s: Store, job: Job<Bytes>): Store {
    var id := Decimal.Itoa(s.seqNo + 1);
    s.(seqNo := s.seqNo + 1,
       jobs := s.jobs[id := StoredJob(id, job.typ, job.payload, job.processAt, Pending, 0, 0)])
  }

  function Enqueue(s: Store, job: Job<Bytes>, ctxDone: bool): (Store, Reply) {
    if job.typ == "" then (s, EmptyType)
    else if OutOfHorizon(s, job.processAt) then (s, BeyondHorizon)
    else if ctxDone then (s, ContextDone)
    else if s.unavailable then (s, BackendUnavailable)
    else if s.acceptButFail then (Insert(s, job), AckLost)
    else (Insert(s, job), Enqueued(Decimal.Itoa(s.seqNo + 1)))
  }

  predicate Expired<P>(j: StoredJob<P>, now: int) {
    j.phase == Active && now > j.leaseUntil
  }

  function Reclaimed<P>(j: StoredJob<P>, now: int): StoredJob<P> {
    if Expired(j, now) then j.(phase := Pending) else j
  }

  function Reclaim(s: Store): Store {
    s.(jobs := map id | id in s.jobs :: Reclaimed(s.jobs[id], s.now))
  }

  function Leased<P>(j: StoredJob<P>, now: int, ttl: int): StoredJob<P> {
    j.(phase := Active, leaseUntil := now + ttl, attempts := j.attempts + 1)
  }

  function Lease(s: Store, id: string): Store
    requires id in s.jobs
  {
    s.(jobs := s.jobs[id := Leased(s.jobs[id], s.now, s.leaseTTL)])
  }

  /** A job that a dequeue may hand out: due, and waiting or holding an expired lease. */
  predicate Due<P>(j: StoredJob<P>, now: int) {
    Eligible(j.processAt, now) && (j.phase == Pending || Expired(j, now))
  }

  function Deliverable(s: Store): set<string> {
    set id | id in s.jobs && Due(s.jobs[id], s.now)
  }

  predicate Waiting<P>(j: StoredJob<P>, now: int) {
    j.phase == Pending && Eligible(j.processAt, now)
  }

  /** Reclaiming leaves no expired lease, and turns exactly the deliverable jobs into due pending ones. */
  lemma ReclaimIsComplete(s: Store)
    ensures forall id :: id in Reclaim(s).jobs ==> !Expired(Reclaim(s).jobs[id], s.now)
    ensures forall id :: id in s.jobs ==> (id in Deliverable(s) <==> Waiting(Reclaim(s).jobs[id], s.now))
    ensures Deliverable(Reclaim(s)) == Deliverable(s)
  {
    assert forall id :: id in s.jobs ==> (Due(s.jobs[id], s.now) <==> Due(Reclaim(s).jobs[id], s.now));
  }

  /** A dequeue: the choice is nondeterministic, and None only when nothing is deliverable. */
  predicate MayDequeue(s: Store, choice: Option<string>) {
    match choice
    case None => Deliverable(s) == {}
    case Some(id) => id in Deliverable(s)
  }

  function Dequeue(s: Store, choice: Option<string>): Store
    requires MayDequeue(s, choice)
  {
    match choice
    case None => Reclaim(s)
    case Some(id) => Lease(Reclaim(s), id)
  }

  function Complete(s: Store, id: string): Store {
    if id in s.jobs then s.(jobs := s.jobs[id := s.jobs[id].(phase := Completed)]) else s
  }

  function Requeue(s: Store, id: string): Store {
    if id in s.jobs && s.jobs[id].phase == Active
    then s.(jobs := s.jobs[id := s.jobs[id].(phase := Pending)])
    else s
  }

  // ----- the system: one store, any number of workers, handlers that may never return -----

  /**
   * fetched: dequeued, the handler not looked up yet. running: the handler was found and has not
   * returned. A delivery whose handler never returns simply stays in running.
   */
  datatype System = System(store: Store, handlers: map<nat, set<string>>,
                           fetched: set<nat>, running: set<nat>, log: Log)

  datatype Action =
    | DoEnqueue(job: Job<Bytes>, ctxDone: bool)
    | DoDequeue(worker: nat, choice: Option<string>)
    | DoDispatch(delivery: nat)
    | DoReturn(delivery: nat, ok: bool)
    | DoRegister(worker: nat, typ: string)
    | DoAdvance(d: nat)
    | DoFault(unavailable: bool, acceptButFail: bool)

  predicate Enabled(s: System, a: Action) {
    match a
    case DoDequeue(_, choice) => MayDequeue(s.store, choice)
    case DoDispatch(d) => d in s.fetched && IsDelivery(s.log, d)
    case DoReturn(d, _) => d in s.running && IsDelivery(s.log, d)
    case _ => true
  }

  function Apply(s: System, a: Action): System
    requires Enabled(s, a)
  {
    match a
    case DoEnqueue(job, ctxDone) =>
      var (store, reply) := Enqueue(s.store, job, ctxDone);
      if reply.Enqueued? || reply.AckLost?
      then s.(store := store,
              log := s.log + [Accepted(Decimal.Itoa(store.seqNo), job.typ, job.payload, job.processAt)])
      else s.(store := store)
    case DoDequeue(worker, choice) =>
      var store := Dequeue(s.store, choice);
      (match choice
       case None => s.(store := store)
       case Some(id) =>
         var j := store.jobs[id];
         s.(store := store, fetched := s.fetched + {|s.log|},
            log := s.log + [Delivered(worker, id, j.typ, j.payload, store.now)]))
    case DoDispatch(d) =>
      if s.log[d].typ in TypesOf(s.handlers, s.log[d].worker)
      then s.(fetched := s.fetched - {d}, running := s.running + {d})
      else s.(fetched := s.fetched - {d})
    case DoReturn(d, ok) =>
      var id := s.log[d].id;
      if ok
      then s.(store := Complete(s.store, id), running := s.running - {d},
              log := s.log + [Acked(d, id, s.store.now)])
      else s.(store := Requeue(s.store, id), running := s.running - {d},
              log := s.log + [Failed(d, id, s.store.now)])
    case DoRegister(worker, typ) => s.(handlers := s.handlers[worker := TypesOf(s.handlers, worker) + {typ}])
    case DoAdvance(d) => s.(store := s.store.(now := s.store.now + d))
    case DoFault(unavailable, acceptButFail) =>
      s.(store := s.store.(unavailable := unavailable, acceptButFail := acceptButFail))
  }

  predicate Initial(s: System) {
    && s.store.jobs == map[] && s.store.seqNo == 0
    && s.fetched == {} && s.running == {} && s.log == []
  }

  datatype Run = Run(states: seq<System>, actions: seq<Action>)

  ghost predicate IsRun(r: Run) {
    && |r.states| == |r.actions| + 1
    && Initial(r.states[0])
    && (forall i :: 0 <= i < |r.actions| ==>
          Enabled(r.states[i], r.actions[i]) && r.states[i + 1] == Apply(r.states[i], r.actions[i]))
  }

  function Last(r: Run): System
    requires r.states != []
  {
    r.states[|r.states| - 1]
  }

  /** A run, and one more step. */
  function Then(r: Run, a: Action): Run
    requires r.states != [] && Enabled(Last(r), a)
  {
    Run(r.states + [Apply(Last(r), a)], r.actions + [a])
  }

  lemma ThenIsRun(r: Run, a: Action)
    requires IsRun(r) && Enabled(Last(r), a)
    ensures IsRun(Then(r, a)) && Last(Then(r, a)) == Apply(Last(r), a)
  {
    var t := Then(r, a);
    forall i | 0 <= i < |t.actions|
      ensures Enabled(t.states[i], t.actions[i]) && t.states[i + 1] == Apply(t.states[i], t.actions[i])
    {
      if i < |r.actions| {
        assert Enabled(r.states[i], r.actions[i]) && r.states[i + 1] == Apply(r.states[i], r.actions[i]);
      }
    }
  }
}
