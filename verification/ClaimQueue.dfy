// The claim-based job queue of ports/jobs/jobstest/delivery_test.go: an exclusive claim with
// delayed retry and no lease.

module ClaimQueue {
  import opened Base
  import opened Delivery
  import Decimal

  datatype RefJob<+P> = RefJob(id: string, typ: string, payload: P, processAt: int,
                               attempts: nat, claimed: bool, done: bool)

  datatype Store = Store(seqNo: nat, jobs: map<string, RefJob<Bytes>>)

  // ----- the critical sections of the store -----

  function JobId(n: nat): string {
    "job-" + Decimal.Itoa(n)
  }

  function Enqueue(s: Store, job: Job<Bytes>): Store {
    var id := JobId(s.seqNo + 1);
    Store(s.seqNo + 1, s.jobs[id := RefJob(id, job.typ, job.payload, job.processAt, 0, false, false)])
  }

  predicate Claimable<P>(j: RefJob<P>, now: int, has: set<string>) {
    !j.done && !j.claimed && Eligible(j.processAt, now) && j.typ in has
  }

  /** A claim: the choice is nondeterministic, and None only when nothing can be claimed. */
  predicate MayClaim(s: Store, now: int, has: set<string>, choice: Option<string>) {
    match choice
    case None => forall id :: id in s.jobs ==> !Claimable(s.jobs[id], now, has)
    case Some(id) => id in s.jobs && Claimable(s.jobs[id], now, has)
  }

  function Claimed<P>(j: RefJob<P>): RefJob<P> {
    j.(claimed := true, attempts := j.attempts + 1)
  }

  function Claim(s: Store, choice: Option<string>): Store
    requires choice.Some? ==> choice.value in s.jobs
  {
    match choice
    case None => s
    case Some(id) => s.(jobs := s.jobs[id := Claimed(s.jobs[id])])
  }

  function Complete(s: Store, id: string): Store {
    if id in s.jobs then s.(jobs := s.jobs[id := s.jobs[id].(done := true)]) else s
  }

  function Retry(s: Store, id: string, after: int, now: int): Store {
    if id in s.jobs then s.(jobs := s.jobs[id := s.jobs[id].(claimed := false, processAt := now + after)]) else s
  }

  // ----- the system: one store, any number of workers -----

  /**
   * Claims and retries use a clock reading taken before the store's lock is held, so at may lag
   * behind now. dropped holds deliveries whose handler was missing after the claim.
   */
  datatype System = System(store: Store, now: int, retryDelay: nat, handlers: map<nat, set<string>>,
                           fetched: set<nat>, running: set<nat>, dropped: set<nat>, log: Log)

  datatype Action =
    | DoEnqueue(job: Job<Bytes>, ctxDone: bool)
    | DoClaim(worker: nat, at: int, choice: Option<string>)
    | DoDispatch(delivery: nat)
    | DoReturn(delivery: nat, ok: bool, at: int)
    | DoRegister(worker: nat, typ: string)
    | DoAdvance(d: nat)

  predicate Enabled(s: System, a: Action) {
    match a
    case DoClaim(w, at, choice) => 0 < at <= s.now && MayClaim(s.store, at, TypesOf(s.handlers, w), choice)
    case DoDispatch(d) => d in s.fetched && IsDelivery(s.log, d)
    case DoReturn(d, _, at) => d in s.running && IsDelivery(s.log, d) && s.log[d].at <= at <= s.now
    case _ => true
  }

  function Apply(s: System, a: Action): System
    requires Enabled(s, a)
  {
    match a
    case DoEnqueue(job, ctxDone) =>
      if job.typ == "" || ctxDone then s
      else s.(store := Enqueue(s.store, job),
              log := s.log + [Accepted(JobId(s.store.seqNo + 1), job.typ, job.payload, job.processAt)])
    case DoClaim(w, at, choice) =>
      (match choice
       case None => s
       case Some(id) =>
         var j := s.store.jobs[id];
         s.(store := Claim(s.store, choice), fetched := s.fetched + {|s.log|},
            log := s.log + [Delivered(w, id, j.typ, j.payload, at)]))
    case DoDispatch(d) =>
      if s.log[d].typ in TypesOf(s.handlers, s.log[d].worker)
      then s.(fetched := s.fetched - {d}, running := s.running + {d})
      else s.(fetched := s.fetched - {d}, dropped := s.dropped + {d})
    case DoReturn(d, ok, at) =>
      var id := s.log[d].id;
      if ok
      then s.(store := Complete(s.store, id), running := s.running - {d}, log := s.log + [Acked(d, id, at)])
      else s.(store := Retry(s.store, id, s.retryDelay, at), running := s.running - {d},
              log := s.log + [Failed(d, id, at)])
    case DoRegister(w, typ) => s.(handlers := s.handlers[w := TypesOf(s.handlers, w) + {typ}])
    case DoAdvance(d) => s.(now := s.now + d)
  }

  predicate Initial(s: System) {
    && s.store == Store(0, map[]) && s.now > 0
    && s.fetched == {} && s.running == {} && s.dropped == {} && s.log == []
  }

  datatype Run = Run(states: seq<System>, actions: seq<Action>)

  ghost predicate IsRun(r: Run) {
    && |r.states| == |r.actions| + 1
    && Initial(r.states[0])
    && (forall i :: 0 <= i < |r.actions| ==>
          Enabled(r.states[i], r.actions[i]) && r.states[i + 1] == Apply(r.states[i], r.actions[i]))
  }
}
