// The running leased store of ports/jobs/jobs_test.go: jobs in a mutable map, payloads in byte
// arrays. Its methods are proved against the critical sections of LeasedQueue.

module LeasedStore {
  import opened Base
  import opened Buffers
  import opened LeasedQueue
  import opened Delivery
  import Decimal

  const SECOND := 1_000_000_000
  /** 1970-01-01 counted from the zero instant, in seconds. */
  const UNIX_EPOCH := 62_135_596_800

  class Clock {
    var t: int

    constructor ()
      ensures t == 62_136_596_800_000_000_000
    {
      t := (UNIX_EPOCH + 1_000_000) * SECOND;
    }

    method Advance(d: int)
      modifies this
      ensures t == old(t) + d
    {
      t := t + d;
    }
  }

  ghost function Shown(j: StoredJob<array<Byte>>): StoredJob<Bytes>
    reads j.payload
  {
    StoredJob(j.id, j.typ, j.payload[..], j.processAt, j.phase, j.leaseUntil, j.attempts)
  }

  class FakeStore {
    const clock: Clock
    var leaseTTL: int
    var horizon: int
    var seqNo: nat
    var jobs: map<string, StoredJob<array<Byte>>>
    var unavailable: bool
    var acceptButFail: bool

    /** The arrays the store keeps to itself. */
    ghost var buffers: set<array<Byte>>

    ghost predicate Valid()
      reads this
    {
      forall id :: id in jobs ==> jobs[id].id == id && jobs[id].payload in buffers
    }

    /** The abstract store: it depends on no array outside buffers. */
    ghost function View(): Store
      requires Valid()
      reads this, clock, buffers
    {
      Store(clock.t, leaseTTL, horizon, seqNo, map id | id in jobs :: Shown(jobs[id]), unavailable, acceptButFail)
    }

    constructor (clock: Clock)
      ensures Valid() && this.clock == clock && buffers == {}
      ensures View() == Store(clock.t, 60_000_000_000, 0, 0, map[], false, false)
    {
      this.clock := clock;
      leaseTTL, horizon, seqNo, jobs := 60 * SECOND, 0, 0, map[];
      unavailable, acceptButFail := false, false;
      buffers := {};
    }

    method File(job: StoredJob<array<Byte>>)
      requires Valid()
      modifies this`jobs, this`buffers
      ensures Valid() && buffers == old(buffers) + {job.payload} && jobs == old(jobs)[job.id := job]
      ensures View() == old(View()).(jobs := old(View()).jobs[job.id := Shown(job)])
    {
      buffers := buffers + {job.payload};
      jobs := jobs[job.id := job];
      assert View().jobs == old(View()).jobs[job.id := Shown(job)];
    }

    method Insert(typ: string, payload: array<Byte>, processAt: int) returns (id: string)
      requires Valid()
      modifies this
      ensures Valid() && buffers == old(buffers) + {payload}
      ensures id == Decimal.Itoa(seqNo) && id in jobs && jobs[id].typ == typ && jobs[id].payload == payload
      ensures View() == LeasedQueue.Insert(old(View()), Job(typ, payload[..], processAt))
    {
      id := Decimal.Itoa(seqNo + 1);
      File(StoredJob(id, typ, payload, processAt, Pending, 0, 0));
      seqNo := seqNo + 1;
    }

    method Enqueue(job: Job<array?<Byte>>, ctxDone: bool) returns (reply: Reply)
      requires Valid()
      modifies this
      ensures Valid() && old(buffers) <= buffers && fresh(buffers - old(buffers))
      ensures (View(), reply)
              == LeasedQueue.Enqueue(old(View()), Job(job.typ, old(Contents(job.payload)), job.processAt), ctxDone)
      ensures reply.Enqueued? || reply.AckLost? ==>
                var id := Decimal.Itoa(seqNo);
                id in jobs && jobs[id].typ == job.typ
                && fresh(jobs[id].payload) && jobs[id].payload[..] == old(Contents(job.payload))
    {
      if job.typ == "" {
        return EmptyType;
      }
      if horizon > 0 && job.processAt != 0 && job.processAt > clock.t + horizon {
        return BeyondHorizon;
      }
      var payload := Clone(job.payload);
      if ctxDone {
        return ContextDone;
      }
      if unavailable {
        return BackendUnavailable;
      }
      var id := Insert(job.typ, payload, job.processAt);
      if acceptButFail {
        return AckLost;
      }
      return Enqueued(id);
    }

    /** Goes over all jobs and puts every expired lease back to pending. */
    method SweepLeases()
      requires Valid()
      modifies this`jobs
      ensures Valid() && jobs.Keys == old(jobs.Keys)
      ensures forall id :: id in jobs ==> jobs[id] == Reclaimed(old(jobs)[id], clock.t)
    {
      var now := clock.t;
      var left := jobs.Keys;
      while left != {}
        invariant left <= jobs.Keys == old(jobs.Keys)
        invariant forall id :: id in jobs ==>
          jobs[id] == if id in left then old(jobs)[id] else Reclaimed(old(jobs)[id], now)
        decreases left
      {
        var id :| id in left;
        var j := jobs[id];
        if j.phase == Active && now > j.leaseUntil {
          jobs := jobs[id := j.(phase := Pending)];
        }
        left := left - {id};
      }
    }

    /** The first pass of a dequeue. */
    method ReclaimExpired()
      requires Valid()
      modifies this`jobs
      ensures Valid() && View() == Reclaim(old(View()))
    {
      SweepLeases();
      assert View().jobs == Reclaim(old(View())).jobs;
    }

    /** Leases out some due pending job, if there is one: the second pass of a dequeue. */
    method LeaseOne() returns (got: Option<StoredJob<array<Byte>>>)
      requires Valid()
      modifies this`jobs
      ensures Valid()
      ensures got == None ==> jobs == old(jobs) && forall id :: id in jobs ==> !Waiting(jobs[id], clock.t)
      ensures got.Some? ==>
        && var id := got.value.id;
        && id in jobs && got.value == jobs[id] && id in old(View()).jobs && Waiting(old(View()).jobs[id], clock.t)
        && View() == Lease(old(View()), id)
    {
      var now := clock.t;
      var left := jobs.Keys;
      while left != {}
        invariant left <= jobs.Keys && jobs == old(jobs)
        invariant forall id :: id in jobs && id !in left ==> !Waiting(jobs[id], now)
        decreases left
      {
        var id :| id in left;
        var j := jobs[id];
        if j.phase == Pending && (j.processAt == 0 || !(j.processAt > now)) {
          jobs := jobs[id := j.(phase := Active, leaseUntil := now + leaseTTL, attempts := j.attempts + 1)];
          assert View().jobs == Lease(old(View()), id).jobs;
          return Some(jobs[id]);
        }
        left := left - {id};
      }
      return None;
    }

    method Dequeue() returns (got: Option<StoredJob<array<Byte>>>)
      requires Valid()
      modifies this`jobs
      ensures Valid()
      ensures got.Some? ==> got.value.id in jobs && got.value == jobs[got.value.id]
      ensures var choice := if got.Some? then Some(got.value.id) else None;
              MayDequeue(old(View()), choice) && View() == LeasedQueue.Dequeue(old(View()), choice)
    {
      ReclaimExpired();
      got := LeaseOne();
      ReclaimIsComplete(old(View()));
      assert got == None ==> forall id :: id in View().jobs ==> !Waiting(View().jobs[id], clock.t);
    }

    method SetFaults(unavailable: bool, acceptButFail: bool)
      requires Valid()
      modifies this`unavailable, this`acceptButFail
      ensures Valid() && View() == old(View()).(unavailable := unavailable, acceptButFail := acceptButFail)
    {
      this.unavailable, this.acceptButFail := unavailable, acceptButFail;
    }

    method Complete(id: string)
      requires Valid()
      modifies this`jobs
      ensures Valid()
      ensures View() == LeasedQueue.Complete(old(View()), id)
    {
      if id in jobs {
        jobs := jobs[id := jobs[id].(phase := Completed)];
      }
      assert View().jobs == LeasedQueue.Complete(old(View()), id).jobs;
    }

    method Requeue(id: string)
      requires Valid()
      modifies this`jobs
      ensures Valid()
      ensures View() == LeasedQueue.Requeue(old(View()), id)
    {
      if id in jobs && jobs[id].phase == Active {
        jobs := jobs[id := jobs[id].(phase := Pending)];
      }
      assert View().jobs == LeasedQueue.Requeue(old(View()), id).jobs;
    }
  }

  datatype RegisterReply = Registered | BadArgument | AlreadyExists

  class FakeWorker {
    const store: FakeStore
    /** Which handler is installed for a type. */
    var handlers: map<string, nat>

    constructor (store: FakeStore)
      ensures this.store == store && handlers == map[]
    {
      this.store := store;
      handlers := map[];
    }

    /** Argument validation comes first, and a second registration leaves the first handler installed. */
    method Register(jobType: string, h: Option<nat>) returns (reply: RegisterReply)
      modifies this
      ensures reply == BadArgument <==> jobType == "" || h.None?
      ensures reply == AlreadyExists <==> jobType != "" && h.Some? && jobType in old(handlers)
      ensures handlers == if reply == Registered then old(handlers)[jobType := h.value] else old(handlers)
    {
      if jobType == "" || h.None? {
        return BadArgument;
      }
      if jobType in handlers {
        return AlreadyExists;
      }
      handlers := handlers[jobType := h.value];
      return Registered;
    }

    /** The first half of a delivery: the handler found for the type, and the private copy it is handed. */
    method Hand(j: StoredJob<array<Byte>>) returns (task: Option<array<Byte>>)
      ensures task.Some? <==> j.typ in handlers
      ensures task.Some? ==> fresh(task.value) && task.value[..] == j.payload[..]
    {
      if j.typ !in handlers {
        return None;
      }
      var payload := Clone(j.payload);
      return Some(payload);
    }

    /** The second half, whenever the handler returns: any error is a failed attempt, nil acks. */
    method Report(id: string, ok: bool)
      requires store.Valid()
      modifies store`jobs
      ensures store.Valid()
      ensures store.View() == if ok then LeasedQueue.Complete(old(store.View()), id)
                              else LeasedQueue.Requeue(old(store.View()), id)
    {
      if !ok {
        store.Requeue(id);
      } else {
        store.Complete(id);
      }
    }
  }
}
