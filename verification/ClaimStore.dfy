// The running claim-based store of ports/jobs/jobstest/delivery_test.go, proved against the
// critical sections of ClaimQueue.

module ClaimStore {
  import opened Base
  import opened Buffers
  import opened ClaimQueue
  import opened Delivery

  ghost function Shown(j: RefJob<array<Byte>>): RefJob<Bytes>
    reads j.payload
  {
    RefJob(j.id, j.typ, j.payload[..], j.processAt, j.attempts, j.claimed, j.done)
  }

  /** What a claim hands to its worker: a value snapshot with its own copy of the payload. */
  datatype Snapshot = Snapshot(id: string, typ: string, payload: array<Byte>)

  datatype EnqueueReply = Enqueued(id: string) | EmptyType | ContextDone

  class RefStore {
    var seqNo: nat
    var jobs: map<string, RefJob<array<Byte>>>

    /** The arrays the store keeps to itself. */
    ghost var buffers: set<array<Byte>>

    ghost predicate Valid()
      reads this
    {
      forall id :: id in jobs ==> jobs[id].id == id && jobs[id].payload in buffers
    }

    ghost function View(): Store
      requires Valid()
      reads this, buffers
    {
      Store(seqNo, map id | id in jobs :: Shown(jobs[id]))
    }

    constructor ()
      ensures Valid() && View() == Store(0, map[])
    {
      seqNo, jobs, buffers := 0, map[], {};
    }

    method File(job: RefJob<array<Byte>>)
      requires Valid()
      modifies this`jobs, this`buffers
      ensures Valid() && buffers == old(buffers) + {job.payload}
      ensures View() == old(View()).(jobs := old(View()).jobs[job.id := Shown(job)])
    {
      buffers := buffers + {job.payload};
      jobs := jobs[job.id := job];
      assert View().jobs == old(View()).jobs[job.id := Shown(job)];
    }

    method Insert(typ: string, payload: array<Byte>, processAt: int) returns (id: string)
      requires Valid()
      modifies this
      ensures Valid() && buffers == old(buffers) + {payload} && id == JobId(seqNo)
      ensures View() == ClaimQueue.Enqueue(old(View()), Job(typ, payload[..], processAt))
    {
      id := JobId(seqNo + 1);
      File(RefJob(id, typ, payload, processAt, 0, false, false));
      seqNo := seqNo + 1;
    }

    method Enqueue(job: Job<array?<Byte>>, ctxDone: bool) returns (reply: EnqueueReply)
      requires Valid()
      modifies this
      ensures Valid() && fresh(buffers - old(buffers))
      ensures reply == if job.typ == "" then EmptyType else if ctxDone then ContextDone else Enqueued(JobId(seqNo))
      ensures View() == if reply.Enqueued?
                        then ClaimQueue.Enqueue(old(View()), Job(job.typ, old(Contents(job.payload)), job.processAt))
                        else old(View())
    {
      if job.typ == "" {
        return EmptyType;
      }
      if ctxDone {
        return ContextDone;
      }
      var payload := Clone(job.payload);
      var id := Insert(job.typ, payload, job.processAt);
      return Enqueued(id);
    }

    method Claim(now: int, has: set<string>) returns (got: Option<Snapshot>)
      requires Valid()
      modifies this`jobs
      ensures Valid()
      ensures var choice := if got.Some? then Some(got.value.id) else None;
              MayClaim(old(View()), now, has, choice) && View() == ClaimQueue.Claim(old(View()), choice)
      ensures got.Some? ==> got.value.id in jobs && got.value.typ == jobs[got.value.id].typ
                            && fresh(got.value.payload) && got.value.payload[..] == jobs[got.value.id].payload[..]
    {
      var left := jobs.Keys;
      while left != {}
        invariant left <= jobs.Keys && jobs == old(jobs)
        invariant forall id :: id in jobs && id !in left ==> !Claimable(jobs[id], now, has)
        decreases left
      {
        var id :| id in left;
        left := left - {id};
        var j := jobs[id];
        if j.done || j.claimed {
          continue;
        }
        if j.processAt != 0 && j.processAt > now {
          continue;
        }
        if j.typ !in has {
          continue;
        }
        var payload := Clone(j.payload);
        jobs := jobs[id := j.(claimed := true, attempts := j.attempts + 1)];
        assert View().jobs == ClaimQueue.Claim(old(View()), Some(id)).jobs;
        return Some(Snapshot(id, j.typ, payload));
      }
      return None;
    }

    method Complete(id: string)
      requires Valid()
      modifies this`jobs
      ensures Valid() && View() == ClaimQueue.Complete(old(View()), id)
    {
      if id in jobs {
        jobs := jobs[id := jobs[id].(done := true)];
      }
      assert View().jobs == ClaimQueue.Complete(old(View()), id).jobs;
    }

    method Retry(id: string, after: int, now: int)
      requires Valid()
      modifies this`jobs
      ensures Valid() && View() == ClaimQueue.Retry(old(View()), id, after, now)
    {
      if id in jobs {
        jobs := jobs[id := jobs[id].(claimed := false, processAt := now + after)];
      }
      assert View().jobs == ClaimQueue.Retry(old(View()), id, after, now).jobs;
    }
  }
}
