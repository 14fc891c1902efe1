// What every run of the leased queue guarantees.

module LeasedRuns {
  import opened Base
  import opened Delivery
  import opened LeasedQueue
  import Decimal

  // ----- the invariant, in parts -----

  /** Jobs are filed under their own numerals, all of them issued. */
  ghost predicate Keyed(s: Store) {
    forall id :: id in s.jobs ==>
      s.jobs[id].id == id && exists n: nat :: 1 <= n <= s.seqNo && id == Decimal.Itoa(n)
  }

  /** The stored jobs are exactly the accepted ones, unaltered. */
  ghost predicate Retained(s: System) {
    && (forall id :: id in s.store.jobs ==>
          var j := s.store.jobs[id]; AcceptedAs(s.log, id, j.typ, j.payload, j.processAt))
    && (forall p :: 0 <= p < |s.log| && s.log[p].Accepted? ==> s.log[p].id in s.store.jobs)
  }

  /** Deliveries still open have no outcome yet, and handlers exist for those being handled. */
  ghost predicate Open(s: System, d: nat) {
    IsDelivery(s.log, d) && !ReturnedIn(s.log, d) && s.log[d].id in s.store.jobs
  }

  ghost predicate Handled(s: System, d: nat)
    requires IsDelivery(s.log, d)
  {
    s.log[d].typ in TypesOf(s.handlers, s.log[d].worker)
  }

  ghost predicate OpenDeliveries(s: System) {
    && s.fetched !! s.running
    && (forall d :: d in s.fetched || d in s.running ==> Open(s, d))
    && (forall d :: d in s.running ==> Handled(s, d))
  }

  /** No outcome is ever reported by a worker that has no handler for the job's type. */
  ghost predicate OnlyHandlersReport(s: System) {
    forall q :: 0 <= q < |s.log| && IsReturn(s.log[q]) ==>
      IsDelivery(s.log, s.log[q].delivery) && Handled(s, s.log[q].delivery)
  }

  ghost predicate AcksLanded(s: System) {
    && (forall id :: id in s.store.jobs ==> (s.store.jobs[id].phase == Completed <==> AckedIn(s.log, id)))
    && (forall id :: AckedIn(s.log, id) ==> id in s.store.jobs)
  }

  ghost predicate Counted(s: System) {
    forall id :: id in s.store.jobs ==> s.store.jobs[id].attempts == Deliveries(s.log, id)
  }

  /** How an earlier delivery at position p constrains the job's present lease. */
  ghost predicate LeaseCovers(s: System, p: int)
    requires 0 <= p < |s.log| && s.log[p].Delivered? && s.log[p].id in s.store.jobs
  {
    var j := s.store.jobs[s.log[p].id];
    && s.log[p].at <= s.store.now
    && (FailedBetween(s.log, p, |s.log|, s.log[p].id)
        || (j.phase == Pending && s.log[p].at + s.store.leaseTTL < s.store.now)
        || (j.phase == Active && s.log[p].at + s.store.leaseTTL <= j.leaseUntil)
        || j.phase == Completed)
  }

  ghost predicate Leases(s: System) {
    && (forall p :: 0 <= p < |s.log| && s.log[p].Delivered? ==> s.log[p].id in s.store.jobs && LeaseCovers(s, p))
    && (forall id :: id in s.store.jobs && s.store.jobs[id].phase == Active ==>
          s.store.jobs[id].leaseUntil <= s.store.now + s.store.leaseTTL)
  }

  ghost predicate Inv(s: System) {
    && Keyed(s.store) && Retained(s) && OpenDeliveries(s) && OnlyHandlersReport(s) && AcksLanded(s) && Counted(s)
    && Leases(s) && Contract(s.log) && LeaseSeparated(s.log, s.store.leaseTTL)
  }

  // ----- enqueue -----

  lemma FreshId(s: Store)
    requires Keyed(s)
    ensures Decimal.Itoa(s.seqNo + 1) !in s.jobs
  {
    var id := Decimal.Itoa(s.seqNo + 1);
    if id in s.jobs {
      var n: nat :| 1 <= n <= s.seqNo && id == Decimal.Itoa(n);
      Decimal.ItoaInjective(n, s.seqNo + 1);
      assert false;
    }
  }

  lemma InsertKeepsKeyed(s: Store, job: Job<Bytes>)
    requires Keyed(s)
    ensures Keyed(Insert(s, job))
  {
    var t := Insert(s, job);
    forall id | id in t.jobs
      ensures t.jobs[id].id == id && exists n: nat :: 1 <= n <= t.seqNo && id == Decimal.Itoa(n)
    {
      if id == Decimal.Itoa(s.seqNo + 1) {
      } else {
        assert id in s.jobs;
      }
    }
  }

  lemma NeverDelivered(log: Log, id: string)
    requires forall p :: 0 <= p < |log| && log[p].Delivered? ==> log[p].id != id
    ensures Deliveries(log, id) == 0
  {
    if log != [] {
      NeverDelivered(log[..|log| - 1], id);
    }
  }

  /** The part of the invariant about open deliveries survives anything that only adds to the system. */
  lemma OpenGrows(s: System, t: System, e: Event)
    requires OpenDeliveries(s) && OnlyHandlersReport(s)
    requires t.log == s.log + [e] && t.fetched == s.fetched && t.running == s.running && t.handlers == s.handlers
    requires s.store.jobs.Keys <= t.store.jobs.Keys
    requires !IsReturn(e)
    ensures OpenDeliveries(t) && OnlyHandlersReport(t)
  {
    forall d | d in s.fetched || d in s.running
      ensures Open(t, d)
    {
      assert Open(s, d);
      ReturnedGrows(s.log, e, d);
    }
    forall d | d in s.running
      ensures Handled(t, d)
    {
      assert Handled(s, d) && Open(s, d);
    }
    forall q | 0 <= q < |t.log| && IsReturn(t.log[q])
      ensures IsDelivery(t.log, t.log[q].delivery) && Handled(t, t.log[q].delivery)
    {
      assert IsReturn(s.log[q]);
    }
  }

  /** So it does when workers gain handlers and jobs change their phase. */
  lemma OpenKept(s: System, t: System)
    requires OpenDeliveries(s) && OnlyHandlersReport(s)
    requires t.log == s.log && t.fetched == s.fetched && t.running == s.running
    requires s.store.jobs.Keys <= t.store.jobs.Keys
    requires forall w: nat :: TypesOf(s.handlers, w) <= TypesOf(t.handlers, w)
    ensures OpenDeliveries(t) && OnlyHandlersReport(t)
  {
    forall d | d in t.fetched || d in t.running
      ensures Open(t, d)
    {
      assert Open(s, d);
    }
    forall d | d in t.running
      ensures Handled(t, d)
    {
      assert Open(s, d) && Handled(s, d);
    }
    forall q | 0 <= q < |t.log| && IsReturn(t.log[q])
      ensures IsDelivery(t.log, t.log[q].delivery) && Handled(t, t.log[q].delivery)
    {
      assert IsDelivery(s.log, s.log[q].delivery) && Handled(s, s.log[q].delivery);
    }
  }

  lemma LeaseSeparatedGrows(log: Log, e: Event, ttl: int)
    requires LeaseSeparated(log, ttl)
    requires e.Delivered? ==> forall p :: 0 <= p < |log| && log[p].Delivered? && log[p].id == e.id ==>
               FailedBetween(log, p, |log|, e.id) || log[p].at + ttl < e.at
    ensures LeaseSeparated(log + [e], ttl)
  {
    var grown := log + [e];
    forall p, q | 0 <= p < q < |grown| && grown[p].Delivered? && grown[q].Delivered? && grown[p].id == grown[q].id
      ensures FailedBetween(grown, p, q, grown[p].id) || grown[p].at + ttl < grown[q].at
    {
      if q < |log| {
        assert FailedBetween(log, p, q, log[p].id) || log[p].at + ttl < log[q].at;
        if FailedBetween(log, p, q, log[p].id) {
          var r :| p < r < q && 0 <= r < |log| && log[r].Failed? && log[r].id == log[p].id;
          assert grown[r] == log[r];
        }
      } else {
        FailedGrows(log, e, p, e.id);
      }
    }
  }

  /** Lease bookkeeping carries over an event that does not concern the delivery at p. */
  lemma LeaseCoversGrows(s: System, t: System, e: Event, p: int)
    requires 0 <= p < |s.log| && s.log[p].Delivered? && s.log[p].id in s.store.jobs && LeaseCovers(s, p)
    requires t.log == s.log + [e] && s.log[p].id in t.store.jobs
    requires t.store.now == s.store.now && t.store.leaseTTL == s.store.leaseTTL
    requires (t.store.jobs[s.log[p].id].phase == s.store.jobs[s.log[p].id].phase
              && t.store.jobs[s.log[p].id].leaseUntil == s.store.jobs[s.log[p].id].leaseUntil)
             || t.store.jobs[s.log[p].id].phase == Completed
             || (e.Failed? && e.id == s.log[p].id)
    ensures LeaseCovers(t, p)
  {
    FailedGrows(s.log, e, p, s.log[p].id);
  }

  lemma AcceptKeepsLog(s: System, e: Event)
    requires Retained(s) && Contract(s.log) && LeaseSeparated(s.log, s.store.leaseTTL)
    requires e.Accepted? && e.id != "" && e.id !in s.store.jobs
    ensures Contract(s.log + [e]) && LeaseSeparated(s.log + [e], s.store.leaseTTL)
  {
    assert !AcceptedIn(s.log, e.id);
    AcceptKeepsContract(s.log, e);
    LeaseSeparatedGrows(s.log, e, s.store.leaseTTL);
  }

  lemma InsertKeepsInv(s: System, t: System, job: Job<Bytes>)
    requires Inv(s)
    requires var e := Accepted(Decimal.Itoa(s.store.seqNo + 1), job.typ, job.payload, job.processAt);
             t == s.(store := Insert(s.store, job), log := s.log + [e])
    ensures Inv(t)
  {
    var e := Accepted(Decimal.Itoa(s.store.seqNo + 1), job.typ, job.payload, job.processAt);
    FreshId(s.store);
    InsertKeepsKeyed(s.store, job);
    AcceptKeepsLog(s, e);
    OpenGrows(s, t, e);
    InsertKeepsRecords(s, t, e);
    InsertKeepsLeases(s, t, e);
  }

  lemma EnqueueKeepsInv(s: System, a: Action)
    requires Inv(s) && a.DoEnqueue?
    ensures Inv(Apply(s, a))
  {
    var reply := Enqueue(s.store, a.job, a.ctxDone).1;
    if reply.Enqueued? || reply.AckLost? {
      InsertKeepsInv(s, Apply(s, a), a.job);
    }
  }

  /** Jobs keep their place and their accepted fields, and an event that accepts nothing was logged. */
  ghost predicate SameJobs(s: System, t: System) {
    && t.store.now == s.store.now && t.store.leaseTTL == s.store.leaseTTL && t.store.seqNo == s.store.seqNo
    && t.store.jobs.Keys == s.store.jobs.Keys
    && (forall id :: id in s.store.jobs ==>
          var i, j := s.store.jobs[id], t.store.jobs[id];
          i.id == j.id && i.typ == j.typ && i.payload == j.payload && i.processAt == j.processAt)
  }

  lemma RetainedGrows(s: System, t: System, e: Event)
    requires Keyed(s.store) && Retained(s) && SameJobs(s, t) && t.log == s.log + [e] && !e.Accepted?
    ensures Keyed(t.store) && Retained(t)
  {
    forall id | id in t.store.jobs
      ensures var j := t.store.jobs[id]; AcceptedAs(t.log, id, j.typ, j.payload, j.processAt)
    {
      var j := s.store.jobs[id];
      assert AcceptedAs(s.log, id, j.typ, j.payload, j.processAt);
    }
  }

  lemma AcksGrow(s: System, t: System, e: Event)
    requires AcksLanded(s) && t.store.jobs.Keys == s.store.jobs.Keys && t.log == s.log + [e]
    requires e.Acked? ==> e.id in s.store.jobs
    requires forall id :: id in s.store.jobs ==>
      (t.store.jobs[id].phase == Completed <==> s.store.jobs[id].phase == Completed || (e.Acked? && id == e.id))
    ensures AcksLanded(t)
  {
    forall id
      ensures AckedIn(t.log, id) <==> AckedIn(s.log, id) || (e.Acked? && id == e.id)
    {
      AckedGrows(s.log, e, id);
    }
  }

  lemma CountsKept(s: System, t: System, e: Event)
    requires Counted(s) && t.store.jobs.Keys == s.store.jobs.Keys && t.log == s.log + [e]
    requires forall id :: id in s.store.jobs ==>
      t.store.jobs[id].attempts == s.store.jobs[id].attempts + if e.Delivered? && e.id == id then 1 else 0
    ensures Counted(t)
  {
    forall id | id in t.store.jobs
      ensures t.store.jobs[id].attempts == Deliveries(t.log, id)
    {
      CountsGrow(s.log, e, id);
    }
  }

  lemma InsertKeepsRecords(s: System, t: System, e: Event)
    requires Retained(s) && AcksLanded(s) && Counted(s) && Leases(s) && e.Accepted? && e.id !in s.store.jobs
    requires t.log == s.log + [e]
    requires t.store.jobs == s.store.jobs[e.id := StoredJob(e.id, e.typ, e.payload, e.processAt, Pending, 0, 0)]
    ensures Retained(t) && AcksLanded(t) && Counted(t)
  {
    forall id | id in t.store.jobs
      ensures var j := t.store.jobs[id]; AcceptedAs(t.log, id, j.typ, j.payload, j.processAt)
    {
      assert t.log[|s.log|] == e;
    }
    forall id
      ensures AckedIn(t.log, id) <==> AckedIn(s.log, id)
    {
      AckedGrows(s.log, e, id);
    }
    NeverDelivered(s.log, e.id);
    forall id | id in t.store.jobs
      ensures t.store.jobs[id].attempts == Deliveries(t.log, id)
    {
      CountsGrow(s.log, e, id);
    }
  }

  lemma InsertKeepsLeases(s: System, t: System, e: Event)
    requires Leases(s) && e.Accepted? && e.id !in s.store.jobs && t.log == s.log + [e]
    requires t.store.now == s.store.now && t.store.leaseTTL == s.store.leaseTTL
    requires t.store.jobs == s.store.jobs[e.id := StoredJob(e.id, e.typ, e.payload, e.processAt, Pending, 0, 0)]
    ensures Leases(t)
  {
    forall p | 0 <= p < |t.log| && t.log[p].Delivered?
      ensures t.log[p].id in t.store.jobs && LeaseCovers(t, p)
    {
      assert s.log[p].Delivered?;
      LeaseCoversGrows(s, t, e, p);
    }
  }

  // ----- dequeue -----

  lemma ReclaimKeepsRecords(s: System, t: System)
    requires Keyed(s.store) && Retained(s) && AcksLanded(s) && Counted(s) && t == s.(store := Reclaim(s.store))
    ensures Keyed(t.store) && Retained(t) && AcksLanded(t) && Counted(t)
  {
    forall id | id in t.store.jobs
      ensures var j := t.store.jobs[id]; AcceptedAs(t.log, id, j.typ, j.payload, j.processAt)
    {
      var j := s.store.jobs[id];
      assert AcceptedAs(s.log, id, j.typ, j.payload, j.processAt);
    }
  }

  lemma ReclaimKeepsLeases(s: System, t: System)
    requires Leases(s) && t == s.(store := Reclaim(s.store))
    ensures Leases(t)
  {
    forall p | 0 <= p < |t.log| && t.log[p].Delivered?
      ensures LeaseCovers(t, p)
    {
      assert LeaseCovers(s, p);
    }
  }

  lemma ReclaimKeepsInv(s: System, t: System)
    requires Inv(s) && t == s.(store := Reclaim(s.store))
    ensures Inv(t)
  {
    ReclaimKeepsRecords(s, t);
    ReclaimKeepsLeases(s, t);
    OpenKept(s, t);
  }

  lemma LeaseKeepsInv(s: System, t: System, worker: nat, id: string)
    requires Inv(s) && id in s.store.jobs && s.store.jobs[id].phase == Pending
    requires Eligible(s.store.jobs[id].processAt, s.store.now)
    requires var j := s.store.jobs[id];
             t == s.(store := Lease(s.store, id), fetched := s.fetched + {|s.log|},
                     log := s.log + [Delivered(worker, id, j.typ, j.payload, s.store.now)])
    ensures Inv(t)
  {
    var j := s.store.jobs[id];
    var e := Delivered(worker, id, j.typ, j.payload, s.store.now);
    assert AcceptedAs(s.log, id, j.typ, j.payload, j.processAt);
    DeliverKeepsContract(s.log, e, j.processAt);
    forall p | 0 <= p < |s.log| && s.log[p].Delivered? && s.log[p].id == id
      ensures FailedBetween(s.log, p, |s.log|, id) || s.log[p].at + s.store.leaseTTL < e.at
    {
      assert LeaseCovers(s, p);
    }
    LeaseSeparatedGrows(s.log, e, s.store.leaseTTL);
    var mid := t.(fetched := s.fetched);
    OpenGrows(s, mid, e);
    LeaseOpens(s, mid, t, e);
    LeaseKeepsRecords(s, t, e);
  }

  lemma LeaseOpens(s: System, mid: System, t: System, e: Event)
    requires OutcomesMatch(s.log) && OpenDeliveries(s) && OpenDeliveries(mid) && OnlyHandlersReport(mid)
    requires mid.log == s.log + [e] && e.Delivered? && e.id in mid.store.jobs && mid.running == s.running
    requires t == mid.(fetched := s.fetched + {|s.log|}) && mid.fetched == s.fetched
    ensures OpenDeliveries(t) && OnlyHandlersReport(t)
  {
    var d := |s.log|;
    NewDeliveryIsOpen(s.log, e);
    forall x | x in s.running
      ensures x < d
    {
      assert Open(s, x);
    }
    assert Open(t, d);
    forall x | x in t.fetched || x in t.running
      ensures Open(t, x)
    {
      assert x == d || Open(mid, x);
    }
    forall x | x in t.running
      ensures Handled(t, x)
    {
      assert Handled(mid, x);
    }
    forall q | 0 <= q < |t.log| && IsReturn(t.log[q])
      ensures IsDelivery(t.log, t.log[q].delivery) && Handled(t, t.log[q].delivery)
    {
      assert Handled(mid, mid.log[q].delivery);
    }
  }

  lemma LeaseKeepsRecords(s: System, t: System, e: Event)
    requires Keyed(s.store) && Retained(s) && AcksLanded(s) && Counted(s) && Leases(s)
    requires e.Delivered? && e.id in s.store.jobs && e.at == s.store.now && t.log == s.log + [e]
    requires s.store.jobs[e.id].phase == Pending && t.store == Lease(s.store, e.id)
    ensures Keyed(t.store) && Retained(t) && AcksLanded(t) && Counted(t) && Leases(t)
  {
    LeaseTouchesOnlyOne(s, t, e);
    RetainedGrows(s, t, e);
    AcksGrow(s, t, e);
    CountsKept(s, t, e);
    LeaseKeepsLeases(s, t, e);
  }

  /** A lease touches no accepted field, completes nothing and counts one attempt. */
  lemma LeaseTouchesOnlyOne(s: System, t: System, e: Event)
    requires e.Delivered? && e.id in s.store.jobs && s.store.jobs[e.id].phase == Pending && t.store == Lease(s.store, e.id)
    ensures SameJobs(s, t)
    ensures forall id :: id in s.store.jobs ==>
      && t.store.jobs[id].attempts == s.store.jobs[id].attempts + (if id == e.id then 1 else 0)
      && (t.store.jobs[id].phase == Completed <==> s.store.jobs[id].phase == Completed)
  {
  }

  lemma LeaseKeepsLeases(s: System, t: System, e: Event)
    requires Leases(s) && e.Delivered? && e.id in s.store.jobs && e.at == s.store.now && t.log == s.log + [e]
    requires t.store == Lease(s.store, e.id)
    ensures Leases(t)
  {
    forall p | 0 <= p < |t.log| && t.log[p].Delivered?
      ensures t.log[p].id in t.store.jobs && LeaseCovers(t, p)
    {
      if p < |s.log| && s.log[p].id != e.id {
        LeaseCoversGrows(s, t, e, p);
      } else if p < |s.log| {
        assert LeaseCovers(s, p);
      }
    }
  }

  lemma DequeueKeepsInv(s: System, a: Action)
    requires Inv(s) && a.DoDequeue? && Enabled(s, a)
    ensures Inv(Apply(s, a))
  {
    var mid := s.(store := Reclaim(s.store));
    ReclaimKeepsInv(s, mid);
    ReclaimIsComplete(s.store);
    if a.choice.Some? {
      LeaseKeepsInv(mid, Apply(s, a), a.worker, a.choice.value);
    }
  }

  // ----- outcomes -----

  lemma ReturnKeepsOpen(s: System, t: System, e: Event)
    requires OpenDeliveries(s) && OnlyHandlersReport(s) && IsReturn(e) && e.delivery in s.running
    requires t.log == s.log + [e] && t.running == s.running - {e.delivery}
    requires t.fetched == s.fetched && t.handlers == s.handlers && t.store.jobs.Keys == s.store.jobs.Keys
    ensures OpenDeliveries(t) && OnlyHandlersReport(t)
  {
    forall d | d in t.fetched || d in t.running
      ensures Open(t, d)
    {
      assert Open(s, d);
      ReturnedGrows(s.log, e, d);
    }
    forall d | d in t.running
      ensures Handled(t, d)
    {
      assert Handled(s, d) && Open(s, d);
    }
    forall q | 0 <= q < |t.log| && IsReturn(t.log[q])
      ensures IsDelivery(t.log, t.log[q].delivery) && Handled(t, t.log[q].delivery)
    {
      if q < |s.log| {
        assert IsReturn(s.log[q]) && Handled(s, s.log[q].delivery);
      } else {
        assert Open(s, e.delivery) && Handled(s, e.delivery);
      }
    }
  }

  /** An ack completes its job and a failure completes none; neither touches anything else of any job. */
  lemma ReturnTouchesOnlyPhase(s: System, t: System, e: Event)
    requires IsReturn(e) && e.id in s.store.jobs
    requires t.store == if e.Acked? then Complete(s.store, e.id) else Requeue(s.store, e.id)
    ensures SameJobs(s, t)
    ensures forall id :: id in s.store.jobs ==>
      && t.store.jobs[id].attempts == s.store.jobs[id].attempts
      && (t.store.jobs[id].phase == Completed <==> s.store.jobs[id].phase == Completed || (e.Acked? && id == e.id))
  {
  }

  lemma ReturnKeepsRecords(s: System, t: System, e: Event)
    requires Keyed(s.store) && Retained(s) && AcksLanded(s) && Counted(s) && Leases(s)
    requires IsReturn(e) && e.id in s.store.jobs && t.log == s.log + [e]
    requires t.store == if e.Acked? then Complete(s.store, e.id) else Requeue(s.store, e.id)
    ensures Keyed(t.store) && Retained(t) && AcksLanded(t) && Counted(t) && Leases(t)
  {
    ReturnTouchesOnlyPhase(s, t, e);
    RetainedGrows(s, t, e);
    AcksGrow(s, t, e);
    CountsKept(s, t, e);
    ReturnKeepsLeases(s, t, e);
  }

  lemma ReturnKeepsLeases(s: System, t: System, e: Event)
    requires Leases(s) && IsReturn(e) && e.id in s.store.jobs && t.log == s.log + [e]
    requires t.store == if e.Acked? then Complete(s.store, e.id) else Requeue(s.store, e.id)
    ensures Leases(t)
  {
    forall p | 0 <= p < |t.log| && t.log[p].Delivered?
      ensures t.log[p].id in t.store.jobs && LeaseCovers(t, p)
    {
      assert s.log[p].Delivered?;
      LeaseCoversGrows(s, t, e, p);
    }
  }

  lemma ReturnKeepsLog(s: System, e: Event)
    requires Contract(s.log) && LeaseSeparated(s.log, s.store.leaseTTL) && IsReturn(e)
    requires Open(s, e.delivery) && e.id == s.log[e.delivery].id
    ensures Contract(s.log + [e]) && LeaseSeparated(s.log + [e], s.store.leaseTTL)
  {
    ReturnKeepsContract(s.log, e);
    LeaseSeparatedGrows(s.log, e, s.store.leaseTTL);
  }

  lemma ReturnKeepsInv(s: System, a: Action)
    requires Inv(s) && a.DoReturn? && Enabled(s, a)
    ensures Inv(Apply(s, a))
  {
    var t := Apply(s, a);
    var e := t.log[|s.log|];
    assert Open(s, a.delivery);
    assert t.log == s.log + [e];
    ReturnKeepsLog(s, e);
    ReturnKeepsOpen(s, t, e);
    ReturnKeepsRecords(s, t, e);
  }

  // ----- the remaining steps -----

  lemma DispatchKeepsOpen(s: System, t: System, d: nat)
    requires OpenDeliveries(s) && OnlyHandlersReport(s) && d in s.fetched && IsDelivery(s.log, d)
    requires t == Apply(s, DoDispatch(d))
    ensures OpenDeliveries(t) && OnlyHandlersReport(t)
  {
    forall x | x in t.fetched || x in t.running
      ensures Open(t, x)
    {
      assert Open(s, x);
    }
    forall x | x in t.running
      ensures Handled(t, x)
    {
      assert x == d || Handled(s, x);
    }
    forall q | 0 <= q < |t.log| && IsReturn(t.log[q])
      ensures IsDelivery(t.log, t.log[q].delivery) && Handled(t, t.log[q].delivery)
    {
      assert Handled(s, s.log[q].delivery);
    }
  }

  lemma DispatchKeepsInv(s: System, a: Action)
    requires Inv(s) && Enabled(s, a) && a.DoDispatch?
    ensures Inv(Apply(s, a))
  {
    SameRecords(s, Apply(s, a));
    DispatchKeepsOpen(s, Apply(s, a), a.delivery);
  }

  lemma RegisterKeepsInv(s: System, a: Action)
    requires Inv(s) && a.DoRegister?
    ensures Inv(Apply(s, a))
  {
    var t := Apply(s, a);
    SameRecords(s, t);
    OpenKept(s, t);
  }

  lemma AdvanceKeepsInv(s: System, a: Action)
    requires Inv(s) && (a.DoAdvance? || a.DoFault?)
    ensures Inv(Apply(s, a))
  {
    var t := Apply(s, a);
    SameRecords(s, t);
    OpenKept(s, t);
  }

  /** Nothing but time has passed for the jobs and their history. */
  lemma SameRecords(s: System, t: System)
    requires Keyed(s.store) && Retained(s) && AcksLanded(s) && Counted(s) && Leases(s)
    requires t.log == s.log && t.store.jobs == s.store.jobs && t.store.seqNo == s.store.seqNo
    requires t.store.leaseTTL == s.store.leaseTTL && s.store.now <= t.store.now
    ensures Keyed(t.store) && Retained(t) && AcksLanded(t) && Counted(t) && Leases(t)
  {
    forall p | 0 <= p < |t.log| && t.log[p].Delivered?
      ensures LeaseCovers(t, p)
    {
      assert LeaseCovers(s, p);
    }
  }

  lemma StepKeepsInv(s: System, a: Action)
    requires Inv(s) && Enabled(s, a)
    ensures Inv(Apply(s, a))
  {
    match a
    case DoEnqueue(_, _) => EnqueueKeepsInv(s, a);
    case DoDequeue(_, _) => DequeueKeepsInv(s, a);
    case DoReturn(_, _) => ReturnKeepsInv(s, a);
    case DoDispatch(_) => DispatchKeepsInv(s, a);
    case DoRegister(_, _) => RegisterKeepsInv(s, a);
    case _ => AdvanceKeepsInv(s, a);
  }

  lemma {:induction false} InvAlways(r: Run, n: nat)
    requires IsRun(r) && n < |r.states|
    ensures Inv(r.states[n])
  {
    if n > 0 {
      InvAlways(r, n - 1);
      StepKeepsInv(r.states[n - 1], r.actions[n - 1]);
    }
  }

  // ----- main results -----

  /**
   * Enqueue is all or nothing. The type is looked at before the horizon, both before the context,
   * and the context before the backend; a job is stored exactly when the reply is success or a lost
   * acknowledgement, as one new pending job under a fresh non-empty id that leaves every other job as
   * it was.
   */
  lemma EnqueueContract(s: Store, job: Job<Bytes>, ctxDone: bool)
    requires Keyed(s)
    ensures var (t, reply) := Enqueue(s, job, ctxDone);
            var beyond := s.horizon > 0 && job.processAt != 0 && job.processAt > s.now + s.horizon;
            var valid := job.typ != "" && !beyond;
            && (reply.EmptyType? <==> job.typ == "")
            && (reply.BeyondHorizon? <==> job.typ != "" && beyond)
            && (reply.ContextDone? <==> valid && ctxDone)
            && (reply.BackendUnavailable? <==> valid && !ctxDone && s.unavailable)
            && (reply.AckLost? <==> valid && !ctxDone && !s.unavailable && s.acceptButFail)
            && (reply.Enqueued? <==> valid && !ctxDone && !s.unavailable && !s.acceptButFail)
            && (t == s <==> !reply.Enqueued? && !reply.AckLost?)
            && (t != s ==>
                  exists id :: id != "" && id !in s.jobs && t.jobs.Keys == s.jobs.Keys + {id}
                               && t.jobs == s.jobs[id := t.jobs[id]] && t.jobs[id].phase == Pending
                               && t.jobs[id].typ == job.typ && t.jobs[id].payload == job.payload
                               && t.jobs[id].processAt == job.processAt
                               && id == Decimal.Itoa(t.seqNo) && t.seqNo == s.seqNo + 1
                               && (reply.Enqueued? ==> reply.id == id)
                               && (id in Deliverable(t) <==> job.processAt == 0 || job.processAt <= t.now))
  {
    FreshId(s);
    var (t, reply) := Enqueue(s, job, ctxDone);
    if reply.Enqueued? || reply.AckLost? {
      var id := Decimal.Itoa(s.seqNo + 1);
      assert id in t.jobs && t.jobs == s.jobs[id := t.jobs[id]];
    }
  }

  /** Every history is a history the contract allows, and redelivery respects the lease. */
  lemma ContractOnEveryRun(r: Run, n: nat)
    requires IsRun(r) && n < |r.states|
    ensures Contract(r.states[n].log)
    ensures LeaseSeparated(r.states[n].log, r.states[n].store.leaseTTL)
  {
    InvAlways(r, n);
  }

  /**
   * A job is completed exactly when some delivery of it returned nil, attempts counts its
   * deliveries, and the worker behind every outcome had a handler for the job's type.
   */
  lemma CompletedExactlyWhenAcked(r: Run, n: nat, id: string)
    requires IsRun(r) && n < |r.states| && id in r.states[n].store.jobs
    ensures r.states[n].store.jobs[id].phase == Completed <==> AckedIn(r.states[n].log, id)
    ensures r.states[n].store.jobs[id].attempts == Deliveries(r.states[n].log, id)
    ensures OnlyHandlersReport(r.states[n])
  {
    InvAlways(r, n);
  }

  lemma LogGrows(s: System, a: Action)
    requires Enabled(s, a)
    ensures s.log <= Apply(s, a).log
  {
  }

  lemma EnqueueKeepsJob(s: Store, job: Job<Bytes>, ctxDone: bool, id: string)
    requires Keyed(s) && id in s.jobs
    ensures id in Enqueue(s, job, ctxDone).0.jobs && Enqueue(s, job, ctxDone).0.jobs[id] == s.jobs[id]
  {
    FreshId(s);
  }

  lemma DequeueKeepsJob(s: Store, choice: Option<string>, id: string)
    requires MayDequeue(s, choice) && id in s.jobs
    ensures id in Dequeue(s, choice).jobs && SameJob(s.jobs[id], Dequeue(s, choice).jobs[id])
  {
  }

  lemma StepKeepsJob(s: System, a: Action, id: string)
    requires Keyed(s.store) && Enabled(s, a) && id in s.store.jobs
    ensures id in Apply(s, a).store.jobs && SameJob(s.store.jobs[id], Apply(s, a).store.jobs[id])
  {
    match a
    case DoEnqueue(job, ctxDone) => EnqueueKeepsJob(s.store, job, ctxDone, id);
    case DoDequeue(_, choice) => DequeueKeepsJob(s.store, choice, id);
    case DoReturn(_, _) =>
    case _ =>
  }

  /** The accepted fields are the same, and a completed job stays completed. */
  ghost predicate SameJob(i: StoredJob<Bytes>, j: StoredJob<Bytes>) {
    && i.id == j.id && i.typ == j.typ && i.payload == j.payload && i.processAt == j.processAt
    && i.attempts <= j.attempts
    && (i.phase == Completed ==> j.phase == Completed)
  }

  /** A stored job is never removed or altered, and completed is never left again. */
  lemma {:induction false} JobsAreDurable(r: Run, i: nat, j: nat, id: string)
    requires IsRun(r) && i <= j < |r.states| && id in r.states[i].store.jobs
    ensures r.states[i].log <= r.states[j].log
    ensures id in r.states[j].store.jobs && SameJob(r.states[i].store.jobs[id], r.states[j].store.jobs[id])
    decreases j - i
  {
    if i < j {
      JobsAreDurable(r, i, j - 1, id);
      InvAlways(r, j - 1);
      LogGrows(r.states[j - 1], r.actions[j - 1]);
      StepKeepsJob(r.states[j - 1], r.actions[j - 1], id);
    }
  }

  /** No delivery, first or repeated, happens before the instant its job was accepted for; the zero instant is always past. */
  lemma NeverEarly(r: Run, n: nat, q: nat) returns (p: nat)
    requires IsRun(r) && n < |r.states| && q < |r.states[n].log| && r.states[n].log[q].Delivered?
    ensures var log := r.states[n].log;
            && p < q && log[p].Accepted? && log[p].id == log[q].id
            && (log[p].processAt == 0 || log[p].processAt <= log[q].at)
  {
    InvAlways(r, n);
    var log := r.states[n].log;
    assert HandsOverAccepted(log, q);
    p :| 0 <= p < q && log[p].Accepted? && log[p].id == log[q].id && log[p].typ == log[q].typ
         && log[p].payload == log[q].payload && Eligible(log[p].processAt, log[q].at);
  }

  /**
   * A failed attempt is made good at once: right after it is reported, and whatever lease there was, the
   * job can be dequeued by any worker if and only if no delivery of it was acked and its ProcessAt has
   * come.
   */
  lemma FailureIsRetriedAtOnce(r: Run, n: nat, d: nat, w: nat)
    requires IsRun(r) && n < |r.states| && Enabled(r.states[n], DoReturn(d, false))
    ensures var s, id := r.states[n], r.states[n].log[d].id;
            && id in s.store.jobs
            && (Enabled(Apply(s, DoReturn(d, false)), DoDequeue(w, Some(id)))
                <==> !AckedIn(s.log, id) && (s.store.jobs[id].processAt == 0 || s.store.jobs[id].processAt <= s.store.now))
  {
    InvAlways(r, n);
    var s := r.states[n];
    assert Open(s, d);
    var t := Apply(s, DoReturn(d, false));
    assert s.log[d].id in Deliverable(t.store) <==> Due(t.store.jobs[s.log[d].id], t.store.now);
  }

  /**
   * Nothing is lost: a job that no delivery has acked can be handed out again by any worker as
   * soon as its ProcessAt has come and one lease has passed, whatever happened to it before.
   */
  lemma NothingIsLost(r: Run, n: nat, id: string, d: nat)
    requires IsRun(r) && n < |r.states| && id in r.states[n].store.jobs && !AckedIn(r.states[n].log, id)
    requires d > r.states[n].store.leaseTTL
    requires var at := r.states[n].store.jobs[id].processAt; at == 0 || at <= r.states[n].store.now + d
    ensures forall w :: Enabled(Apply(r.states[n], DoAdvance(d)), DoDequeue(w, Some(id)))
  {
    InvAlways(r, n);
    assert r.states[n].store.jobs[id].phase != Completed;
    assert id in Deliverable(Apply(r.states[n], DoAdvance(d)).store);
  }

  /**
   * Dequeue is complete: it comes back empty exactly when nothing was due, it takes exactly the
   * job it hands out from the deliverable ones, and no lease that had expired is still held.
   */
  lemma DequeueIsComplete(s: Store, choice: Option<string>)
    requires MayDequeue(s, choice)
    ensures choice == None <==> forall id :: id in s.jobs ==> !Due(s.jobs[id], s.now)
    ensures forall id :: id in Dequeue(s, choice).jobs ==>
              (Expired(Dequeue(s, choice).jobs[id], s.now) <==> choice == Some(id) && s.leaseTTL < 0)
    ensures s.leaseTTL >= 0 ==>
              Deliverable(Dequeue(s, choice)) == Deliverable(s) - (if choice.Some? then {choice.value} else {})
  {
    DequeuedJob(s, choice);
    var t := Dequeue(s, choice);
    assert forall id :: id in s.jobs && Due(s.jobs[id], s.now) ==> id in Deliverable(s);
    if s.leaseTTL >= 0 {
      assert forall id :: id in s.jobs ==> (Due(t.jobs[id], s.now) <==> Due(s.jobs[id], s.now) && choice != Some(id));
    }
  }

  /** What a dequeue makes of each job. */
  lemma DequeuedJob(s: Store, choice: Option<string>)
    requires MayDequeue(s, choice)
    ensures var t := Dequeue(s, choice);
            && t.jobs.Keys == s.jobs.Keys && t.now == s.now
            && forall id :: id in s.jobs ==>
                 t.jobs[id] == if choice == Some(id) then Leased(Reclaimed(s.jobs[id], s.now), s.now, s.leaseTTL)
                               else Reclaimed(s.jobs[id], s.now)
  {
  }

  /** The ids are dequeued and completed one after the other, with the clock standing still. */
  ghost predicate Rounds(s: Store, ids: seq<string>, t: Store)
    decreases |ids|
  {
    if ids == [] then t == s
    else MayDequeue(s, Some(ids[0])) && Rounds(Complete(Dequeue(s, Some(ids[0])), ids[0]), ids[1..], t)
  }

  lemma RoundRemovesOne(s: Store, id: string)
    requires id in Deliverable(s)
    ensures Deliverable(Complete(Dequeue(s, Some(id)), id)) == Deliverable(s) - {id}
  {
    ReclaimIsComplete(s);
    var t := Complete(Dequeue(s, Some(id)), id);
    assert forall x :: x in s.jobs && x != id ==> t.jobs[x] == Reclaimed(s.jobs[x], s.now);
  }

  lemma ElementsSplit(ids: seq<string>)
    requires ids != []
    ensures Elements(ids) == {ids[0]} + Elements(ids[1..])
  {
    assert ids == [ids[0]] + ids[1..];
  }

  /** Rounds in any order deliver each deliverable job once, and leave exactly the others. */
  lemma {:induction false} RoundsDeliverEachOnce(s: Store, ids: seq<string>, t: Store)
    requires Rounds(s, ids, t)
    ensures forall i, j :: 0 <= i < j < |ids| ==> ids[i] != ids[j]
    ensures Elements(ids) <= Deliverable(s)
    ensures Deliverable(t) == Deliverable(s) - Elements(ids)
    decreases |ids|
  {
    if ids == [] {
    } else {
      RoundRemovesOne(s, ids[0]);
      RoundsDeliverEachOnce(Complete(Dequeue(s, Some(ids[0])), ids[0]), ids[1..], t);
      ElementsSplit(ids);
      forall j | 1 <= j < |ids|
        ensures ids[j] != ids[0]
      {
        assert ids[1..][j - 1] in Elements(ids[1..]);
      }
    }
  }

  /** With k deliverable jobs the queue is drained after exactly k rounds. */
  lemma {:induction false} RoundsDrain(s: Store, ids: seq<string>, t: Store)
    requires Rounds(s, ids, t)
    ensures |ids| <= |Deliverable(s)|
    ensures MayDequeue(t, None) <==> |ids| == |Deliverable(s)|
    decreases |ids|
  {
    if ids == [] {
    } else {
      RoundRemovesOne(s, ids[0]);
      assert |Deliverable(s) - {ids[0]}| == |Deliverable(s)| - 1;
      RoundsDrain(Complete(Dequeue(s, Some(ids[0])), ids[0]), ids[1..], t);
    }
  }

  // ----- what the lease does not give -----

  /** A run in which a lease runs out under a busy handler. */
  function OverlapAction(ttl: nat, k: nat): Action {
    var id := Decimal.Itoa(1);
    match k
    case 0 => DoEnqueue(Job("t", [], 0), false)
    case 1 => DoDequeue(0, Some(id))
    case 2 => DoDispatch(1)
    case 3 => DoAdvance(ttl + 1)
    case 4 => DoDequeue(0, Some(id))
    case 5 => DoDispatch(2)
    case 6 => DoReturn(1, true)
    case _ => DoReturn(2, true)
  }

  function OverlapState(ttl: nat, k: nat): System {
    var id := Decimal.Itoa(1);
    var late := ttl + 2;
    var log := [Accepted(id, "t", [], 0), Delivered(0, id, "t", [], 1), Delivered(0, id, "t", [], late),
                Acked(1, id, late), Acked(2, id, late)];
    var job := StoredJob(id, "t", [], 0, Pending, 0, 0);
    var first := Leased(job, 1, ttl);
    var again := Leased(first, late, ttl);
    var done := again.(phase := Completed);
    var store := Store(1, ttl, 0, 1, map[id := first], false, false);
    var h := map[0 := {"t"}];
    match k
    case 0 => System(store.(seqNo := 0, jobs := map[]), h, {}, {}, [])
    case 1 => System(store.(jobs := map[id := job]), h, {}, {}, log[..1])
    case 2 => System(store, h, {1}, {}, log[..2])
    case 3 => System(store, h, {}, {1}, log[..2])
    case 4 => System(store.(now := late), h, {}, {1}, log[..2])
    case 5 => System(store.(now := late, jobs := map[id := again]), h, {2}, {1}, log[..3])
    case 6 => System(store.(now := late, jobs := map[id := again]), h, {}, {1, 2}, log[..3])
    case 7 => System(store.(now := late, jobs := map[id := done]), h, {}, {2}, log[..4])
    case _ => System(store.(now := late, jobs := map[id := done]), h, {}, {}, log)
  }

  ghost predicate OverlapStep(ttl: nat, k: nat) {
    && Enabled(OverlapState(ttl, k), OverlapAction(ttl, k))
    && Apply(OverlapState(ttl, k), OverlapAction(ttl, k)) == OverlapState(ttl, k + 1)
  }

  lemma OverlapDequeues(ttl: nat, k: nat)
    requires k == 1 || k == 4
    ensures OverlapStep(ttl, k)
  {
    var s, a, t := OverlapState(ttl, k), OverlapAction(ttl, k), OverlapState(ttl, k + 1);
    assert Decimal.Itoa(1) in Deliverable(s.store);
    assert Apply(s, a).store.jobs == t.store.jobs;
  }

  lemma OverlapDispatches(ttl: nat, k: nat)
    requires k == 2 || k == 5
    ensures OverlapStep(ttl, k)
  {
    assert Apply(OverlapState(ttl, k), OverlapAction(ttl, k)).running == OverlapState(ttl, k + 1).running;
    assert Apply(OverlapState(ttl, k), OverlapAction(ttl, k)).fetched == OverlapState(ttl, k + 1).fetched;
  }

  lemma OverlapReturns(ttl: nat, k: nat)
    requires k == 6 || k == 7
    ensures OverlapStep(ttl, k)
  {
    assert Apply(OverlapState(ttl, k), OverlapAction(ttl, k)).running == OverlapState(ttl, k + 1).running;
    assert Apply(OverlapState(ttl, k), OverlapAction(ttl, k)).log == OverlapState(ttl, k + 1).log;
    assert Apply(OverlapState(ttl, k), OverlapAction(ttl, k)).store.jobs == OverlapState(ttl, k + 1).store.jobs;
  }

  lemma OverlapSteps(ttl: nat, k: nat)
    requires k < 8
    ensures OverlapStep(ttl, k)
  {
    if k == 1 || k == 4 {
      OverlapDequeues(ttl, k);
    } else if k == 2 || k == 5 {
      OverlapDispatches(ttl, k);
    } else if k >= 6 {
      OverlapReturns(ttl, k);
    }
  }

  /**
   * Execution is not exclusive: when a lease runs out under a handler that is still busy, the job
   * is handed out again, both deliveries are being handled at once, and both may report nil.
   */
  lemma StragglersOverlap(ttl: nat)
    ensures exists r: Run :: IsRun(r) && r.states[0].store.leaseTTL == ttl
                             && !AckedOnce(r.states[|r.states| - 1].log)
                             && (exists n, p, q :: 0 <= n < |r.states| && p in r.states[n].running && q in r.states[n].running
                                                   && p < q < |r.states[n].log| && r.states[n].log[p].id == r.states[n].log[q].id)
  {
    var r := Run(seq(9, (k: nat) => OverlapState(ttl, k)), seq(8, (k: nat) => OverlapAction(ttl, k)));
    forall i | 0 <= i < |r.actions|
      ensures Enabled(r.states[i], r.actions[i]) && r.states[i + 1] == Apply(r.states[i], r.actions[i])
    {
      OverlapSteps(ttl, i);
    }
    assert IsRun(r);
    var last := r.states[8].log;
    assert last[3].Acked? && last[4].Acked? && last[3].id == last[4].id;
    assert !AckedOnce(last);
    var n, p, q := 6, 1, 2;
    assert p in r.states[n].running && q in r.states[n].running && r.states[n].log[p].id == r.states[n].log[q].id;
  }
}
