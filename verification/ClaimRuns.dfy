// What every run of the claim-based queue guarantees.

module ClaimRuns {
  import opened Base
  import opened Delivery
  import opened ClaimQueue
  import Decimal

  // ----- the invariant, in parts -----

  ghost predicate Keyed(s: Store) {
    forall id :: id in s.jobs ==>
      s.jobs[id].id == id && exists n: nat :: 1 <= n <= s.seqNo && id == JobId(n)
  }

  /** p is not an earlier schedule than o; the zero instant is before all others. */
  predicate NotEarlier(o: int, p: int) {
    o == 0 || (p != 0 && o <= p)
  }

  /** The job was accepted with these fields, and its schedule has only moved later since. */
  ghost predicate KeptAs(log: Log, j: RefJob<Bytes>, o: int) {
    AcceptedAs(log, j.id, j.typ, j.payload, o) && NotEarlier(o, j.processAt)
  }

  ghost predicate Retained(s: System) {
    && (forall id :: id in s.store.jobs ==> exists o :: KeptAs(s.log, s.store.jobs[id], o))
    && (forall p :: 0 <= p < |s.log| && s.log[p].Accepted? ==> s.log[p].id in s.store.jobs)
  }

  ghost function InFlight(s: System): set<nat> {
    s.fetched + s.running
  }

  /** A delivery in flight holds its job's claim, and its worker has a handler for it. */
  ghost predicate HoldsClaim(s: System, d: nat) {
    && IsDelivery(s.log, d) && !ReturnedIn(s.log, d)
    && s.log[d].id in s.store.jobs
    && s.store.jobs[s.log[d].id].claimed && !s.store.jobs[s.log[d].id].done
    && Eligible(s.store.jobs[s.log[d].id].processAt, s.log[d].at)
    && s.log[d].typ in TypesOf(s.handlers, s.log[d].worker)
  }

  ghost predicate ClaimsHeld(s: System) {
    && s.dropped == {} && s.fetched !! s.running
    && (forall d :: d in InFlight(s) ==> HoldsClaim(s, d))
    && (forall d, e :: d in InFlight(s) && e in InFlight(s) && s.log[d].id == s.log[e].id ==> d == e)
    && (forall id :: id in s.store.jobs && s.store.jobs[id].claimed && !s.store.jobs[id].done ==> HasHolder(s, id))
  }

  ghost predicate HasHolder(s: System, id: string) {
    exists d :: d in InFlight(s) && IsDelivery(s.log, d) && s.log[d].id == id
  }

  ghost predicate AcksLanded(s: System) {
    && (forall id :: id in s.store.jobs ==> (s.store.jobs[id].done <==> AckedIn(s.log, id)))
    && (forall id :: id in s.store.jobs && s.store.jobs[id].done ==> s.store.jobs[id].claimed)
    && (forall id :: AckedIn(s.log, id) ==> id in s.store.jobs)
  }

  /** Every attempt failed, except the one that is still open or was acked. */
  ghost predicate Counted(s: System) {
    forall id :: id in s.store.jobs ==>
      && s.store.jobs[id].attempts == Deliveries(s.log, id)
      && Deliveries(s.log, id) == Failures(s.log, id) + if s.store.jobs[id].claimed then 1 else 0
  }

  /** A delivery is in flight, or its job is done, or it failed and the job was put off since. */
  ghost predicate Settled(s: System, p: int)
    requires 0 <= p < |s.log| && s.log[p].Delivered? && s.log[p].id in s.store.jobs
  {
    var j := s.store.jobs[s.log[p].id];
    || p in InFlight(s)
    || j.done
    || (FailedEarlier(s.log, p, |s.log|, s.retryDelay, j.processAt) && j.processAt != 0)
  }

  ghost predicate AllSettled(s: System) {
    forall p :: 0 <= p < |s.log| && s.log[p].Delivered? ==>
      s.log[p].id in s.store.jobs && 0 < s.log[p].at <= s.now && Settled(s, p)
  }

  ghost predicate Inv(s: System) {
    && s.now > 0 && Keyed(s.store) && Retained(s) && ClaimsHeld(s) && AcksLanded(s) && Counted(s) && AllSettled(s)
    && Contract(s.log) && Exclusive(s.log, s.retryDelay) && AckedOnce(s.log)
  }

  // ----- growing a history -----

  lemma FailedEarlierGrows(log: Log, e: Event, p: int, delay: int, t: int, t': int)
    requires 0 <= p < |log| && log[p].Delivered? && FailedEarlier(log, p, |log|, delay, t) && t <= t'
    ensures FailedEarlier(log + [e], p, |log|, delay, t')
    ensures FailedEarlier(log + [e], p, |log| + 1, delay, t')
  {
    var r :| p < r < |log| && log[r].Failed? && log[r].delivery == p
             && log[p].at <= log[r].at && log[r].at + delay <= t;
    assert (log + [e])[r] == log[r];
  }

  lemma ExclusiveGrows(log: Log, e: Event, delay: int)
    requires Exclusive(log, delay)
    requires e.Delivered? ==> forall p :: 0 <= p < |log| && log[p].Delivered? && log[p].id == e.id ==>
               FailedEarlier(log, p, |log|, delay, e.at)
    ensures Exclusive(log + [e], delay)
  {
    var grown := log + [e];
    forall p, q | 0 <= p < q < |grown| && grown[p].Delivered? && grown[q].Delivered? && grown[p].id == grown[q].id
      ensures FailedEarlier(grown, p, q, delay, grown[q].at)
    {
      if q < |log| {
        assert FailedEarlier(log, p, q, delay, log[q].at);
        var r :| p < r < q && r < |log| && log[r].Failed? && log[r].delivery == p
                 && log[p].at <= log[r].at && log[r].at + delay <= log[q].at;
        assert grown[r] == log[r];
      } else {
        FailedEarlierGrows(log, e, p, delay, e.at, e.at);
      }
    }
  }

  lemma AckedOnceGrows(log: Log, e: Event)
    requires AckedOnce(log) && (e.Acked? ==> !AckedIn(log, e.id))
    ensures AckedOnce(log + [e])
  {
  }

  lemma NeverSeen(log: Log, id: string)
    requires forall p :: 0 <= p < |log| && (log[p].Delivered? || log[p].Failed?) ==> log[p].id != id
    ensures Deliveries(log, id) == 0 && Failures(log, id) == 0
  {
    if log != [] {
      NeverSeen(log[..|log| - 1], id);
    }
  }

  /** Everything in a history that fits the jobs concerns stored jobs. */
  lemma OnlyStoredJobs(s: System, q: int)
    requires AllSettled(s) && OutcomesMatch(s.log) && 0 <= q < |s.log| && !s.log[q].Accepted?
    ensures s.log[q].id in s.store.jobs
  {
    if IsReturn(s.log[q]) {
      assert HasDelivery(s.log, q);
    }
  }

  // ----- enqueue -----

  lemma FreshId(s: Store)
    requires Keyed(s)
    ensures JobId(s.seqNo + 1) !in s.jobs
  {
    var id := JobId(s.seqNo + 1);
    if id in s.jobs {
      var n: nat :| 1 <= n <= s.seqNo && id == JobId(n);
      Decimal.TaggedInjective("job-", n, s.seqNo + 1);
      assert false;
    }
  }

  lemma EnqueueKeepsKeyed(s: Store, job: Job<Bytes>)
    requires Keyed(s)
    ensures Keyed(Enqueue(s, job))
  {
    var t := Enqueue(s, job);
    forall id | id in t.jobs
      ensures t.jobs[id].id == id && exists n: nat :: 1 <= n <= t.seqNo && id == JobId(n)
    {
      if id == JobId(s.seqNo + 1) {
      } else {
        assert id in s.jobs;
      }
    }
  }

  lemma EnqueueKeepsRetained(s: System, t: System, e: Event)
    requires Retained(s) && e.Accepted? && t.log == s.log + [e]
    requires t.store.jobs == s.store.jobs[e.id := RefJob(e.id, e.typ, e.payload, e.processAt, 0, false, false)]
    ensures Retained(t)
  {
    forall id | id in t.store.jobs
      ensures exists o :: KeptAs(t.log, t.store.jobs[id], o)
    {
      if id == e.id {
        assert t.log[|s.log|] == e;
        assert KeptAs(t.log, t.store.jobs[id], e.processAt);
      } else {
        var o :| KeptAs(s.log, s.store.jobs[id], o);
        assert KeptAs(t.log, t.store.jobs[id], o);
      }
    }
  }

  lemma EnqueueKeepsClaims(s: System, t: System, e: Event)
    requires ClaimsHeld(s) && AllSettled(s) && e.Accepted? && e.id !in s.store.jobs && t.log == s.log + [e]
    requires t.store.jobs == s.store.jobs[e.id := RefJob(e.id, e.typ, e.payload, e.processAt, 0, false, false)]
    requires t == s.(store := t.store, log := t.log)
    ensures ClaimsHeld(t) && AllSettled(t)
  {
    forall d | d in InFlight(t)
      ensures HoldsClaim(t, d)
    {
      assert HoldsClaim(s, d);
      ReturnedGrows(s.log, e, d);
    }
    forall id | id in t.store.jobs && t.store.jobs[id].claimed && !t.store.jobs[id].done
      ensures HasHolder(t, id)
    {
      assert HasHolder(s, id);
      var d :| d in InFlight(s) && IsDelivery(s.log, d) && s.log[d].id == id;
      assert d in InFlight(t) && IsDelivery(t.log, d) && t.log[d].id == id;
    }
    forall p | 0 <= p < |t.log| && t.log[p].Delivered?
      ensures t.log[p].id in t.store.jobs && 0 < t.log[p].at <= t.now && Settled(t, p)
    {
      assert s.log[p].Delivered? && Settled(s, p);
      var j := s.store.jobs[s.log[p].id];
      if FailedEarlier(s.log, p, |s.log|, s.retryDelay, j.processAt) {
        FailedEarlierGrows(s.log, e, p, s.retryDelay, j.processAt, j.processAt);
      }
    }
  }

  lemma EnqueueKeepsCounts(s: System, t: System, e: Event)
    requires AcksLanded(s) && Counted(s) && AllSettled(s) && OutcomesMatch(s.log)
    requires e.Accepted? && e.id !in s.store.jobs && t.log == s.log + [e]
    requires t.store.jobs == s.store.jobs[e.id := RefJob(e.id, e.typ, e.payload, e.processAt, 0, false, false)]
    ensures AcksLanded(t) && Counted(t)
  {
    forall id
      ensures AckedIn(t.log, id) <==> AckedIn(s.log, id)
    {
      AckedGrows(s.log, e, id);
    }
    forall q | 0 <= q < |s.log| && (s.log[q].Delivered? || s.log[q].Failed?)
      ensures s.log[q].id != e.id
    {
      OnlyStoredJobs(s, q);
    }
    NeverSeen(s.log, e.id);
    forall id | id in t.store.jobs
      ensures Deliveries(t.log, id) == Deliveries(s.log, id) && Failures(t.log, id) == Failures(s.log, id)
    {
      CountsGrow(s.log, e, id);
    }
  }

  lemma EnqueueKeepsInv(s: System, a: Action)
    requires Inv(s) && a.DoEnqueue?
    ensures Inv(Apply(s, a))
  {
    var t := Apply(s, a);
    if t.log != s.log {
      var e := t.log[|s.log|];
      assert t.log == s.log + [e];
      FreshId(s.store);
      EnqueueKeepsKeyed(s.store, a.job);
      EnqueueKeepsRetained(s, t, e);
      EnqueueKeepsClaims(s, t, e);
      EnqueueKeepsCounts(s, t, e);
      AcceptKeepsContract(s.log, e);
      ExclusiveGrows(s.log, e, s.retryDelay);
      AckedOnceGrows(s.log, e);
    }
  }

  // ----- claim -----

  /** An unclaimed job has no delivery in flight, so all its deliveries failed and were put off. */
  lemma UnclaimedIsSettled(s: System, id: string, at: int)
    requires ClaimsHeld(s) && AllSettled(s) && id in s.store.jobs && !s.store.jobs[id].claimed && !s.store.jobs[id].done
    requires Eligible(s.store.jobs[id].processAt, at)
    ensures forall p :: 0 <= p < |s.log| && s.log[p].Delivered? && s.log[p].id == id ==>
              FailedEarlier(s.log, p, |s.log|, s.retryDelay, at)
    ensures forall d :: d in InFlight(s) ==> s.log[d].id != id
  {
    forall d | d in InFlight(s)
      ensures s.log[d].id != id
    {
      assert HoldsClaim(s, d);
    }
    forall p | 0 <= p < |s.log| && s.log[p].Delivered? && s.log[p].id == id
      ensures FailedEarlier(s.log, p, |s.log|, s.retryDelay, at)
    {
      assert Settled(s, p);
      var r :| p < r < |s.log| && s.log[r].Failed? && s.log[r].delivery == p
               && s.log[p].at <= s.log[r].at && s.log[r].at + s.retryDelay <= s.store.jobs[id].processAt;
    }
  }

  lemma ClaimKeepsRetained(s: System, t: System, id: string, e: Event)
    requires Keyed(s.store) && Retained(s) && id in s.store.jobs && !e.Accepted? && t.log == s.log + [e]
    requires t.store == Claim(s.store, Some(id))
    ensures Keyed(t.store) && Retained(t)
  {
    forall x | x in t.store.jobs
      ensures exists o :: KeptAs(t.log, t.store.jobs[x], o)
    {
      var o :| KeptAs(s.log, s.store.jobs[x], o);
      assert KeptAs(t.log, t.store.jobs[x], o);
    }
  }

  /** The claimed system: e is the delivery it makes. */
  ghost predicate Claims(s: System, t: System, e: Event) {
    && e.Delivered? && e.id in s.store.jobs
    && !s.store.jobs[e.id].claimed && !s.store.jobs[e.id].done
    && Eligible(s.store.jobs[e.id].processAt, e.at) && e.typ in TypesOf(s.handlers, e.worker)
    && t == s.(store := Claim(s.store, Some(e.id)), fetched := s.fetched + {|s.log|}, log := s.log + [e])
  }

  lemma ClaimKeepsHolding(s: System, t: System, e: Event)
    requires ClaimsHeld(s) && OutcomesMatch(s.log) && Claims(s, t, e)
    ensures HoldsClaim(t, |s.log|)
    ensures forall d :: d in InFlight(s) ==> HoldsClaim(t, d) && d < |s.log| && s.log[d].id != e.id
  {
    NewDeliveryIsOpen(s.log, e);
    assert t.log[|s.log|] == e;
    forall d | d in InFlight(s)
      ensures HoldsClaim(t, d) && d < |s.log| && s.log[d].id != e.id
    {
      assert HoldsClaim(s, d);
      ReturnedGrows(s.log, e, d);
    }
  }

  lemma ClaimKeepsHolders(s: System, t: System, e: Event)
    requires ClaimsHeld(s) && Claims(s, t, e)
    ensures forall id :: id in t.store.jobs && t.store.jobs[id].claimed && !t.store.jobs[id].done ==> HasHolder(t, id)
  {
    forall id | id in t.store.jobs && t.store.jobs[id].claimed && !t.store.jobs[id].done
      ensures HasHolder(t, id)
    {
      if id == e.id {
        assert |s.log| in InFlight(t) && IsDelivery(t.log, |s.log|);
      } else {
        assert HasHolder(s, id);
        var d :| d in InFlight(s) && IsDelivery(s.log, d) && s.log[d].id == id;
        assert d in InFlight(t) && IsDelivery(t.log, d) && t.log[d].id == id;
      }
    }
  }

  lemma ClaimKeepsUnique(s: System, t: System, e: Event)
    requires ClaimsHeld(s) && OutcomesMatch(s.log) && Claims(s, t, e)
    ensures t.fetched !! t.running
    ensures forall d :: d in InFlight(t) ==> d < |t.log|
    ensures forall d, x :: d in InFlight(t) && x in InFlight(t) && t.log[d].id == t.log[x].id ==> d == x
  {
    ClaimKeepsHolding(s, t, e);
    assert InFlight(t) == InFlight(s) + {|s.log|};
    forall d, x | d in InFlight(t) && x in InFlight(t) && t.log[d].id == t.log[x].id
      ensures d == x
    {
      assert d == |s.log| || (d in InFlight(s) && t.log[d] == s.log[d]);
      assert x == |s.log| || (x in InFlight(s) && t.log[x] == s.log[x]);
    }
  }

  lemma ClaimKeepsClaims(s: System, t: System, e: Event)
    requires ClaimsHeld(s) && OutcomesMatch(s.log) && Claims(s, t, e)
    ensures ClaimsHeld(t)
  {
    ClaimKeepsHolding(s, t, e);
    ClaimKeepsHolders(s, t, e);
    ClaimKeepsUnique(s, t, e);
    assert InFlight(t) == InFlight(s) + {|s.log|};
  }

  lemma ClaimKeepsSettled(s: System, t: System, e: Event)
    requires AllSettled(s) && e.Delivered? && e.id in s.store.jobs && t.log == s.log + [e] && 0 < e.at <= s.now
    requires t == s.(store := Claim(s.store, Some(e.id)), fetched := s.fetched + {|s.log|}, log := t.log)
    ensures AllSettled(t)
  {
    forall p | 0 <= p < |t.log| && t.log[p].Delivered?
      ensures t.log[p].id in t.store.jobs && 0 < t.log[p].at <= t.now && Settled(t, p)
    {
      if p < |s.log| {
        assert Settled(s, p);
        var j := s.store.jobs[s.log[p].id];
        if FailedEarlier(s.log, p, |s.log|, s.retryDelay, j.processAt) {
          FailedEarlierGrows(s.log, e, p, s.retryDelay, j.processAt, j.processAt);
        }
      }
    }
  }

  lemma ClaimKeepsCounts(s: System, t: System, e: Event)
    requires AcksLanded(s) && Counted(s) && e.Delivered? && e.id in s.store.jobs && t.log == s.log + [e]
    requires !s.store.jobs[e.id].claimed && t.store == Claim(s.store, Some(e.id))
    ensures AcksLanded(t) && Counted(t)
  {
    forall id
      ensures AckedIn(t.log, id) <==> AckedIn(s.log, id)
    {
      AckedGrows(s.log, e, id);
    }
    forall id | id in t.store.jobs
      ensures Deliveries(t.log, id) == Deliveries(s.log, id) + if e.id == id then 1 else 0
      ensures Failures(t.log, id) == Failures(s.log, id)
    {
      CountsGrow(s.log, e, id);
    }
  }

  lemma ClaimKeepsInv(s: System, a: Action)
    requires Inv(s) && a.DoClaim? && Enabled(s, a)
    ensures Inv(Apply(s, a))
  {
    if a.choice.Some? {
      var t := Apply(s, a);
      var id := a.choice.value;
      var j := s.store.jobs[id];
      var e := Delivered(a.worker, id, j.typ, j.payload, a.at);
      assert t.log == s.log + [e];
      var o :| KeptAs(s.log, j, o);
      DeliverKeepsContract(s.log, e, o);
      UnclaimedIsSettled(s, id, a.at);
      ExclusiveGrows(s.log, e, s.retryDelay);
      AckedOnceGrows(s.log, e);
      ClaimKeepsRetained(s, t, id, e);
      ClaimKeepsClaims(s, t, e);
      ClaimKeepsSettled(s, t, e);
      ClaimKeepsCounts(s, t, e);
    }
  }

  // ----- outcomes -----

  /** The store after the outcome e of the one delivery in flight of its job. */
  ghost predicate Returned(s: System, t: System, e: Event) {
    && IsReturn(e) && e.delivery in s.running && HoldsClaim(s, e.delivery)
    && e.id == s.log[e.delivery].id && s.log[e.delivery].at <= e.at <= s.now
    && t == s.(store := if e.Acked? then Complete(s.store, e.id) else Retry(s.store, e.id, s.retryDelay, e.at),
               running := s.running - {e.delivery}, log := s.log + [e])
  }

  lemma ReturnKeepsRetained(s: System, t: System, e: Event)
    requires Keyed(s.store) && Retained(s) && AllSettled(s) && Returned(s, t, e)
    ensures Keyed(t.store) && Retained(t)
  {
    forall x | x in t.store.jobs
      ensures exists o :: KeptAs(t.log, t.store.jobs[x], o)
    {
      var o :| KeptAs(s.log, s.store.jobs[x], o);
      assert KeptAs(t.log, t.store.jobs[x], o);
    }
  }

  lemma ReturnKeepsClaims(s: System, t: System, e: Event)
    requires ClaimsHeld(s) && Returned(s, t, e)
    ensures ClaimsHeld(t)
  {
    forall d | d in InFlight(t)
      ensures HoldsClaim(t, d)
    {
      assert HoldsClaim(s, d);
      assert d != e.delivery && s.log[d].id != e.id;
      ReturnedGrows(s.log, e, d);
    }
    forall id | id in t.store.jobs && t.store.jobs[id].claimed && !t.store.jobs[id].done
      ensures HasHolder(t, id)
    {
      assert id != e.id && HasHolder(s, id);
      var d :| d in InFlight(s) && IsDelivery(s.log, d) && s.log[d].id == id;
      assert d in InFlight(t) && IsDelivery(t.log, d) && t.log[d].id == id;
    }
  }

  lemma ReturnKeepsSettled(s: System, t: System, e: Event)
    requires ClaimsHeld(s) && AllSettled(s) && Returned(s, t, e)
    ensures AllSettled(t)
  {
    forall p | 0 <= p < |t.log| && t.log[p].Delivered?
      ensures t.log[p].id in t.store.jobs && 0 < t.log[p].at <= t.now && Settled(t, p)
    {
      assert s.log[p].Delivered? && Settled(s, p);
      var i, j := s.store.jobs[s.log[p].id], t.store.jobs[s.log[p].id];
      if p == e.delivery {
        assert t.log[|s.log|] == e;
      } else if p in InFlight(s) || i.done {
      } else {
        FailedEarlierGrows(s.log, e, p, s.retryDelay, i.processAt, j.processAt);
      }
    }
  }

  lemma ReturnKeepsCounts(s: System, t: System, e: Event)
    requires AcksLanded(s) && Counted(s) && Returned(s, t, e)
    ensures AcksLanded(t) && Counted(t)
  {
    forall id
      ensures AckedIn(t.log, id) <==> AckedIn(s.log, id) || (e.Acked? && id == e.id)
    {
      AckedGrows(s.log, e, id);
    }
    forall id | id in t.store.jobs
      ensures Deliveries(t.log, id) == Deliveries(s.log, id)
      ensures Failures(t.log, id) == Failures(s.log, id) + if e.Failed? && e.id == id then 1 else 0
    {
      CountsGrow(s.log, e, id);
    }
  }

  lemma ReturnKeepsInv(s: System, a: Action)
    requires Inv(s) && a.DoReturn? && Enabled(s, a)
    ensures Inv(Apply(s, a))
  {
    var t := Apply(s, a);
    var e := t.log[|s.log|];
    assert a.delivery in InFlight(s) && HoldsClaim(s, a.delivery);
    assert Returned(s, t, e);
    assert !AckedIn(s.log, e.id);
    ReturnKeepsContract(s.log, e);
    ExclusiveGrows(s.log, e, s.retryDelay);
    AckedOnceGrows(s.log, e);
    ReturnKeepsRetained(s, t, e);
    ReturnKeepsClaims(s, t, e);
    ReturnKeepsSettled(s, t, e);
    ReturnKeepsCounts(s, t, e);
  }

  // ----- the remaining steps -----

  lemma OtherKeepsClaims(s: System, a: Action)
    requires ClaimsHeld(s) && AllSettled(s) && Enabled(s, a) && (a.DoDispatch? || a.DoRegister? || a.DoAdvance?)
    ensures ClaimsHeld(Apply(s, a)) && AllSettled(Apply(s, a))
  {
    var t := Apply(s, a);
    if a.DoDispatch? {
      assert HoldsClaim(s, a.delivery);
    }
    assert InFlight(t) == InFlight(s);
    forall d | d in InFlight(t)
      ensures HoldsClaim(t, d)
    {
      assert HoldsClaim(s, d);
    }
    forall id | HasHolder(s, id)
      ensures HasHolder(t, id)
    {
      var d :| d in InFlight(s) && IsDelivery(s.log, d) && s.log[d].id == id;
      assert d in InFlight(t);
    }
    forall p | 0 <= p < |t.log| && t.log[p].Delivered?
      ensures 0 < t.log[p].at <= t.now && Settled(t, p)
    {
      assert Settled(s, p);
    }
  }

  lemma StepKeepsInv(s: System, a: Action)
    requires Inv(s) && Enabled(s, a)
    ensures Inv(Apply(s, a))
  {
    match a
    case DoEnqueue(_, _) => EnqueueKeepsInv(s, a);
    case DoClaim(_, _, _) => ClaimKeepsInv(s, a);
    case DoReturn(_, _, _) => ReturnKeepsInv(s, a);
    case _ => OtherKeepsClaims(s, a);
  }

  lemma {:induction false} InvAlways(r: Run, n: nat)
    requires IsRun(r) && n < |r.states|
    ensures Inv(r.states[n])
  {
    if n > 0 {
      InvAlways(r, n - 1);
      StepKeepsInv(r.states[n - 1], r.actions[n - 1]);
    }
  }

  // ----- main results -----

  /** Same contract as the leased queue, but redelivery only ever follows a failure, retryDelay later, and one nil result is all a job gets. */
  lemma ContractOnEveryRun(r: Run, n: nat)
    requires IsRun(r) && n < |r.states|
    ensures Contract(r.states[n].log)
    ensures Exclusive(r.states[n].log, r.states[n].retryDelay)
    ensures AckedOnce(r.states[n].log)
  {
    InvAlways(r, n);
  }

  ghost function Holders(s: System, id: string): set<nat> {
    set d | d in InFlight(s) && IsDelivery(s.log, d) && s.log[d].id == id
  }

  lemma OneHolderOrNone(s: System, id: string)
    requires ClaimsHeld(s) && id in s.store.jobs
    ensures |Holders(s, id)| == if s.store.jobs[id].claimed && !s.store.jobs[id].done then 1 else 0
  {
    if s.store.jobs[id].claimed && !s.store.jobs[id].done {
      assert HasHolder(s, id);
      var d :| d in InFlight(s) && IsDelivery(s.log, d) && s.log[d].id == id;
      assert Holders(s, id) == {d};
    } else {
      forall d | d in InFlight(s)
        ensures s.log[d].id != id
      {
        assert HoldsClaim(s, d);
      }
      assert Holders(s, id) == {};
    }
  }

  /** No double claim and no orphaned claim: a job has one delivery in flight exactly while it is claimed and unfinished, otherwise none. */
  lemma ClaimIsExclusive(r: Run, n: nat, id: string)
    requires IsRun(r) && n < |r.states| && id in r.states[n].store.jobs
    ensures r.states[n].dropped == {}
    ensures |Holders(r.states[n], id)|
            == if r.states[n].store.jobs[id].claimed && !r.states[n].store.jobs[id].done then 1 else 0
  {
    InvAlways(r, n);
    OneHolderOrNone(r.states[n], id);
  }

  /** Every attempt is accounted for: it failed, or it is the one in flight, or it was acked. */
  lemma AttemptsAccounted(r: Run, n: nat, id: string)
    requires IsRun(r) && n < |r.states| && id in r.states[n].store.jobs
    ensures r.states[n].store.jobs[id].attempts == Deliveries(r.states[n].log, id)
    ensures r.states[n].store.jobs[id].attempts
            == Failures(r.states[n].log, id) + |Holders(r.states[n], id)| + if AckedIn(r.states[n].log, id) then 1 else 0
  {
    InvAlways(r, n);
    ClaimIsExclusive(r, n, id);
  }

  /** The accepted fields are the same, the schedule is not earlier, and a finished job stays finished. */
  ghost predicate SameJob(i: RefJob<Bytes>, j: RefJob<Bytes>) {
    && i.id == j.id && i.typ == j.typ && i.payload == j.payload && i.attempts <= j.attempts
    && NotEarlier(i.processAt, j.processAt) && (i.done ==> j.done)
  }

  lemma RetryMovesLater(s: System, d: nat, at: int)
    requires HoldsClaim(s, d) && 0 < s.log[d].at <= at
    ensures NotEarlier(s.store.jobs[s.log[d].id].processAt, at + s.retryDelay)
  {
  }

  lemma StepKeepsJob(s: System, a: Action, id: string)
    requires Keyed(s.store) && ClaimsHeld(s) && AllSettled(s) && Enabled(s, a) && id in s.store.jobs
    ensures id in Apply(s, a).store.jobs && SameJob(s.store.jobs[id], Apply(s, a).store.jobs[id])
  {
    match a
    case DoEnqueue(_, _) => FreshId(s.store);
    case DoClaim(_, _, _) =>
    case DoReturn(d, ok, at) => RetryMovesLater(s, d, at);
    case _ =>
  }

  lemma RunKeepsJob(r: Run, n: nat, id: string)
    requires IsRun(r) && n < |r.actions| && id in r.states[n].store.jobs
    ensures id in r.states[n + 1].store.jobs && SameJob(r.states[n].store.jobs[id], r.states[n + 1].store.jobs[id])
  {
    InvAlways(r, n);
    StepKeepsJob(r.states[n], r.actions[n], id);
  }

  lemma SameJobTransitive(i: RefJob<Bytes>, j: RefJob<Bytes>, k: RefJob<Bytes>)
    requires SameJob(i, j) && SameJob(j, k)
    ensures SameJob(i, k)
  {
  }

  /** A stored job is never removed or altered, a retry only moves its schedule later, and done is never left again. */
  lemma {:induction false} ScheduleOnlyMovesLater(r: Run, i: nat, j: nat, id: string)
    requires IsRun(r) && i <= j < |r.states| && id in r.states[i].store.jobs
    ensures id in r.states[j].store.jobs && SameJob(r.states[i].store.jobs[id], r.states[j].store.jobs[id])
    decreases j - i
  {
    if i < j {
      ScheduleOnlyMovesLater(r, i, j - 1, id);
      RunKeepsJob(r, j - 1, id);
      SameJobTransitive(r.states[i].store.jobs[id], r.states[j - 1].store.jobs[id], r.states[j].store.jobs[id]);
    }
  }

  /** An enqueue files one new unclaimed job under the next id, exactly what was passed, and leaves every other job as it was. */
  lemma EnqueueContract(s: Store, job: Job<Bytes>)
    requires Keyed(s)
    ensures var t, id := Enqueue(s, job), "job-" + Decimal.Itoa(s.seqNo + 1);
            && id !in s.jobs && t.seqNo == s.seqNo + 1 && t.jobs.Keys == s.jobs.Keys + {id}
            && (forall x :: x in s.jobs ==> t.jobs[x] == s.jobs[x])
            && t.jobs[id] == RefJob(id, job.typ, job.payload, job.processAt, 0, false, false)
  {
    FreshId(s);
  }

  /** Whatever state a job is in, completing and retrying it touch nothing else of it, and no other job. */
  lemma OutcomesTouchLittle(s: Store, id: string, after: int, now: int)
    ensures var t, u := Complete(s, id), Retry(s, id, after, now);
            && t.seqNo == u.seqNo == s.seqNo && t.jobs.Keys == u.jobs.Keys == s.jobs.Keys
            && (forall x :: x in s.jobs && x != id ==> t.jobs[x] == u.jobs[x] == s.jobs[x])
            && (id in s.jobs ==>
                  && t.jobs[id].done && s.jobs[id] == t.jobs[id].(done := s.jobs[id].done)
                  && !u.jobs[id].claimed && u.jobs[id].processAt == now + after
                  && s.jobs[id] == u.jobs[id].(claimed := s.jobs[id].claimed, processAt := s.jobs[id].processAt))
  {
  }

  /** No delivery, first or repeated, happens before the instant its job was accepted for; the zero instant is always past. */
  lemma NeverEarly(r: Run, n: nat, q: nat) returns (p: nat)
    requires IsRun(r) && n < |r.states| && q < |r.states[n].log| && r.states[n].log[q].Delivered?
    ensures var log := r.states[n].log;
            && p < q && log[p].Accepted? && log[p].id == log[q].id
            && (log[p].processAt == 0 || log[p].processAt <= log[q].at)
  {
    InvAlways(r, n);
    var log := r.states[n].log;
    assert HandsOverAccepted(log, q);
    p :| 0 <= p < q && log[p].Accepted? && log[p].id == log[q].id && log[p].typ == log[q].typ
         && log[p].payload == log[q].payload && Eligible(log[p].processAt, log[q].at);
  }

  /**
   * A failed attempt is retried exactly from retryDelay after it was reported, by exactly the workers that
   * have a handler for the job's type.
   */
  lemma RetriedExactlyAfterDelay(r: Run, n: nat, d: nat, at: int, w: nat, when: int)
    requires IsRun(r) && n < |r.states| && Enabled(r.states[n], DoReturn(d, false, at))
    ensures var s, id := r.states[n], r.states[n].log[d].id;
            && id in s.store.jobs
            && (MayClaim(Apply(s, DoReturn(d, false, at)).store, when, TypesOf(s.handlers, w), Some(id))
                <==> when >= at + s.retryDelay && s.store.jobs[id].typ in TypesOf(s.handlers, w))
  {
    InvAlways(r, n);
    assert HoldsClaim(r.states[n], d);
  }

  /** A job that was not acked and is not being handled can be claimed by any worker that handles its type, once its schedule has come. */
  lemma NothingIsLost(r: Run, n: nat, id: string, w: nat, at: int)
    requires IsRun(r) && n < |r.states| && id in r.states[n].store.jobs
    requires !AckedIn(r.states[n].log, id) && Holders(r.states[n], id) == {}
    requires r.states[n].store.jobs[id].typ in TypesOf(r.states[n].handlers, w)
    requires 0 < at <= r.states[n].now
    requires r.states[n].store.jobs[id].processAt == 0 || r.states[n].store.jobs[id].processAt <= at
    ensures Enabled(r.states[n], DoClaim(w, at, Some(id)))
  {
    InvAlways(r, n);
    ClaimIsExclusive(r, n, id);
  }
}
