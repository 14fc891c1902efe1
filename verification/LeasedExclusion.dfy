// When the leased queue handles a job exclusively: exactly as long as no job is dequeued while a
// delivery of it is still open that has overrun its lease.

module LeasedExclusion {
  import opened Base
  import opened Delivery
  import opened LeasedQueue
  import opened LeasedRuns

  /** The deliveries that may still report an outcome. */
  function OpenOnes(s: System): set<nat> {
    s.fetched + s.running
  }

  /** Delivery d of id is open. */
  ghost predicate OpenFor(s: System, d: nat, id: string) {
    d in OpenOnes(s) && IsDelivery(s.log, d) && s.log[d].id == id
  }

  ghost predicate NoOverlap(s: System) {
    forall d: nat, e: nat, id :: OpenFor(s, d, id) && OpenFor(s, e, id) ==> d == e
  }

  /** No open delivery of id is older than the lease. */
  ghost predicate InTime(s: System, id: string) {
    forall d: nat :: OpenFor(s, d, id) ==> s.store.now <= s.log[d].at + s.store.leaseTTL
  }

  // ----- while nothing overlaps, nothing was reported behind an open delivery -----

  ghost predicate Unreported(s: System, d: nat, id: string) {
    !AckedIn(s.log, id) && !FailedBetween(s.log, d, |s.log|, id)
  }

  ghost predicate AllUnreported(s: System) {
    forall d: nat, id :: OpenFor(s, d, id) ==> Unreported(s, d, id)
  }

  /** Logging something else than an outcome of id leaves deliveries of id unreported. */
  lemma UnreportedGrows(s: System, t: System, e: Event, d: nat, id: string)
    requires Unreported(s, d, id) && d < |s.log| && t.log == s.log + [e] && (IsReturn(e) ==> e.id != id)
    ensures Unreported(t, d, id)
  {
    AckedGrows(s.log, e, id);
    FailedGrows(s.log, e, d, id);
  }

  lemma DequeueKeepsUnreported(s: System, a: Action)
    requires AcksLanded(s) && AllUnreported(s) && a.DoDequeue? && a.choice.Some? && Enabled(s, a)
    ensures AllUnreported(Apply(s, a))
  {
    var t := Apply(s, a);
    var e := t.log[|s.log|];
    assert t.log == s.log + [e];
    forall d: nat, id | OpenFor(t, d, id)
      ensures Unreported(t, d, id)
    {
      if d < |s.log| {
        assert OpenFor(s, d, id);
        UnreportedGrows(s, t, e, d, id);
      } else {
        AckedGrows(s.log, e, id);
      }
    }
  }

  lemma ReturnKeepsUnreported(s: System, a: Action)
    requires OpenDeliveries(s) && NoOverlap(s) && AllUnreported(s) && a.DoReturn? && Enabled(s, a)
    ensures AllUnreported(Apply(s, a))
  {
    var t := Apply(s, a);
    var e := t.log[|s.log|];
    assert t.log == s.log + [e] && OpenFor(s, a.delivery, e.id);
    forall d: nat, id | OpenFor(t, d, id)
      ensures Unreported(t, d, id)
    {
      assert d < |s.log| by {
        assert d in OpenOnes(s) && t.log[|s.log|] == e && !e.Delivered?;
      }
      assert OpenFor(s, d, id);
      UnreportedGrows(s, t, e, d, id);
    }
  }

  lemma OtherKeepsUnreported(s: System, a: Action)
    requires OpenDeliveries(s) && AllUnreported(s) && Enabled(s, a) && !a.DoReturn? && (a.DoDequeue? ==> a.choice.None?)
    ensures AllUnreported(Apply(s, a))
  {
    var t := Apply(s, a);
    forall d: nat, id | OpenFor(t, d, id)
      ensures Unreported(t, d, id)
    {
      assert Open(s, d);
      assert OpenFor(s, d, id);
      if t.log != s.log {
        UnreportedGrows(s, t, t.log[|s.log|], d, id);
      }
    }
  }

  lemma StepKeepsUnreported(s: System, a: Action)
    requires Inv(s) && NoOverlap(s) && AllUnreported(s) && Enabled(s, a)
    ensures AllUnreported(Apply(s, a))
  {
    if a.DoReturn? {
      ReturnKeepsUnreported(s, a);
    } else if a.DoDequeue? && a.choice.Some? {
      DequeueKeepsUnreported(s, a);
    } else {
      OtherKeepsUnreported(s, a);
    }
  }

  lemma {:induction false} UnreportedAlways(r: Run, n: nat)
    requires IsRun(r) && n < |r.states| && forall i :: 0 <= i < n ==> NoOverlap(r.states[i])
    ensures AllUnreported(r.states[n])
  {
    if n > 0 {
      UnreportedAlways(r, n - 1);
      InvAlways(r, n - 1);
      StepKeepsUnreported(r.states[n - 1], r.actions[n - 1]);
    }
  }

  // ----- what a dequeue does -----

  /** A job that can be dequeued has been overrun by each delivery of it that is open and unreported. */
  lemma OpenMeansOverrun(s: System, d: nat, id: string)
    requires Leases(s) && OpenFor(s, d, id) && Unreported(s, d, id) && id in Deliverable(s.store)
    ensures s.log[d].at + s.store.leaseTTL < s.store.now
  {
    assert LeaseCovers(s, d);
  }

  lemma DequeueOpens(s: System, w: nat, id: string)
    requires OpenDeliveries(s) && Enabled(s, DoDequeue(w, Some(id)))
    ensures var t := Apply(s, DoDequeue(w, Some(id)));
            && OpenFor(t, |s.log|, id)
            && forall d: nat, x :: d != |s.log| ==> (OpenFor(t, d, x) <==> OpenFor(s, d, x))
  {
    var t := Apply(s, DoDequeue(w, Some(id)));
    assert t.log[|s.log|].id == id;
    forall d | d in OpenOnes(s)
      ensures d < |s.log| && t.log[d] == s.log[d]
    {
      assert Open(s, d);
    }
  }

  lemma DequeueExclusion(s: System, w: nat, id: string)
    requires OpenDeliveries(s) && Leases(s) && NoOverlap(s) && AllUnreported(s) && Enabled(s, DoDequeue(w, Some(id)))
    ensures NoOverlap(Apply(s, DoDequeue(w, Some(id)))) <==> InTime(s, id)
  {
    var t := Apply(s, DoDequeue(w, Some(id)));
    DequeueOpens(s, w, id);
    forall d: nat | OpenFor(s, d, id)
      ensures s.log[d].at + s.store.leaseTTL < s.store.now
    {
      OpenMeansOverrun(s, d, id);
    }
    if d: nat :| OpenFor(s, d, id) {
      assert OpenFor(t, d, id) && OpenFor(t, |s.log|, id) && d < |s.log|;
    }
  }

  lemma OtherStepsKeepExclusion(s: System, a: Action)
    requires OpenDeliveries(s) && NoOverlap(s) && Enabled(s, a) && (a.DoDequeue? ==> a.choice.None?)
    ensures NoOverlap(Apply(s, a))
  {
    var t := Apply(s, a);
    forall d: nat, id | OpenFor(t, d, id)
      ensures OpenFor(s, d, id)
    {
      assert Open(s, d);
    }
  }

  // ----- main results -----

  ghost predicate ExclusiveUpTo(r: Run, n: nat)
    requires n < |r.states|
  {
    forall i :: 0 <= i <= n ==> NoOverlap(r.states[i])
  }

  /** The dequeue at step i, if it is one that hands out a job, finds no open delivery of the job beyond its lease. */
  ghost predicate FetchedInTime(r: Run, i: nat)
    requires i < |r.actions| && |r.states| == |r.actions| + 1
  {
    r.actions[i].DoDequeue? && r.actions[i].choice.Some? ==> InTime(r.states[i], r.actions[i].choice.value)
  }

  /** In a run without overlap so far, a dequeue keeps it so if and only if no open delivery of the job has overrun its lease. */
  lemma DequeueKeepsExclusion(r: Run, n: nat, w: nat, id: string)
    requires IsRun(r) && n < |r.states| && ExclusiveUpTo(r, n) && Enabled(r.states[n], DoDequeue(w, Some(id)))
    ensures NoOverlap(Apply(r.states[n], DoDequeue(w, Some(id)))) <==> InTime(r.states[n], id)
  {
    InvAlways(r, n);
    UnreportedAlways(r, n);
    DequeueExclusion(r.states[n], w, id);
  }

  lemma StepExclusion(r: Run, n: nat)
    requires IsRun(r) && n < |r.actions| && ExclusiveUpTo(r, n)
    ensures NoOverlap(r.states[n + 1]) <==> FetchedInTime(r, n)
  {
    var a := r.actions[n];
    if a.DoDequeue? && a.choice.Some? {
      DequeueKeepsExclusion(r, n, a.worker, a.choice.value);
    } else {
      InvAlways(r, n);
      OtherStepsKeepExclusion(r.states[n], a);
    }
  }

  /**
   * Handling is exclusive throughout a run if and only if no job is ever dequeued while a delivery
   * of it is open that has overrun its lease.
   */
  lemma {:induction false} ExclusiveExactlyWhenInTime(r: Run, n: nat)
    requires IsRun(r) && n < |r.states|
    ensures ExclusiveUpTo(r, n) <==> forall i :: 0 <= i < n ==> FetchedInTime(r, i)
  {
    if n > 0 {
      ExclusiveExactlyWhenInTime(r, n - 1);
      if ExclusiveUpTo(r, n - 1) {
        StepExclusion(r, n - 1);
      }
    }
  }

  /** As long as handling was exclusive, no job was acked twice. */
  lemma {:induction false} ExclusiveMeansAckedOnce(r: Run, n: nat)
    requires IsRun(r) && n < |r.states| && forall i :: 0 <= i < n ==> NoOverlap(r.states[i])
    ensures AckedOnce(r.states[n].log)
  {
    if n > 0 {
      ExclusiveMeansAckedOnce(r, n - 1);
      UnreportedAlways(r, n - 1);
      AckKeepsOnce(r.states[n - 1], r.actions[n - 1]);
    }
  }

  lemma AckKeepsOnce(s: System, a: Action)
    requires Enabled(s, a) && AckedOnce(s.log) && AllUnreported(s)
    ensures AckedOnce(Apply(s, a).log)
  {
    if a.DoReturn? {
      assert OpenFor(s, a.delivery, s.log[a.delivery].id);
    }
  }

  // ----- and once it was not, a second ack is possible -----

  ghost predicate Continues(r: Run, t: Run) {
    r.states <= t.states && r.actions <= t.actions
  }

  lemma ContinuesByStep(r: Run, a: Action)
    requires IsRun(r) && Enabled(Last(r), a)
    ensures IsRun(Then(r, a)) && Last(Then(r, a)) == Apply(Last(r), a) && Continues(r, Then(r, a))
  {
    ThenIsRun(r, a);
  }

  /** A fetched delivery can be handed to a handler, if need be by registering one. */
  lemma Dispatched(r: Run, d: nat) returns (t: Run)
    requires IsRun(r) && d in Last(r).fetched && IsDelivery(Last(r).log, d)
    ensures IsRun(t) && Continues(r, t) && d in Last(t).running && OpenOnes(Last(t)) == OpenOnes(Last(r))
    ensures Last(t).log == Last(r).log && Last(t).store == Last(r).store
  {
    var s := Last(r);
    var wire := DoRegister(s.log[d].worker, s.log[d].typ);
    ContinuesByStep(r, wire);
    t := Then(r, wire);
    assert s.log[d].typ in TypesOf(Last(t).handlers, s.log[d].worker);
    ContinuesByStep(t, DoDispatch(d));
    t := Then(t, DoDispatch(d));
  }

  lemma AckRunning(r: Run, d: nat) returns (t: Run)
    requires IsRun(r) && d in Last(r).running && d !in Last(r).fetched && IsDelivery(Last(r).log, d)
    ensures IsRun(t) && Continues(r, t) && OpenOnes(Last(t)) == OpenOnes(Last(r)) - {d}
    ensures Last(t).log == Last(r).log + [Acked(d, Last(r).log[d].id, Last(r).store.now)]
  {
    ContinuesByStep(r, DoReturn(d, true));
    t := Then(r, DoReturn(d, true));
  }

  lemma FetchedAreNotRunning(r: Run)
    requires IsRun(r)
    ensures Last(r).fetched !! Last(r).running
  {
    InvAlways(r, |r.states| - 1);
  }

  /** Any open delivery can still be acked. */
  lemma AckOpen(r: Run, d: nat, id: string) returns (t: Run)
    requires IsRun(r) && OpenFor(Last(r), d, id)
    ensures IsRun(t) && Continues(r, t) && OpenOnes(Last(t)) == OpenOnes(Last(r)) - {d}
    ensures Last(t).log == Last(r).log + [Acked(d, id, Last(r).store.now)]
  {
    t := r;
    if d in Last(r).fetched {
      t := Dispatched(r, d);
    }
    FetchedAreNotRunning(t);
    t := AckRunning(t, d);
  }

  /** From every reachable overlap the run can go on to two acks of the job. */
  lemma OverlapCanAckTwice(r: Run) returns (t: Run)
    requires IsRun(r) && !NoOverlap(Last(r))
    ensures IsRun(t) && Continues(r, t) && !AckedOnce(Last(t).log)
  {
    var s := Last(r);
    var d: nat, e: nat, id :| OpenFor(s, d, id) && OpenFor(s, e, id) && d != e;
    var mid := AckOpen(r, d, id);
    assert Last(mid).log[e] == s.log[e];
    t := AckOpen(mid, e, id);
    var log := Last(t).log;
    assert log[|s.log|] == Acked(d, id, s.store.now) && log[|s.log| + 1].Acked? && log[|s.log| + 1].id == id;
  }
}
