// What every run of the idempotency store guarantees, read off the replies alone.

module IdempotencyRuns {
  import opened Base
  import opened Idempotency
  import Decimal

  // ----- what the replies of a run say about a key -----

  ghost predicate On(r: Run, i: int, k: Key)
    requires IsRun(r)
  {
    0 <= i < |r.calls| && KeyOf(r.calls[i].req) == k
  }

  /** Call i reserved k. */
  ghost predicate IsNew(r: Run, i: int, k: Key)
    requires IsRun(r)
  {
    On(r, i, k) && r.replies[i].Reserved? && r.replies[i].res.status == StatusNew
  }

  ghost predicate FinishedAt(r: Run, i: int, k: Key)
    requires IsRun(r)
  {
    On(r, i, k) && r.calls[i].req.Finish? && r.replies[i] == Applied
  }

  ghost predicate CancelledAt(r: Run, i: int, k: Key)
    requires IsRun(r)
  {
    On(r, i, k) && r.calls[i].req.Cancel? && r.replies[i] == Applied
  }

  ghost predicate ClosedBetween(r: Run, i: int, j: int, k: Key)
    requires IsRun(r)
  {
    exists m :: i < m < j && (FinishedAt(r, m, k) || CancelledAt(r, m, k))
  }

  ghost predicate CancelledBetween(r: Run, i: int, j: int, k: Key)
    requires IsRun(r)
  {
    exists m :: i < m < j && CancelledAt(r, m, k)
  }

  ghost predicate FinishedBefore(r: Run, j: int, k: Key)
    requires IsRun(r)
  {
    exists m :: 0 <= m < j && FinishedAt(r, m, k)
  }

  /** At call j the reservation made by call i has outlived the store's reclaim point. */
  ghost predicate Aged(r: Run, i: int, j: int)
    requires IsRun(r) && 0 <= i < |r.calls| && 0 <= j < |r.calls|
  {
    var after := r.stores[0].reclaimAfter;
    after > 0 && r.calls[j].at - r.calls[i].stamp >= after
  }

  /** Call j is well formed and its context is live. */
  ghost predicate Proper(r: Run, j: int)
    requires IsRun(r) && 0 <= j < |r.calls|
  {
    !r.calls[j].ctxDone && !Malformed(r.calls[j].req)
  }

  // ----- single steps -----

  lemma StepAt(r: Run, i: int)
    requires IsRun(r) && 0 <= i < |r.calls|
    ensures r.stores[i + 1] == Step(r.stores[i], r.calls[i]).0 && r.replies[i] == Step(r.stores[i], r.calls[i]).1
  {
    assert (r.stores[i + 1], r.replies[i]) == Step(r.stores[i], r.calls[i]);
  }

  lemma StepIsLocal(s: Store, c: Call, k: Key)
    requires KeyOf(c.req) != k
    ensures var t := Step(s, c).0;
            (k in t.entries <==> k in s.entries) && (k in s.entries ==> t.entries[k] == s.entries[k])
  {
  }

  lemma {:induction false} SameReclaimPoint(r: Run, n: nat)
    requires IsRun(r) && n < |r.stores|
    ensures r.stores[n].reclaimAfter == r.stores[0].reclaimAfter
  {
    if n > 0 {
      SameReclaimPoint(r, n - 1);
      StepAt(r, n - 1);
    }
  }

  lemma {:induction false} SequenceGrows(r: Run, i: nat, j: nat)
    requires IsRun(r) && i <= j < |r.stores|
    ensures r.stores[i].seqNo <= r.stores[j].seqNo
    decreases j - i
  {
    if i < j {
      SequenceGrows(r, i, j - 1);
      StepAt(r, j - 1);
    }
  }

  /** What a reservation leaves in the store. */
  lemma NewEntry(r: Run, i: int, k: Key)
    requires IsRun(r) && IsNew(r, i, k)
    ensures r.calls[i].req.Begin? && Proper(r, i)
    ensures r.replies[i].res.leaseToken == Token(r.stores[i + 1].seqNo) && r.stores[i + 1].seqNo == r.stores[i].seqNo + 1
    ensures k in r.stores[i + 1].entries
    ensures r.stores[i + 1].entries[k]
            == Entry(r.calls[i].req.fingerprint, r.replies[i].res.leaseToken, StatusInProgress, Nil, r.calls[i].stamp)
  {
    StepAt(r, i);
  }

  /** What the client of a new reservation is told: its own scope and key, a token, a minute, and no bytes. */
  lemma NewReservation(r: Run, i: int, k: Key)
    requires IsRun(r) && IsNew(r, i, k)
    ensures r.replies[i].res.leaseToken == "lease-" + Decimal.Itoa(r.stores[i].seqNo + 1) != ""
    ensures r.replies[i].res == Reservation(k.scope, k.key, r.replies[i].res.leaseToken, 60_000_000_000, StatusNew, Nil)
  {
    StepAt(r, i);
    assert Token(r.stores[i].seqNo + 1)[0] == 'l';
  }

  /** No token is ever issued twice, to any key. */
  lemma TokensAreUnique(r: Run, i: int, k: Key, j: int, l: Key)
    requires IsRun(r) && IsNew(r, i, k) && IsNew(r, j, l) && i != j
    ensures r.replies[i].res.leaseToken != r.replies[j].res.leaseToken
  {
    NewEntry(r, i, k);
    NewEntry(r, j, l);
    if r.replies[i].res.leaseToken == r.replies[j].res.leaseToken {
      Decimal.TaggedInjective("lease-", r.stores[i + 1].seqNo, r.stores[j + 1].seqNo);
      if i < j {
        SequenceGrows(r, i + 1, j);
      } else {
        SequenceGrows(r, j + 1, i);
      }
      assert false;
    }
  }

  /** A done context is reported before anything else, malformed input next, and neither changes the store. */
  lemma RejectedExactlyWhenBad(r: Run, j: nat)
    requires IsRun(r) && j < |r.calls|
    ensures var c := r.calls[j];
            var bad := c.req.scope == "" || c.req.key == ""
                       || (if c.req.Begin? then c.req.fingerprint == "" else c.req.leaseToken == "");
            && (r.replies[j] == ContextError <==> c.ctxDone)
            && (r.replies[j] == InvalidArgument <==> !c.ctxDone && bad)
            && (c.ctxDone || bad ==> r.stores[j + 1] == r.stores[j])
            && (Proper(r, j) <==> !c.ctxDone && !bad)
  {
    StepAt(r, j);
  }

  // ----- forward: what a reservation and a finish keep true -----

  lemma AgedLater(r: Run, i: int, m: int, j: int)
    requires IsRun(r) && 0 <= i < |r.calls| && 0 <= m <= j < |r.calls| && Aged(r, i, m)
    ensures Aged(r, i, j)
  {
    if m < j {
      assert r.calls[m].stamp <= r.calls[j].at;
    }
  }

  /** Until it is finished, cancelled or too old, a reservation is exactly what the store holds for its key. */
  lemma {:induction false} ReservationHolds(r: Run, i: nat, j: nat, k: Key)
    requires IsRun(r) && IsNew(r, i, k) && i < j < |r.stores|
    requires !ClosedBetween(r, i, j, k) && forall m :: i < m < j ==> !Aged(r, i, m)
    ensures k in r.stores[j].entries && r.stores[j].entries[k] == r.stores[i + 1].entries[k]
    decreases j - i
  {
    NewEntry(r, i, k);
    if j > i + 1 {
      ReservationHolds(r, i, j - 1, k);
      StepAt(r, j - 1);
      SameReclaimPoint(r, j - 1);
      if KeyOf(r.calls[j - 1].req) != k {
        StepIsLocal(r.stores[j - 1], r.calls[j - 1], k);
      } else {
        assert !Aged(r, i, j - 1);
        assert !(FinishedAt(r, j - 1, k) || CancelledAt(r, j - 1, k));
      }
    }
  }

  /** A finished key stays finished, with the bytes of that finish. */
  lemma {:induction false} FinishHolds(r: Run, f: nat, j: nat, k: Key)
    requires IsRun(r) && FinishedAt(r, f, k) && f < j < |r.stores|
    ensures k in r.stores[f].entries
    ensures k in r.stores[j].entries
    ensures r.stores[j].entries[k]
            == r.stores[f].entries[k].(status := StatusCompleted, response := r.calls[f].req.response, leaseToken := "")
    decreases j - f
  {
    if j == f + 1 {
      StepAt(r, f);
    } else {
      FinishHolds(r, f, j - 1, k);
      StepAt(r, j - 1);
      if KeyOf(r.calls[j - 1].req) != k {
        StepIsLocal(r.stores[j - 1], r.calls[j - 1], k);
      }
    }
  }

  // ----- backward: where an entry came from -----

  /** Call i made the reservation that the store holds for k at n. */
  ghost predicate Opened(r: Run, i: int, n: int, k: Key)
    requires IsRun(r) && 0 <= n < |r.stores|
  {
    && i < n && IsNew(r, i, k) && !ClosedBetween(r, i, n, k)
    && k in r.stores[n].entries && r.stores[n].entries[k] == r.stores[i + 1].entries[k]
  }

  lemma {:induction false} InProgressOrigin(r: Run, n: nat, k: Key) returns (i: nat)
    requires IsRun(r) && n < |r.stores| && k in r.stores[n].entries && r.stores[n].entries[k].status == StatusInProgress
    ensures Opened(r, i, n, k)
  {
    StepAt(r, n - 1);
    if IsNew(r, n - 1, k) {
      i := n - 1;
    } else {
      if KeyOf(r.calls[n - 1].req) != k {
        StepIsLocal(r.stores[n - 1], r.calls[n - 1], k);
      }
      i := InProgressOrigin(r, n - 1, k);
      forall m | i < m < n
        ensures !FinishedAt(r, m, k) && !CancelledAt(r, m, k)
      {
        assert m < n - 1 || m == n - 1;
      }
    }
  }

  lemma {:induction false} CompletedOrigin(r: Run, n: nat, k: Key) returns (f: nat)
    requires IsRun(r) && n < |r.stores| && k in r.stores[n].entries && r.stores[n].entries[k].status != StatusInProgress
    ensures f < n && FinishedAt(r, f, k)
  {
    StepAt(r, n - 1);
    if FinishedAt(r, n - 1, k) {
      f := n - 1;
    } else {
      if KeyOf(r.calls[n - 1].req) != k {
        StepIsLocal(r.stores[n - 1], r.calls[n - 1], k);
      }
      f := CompletedOrigin(r, n - 1, k);
    }
  }

  // ----- main results -----

  /** The reservation i of k may still be concluded at call j: nothing concluded it since and it is not too old. */
  ghost predicate Open(r: Run, i: int, j: int, k: Key)
    requires IsRun(r) && 0 <= j < |r.calls|
  {
    0 <= i < j && IsNew(r, i, k) && !ClosedBetween(r, i, j, k) && !Aged(r, i, j)
  }

  lemma OpenIsHeld(r: Run, i: nat, j: nat, k: Key)
    requires IsRun(r) && j < |r.calls| && Open(r, i, j, k)
    ensures k in r.stores[j].entries && r.stores[j].entries[k] == r.stores[i + 1].entries[k]
    ensures Swept(r.stores[j], k, r.calls[j].at) == r.stores[j]
  {
    forall m | i < m < j
      ensures !Aged(r, i, m)
    {
      if Aged(r, i, m) {
        AgedLater(r, i, m, j);
      }
    }
    ReservationHolds(r, i, j, k);
    NewEntry(r, i, k);
    SameReclaimPoint(r, j);
  }

  /**
   * Finish and Cancel are authorised by the token alone: the call is applied exactly when its
   * token is the one of an open reservation of that very key.
   */
  lemma ConcludesExactlyWhenOpen(r: Run, j: nat, k: Key)
    requires IsRun(r) && On(r, j, k) && Proper(r, j) && !r.calls[j].req.Begin?
    ensures r.replies[j] == Applied
            <==> exists i :: Open(r, i, j, k) && r.replies[i].res.leaseToken == r.calls[j].req.leaseToken
    ensures r.replies[j] == Applied || r.replies[j] == Conflict
  {
    StepAt(r, j);
    if r.replies[j] == Applied {
      var i := InProgressOrigin(r, j, k);
      NewEntry(r, i, k);
      SameReclaimPoint(r, j);
      assert Open(r, i, j, k) && r.replies[i].res.leaseToken == r.calls[j].req.leaseToken;
    }
    if exists i :: Open(r, i, j, k) && r.replies[i].res.leaseToken == r.calls[j].req.leaseToken {
      var i :| Open(r, i, j, k) && r.replies[i].res.leaseToken == r.calls[j].req.leaseToken;
      OpenIsHeld(r, i, j, k);
      NewEntry(r, i, k);
    }
  }

  /** Call j passes back the reservation that call i was given. */
  ghost predicate PassesBack(r: Run, i: int, j: int)
    requires IsRun(r) && 0 <= i < |r.calls| && 0 <= j < |r.calls|
  {
    && r.replies[i].Reserved? && !r.calls[j].req.Begin? && !r.calls[j].ctxDone
    && var res, req := r.replies[i].res, r.calls[j].req;
    req.scope == res.scope && req.key == res.key && req.leaseToken == res.leaseToken
  }

  /** A client that passes back exactly the reservation it was given succeeds if and only if the reservation is still open. */
  lemma HonestClientConcludes(r: Run, i: nat, j: nat, k: Key)
    requires IsRun(r) && IsNew(r, i, k) && i < j < |r.calls| && PassesBack(r, i, j)
    ensures r.replies[j] == Applied <==> Open(r, i, j, k)
  {
    NewReservation(r, i, k);
    StepAt(r, i);
    ConcludesExactlyWhenOpen(r, j, k);
    if r.replies[j] == Applied {
      var m :| Open(r, m, j, k) && r.replies[m].res.leaseToken == r.calls[j].req.leaseToken;
      if m != i {
        TokensAreUnique(r, m, k, i, k);
      }
    }
  }

  /** Reservation i of k has been given up before call j: cancelled, or too old. */
  ghost predicate GivenUp(r: Run, i: int, j: int, k: Key)
    requires IsRun(r) && 0 <= i < |r.calls| && 0 <= j < |r.calls|
  {
    CancelledBetween(r, i, j, k) || Aged(r, i, j)
  }

  /**
   * A well-formed live Begin reserves exactly when the key was never finished and every earlier
   * reservation of it was cancelled or has outlived the reclaim point. So two reservations of a key
   * are always separated that way, and an abandoned key always becomes available again.
   */
  lemma ReservesExactlyWhenFree(r: Run, j: nat, k: Key)
    requires IsRun(r) && On(r, j, k) && Proper(r, j) && r.calls[j].req.Begin?
    ensures IsNew(r, j, k)
            <==> !FinishedBefore(r, j, k) && forall i :: 0 <= i < j && IsNew(r, i, k) ==> GivenUp(r, i, j, k)
  {
    if IsNew(r, j, k) {
      forall f | 0 <= f < j
        ensures !FinishedAt(r, f, k)
      {
        if FinishedAt(r, f, k) {
          FinishHolds(r, f, j, k);
          StepAt(r, j);
          assert false;
        }
      }
      forall i | 0 <= i < j && IsNew(r, i, k)
        ensures GivenUp(r, i, j, k)
      {
        if !ClosedBetween(r, i, j, k) && !Aged(r, i, j) {
          OpenIsHeld(r, i, j, k);
          NewEntry(r, i, k);
          StepAt(r, j);
          assert false;
        }
      }
    } else {
      StepAt(r, j);
      assert k in Swept(r.stores[j], k, r.calls[j].at).entries;
      if r.stores[j].entries[k].status == StatusInProgress {
        var i := InProgressOrigin(r, j, k);
        NewEntry(r, i, k);
        SameReclaimPoint(r, j);
        assert !Aged(r, i, j) && !CancelledBetween(r, i, j, k);
      } else {
        var f := CompletedOrigin(r, j, k);
        assert FinishedBefore(r, j, k);
      }
    }
  }

  /**
   * A well-formed live Begin on a held key is told so without token or bytes: in progress to the
   * fingerprint that reserved, a mismatch to any other.
   */
  lemma HeldKeyAnswers(r: Run, i: nat, j: nat, k: Key)
    requires IsRun(r) && On(r, j, k) && Proper(r, j) && r.calls[j].req.Begin? && Open(r, i, j, k)
    ensures r.calls[i].req.Begin?
    ensures r.replies[j] == Reserved(Reservation(k.scope, k.key, "", 0,
              if r.calls[j].req.fingerprint == r.calls[i].req.fingerprint then StatusInProgress else StatusMismatch, Nil))
  {
    OpenIsHeld(r, i, j, k);
    NewEntry(r, i, k);
    StepAt(r, j);
  }

  /** There is no other case: a key that was never finished is held by an open reservation or free, and Begin reserves exactly the free ones. */
  lemma BeginIsDecided(r: Run, j: nat, k: Key)
    requires IsRun(r) && On(r, j, k) && Proper(r, j) && r.calls[j].req.Begin?
    ensures IsNew(r, j, k) <==> !FinishedBefore(r, j, k) && !exists i :: Open(r, i, j, k)
  {
    ReservesExactlyWhenFree(r, j, k);
    if !IsNew(r, j, k) && !FinishedBefore(r, j, k) {
      var i :| 0 <= i < j && IsNew(r, i, k) && !GivenUp(r, i, j, k);
      assert Open(r, i, j, k);
    }
  }

  /**
   * At most one Finish of a key ever succeeds, and it concludes a reservation. From then on every
   * well-formed live Begin replays exactly its bytes to the fingerprint that reserved, and reports
   * a mismatch without bytes to any other; Cancel can no longer take the record away.
   */
  lemma FinishIsFinal(r: Run, f: nat, k: Key, j: nat) returns (i: nat)
    requires IsRun(r) && FinishedAt(r, f, k) && f < j && On(r, j, k) && Proper(r, j)
    ensures Open(r, i, f, k) && r.calls[i].req.Begin? && r.replies[i].res.leaseToken == r.calls[f].req.leaseToken
    ensures !r.calls[j].req.Begin? ==> r.replies[j] == Conflict
    ensures r.calls[j].req.Begin? ==>
              r.replies[j] == Reserved(
                if r.calls[j].req.fingerprint == r.calls[i].req.fingerprint
                then Reservation(k.scope, k.key, "", 0, StatusCompleted, r.calls[f].req.response)
                else Reservation(k.scope, k.key, "", 0, StatusMismatch, Nil))
  {
    StepAt(r, f);
    i := InProgressOrigin(r, f, k);
    NewEntry(r, i, k);
    SameReclaimPoint(r, f);
    FinishHolds(r, f, j, k);
    StepAt(r, j);
  }

  /**
   * An issued token that was used to finish or cancel, or that has outlived the reclaim point, is
   * dead: no later Finish or Cancel with it is applied, under any key.
   */
  lemma DeadTokensStayDead(r: Run, i: nat, k: Key, j: nat, l: Key)
    requires IsRun(r) && IsNew(r, i, k) && i < j && On(r, j, l) && !r.calls[j].req.Begin?
    requires r.calls[j].req.leaseToken == r.replies[i].res.leaseToken
    requires ClosedBetween(r, i, j, k) || Aged(r, i, j) || k != l
    ensures r.replies[j] != Applied
  {
    if r.replies[j] == Applied {
      StepAt(r, j);
      ConcludesExactlyWhenOpen(r, j, l);
      var n :| Open(r, n, j, l) && r.replies[n].res.leaseToken == r.calls[j].req.leaseToken;
      if n != i {
        TokensAreUnique(r, n, l, i, k);
      }
      assert false;
    }
  }
}
