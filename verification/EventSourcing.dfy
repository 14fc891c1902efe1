// Event-sourced aggregates (eventsourcing/aggregate.go over domain/aggregate.go): raising events,
// replaying history, and writers that append to shared streams under optimistic concurrency.

module EventSourcing {
  import opened Base

  /** What applying an event does; an apply that fails may still have touched the state. */
  datatype Applied<+S> = Applied(state: S, ok: bool)

  type Applier<!S, !E> = (S, E) -> Applied<S>

  datatype Aggregate<+S, +E> = Aggregate(state: S, version: int, events: seq<E>)

  function Fresh<S, E>(initial: S): Aggregate<S, E> {
    Aggregate(initial, 0, [])
  }

  function Raise<S, E>(a: Aggregate<S, E>, e: E, apply: Applier<S, E>): (Aggregate<S, E>, bool) {
    var r := apply(a.state, e);
    if r.ok then (Aggregate(r.state, a.version + 1, a.events + [e]), true) else (a.(state := r.state), false)
  }

  /** Applying stops at the first failure; only a complete load clears what was pending. */
  function LoadHistory<S, E>(a: Aggregate<S, E>, events: seq<E>, apply: Applier<S, E>): (Aggregate<S, E>, bool)
    decreases |events|
  {
    if events == [] then (a.(events := []), true)
    else
      var r := apply(a.state, events[0]);
      if !r.ok then (a.(state := r.state), false)
      else LoadHistory(a.(state := r.state, version := a.version + 1), events[1..], apply)
  }

  /** The state a stream replays to, if it replays at all. */
  function Replay<S, E>(s: S, events: seq<E>, apply: Applier<S, E>): Option<S>
    decreases |events|
  {
    if events == [] then Some(s)
    else var r := apply(s, events[0]); if r.ok then Replay(r.state, events[1..], apply) else None
  }

  // ----- replay -----

  lemma {:induction false} ReplayJoin<S, E>(s: S, xs: seq<E>, ys: seq<E>, apply: Applier<S, E>)
    ensures Replay(s, xs + ys, apply)
            == match Replay(s, xs, apply) { case None => None case Some(t) => Replay(t, ys, apply) }
    decreases |xs|
  {
    if xs == [] {
      assert xs + ys == ys;
    } else {
      assert (xs + ys)[1..] == xs[1..] + ys;
      var r := apply(s, xs[0]);
      if r.ok {
        ReplayJoin(r.state, xs[1..], ys, apply);
      }
    }
  }

  /** Loading is replaying: it succeeds exactly when the events replay, and then nothing is pending. */
  lemma {:induction false} LoadIsReplay<S, E>(a: Aggregate<S, E>, events: seq<E>, apply: Applier<S, E>)
    ensures LoadHistory(a, events, apply).1 <==> Replay(a.state, events, apply).Some?
    ensures LoadHistory(a, events, apply).1 ==>
              LoadHistory(a, events, apply).0 == Aggregate(Replay(a.state, events, apply).value, a.version + |events|, [])
    ensures !LoadHistory(a, events, apply).1 ==> LoadHistory(a, events, apply).0.events == a.events
    decreases |events|
  {
    if events != [] && apply(a.state, events[0]).ok {
      LoadIsReplay(a.(state := apply(a.state, events[0]).state, version := a.version + 1), events[1..], apply);
    }
  }

  /** A load that fails stops at the first event that is rejected: what came before it is applied and counted, nothing after. */
  lemma {:induction false} FailedLoadStops<S, E>(a: Aggregate<S, E>, events: seq<E>, apply: Applier<S, E>) returns (k: nat)
    requires !LoadHistory(a, events, apply).1
    ensures k < |events| && Replay(a.state, events[..k], apply).Some?
    ensures var r := apply(Replay(a.state, events[..k], apply).value, events[k]);
            !r.ok && LoadHistory(a, events, apply).0 == Aggregate(r.state, a.version + k, a.events)
    decreases |events|
  {
    var r := apply(a.state, events[0]);
    k := 0;
    if r.ok {
      k := FailedLoadStops(a.(state := r.state, version := a.version + 1), events[1..], apply);
      k := k + 1;
      assert events[..k][1..] == events[1..][..k - 1];
    }
  }

  function Flatten<E>(chunks: seq<seq<E>>): seq<E> {
    if chunks == [] then [] else chunks[0] + Flatten(chunks[1..])
  }

  /** Loads chunk after chunk, stopping at the first that fails. */
  function LoadChunks<S, E>(a: Aggregate<S, E>, chunks: seq<seq<E>>, apply: Applier<S, E>): (Aggregate<S, E>, bool)
    decreases |chunks|
  {
    if chunks == [] then (a, true)
    else
      var (b, ok) := LoadHistory(a, chunks[0], apply);
      if ok then LoadChunks(b, chunks[1..], apply) else (b, false)
  }

  /** It does not matter how a history is cut into chunks. */
  lemma {:induction false} ChunkingIsIrrelevant<S, E>(a: Aggregate<S, E>, chunks: seq<seq<E>>, apply: Applier<S, E>)
    requires a.events == []
    ensures LoadChunks(a, chunks, apply).1 <==> Replay(a.state, Flatten(chunks), apply).Some?
    ensures LoadChunks(a, chunks, apply).1 ==>
              LoadChunks(a, chunks, apply).0
              == Aggregate(Replay(a.state, Flatten(chunks), apply).value, a.version + |Flatten(chunks)|, [])
    decreases |chunks|
  {
    if chunks != [] {
      LoadIsReplay(a, chunks[0], apply);
      ReplayJoin(a.state, chunks[0], Flatten(chunks[1..]), apply);
      var (b, ok) := LoadHistory(a, chunks[0], apply);
      if ok {
        ChunkingIsIrrelevant(b, chunks[1..], apply);
      }
    }
  }

  // ----- raising events on a loaded aggregate -----

  /** Raises one event after the other, whether accepted or rejected. */
  function RaiseAll<S, E>(a: Aggregate<S, E>, events: seq<E>, apply: Applier<S, E>): Aggregate<S, E>
    decreases |events|
  {
    if events == [] then a else RaiseAll(Raise(a, events[0], apply).0, events[1..], apply)
  }

  /** Raising never changes the version an append would expect. */
  lemma {:induction false} ExpectedVersionIsStable<S, E>(a: Aggregate<S, E>, events: seq<E>, apply: Applier<S, E>)
    ensures var b := RaiseAll(a, events, apply); b.version - |b.events| == a.version - |a.events|
    decreases |events|
  {
    if events != [] {
      ExpectedVersionIsStable(Raise(a, events[0], apply).0, events[1..], apply);
    }
  }

  /** A rejected event leaves every state the history can reach as it was. */
  ghost predicate RejectionsAreClean<S, E(!new)>(initial: S, apply: Applier<S, E>) {
    forall h: seq<E>, e: E :: CleanAt(initial, h, e, apply)
  }

  ghost predicate CleanAt<S, E>(initial: S, h: seq<E>, e: E, apply: Applier<S, E>) {
    Replay(initial, h, apply).Some? ==>
      var s := Replay(initial, h, apply).value; apply(s, e).ok || apply(s, e).state == s
  }

  /** Loading the history and what is pending gives back the aggregate, with nothing pending. */
  ghost predicate Reloads<S, E>(initial: S, h: seq<E>, raised: seq<E>, apply: Applier<S, E>) {
    Replay(initial, h, apply).Some? ==>
      var a := RaiseAll(LoadHistory(Fresh(initial), h, apply).0, raised, apply);
      LoadHistory(Fresh(initial), h + a.events, apply) == (a.(events := []), true)
  }

  ghost predicate AlwaysReloads<S, E(!new)>(initial: S, apply: Applier<S, E>) {
    forall h: seq<E>, raised: seq<E> :: Reloads(initial, h, raised, apply)
  }

  /** The aggregate is what its history and its pending events replay to. */
  ghost predicate InStep<S, E>(initial: S, h: seq<E>, a: Aggregate<S, E>, apply: Applier<S, E>) {
    a.version == |h| + |a.events| && Replay(initial, h + a.events, apply) == Some(a.state)
  }

  lemma RaiseKeepsInStep<S, E(!new)>(initial: S, h: seq<E>, a: Aggregate<S, E>, e: E, apply: Applier<S, E>)
    requires RejectionsAreClean(initial, apply) && InStep(initial, h, a, apply)
    ensures InStep(initial, h, Raise(a, e, apply).0, apply)
  {
    assert CleanAt(initial, h + a.events, e, apply);
    if apply(a.state, e).ok {
      assert h + (a.events + [e]) == (h + a.events) + [e];
      ReplayJoin(initial, h + a.events, [e], apply);
      assert [e][1..] == [];
    }
  }

  lemma {:induction false} RaisesKeepInStep<S, E(!new)>(initial: S, h: seq<E>, a: Aggregate<S, E>, raised: seq<E>, apply: Applier<S, E>)
    requires RejectionsAreClean(initial, apply) && InStep(initial, h, a, apply)
    ensures InStep(initial, h, RaiseAll(a, raised, apply), apply)
    decreases |raised|
  {
    if raised != [] {
      RaiseKeepsInStep(initial, h, a, raised[0], apply);
      RaisesKeepInStep(initial, h, Raise(a, raised[0], apply).0, raised[1..], apply);
    }
  }

  /**
   * A loaded aggregate taken through any mix of accepted and rejected events can be rebuilt from
   * its history and its pending events, for every history and every mix, exactly when a rejected
   * event leaves the states a history reaches as they were.
   */
  lemma ReloadsExactlyWhenClean<S, E(!new)>(initial: S, apply: Applier<S, E>)
    ensures AlwaysReloads(initial, apply) <==> RejectionsAreClean(initial, apply)
  {
    if RejectionsAreClean(initial, apply) {
      forall h: seq<E>, raised: seq<E>
        ensures Reloads(initial, h, raised, apply)
      {
        if Replay(initial, h, apply).Some? {
          var a := LoadHistory(Fresh(initial), h, apply).0;
          LoadIsReplay(Fresh(initial), h, apply);
          assert h + [] == h;
          RaisesKeepInStep(initial, h, a, raised, apply);
          LoadIsReplay(Fresh(initial), h + RaiseAll(a, raised, apply).events, apply);
        }
      }
    }
    if AlwaysReloads(initial, apply) {
      forall h: seq<E>, e: E
        ensures CleanAt(initial, h, e, apply)
      {
        if Replay(initial, h, apply).Some? && !apply(Replay(initial, h, apply).value, e).ok {
          assert Reloads(initial, h, [e], apply);
          LoadIsReplay(Fresh(initial), h, apply);
          var a := LoadHistory(Fresh(initial), h, apply).0;
          assert RaiseAll(a, [e], apply) == Raise(a, e, apply).0 by {
            assert [e][1..] == [];
          }
          assert h + [] == h;
        }
      }
    }
  }

  /** An apply that counts its input before rejecting it: the rebuilt aggregate differs. */
  lemma DirtyRejectionIsLost()
    ensures !AlwaysReloads(0, (s: int, e: int) => Applied(s + e, e == 0))
  {
    var apply := (s: int, e: int) => Applied(s + e, e == 0);
    assert !CleanAt(0, [], 1, apply);
    ReloadsExactlyWhenClean(0, apply);
  }

  // ----- rejections that do no harm -----

  /** Where rejected events lead from s; None as soon as one of them is accepted. */
  function Drift<S, E>(s: S, events: seq<E>, apply: Applier<S, E>): Option<S>
    decreases |events|
  {
    if events == [] then Some(s)
    else var r := apply(s, events[0]); if r.ok then None else Drift(r.state, events[1..], apply)
  }

  /** After h was replayed and then es rejected, e is accepted only in the state h replays to. */
  ghost predicate HarmlessAt<S, E>(initial: S, h: seq<E>, es: seq<E>, e: E, apply: Applier<S, E>) {
    Replay(initial, h, apply).Some? && Drift(Replay(initial, h, apply).value, es, apply).Some? ==>
      var s := Replay(initial, h, apply).value;
      var t := Drift(s, es, apply).value;
      apply(t, e).ok ==> t == s
  }

  /** Rejected events may touch a state the history can reach, but then nothing is accepted before it is as it was. */
  ghost predicate RejectionsAreHarmless<S, E(!new)>(initial: S, apply: Applier<S, E>) {
    forall h: seq<E>, es: seq<E>, e: E :: HarmlessAt(initial, h, es, e, apply)
  }

  lemma {:induction false} DriftGoesOn<S, E>(s: S, es: seq<E>, e: E, apply: Applier<S, E>)
    requires Drift(s, es, apply).Some? && !apply(Drift(s, es, apply).value, e).ok
    ensures Drift(s, es + [e], apply) == Some(apply(Drift(s, es, apply).value, e).state)
    decreases |es|
  {
    if es == [] {
      assert ([] + [e])[1..] == [];
    } else {
      assert (es + [e])[1..] == es[1..] + [e];
      DriftGoesOn(apply(s, es[0]).state, es[1..], e, apply);
    }
  }

  lemma {:induction false} CleanDoesNotDrift<S, E(!new)>(initial: S, h: seq<E>, es: seq<E>, apply: Applier<S, E>)
    requires RejectionsAreClean(initial, apply) && Replay(initial, h, apply).Some?
    ensures var s := Replay(initial, h, apply).value; Drift(s, es, apply).Some? ==> Drift(s, es, apply).value == s
    decreases |es|
  {
    if es != [] {
      assert CleanAt(initial, h, es[0], apply);
      CleanDoesNotDrift(initial, h, es[1..], apply);
    }
  }

  lemma CleanIsHarmless<S, E(!new)>(initial: S, apply: Applier<S, E>)
    requires RejectionsAreClean(initial, apply)
    ensures RejectionsAreHarmless(initial, apply)
  {
    forall h: seq<E>, es: seq<E>, e: E
      ensures HarmlessAt(initial, h, es, e, apply)
    {
      if Replay(initial, h, apply).Some? {
        CleanDoesNotDrift(initial, h, es, apply);
      }
    }
  }

  /** An apply that breaks for good at the first event it rejects. */
  function Brittle(s: int, e: int): Applied<int> {
    if s == 0 && e > 0 then Applied(0, true) else Applied(1, false)
  }

  lemma {:induction false} BrittleReplays(h: seq<int>)
    ensures Replay(0, h, Brittle).Some? ==> Replay(0, h, Brittle).value == 0
    decreases |h|
  {
    if h != [] {
      BrittleReplays(h[1..]);
    }
  }

  /** Harmless is less than clean. */
  lemma HarmlessNeedNotBeClean()
    ensures RejectionsAreHarmless(0, Brittle) && !RejectionsAreClean(0, Brittle)
  {
    forall h: seq<int>, es: seq<int>, e: int
      ensures HarmlessAt(0, h, es, e, Brittle)
    {
      BrittleReplays(h);
    }
    assert !CleanAt(0, [], 0, Brittle);
  }
}
