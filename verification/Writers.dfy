// Any number of writers that load an aggregate, raise events on it and append them to its stream
// with the version they expect (eventsourcing/eventstore.go, eventsourcing/aggregate.go).

module Writers {
  import opened Base
  import opened EventSourcing

  const ANY_VERSION := -1

  /** froms are the states in which the pending events were raised, one for each. */
  datatype Writer<+S, +E> = Writer(stream: string, agg: Aggregate<S, E>, froms: seq<S>)

  /** An accepted append: its events, the version they were appended at, and the state each of them was raised in. */
  datatype Batch<+S, +E> = Batch(stream: string, base: int, events: seq<E>, froms: seq<S>)

  datatype System<+S, +E> = System(streams: map<string, seq<E>>, writers: map<nat, Writer<S, E>>, accepted: seq<Batch<S, E>>)

  datatype Action<+E> =
    | DoLoad(writer: nat, stream: string)
    | DoRaise(writer: nat, event: E)
    | DoAppend(writer: nat)

  function StreamOf<S, E>(s: System<S, E>, stream: string): seq<E> {
    if stream in s.streams then s.streams[stream] else []
  }

  /** The Append contract: the expected version is the stream's, or the check is skipped. */
  predicate Accepts<E>(stream: seq<E>, expected: int) {
    expected == ANY_VERSION || expected == |stream|
  }

  /** -1 skips the check, 0 asks for a stream that does not exist yet, and any other version has to be the stream's. */
  lemma AppendContract<E>(stream: seq<E>, expected: int)
    ensures Accepts(stream, -1) && (Accepts(stream, 0) <==> stream == [])
    ensures expected != -1 ==> (Accepts(stream, expected) <==> expected == |stream|)
  {
  }

  function Expected<S, E>(w: Writer<S, E>): int {
    w.agg.version - |w.agg.events|
  }

  predicate Enabled<S, E>(s: System<S, E>, a: Action<E>) {
    a.DoLoad? || a.writer in s.writers
  }

  /** An append of no events writes nothing, whether the store takes it or not. */
  predicate Appends<S, E>(s: System<S, E>, w: Writer<S, E>) {
    w.agg.events != [] && Accepts(StreamOf(s, w.stream), Expected(w))
  }

  function RaisedBy<S, E>(w: Writer<S, E>, e: E, apply: Applier<S, E>): Writer<S, E> {
    var (agg, ok) := Raise(w.agg, e, apply);
    Writer(w.stream, agg, if ok then w.froms + [w.agg.state] else w.froms)
  }

  function Apply<S, E>(s: System<S, E>, a: Action<E>, initial: S, apply: Applier<S, E>): System<S, E>
    requires Enabled(s, a)
  {
    match a
    case DoLoad(w, stream) =>
      var (agg, ok) := LoadHistory(Fresh(initial), StreamOf(s, stream), apply);
      if ok then s.(writers := s.writers[w := Writer(stream, agg, [])]) else s
    case DoRaise(w, e) => s.(writers := s.writers[w := RaisedBy(s.writers[w], e, apply)])
    case DoAppend(w) =>
      var writer := s.writers[w];
      if Appends(s, writer) then
        System(s.streams[writer.stream := StreamOf(s, writer.stream) + writer.agg.events],
               s.writers[w := writer.(agg := writer.agg.(events := []), froms := [])],
               s.accepted + [Batch(writer.stream, Expected(writer), writer.agg.events, writer.froms)])
      else s
  }

  datatype Run<+S, +E> = Run(states: seq<System<S, E>>, actions: seq<Action<E>>)

  ghost predicate IsRun<S, E>(r: Run<S, E>, initial: S, apply: Applier<S, E>) {
    && |r.states| == |r.actions| + 1
    && r.states[0] == System(map[], map[], [])
    && (forall i :: 0 <= i < |r.actions| ==>
          Enabled(r.states[i], r.actions[i]) && r.states[i + 1] == Apply(r.states[i], r.actions[i], initial, apply))
  }

  // ----- the invariant -----

  ghost predicate Replays<S, E>(s: System<S, E>, initial: S, apply: Applier<S, E>) {
    forall stream :: stream in s.streams ==> Replay(initial, s.streams[stream], apply).Some?
  }

  /** Every event was raised in the state that everything before it replays to. */
  ghost predicate RaisedInPlace<S, E>(initial: S, before: seq<E>, events: seq<E>, froms: seq<S>, apply: Applier<S, E>) {
    && |froms| == |events|
    && (forall i :: 0 <= i < |events| ==> Replay(initial, before + events[..i], apply) == Some(froms[i]))
    && Replay(initial, before + events, apply).Some?
  }

  /** s is where the events replay to, give or take what rejected events did to it since. */
  ghost predicate Drifted<S, E(!new)>(initial: S, events: seq<E>, s: S, apply: Applier<S, E>) {
    Replay(initial, events, apply).Some? && exists es: seq<E> :: Drift(Replay(initial, events, apply).value, es, apply) == Some(s)
  }

  /** A writer's pending events are in place after its own part of the stream, and its state has at most drifted. */
  ghost predicate Faithful<S, E(!new)>(s: System<S, E>, w: Writer<S, E>, initial: S, apply: Applier<S, E>) {
    var base := Expected(w);
    var stream := StreamOf(s, w.stream);
    && 0 <= base <= |stream|
    && RaisedInPlace(initial, stream[..base], w.agg.events, w.froms, apply)
    && Drifted(initial, stream[..base] + w.agg.events, w.agg.state, apply)
  }

  ghost predicate AllFaithful<S, E(!new)>(s: System<S, E>, initial: S, apply: Applier<S, E>) {
    forall w :: w in s.writers ==> Faithful(s, s.writers[w], initial, apply)
  }

  /** The accepted batches of a stream, joined in order. */
  function Joined<S, E>(accepted: seq<Batch<S, E>>, stream: string): seq<E> {
    if accepted == [] then []
    else
      var last := accepted[|accepted| - 1];
      Joined(accepted[..|accepted| - 1], stream) + if last.stream == stream then last.events else []
  }

  /** Batch p holds events, was appended where the batches before it ended, and each event was raised in the state the stream before it replays to. */
  ghost predicate InPlace<S, E>(accepted: seq<Batch<S, E>>, p: int, initial: S, apply: Applier<S, E>)
    requires 0 <= p < |accepted|
  {
    var before := Joined(accepted[..p], accepted[p].stream);
    && accepted[p].events != [] && accepted[p].base == |before|
    && RaisedInPlace(initial, before, accepted[p].events, accepted[p].froms, apply)
  }

  ghost predicate Tiled<S, E>(s: System<S, E>, initial: S, apply: Applier<S, E>) {
    && (forall stream :: StreamOf(s, stream) == Joined(s.accepted, stream))
    && (forall p :: 0 <= p < |s.accepted| ==> InPlace(s.accepted, p, initial, apply))
  }

  ghost predicate Inv<S, E(!new)>(s: System<S, E>, initial: S, apply: Applier<S, E>) {
    Replays(s, initial, apply) && AllFaithful(s, initial, apply) && Tiled(s, initial, apply)
  }

  /** Only writer x has changed. */
  lemma OnlyWriterChanged<S, E(!new)>(s: System<S, E>, t: System<S, E>, x: nat, w: Writer<S, E>, initial: S, apply: Applier<S, E>)
    requires Inv(s, initial, apply) && t == s.(writers := s.writers[x := w]) && Faithful(s, w, initial, apply)
    ensures Inv(t, initial, apply)
  {
    forall y | y in t.writers
      ensures Faithful(t, t.writers[y], initial, apply)
    {
      assert Faithful(s, t.writers[y], initial, apply);
    }
    assert forall stream :: StreamOf(t, stream) == StreamOf(s, stream);
  }

  lemma LoadedIsFaithful<S, E(!new)>(s: System<S, E>, stream: string, initial: S, apply: Applier<S, E>)
    requires Replay(initial, StreamOf(s, stream), apply).Some?
    ensures var (agg, ok) := LoadHistory(Fresh(initial), StreamOf(s, stream), apply);
            ok && Faithful(s, Writer(stream, agg, []), initial, apply)
  {
    var events := StreamOf(s, stream);
    LoadIsReplay(Fresh(initial), events, apply);
    var state := Replay(initial, events, apply).value;
    assert events[..|events|] + [] == events;
    assert Drift(state, [], apply) == Some(state);
  }

  lemma LoadKeepsInv<S, E(!new)>(s: System<S, E>, a: Action<E>, initial: S, apply: Applier<S, E>)
    requires Inv(s, initial, apply) && a.DoLoad?
    ensures Inv(Apply(s, a, initial, apply), initial, apply)
  {
    LoadedIsFaithful(s, a.stream, initial, apply);
    var agg := LoadHistory(Fresh(initial), StreamOf(s, a.stream), apply).0;
    OnlyWriterChanged(s, Apply(s, a, initial, apply), a.writer, Writer(a.stream, agg, []), initial, apply);
  }

  /** An event accepted in a state that has drifted is accepted in the state itself. */
  lemma AcceptedInPlace<S, E(!new)>(initial: S, h: seq<E>, s: S, e: E, apply: Applier<S, E>)
    requires RejectionsAreHarmless(initial, apply) && Drifted(initial, h, s, apply) && apply(s, e).ok
    ensures Replay(initial, h, apply) == Some(s) && Replay(initial, h + [e], apply) == Some(apply(s, e).state)
  {
    var es: seq<E> :| Drift(Replay(initial, h, apply).value, es, apply) == Some(s);
    assert HarmlessAt(initial, h, es, e, apply);
    ReplayJoin(initial, h, [e], apply);
    assert [e][1..] == [];
  }

  lemma RejectedDrifts<S, E(!new)>(initial: S, h: seq<E>, s: S, e: E, apply: Applier<S, E>)
    requires Drifted(initial, h, s, apply) && !apply(s, e).ok
    ensures Drifted(initial, h, apply(s, e).state, apply)
  {
    var es: seq<E> :| Drift(Replay(initial, h, apply).value, es, apply) == Some(s);
    DriftGoesOn(Replay(initial, h, apply).value, es, e, apply);
  }

  lemma InPlaceGrows<S, E>(initial: S, before: seq<E>, events: seq<E>, froms: seq<S>, e: E, from: S, apply: Applier<S, E>)
    requires RaisedInPlace(initial, before, events, froms, apply) && Replay(initial, before + events, apply) == Some(from)
    requires Replay(initial, before + events + [e], apply).Some?
    ensures RaisedInPlace(initial, before, events + [e], froms + [from], apply)
  {
    var grown := events + [e];
    assert before + grown == before + events + [e];
    forall i | 0 <= i < |grown|
      ensures Replay(initial, before + grown[..i], apply) == Some((froms + [from])[i])
    {
      assert grown[..i] == if i < |events| then events[..i] else events;
    }
  }

  lemma RaiseKeepsFaithful<S, E(!new)>(s: System<S, E>, w: Writer<S, E>, e: E, initial: S, apply: Applier<S, E>)
    requires RejectionsAreHarmless(initial, apply) && Faithful(s, w, initial, apply)
    ensures Faithful(s, RaisedBy(w, e, apply), initial, apply)
  {
    var before := StreamOf(s, w.stream)[..Expected(w)];
    var h := before + w.agg.events;
    if apply(w.agg.state, e).ok {
      AcceptedInPlace(initial, h, w.agg.state, e, apply);
      InPlaceGrows(initial, before, w.agg.events, w.froms, e, w.agg.state, apply);
      assert before + (w.agg.events + [e]) == h + [e];
      assert Drift(apply(w.agg.state, e).state, [], apply) == Some(apply(w.agg.state, e).state);
    } else {
      RejectedDrifts(initial, h, w.agg.state, e, apply);
    }
  }

  lemma RaiseKeepsInv<S, E(!new)>(s: System<S, E>, a: Action<E>, initial: S, apply: Applier<S, E>)
    requires RejectionsAreHarmless(initial, apply) && Inv(s, initial, apply) && a.DoRaise? && Enabled(s, a)
    ensures Inv(Apply(s, a, initial, apply), initial, apply)
  {
    RaiseKeepsFaithful(s, s.writers[a.writer], a.event, initial, apply);
    OnlyWriterChanged(s, Apply(s, a, initial, apply), a.writer, RaisedBy(s.writers[a.writer], a.event, apply), initial, apply);
  }

  lemma AppendKeepsFaithful<S, E(!new)>(s: System<S, E>, t: System<S, E>, x: Writer<S, E>, stream: string, more: seq<E>,
                                  initial: S, apply: Applier<S, E>)
    requires Faithful(s, x, initial, apply)
    requires t.streams == s.streams[stream := StreamOf(s, stream) + more]
    ensures Faithful(t, x, initial, apply)
  {
    var base := Expected(x);
    assert StreamOf(t, x.stream)[..base] == StreamOf(s, x.stream)[..base];
  }

  lemma JoinedGrows<S, E>(accepted: seq<Batch<S, E>>, b: Batch<S, E>, stream: string)
    ensures Joined(accepted + [b], stream) == Joined(accepted, stream) + if b.stream == stream then b.events else []
  {
    assert (accepted + [b])[..|accepted|] == accepted;
  }

  lemma AppendKeepsTiled<S, E>(s: System<S, E>, t: System<S, E>, b: Batch<S, E>, initial: S, apply: Applier<S, E>)
    requires Tiled(s, initial, apply)
    requires t.accepted == s.accepted + [b] && t.streams == s.streams[b.stream := StreamOf(s, b.stream) + b.events]
    requires b.events != [] && b.base == |StreamOf(s, b.stream)|
    requires RaisedInPlace(initial, StreamOf(s, b.stream), b.events, b.froms, apply)
    ensures Tiled(t, initial, apply)
  {
    forall stream
      ensures StreamOf(t, stream) == Joined(t.accepted, stream)
    {
      JoinedGrows(s.accepted, b, stream);
    }
    forall p | 0 <= p < |t.accepted|
      ensures InPlace(t.accepted, p, initial, apply)
    {
      if p < |s.accepted| {
        assert InPlace(s.accepted, p, initial, apply);
        assert t.accepted[..p] == s.accepted[..p];
      } else {
        assert t.accepted[..p] == s.accepted;
      }
    }
  }

  /** What an accepted append leaves of the writer is faithful to the longer stream. */
  lemma AppendedIsFaithful<S, E(!new)>(s: System<S, E>, t: System<S, E>, w: Writer<S, E>, initial: S, apply: Applier<S, E>)
    requires Faithful(s, w, initial, apply) && Expected(w) == |StreamOf(s, w.stream)|
    requires t.streams == s.streams[w.stream := StreamOf(s, w.stream) + w.agg.events]
    ensures Faithful(t, w.(agg := w.agg.(events := []), froms := []), initial, apply)
  {
    var stream := StreamOf(s, w.stream);
    assert stream[..|stream|] == stream;
    var longer := stream + w.agg.events;
    assert longer[..|longer|] == longer && longer + [] == longer;
  }

  lemma AppendKeepsAllFaithful<S, E(!new)>(s: System<S, E>, a: Action<E>, initial: S, apply: Applier<S, E>)
    requires AllFaithful(s, initial, apply) && a.DoAppend? && Enabled(s, a)
    requires Appends(s, s.writers[a.writer]) && Expected(s.writers[a.writer]) == |StreamOf(s, s.writers[a.writer].stream)|
    ensures AllFaithful(Apply(s, a, initial, apply), initial, apply)
  {
    var t := Apply(s, a, initial, apply);
    var w := s.writers[a.writer];
    forall x | x in t.writers
      ensures Faithful(t, t.writers[x], initial, apply)
    {
      if x == a.writer {
        AppendedIsFaithful(s, t, w, initial, apply);
      } else {
        AppendKeepsFaithful(s, t, s.writers[x], w.stream, w.agg.events, initial, apply);
      }
    }
  }

  lemma AppendKeepsReplays<S, E>(s: System<S, E>, t: System<S, E>, stream: string, more: seq<E>, initial: S, apply: Applier<S, E>)
    requires Replays(s, initial, apply) && Replay(initial, StreamOf(s, stream) + more, apply).Some?
    requires t.streams == s.streams[stream := StreamOf(s, stream) + more]
    ensures Replays(t, initial, apply)
  {
  }

  lemma AppendKeepsInv<S, E(!new)>(s: System<S, E>, a: Action<E>, initial: S, apply: Applier<S, E>)
    requires Inv(s, initial, apply) && a.DoAppend? && Enabled(s, a)
    ensures Inv(Apply(s, a, initial, apply), initial, apply)
  {
    var w := s.writers[a.writer];
    if Appends(s, w) {
      var t := Apply(s, a, initial, apply);
      var stream := StreamOf(s, w.stream);
      assert Faithful(s, w, initial, apply);
      assert stream[..|stream|] == stream;
      AppendKeepsReplays(s, t, w.stream, w.agg.events, initial, apply);
      AppendKeepsAllFaithful(s, a, initial, apply);
      AppendKeepsTiled(s, t, Batch(w.stream, Expected(w), w.agg.events, w.froms), initial, apply);
    }
  }

  lemma {:induction false} InvAlways<S, E(!new)>(r: Run<S, E>, n: nat, initial: S, apply: Applier<S, E>)
    requires RejectionsAreHarmless(initial, apply) && IsRun(r, initial, apply) && n < |r.states|
    ensures Inv(r.states[n], initial, apply)
  {
    if n > 0 {
      InvAlways(r, n - 1, initial, apply);
      var s, a := r.states[n - 1], r.actions[n - 1];
      match a
      case DoLoad(_, _) => LoadKeepsInv(s, a, initial, apply);
      case DoRaise(_, _) => RaiseKeepsInv(s, a, initial, apply);
      case DoAppend(_) => AppendKeepsInv(s, a, initial, apply);
    }
  }

  // ----- main results -----

  /**
   * No lost updates: every stream always replays, is exactly its accepted batches joined in order,
   * and each event of each batch was raised in precisely the state that the stream before it replays to.
   */
  lemma NoLostUpdates<S, E(!new)>(r: Run<S, E>, n: nat, initial: S, apply: Applier<S, E>)
    requires RejectionsAreHarmless(initial, apply) && IsRun(r, initial, apply) && n < |r.states|
    ensures forall stream :: Replay(initial, StreamOf(r.states[n], stream), apply).Some?
    ensures forall stream :: StreamOf(r.states[n], stream) == Joined(r.states[n].accepted, stream)
    ensures forall p :: 0 <= p < |r.states[n].accepted| ==> InPlace(r.states[n].accepted, p, initial, apply)
  {
    InvAlways(r, n, initial, apply);
  }

  /** A load always succeeds, and an append is accepted exactly when the writer has seen the whole stream: the escape value never lets one through. */
  lemma AcceptedExactlyWhenCurrent<S, E(!new)>(r: Run<S, E>, n: nat, w: nat, initial: S, apply: Applier<S, E>)
    requires RejectionsAreHarmless(initial, apply) && IsRun(r, initial, apply) && n < |r.states| && w in r.states[n].writers
    ensures var s := r.states[n];
            var writer := s.writers[w];
            Accepts(StreamOf(s, writer.stream), Expected(writer)) <==> Expected(writer) == |StreamOf(s, writer.stream)|
    ensures forall stream :: LoadHistory(Fresh(initial), StreamOf(r.states[n], stream), apply).1
  {
    InvAlways(r, n, initial, apply);
    assert Faithful(r.states[n], r.states[n].writers[w], initial, apply);
    forall stream
      ensures LoadHistory(Fresh(initial), StreamOf(r.states[n], stream), apply).1
    {
      LoadIsReplay(Fresh(initial), StreamOf(r.states[n], stream), apply);
    }
  }

  /** Writer w has fallen behind its stream. */
  ghost predicate Stale<S, E>(s: System<S, E>, w: nat) {
    w in s.writers && Expected(s.writers[w]) < |StreamOf(s, s.writers[w].stream)|
  }

  lemma StaysStale<S, E(!new)>(s: System<S, E>, a: Action<E>, w: nat, initial: S, apply: Applier<S, E>)
    requires AllFaithful(s, initial, apply) && Enabled(s, a) && Stale(s, w) && (a.DoLoad? ==> a.writer != w)
    ensures Stale(Apply(s, a, initial, apply), w)
    ensures a == DoAppend(w) ==> Apply(s, a, initial, apply) == s
  {
    assert Faithful(s, s.writers[w], initial, apply);
  }

  lemma FaithfulAlways<S, E(!new)>(r: Run<S, E>, n: nat, initial: S, apply: Applier<S, E>)
    requires RejectionsAreHarmless(initial, apply) && IsRun(r, initial, apply) && n < |r.states|
    ensures AllFaithful(r.states[n], initial, apply)
  {
    InvAlways(r, n, initial, apply);
  }

  lemma StepAt<S, E>(r: Run<S, E>, i: nat, initial: S, apply: Applier<S, E>)
    requires IsRun(r, initial, apply) && i < |r.actions|
    ensures Enabled(r.states[i], r.actions[i]) && r.states[i + 1] == Apply(r.states[i], r.actions[i], initial, apply)
  {
  }

  lemma {:induction false} RemainsStale<S, E(!new)>(r: Run<S, E>, i: nat, j: nat, w: nat, initial: S, apply: Applier<S, E>)
    requires RejectionsAreHarmless(initial, apply) && IsRun(r, initial, apply) && i <= j < |r.states|
    requires Stale(r.states[i], w)
    requires forall m :: i <= m < j && r.actions[m].DoLoad? ==> r.actions[m].writer != w
    ensures Stale(r.states[j], w)
    decreases j - i
  {
    if i < j {
      RemainsStale(r, i, j - 1, w, initial, apply);
      FaithfulAlways(r, j - 1, initial, apply);
      StepAt(r, j - 1, initial, apply);
      StaysStale(r.states[j - 1], r.actions[j - 1], w, initial, apply);
    }
  }

  /** A writer that has fallen behind changes nothing until it loads again, however often it retries. */
  lemma StaleWritersNeverWin<S, E(!new)>(r: Run<S, E>, i: nat, j: nat, w: nat, initial: S, apply: Applier<S, E>)
    requires RejectionsAreHarmless(initial, apply) && IsRun(r, initial, apply) && i <= j < |r.actions|
    requires Stale(r.states[i], w) && r.actions[j] == DoAppend(w)
    requires forall m :: i <= m < j && r.actions[m].DoLoad? ==> r.actions[m].writer != w
    ensures r.states[j + 1] == r.states[j]
  {
    RemainsStale(r, i, j, w, initial, apply);
    FaithfulAlways(r, j, initial, apply);
    StepAt(r, j, initial, apply);
    StaysStale(r.states[j], r.actions[j], w, initial, apply);
  }

  // ----- the condition is exact -----

  ghost predicate AlwaysInPlace<S(!new), E(!new)>(initial: S, apply: Applier<S, E>) {
    forall r: Run<S, E>, n: nat :: IsRun(r, initial, apply) && n < |r.states| ==> BatchesInPlace(r.states[n], initial, apply)
  }

  ghost predicate BatchesInPlace<S, E>(s: System<S, E>, initial: S, apply: Applier<S, E>) {
    forall p :: 0 <= p < |s.accepted| ==> InPlace(s.accepted, p, initial, apply)
  }

  function Last<S, E>(r: Run<S, E>): System<S, E>
    requires r.states != []
  {
    r.states[|r.states| - 1]
  }

  function Then<S, E>(r: Run<S, E>, a: Action<E>, initial: S, apply: Applier<S, E>): Run<S, E>
    requires r.states != [] && Enabled(Last(r), a)
  {
    Run(r.states + [Apply(Last(r), a, initial, apply)], r.actions + [a])
  }

  lemma ThenIsRun<S, E>(r: Run<S, E>, a: Action<E>, initial: S, apply: Applier<S, E>)
    requires IsRun(r, initial, apply) && Enabled(Last(r), a)
    ensures IsRun(Then(r, a, initial, apply), initial, apply)
    ensures Last(Then(r, a, initial, apply)) == Apply(Last(r), a, initial, apply)
  {
    var t := Then(r, a, initial, apply);
    forall i | 0 <= i < |t.actions|
      ensures Enabled(t.states[i], t.actions[i]) && t.states[i + 1] == Apply(t.states[i], t.actions[i], initial, apply)
    {
      if i < |r.actions| {
        StepAt(r, i, initial, apply);
      }
    }
  }

  /** One writer on an empty store that has raised exactly h and is now in that state. */
  function OneWriter<S, E>(h: seq<E>, state: S, froms: seq<S>): System<S, E> {
    System(map[], map[0 := Writer("", Aggregate(state, |h|, h), froms)], [])
  }

  lemma RaiseOnOne<S, E>(h: seq<E>, state: S, froms: seq<S>, e: E, initial: S, apply: Applier<S, E>)
    ensures var r := apply(state, e);
            Apply(OneWriter(h, state, froms), DoRaise(0, e), initial, apply)
            == if r.ok then OneWriter(h + [e], r.state, froms + [state]) else OneWriter(h, r.state, froms)
  {
    var s := OneWriter(h, state, froms);
    var t := Apply(s, DoRaise(0, e), initial, apply);
    assert t.writers == map[0 := RaisedBy(s.writers[0], e, apply)];
  }

  lemma {:induction false} RaisedRun<S, E>(h: seq<E>, initial: S, apply: Applier<S, E>) returns (r: Run<S, E>, froms: seq<S>)
    requires Replay(initial, h, apply).Some?
    ensures IsRun(r, initial, apply) && |froms| == |h|
    ensures Last(r) == OneWriter(h, Replay(initial, h, apply).value, froms)
    decreases |h|
  {
    if h == [] {
      var start: Run<S, E> := Run([System(map[], map[], [])], []);
      ThenIsRun(start, DoLoad(0, ""), initial, apply);
      r, froms := Then(start, DoLoad(0, ""), initial, apply), [];
    } else {
      var n := |h| - 1;
      var front, e := h[..n], h[n];
      assert h == front + [e];
      ReplayJoin(initial, front, [e], apply);
      assert [e][1..] == [];
      r, froms := RaisedRun(front, initial, apply);
      var state := Replay(initial, front, apply).value;
      RaiseOnOne(front, state, froms, e, initial, apply);
      ThenIsRun(r, DoRaise(0, e), initial, apply);
      r, froms := Then(r, DoRaise(0, e), initial, apply), froms + [state];
    }
  }

  /** The same writer after a series of rejections. */
  lemma {:induction false} RejectedRun<S, E>(r: Run<S, E>, h: seq<E>, state: S, froms: seq<S>, es: seq<E>, initial: S,
                                             apply: Applier<S, E>) returns (t: Run<S, E>)
    requires IsRun(r, initial, apply) && Last(r) == OneWriter(h, state, froms) && Drift(state, es, apply).Some?
    ensures IsRun(t, initial, apply) && Last(t) == OneWriter(h, Drift(state, es, apply).value, froms)
    decreases |es|
  {
    t := r;
    if es != [] {
      RaiseOnOne(h, state, froms, es[0], initial, apply);
      ThenIsRun(r, DoRaise(0, es[0]), initial, apply);
      t := RejectedRun(Then(r, DoRaise(0, es[0]), initial, apply), h, apply(state, es[0]).state, froms, es[1..], initial, apply);
    }
  }

  lemma AppendOnOne<S, E>(h: seq<E>, state: S, froms: seq<S>, initial: S, apply: Applier<S, E>)
    requires h != []
    ensures Apply(OneWriter(h, state, froms), DoAppend(0), initial, apply).accepted == [Batch("", 0, h, froms)]
  {
  }

  /**
   * When rejections do harm, there is a run with an accepted batch whose last event was raised in a
   * state that the stream before it does not replay to.
   */
  lemma HarmfulRejectionMisplaces<S, E>(h: seq<E>, es: seq<E>, e: E, initial: S, apply: Applier<S, E>)
    returns (r: Run<S, E>, b: Batch<S, E>)
    requires !HarmlessAt(initial, h, es, e, apply)
    ensures IsRun(r, initial, apply) && Last(r).accepted == [b] && b.base == 0 && b.events == h + [e]
    ensures |b.froms| == |h| + 1 && Replay(initial, h, apply).Some? && b.froms[|h|] != Replay(initial, h, apply).value
    ensures !BatchesInPlace(Last(r), initial, apply)
  {
    var s := Replay(initial, h, apply).value;
    var dirty := Drift(s, es, apply).value;
    var raised, froms := RaisedRun(h, initial, apply);
    var rejected := RejectedRun(raised, h, s, froms, es, initial, apply);
    RaiseOnOne(h, dirty, froms, e, initial, apply);
    ThenIsRun(rejected, DoRaise(0, e), initial, apply);
    var full := Then(rejected, DoRaise(0, e), initial, apply);
    AppendOnOne(h + [e], apply(dirty, e).state, froms + [dirty], initial, apply);
    ThenIsRun(full, DoAppend(0), initial, apply);
    r, b := Then(full, DoAppend(0), initial, apply), Batch("", 0, h + [e], froms + [dirty]);
    Misplaced(b, h, e, initial, apply);
  }

  lemma Misplaced<S, E>(b: Batch<S, E>, h: seq<E>, e: E, initial: S, apply: Applier<S, E>)
    requires b.events == h + [e] && |b.froms| == |h| + 1
    requires Replay(initial, h, apply) != Some(b.froms[|h|])
    ensures !InPlace([b], 0, initial, apply)
  {
    assert [b][..0] == [];
    assert Joined([b][..0], b.stream) == [];
    assert [] + b.events[..|h|] == h;
  }

  /** On every run every accepted event was raised in the state its stream replays to, exactly when rejections do no harm. */
  lemma InPlaceExactlyWhenHarmless<S(!new), E(!new)>(initial: S, apply: Applier<S, E>)
    ensures AlwaysInPlace(initial, apply) <==> RejectionsAreHarmless(initial, apply)
  {
    if RejectionsAreHarmless(initial, apply) {
      forall r: Run<S, E>, n: nat | IsRun(r, initial, apply) && n < |r.states|
        ensures BatchesInPlace(r.states[n], initial, apply)
      {
        NoLostUpdates(r, n, initial, apply);
      }
    } else {
      var h, es, e :| !HarmlessAt(initial, h, es, e, apply);
      var r, b := HarmfulRejectionMisplaces(h, es, e, initial, apply);
      assert !BatchesInPlace(r.states[|r.states| - 1], initial, apply);
    }
  }
}
