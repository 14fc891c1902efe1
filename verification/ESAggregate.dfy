// The aggregate as eventsourcing/aggregate.go and domain/aggregate.go keep it, updated in place and
// proved against EventSourcing.

module ESAggregate {
  import opened EventSourcing

  class BaseESAggregate<S, E> {
    var state: S
    var version: int
    var events: seq<E>
    const apply: Applier<S, E>

    ghost function View(): Aggregate<S, E>
      reads this
    {
      Aggregate(state, version, events)
    }

    constructor (initial: S, apply: Applier<S, E>)
      ensures View() == Fresh(initial) && this.apply == apply
    {
      state, version, events, this.apply := initial, 0, [], apply;
    }

    method Apply(e: E) returns (ok: bool)
      modifies this`state
      ensures Applied(state, ok) == apply(old(state), e)
    {
      var r := apply(state, e);
      state := r.state;
      ok := r.ok;
    }

    method Record(e: E)
      modifies this`events
      ensures events == old(events) + [e]
    {
      events := events + [e];
    }

    method ClearEvents()
      modifies this`events
      ensures events == []
    {
      events := [];
    }

    method IncrementVersion()
      modifies this`version
      ensures version == old(version) + 1
    {
      version := version + 1;
    }

    method Raise(e: E) returns (ok: bool)
      modifies this
      ensures (View(), ok) == EventSourcing.Raise(old(View()), e, apply)
    {
      ok := Apply(e);
      if !ok {
        return false;
      }
      Record(e);
      IncrementVersion();
    }

    method LoadHistory(history: seq<E>) returns (ok: bool)
      modifies this
      ensures (View(), ok) == EventSourcing.LoadHistory(old(View()), history, apply)
    {
      var i := 0;
      while i < |history|
        invariant 0 <= i <= |history|
        invariant EventSourcing.LoadHistory(View(), history[i..], apply)
                  == EventSourcing.LoadHistory(old(View()), history, apply)
      {
        var done := Apply(history[i]);
        if !done {
          return false;
        }
        IncrementVersion();
        assert history[i..][1..] == history[i + 1..];
        i := i + 1;
      }
      ClearEvents();
      return true;
    }
  }
}
