// One router loop and its inbox, running on their own: the sequential code of eventbus/router.go
// and eventbus/inboxtest/reference_test.go, proved against Router.

module RouterLoop {
  import opened Base
  import opened Router

  datatype SeenReply = Seen(found: bool) | SeenInvalidKey | SeenContextDone

  class ReferenceInbox {
    var seen: set<InboxKey>

    constructor ()
      ensures seen == {}
    {
      seen := {};
    }

    /** The key is checked before the context, and the context before the inbox. */
    method Seen(ctxDone: bool, key: InboxKey) returns (reply: SeenReply)
      ensures reply == if key.consumer == "" || key.eventId == "" then SeenInvalidKey
                       else if ctxDone then SeenContextDone else SeenReply.Seen(key in seen)
    {
      if key.consumer == "" || key.eventId == "" {
        return SeenInvalidKey;
      }
      if ctxDone {
        return SeenContextDone;
      }
      return SeenReply.Seen(key in seen);
    }

    /** A duplicate is never a silent success. */
    method Record(ctxDone: bool, key: InboxKey) returns (reply: InboxReply)
      modifies this
      ensures reply == if key.consumer == "" || key.eventId == "" then InvalidKey
                       else if ctxDone then ContextDone else if key in old(seen) then AlreadyRecorded else Recorded
      ensures seen == if reply == Recorded then old(seen) + {key} else old(seen)
    {
      if key.consumer == "" || key.eventId == "" {
        return InvalidKey;
      }
      if ctxDone {
        return ContextDone;
      }
      if key in seen {
        return AlreadyRecorded;
      }
      seen := seen + {key};
      return Recorded;
    }
  }

  /** A handler that keeps its effect and its record in one transaction. */
  method Invoke(inbox: ReferenceInbox, h: Handler, eventId: string, a: Attempt) returns (ok: bool, effects: seq<Effect>)
    modifies inbox
    ensures Result(inbox.seen, effects, ok) == Handle(old(inbox.seen), h, eventId, a)
  {
    var key := InboxKey(h.consumer, eventId);
    if a.checkSeen {
      var reply := inbox.Seen(a.ctxDone, key);
      if !reply.Seen? {
        return false, [];
      }
      if reply.found {
        return true, [];
      }
    }
    if a.breaks {
      return false, [];
    }
    var recorded := inbox.Record(a.ctxDone, key);
    match recorded
    case Recorded => return true, [Effect(h, eventId)];
    case AlreadyRecorded => return true, [];
    case _ => return false, [];
  }

  /** What went before, put in front of a result. */
  function Preceded(effects: seq<Effect>, r: Result): Result {
    Result(r.seen, effects + r.effects, r.ok)
  }

  /**
   * Handlers one after the other, stopping at the first that fails. attempt(k) is how the handler
   * fares that still has k handlers to go, itself included.
   */
  function Dispatched(seen: set<InboxKey>, fns: seq<Handler>, eventId: string, attempt: nat -> Attempt): Result
    decreases |fns|
  {
    if fns == [] then Result(seen, [], true)
    else
      var first := Handle(seen, fns[0], eventId, attempt(|fns|));
      if !first.ok then first else Preceded(first.effects, Dispatched(first.seen, fns[1..], eventId, attempt))
  }

  lemma DispatchUnrolls(seen: set<InboxKey>, fns: seq<Handler>, i: nat, eventId: string, attempt: nat -> Attempt,
                        before: seq<Effect>)
    requires i < |fns|
    ensures var first := Handle(seen, fns[i], eventId, attempt(|fns| - i));
            Preceded(before, Dispatched(seen, fns[i..], eventId, attempt))
            == if first.ok then Preceded(before + first.effects, Dispatched(first.seen, fns[i + 1..], eventId, attempt))
               else Result(first.seen, before + first.effects, false)
  {
    var first := Handle(seen, fns[i], eventId, attempt(|fns| - i));
    assert fns[i..][1..] == fns[i + 1..];
    if first.ok {
      var rest := Dispatched(first.seen, fns[i + 1..], eventId, attempt);
      assert before + (first.effects + rest.effects) == (before + first.effects) + rest.effects;
    }
  }

  ghost predicate OncePerKey(effects: seq<Effect>) {
    forall i, j :: 0 <= i < j < |effects| ==> KeyOf(effects[i]) != KeyOf(effects[j])
  }

  /** A dispatch succeeds exactly when it got through all handlers, and those it got through are on record. */
  lemma {:induction false} DispatchProgress(seen: set<InboxKey>, fns: seq<Handler>, eventId: string, attempt: nat -> Attempt)
    returns (k: nat)
    ensures var res := Dispatched(seen, fns, eventId, attempt);
            && seen <= res.seen && k <= |fns| && (res.ok <==> k == |fns|)
            && (forall i :: 0 <= i < k ==> InboxKey(fns[i].consumer, eventId) in res.seen)
    decreases |fns|
  {
    k := 0;
    if fns != [] {
      var first := Handle(seen, fns[0], eventId, attempt(|fns|));
      if first.ok {
        k := DispatchProgress(first.seen, fns[1..], eventId, attempt);
        k := k + 1;
        assert InboxKey(fns[0].consumer, eventId) in first.seen;
        assert forall i :: 0 < i < k ==> fns[i] == fns[1..][i - 1];
      }
    }
  }

  function KeysOf(effects: seq<Effect>): set<InboxKey> {
    set e | e in effects :: KeyOf(e)
  }

  lemma KeysJoin(a: seq<Effect>, b: seq<Effect>)
    ensures KeysOf(a + b) == KeysOf(a) + KeysOf(b)
  {
  }

  lemma HandleRecordsEffect(seen: set<InboxKey>, h: Handler, eventId: string, a: Attempt)
    ensures var res := Handle(seen, h, eventId, a); res.seen == seen + KeysOf(res.effects)
  {
    var e := Effect(h, eventId);
    assert KeysOf([]) == {};
    assert KeysOf([e]) == {KeyOf(e)} by {
      assert e in [e];
    }
  }

  /** What a dispatch adds to the inbox is exactly what it applied. */
  lemma {:induction false} DispatchRecordsEffects(seen: set<InboxKey>, fns: seq<Handler>, eventId: string, attempt: nat -> Attempt)
    ensures var res := Dispatched(seen, fns, eventId, attempt); res.seen == seen + KeysOf(res.effects)
    decreases |fns|
  {
    if fns != [] {
      var first := Handle(seen, fns[0], eventId, attempt(|fns|));
      HandleRecordsEffect(seen, fns[0], eventId, attempt(|fns|));
      if first.ok {
        DispatchRecordsEffects(first.seen, fns[1..], eventId, attempt);
        KeysJoin(first.effects, Dispatched(first.seen, fns[1..], eventId, attempt).effects);
      }
    }
  }

  lemma OnceJoin(a: seq<Effect>, b: seq<Effect>)
    requires OncePerKey(a) && OncePerKey(b) && forall e :: e in b ==> KeyOf(e) !in KeysOf(a)
    ensures OncePerKey(a + b)
  {
    assert forall e :: e in a ==> KeyOf(e) in KeysOf(a);
  }

  /** A dispatch applies nothing that is on record already, and nothing twice. */
  lemma {:induction false} DispatchAppliesOnce(seen: set<InboxKey>, fns: seq<Handler>, eventId: string, attempt: nat -> Attempt)
    ensures OncePerKey(Dispatched(seen, fns, eventId, attempt).effects)
    ensures forall e :: e in Dispatched(seen, fns, eventId, attempt).effects ==> KeyOf(e) !in seen
    decreases |fns|
  {
    if fns != [] {
      var first := Handle(seen, fns[0], eventId, attempt(|fns|));
      DispatchAppliesOnce(first.seen, fns[1..], eventId, attempt);
    }
  }

  function FnsOf(handlers: map<string, seq<Handler>>, name: string): seq<Handler> {
    if name in handlers then handlers[name] else []
  }

  /** What a loop did with the envelopes it got so far. */
  datatype Session = Session(seen: set<InboxKey>, effects: seq<Effect>, acked: seq<bool>)

  /** One more envelope of a session. */
  function After(s: Session, res: Result): Session {
    Session(res.seen, s.effects + res.effects, s.acked + [res.ok])
  }

  /** Each envelope is dispatched in turn, and acked exactly when its dispatch succeeded. attempts[i] is how handlers fare on the i-th. */
  function Served(seen: set<InboxKey>, handlers: map<string, seq<Handler>>, envs: seq<Envelope>, attempts: seq<nat -> Attempt>)
    : Session
    requires |attempts| == |envs|
    decreases |envs|
  {
    if envs == [] then Session(seen, [], [])
    else
      var n := |envs| - 1;
      var before := Served(seen, handlers, envs[..n], attempts[..n]);
      var res := Dispatched(before.seen, FnsOf(handlers, envs[n].name), envs[n].eventId, attempts[n]);
      After(before, res)
  }

  /** What an envelope adds to the unknown ones: itself, if they are watched and it has no handler. */
  function Unhandled(watch: bool, handlers: map<string, seq<Handler>>, env: Envelope): seq<Envelope> {
    if watch && FnsOf(handlers, env.name) == [] then [env] else []
  }

  function Unknown(watch: bool, handlers: map<string, seq<Handler>>, envs: seq<Envelope>): seq<Envelope> {
    if envs == [] then []
    else Unknown(watch, handlers, envs[..|envs| - 1]) + Unhandled(watch, handlers, envs[|envs| - 1])
  }

  /** Where a loop stands after n envelopes. */
  ghost predicate Stands(seen: set<InboxKey>, watch: bool, handlers: map<string, seq<Handler>>, envs: seq<Envelope>,
                         attempts: seq<nat -> Attempt>, n: nat, s: Session, known: seq<Envelope>, unknown: seq<Envelope>)
    requires |attempts| == |envs| && n <= |envs|
  {
    s == Served(seen, handlers, envs[..n], attempts[..n]) && unknown == known + Unknown(watch, handlers, envs[..n])
  }

  lemma StandsFirst(seen: set<InboxKey>, watch: bool, handlers: map<string, seq<Handler>>, envs: seq<Envelope>,
                    attempts: seq<nat -> Attempt>, known: seq<Envelope>)
    requires |attempts| == |envs|
    ensures Stands(seen, watch, handlers, envs, attempts, 0, Session(seen, [], []), known, known)
  {
  }

  lemma StandsNext(seen: set<InboxKey>, watch: bool, handlers: map<string, seq<Handler>>, envs: seq<Envelope>,
                   attempts: seq<nat -> Attempt>, n: nat, s: Session, known: seq<Envelope>, unknown: seq<Envelope>)
    requires |attempts| == |envs| && n < |envs| && Stands(seen, watch, handlers, envs, attempts, n, s, known, unknown)
    ensures Stands(seen, watch, handlers, envs, attempts, n + 1,
                   After(s, Dispatched(s.seen, FnsOf(handlers, envs[n].name), envs[n].eventId, attempts[n])),
                   known, unknown + Unhandled(watch, handlers, envs[n]))
  {
    assert envs[..n + 1][..n] == envs[..n] && attempts[..n + 1][..n] == attempts[..n];
  }

  /** Every handler of an acked envelope is on record. */
  ghost predicate AckedRecorded(s: Session, handlers: map<string, seq<Handler>>, envs: seq<Envelope>)
    requires |s.acked| == |envs|
  {
    forall i, h :: 0 <= i < |envs| && s.acked[i] && h in FnsOf(handlers, envs[i].name) ==>
      InboxKey(h.consumer, envs[i].eventId) in s.seen
  }

  lemma DispatchRecordsAcked(seen: set<InboxKey>, fns: seq<Handler>, eventId: string, attempt: nat -> Attempt)
    ensures var res := Dispatched(seen, fns, eventId, attempt);
            seen <= res.seen && (res.ok ==> forall h :: h in fns ==> InboxKey(h.consumer, eventId) in res.seen)
  {
    var k := DispatchProgress(seen, fns, eventId, attempt);
  }

  /** From an inbox with seen on record to now: what was added is what was applied, each once. */
  ghost predicate AppliedOnce(seen: set<InboxKey>, effects: seq<Effect>, now: set<InboxKey>) {
    now == seen + KeysOf(effects) && OncePerKey(effects) && forall e :: e in effects ==> KeyOf(e) !in seen
  }

  lemma AppliedOnceGoesOn(seen: set<InboxKey>, effects: seq<Effect>, mid: set<InboxKey>, more: seq<Effect>, now: set<InboxKey>)
    requires AppliedOnce(seen, effects, mid) && AppliedOnce(mid, more, now)
    ensures AppliedOnce(seen, effects + more, now)
  {
    KeysJoin(effects, more);
    OnceJoin(effects, more);
  }

  lemma DispatchIsAppliedOnce(seen: set<InboxKey>, fns: seq<Handler>, eventId: string, attempt: nat -> Attempt)
    ensures var res := Dispatched(seen, fns, eventId, attempt); AppliedOnce(seen, res.effects, res.seen)
  {
    DispatchRecordsEffects(seen, fns, eventId, attempt);
    DispatchAppliesOnce(seen, fns, eventId, attempt);
  }

  lemma SessionGoesOn(seen: set<InboxKey>, s: Session, handlers: map<string, seq<Handler>>, envs: seq<Envelope>, env: Envelope,
                      res: Result)
    requires |s.acked| == |envs| && AckedRecorded(s, handlers, envs) && AppliedOnce(seen, s.effects, s.seen)
    requires s.seen <= res.seen && AppliedOnce(s.seen, res.effects, res.seen)
    requires res.ok ==> forall h :: h in FnsOf(handlers, env.name) ==> InboxKey(h.consumer, env.eventId) in res.seen
    ensures AckedRecorded(After(s, res), handlers, envs + [env])
    ensures AppliedOnce(seen, After(s, res).effects, After(s, res).seen)
  {
    AppliedOnceGoesOn(seen, s.effects, s.seen, res.effects, res.seen);
  }

  /**
   * Whatever comes in, redeliveries included, and however handlers fare: all handlers of an acked
   * envelope are on record, what was added to the inbox is exactly what was applied, and nothing
   * was applied that was on record before, or applied twice.
   */
  lemma {:induction false} ServingAppliesOnce(seen: set<InboxKey>, handlers: map<string, seq<Handler>>,
                                              envs: seq<Envelope>, attempts: seq<nat -> Attempt>)
    requires |attempts| == |envs|
    ensures var s := Served(seen, handlers, envs, attempts);
            |s.acked| == |envs| && AckedRecorded(s, handlers, envs) && AppliedOnce(seen, s.effects, s.seen)
    decreases |envs|
  {
    if envs == [] {
      assert KeysOf([]) == {};
    } else {
      var n := |envs| - 1;
      ServingAppliesOnce(seen, handlers, envs[..n], attempts[..n]);
      var before := Served(seen, handlers, envs[..n], attempts[..n]);
      var fns := FnsOf(handlers, envs[n].name);
      var res := Dispatched(before.seen, fns, envs[n].eventId, attempts[n]);
      DispatchRecordsAcked(before.seen, fns, envs[n].eventId, attempts[n]);
      DispatchIsAppliedOnce(before.seen, fns, envs[n].eventId, attempts[n]);
      SessionGoesOn(seen, before, handlers, envs[..n], envs[n], res);
      assert envs[..n] + [envs[n]] == envs;
    }
  }

  type Middleware = Handler -> Handler

  /** A handler inside its middlewares, the first one outermost. */
  function Chained(mws: seq<Middleware>, h: Handler): Handler {
    if mws == [] then h else mws[0](Chained(mws[1..], h))
  }

  /** One middleware wraps the handler; of two groups the first wraps what the second makes of it. */
  lemma {:induction false} ChainedJoin(a: seq<Middleware>, b: seq<Middleware>, m: Middleware, h: Handler)
    ensures Chained([], h) == h && Chained([m], h) == m(h)
    ensures Chained(a + b, h) == Chained(a, Chained(b, h))
    decreases |a|
  {
    assert [m][1..] == [];
    if a == [] {
      assert a + b == b;
    } else {
      assert (a + b)[1..] == a[1..] + b;
      ChainedJoin(a[1..], b, m, h);
    }
  }

  method Chain(mws: seq<Middleware>, h: Handler) returns (next: Handler)
    ensures next == Chained(mws, h)
  {
    next := h;
    var i := |mws|;
    while i > 0
      invariant 0 <= i <= |mws| && next == Chained(mws[i..], h)
    {
      i := i - 1;
      assert mws[i..][1..] == mws[i + 1..];
      next := mws[i](next);
    }
    assert mws[0..] == mws;
  }

  /** How a loop ends: it could not subscribe, its context was cancelled, or the subscription was closed. */
  datatype RunEnd = SubscribeFailed | Cancelled | Closed

  class Loop {
    const middlewares: seq<Middleware>
    var handlers: map<string, seq<Handler>>
    var watchUnknown: bool
    var unknown: seq<Envelope>

    constructor (middlewares: seq<Middleware>)
      ensures this.middlewares == middlewares && handlers == map[] && !watchUnknown && unknown == []
    {
      this.middlewares := middlewares;
      handlers, watchUnknown, unknown := map[], false, [];
    }

    function FnsFor(name: string): seq<Handler>
      reads this
    {
      FnsOf(handlers, name)
    }

    /** Installs a callback, or with nil takes it away. */
    method OnUnknown(callback: bool)
      modifies this`watchUnknown
      ensures watchUnknown == callback
    {
      watchUnknown := callback;
    }

    /** Handlers of a name are wrapped and kept in the order of registration; other names are untouched. */
    method RegisterHandler(name: string, h: Handler)
      modifies this`handlers
      ensures forall n :: FnsFor(n) == if n == name then old(FnsFor(n)) + [Chained(middlewares, h)] else old(FnsFor(n))
    {
      var wrapped := Chain(middlewares, h);
      handlers := handlers[name := FnsFor(name) + [wrapped]];
    }

    method Dispatch(inbox: ReferenceInbox, env: Envelope, attempt: nat -> Attempt)
      returns (ok: bool, effects: seq<Effect>)
      modifies this`unknown, inbox
      ensures Result(inbox.seen, effects, ok) == Dispatched(old(inbox.seen), FnsFor(env.name), env.eventId, attempt)
      ensures unknown == old(unknown) + Unhandled(watchUnknown, handlers, env)
                      == old(unknown) + if watchUnknown && FnsFor(env.name) == [] then [env] else []
    {
      var fns := FnsFor(env.name);
      effects := [];
      if |fns| == 0 {
        if watchUnknown {
          unknown := unknown + [env];
        }
        return true, [];
      }
      var i := 0;
      while i < |fns|
        invariant 0 <= i <= |fns| && unknown == old(unknown)
        invariant Dispatched(old(inbox.seen), fns, env.eventId, attempt)
                  == Preceded(effects, Dispatched(inbox.seen, fns[i..], env.eventId, attempt))
      {
        DispatchUnrolls(inbox.seen, fns, i, env.eventId, attempt, effects);
        var done, more := Invoke(inbox, fns[i], env.eventId, attempt(|fns| - i));
        effects := effects + more;
        if !done {
          return false, effects;
        }
        i := i + 1;
      }
      ok := true;
    }

    /**
     * Takes envelopes as they come, acking or nacking each, until there are no more or the context is
     * seen to be cancelled.
     */
    method Run(inbox: ReferenceInbox, subscribed: bool, cancelAfter: Option<nat>, envs: seq<Envelope>, attempts: seq<nat -> Attempt>)
      returns (end: RunEnd, acked: seq<bool>, effects: seq<Effect>)
      requires |attempts| == |envs|
      modifies this`unknown, inbox
      ensures end == if !subscribed then SubscribeFailed
                     else if cancelAfter.Some? && cancelAfter.value <= |envs| then Cancelled else Closed
      ensures var m := if end == SubscribeFailed then 0 else if end == Cancelled then cancelAfter.value else |envs|;
              Stands(old(inbox.seen), watchUnknown, handlers, envs, attempts, m, Session(inbox.seen, effects, acked),
                     old(unknown), unknown)
    {
      acked, effects := [], [];
      ghost var seen, known := inbox.seen, unknown;
      StandsFirst(seen, watchUnknown, handlers, envs, attempts, known);
      if !subscribed {
        return SubscribeFailed, acked, effects;
      }
      var n := 0;
      while n < |envs|
        invariant 0 <= n <= |envs| && (cancelAfter.Some? ==> n <= cancelAfter.value)
        invariant Stands(seen, watchUnknown, handlers, envs, attempts, n, Session(inbox.seen, effects, acked), known, unknown)
      {
        if cancelAfter == Some(n) {
          return Cancelled, acked, effects;
        }
        ghost var before, strays := Session(inbox.seen, effects, acked), unknown;
        var ok, more := Dispatch(inbox, envs[n], attempts[n]);
        effects, acked := effects + more, acked + [ok];
        StandsNext(seen, watchUnknown, handlers, envs, attempts, n, before, known, strays);
        n := n + 1;
      }
      end := if cancelAfter == Some(n) then Cancelled else Closed;
    }
  }
}
