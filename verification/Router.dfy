// The event router (eventbus/router.go) over a redelivering broker, with handlers that record what
// they have done in an inbox (eventbus/inbox.go, eventbus/inboxtest/reference_test.go).

module Router {

  datatype InboxKey = InboxKey(consumer: string, eventId: string)

  datatype InboxReply = Recorded | AlreadyRecorded | InvalidKey | ContextDone

  predicate ValidKey(key: InboxKey) {
    key.consumer != "" && key.eventId != ""
  }

  function RecordReply(seen: set<InboxKey>, key: InboxKey, ctxDone: bool): InboxReply {
    if !ValidKey(key) then InvalidKey
    else if ctxDone then ContextDone
    else if key in seen then AlreadyRecorded
    else Recorded
  }

  /** code identifies what the handler does, consumer the name under which it records. */
  datatype Handler = Handler(code: nat, consumer: string)

  datatype Effect = Effect(handler: Handler, eventId: string)

  datatype Envelope = Envelope(name: string, eventId: string)

  function KeyOf(e: Effect): InboxKey {
    InboxKey(e.handler.consumer, e.eventId)
  }

  /**
   * How one invocation goes. With checkSeen it first asks the inbox and returns at once when the
   * event was seen; its own work may break; otherwise it commits its effect together with Record.
   */
  datatype Attempt = Attempt(checkSeen: bool, breaks: bool, ctxDone: bool)

  datatype Result = Result(seen: set<InboxKey>, effects: seq<Effect>, ok: bool)

  /** A commit is all or nothing: a duplicate rolls back and counts as success, any other error rolls back and fails. */
  function Handle(seen: set<InboxKey>, h: Handler, eventId: string, a: Attempt): Result {
    var key := InboxKey(h.consumer, eventId);
    if a.checkSeen && (!ValidKey(key) || a.ctxDone) then Result(seen, [], false)
    else if a.checkSeen && key in seen then Result(seen, [], true)
    else if a.breaks then Result(seen, [], false)
    else
      match RecordReply(seen, key, a.ctxDone)
      case Recorded => Result(seen + {key}, [Effect(h, eventId)], true)
      case AlreadyRecorded => Result(seen, [], true)
      case _ => Result(seen, [], false)
  }

  /**
   * A handler succeeds exactly if it has a name to record under, a live context, and its work is done, be it
   * now or, if it looks first, earlier. It then leaves its record, and its effect if there was none.
   */
  lemma HandlerSucceedsExactly(seen: set<InboxKey>, h: Handler, eventId: string, a: Attempt)
    ensures var res, key := Handle(seen, h, eventId, a), InboxKey(h.consumer, eventId);
            && (res.ok <==> h.consumer != "" && eventId != "" && !a.ctxDone && ((a.checkSeen && key in seen) || !a.breaks))
            && res.seen == (if res.ok then seen + {key} else seen)
            && res.effects == (if res.ok && key !in seen then [Effect(h, eventId)] else [])
  {
  }

  // ----- the system: a broker, any number of router loops, one inbox -----

  /** A loop that is part-way through the handlers it found for its envelope. */
  datatype Loop = Loop(env: Envelope, fns: seq<Handler>, next: nat)

  datatype Outcome = Acked(env: Envelope, fns: seq<Handler>) | Nacked(env: Envelope)

  datatype System = System(routers: map<nat, map<string, seq<Handler>>>, published: set<Envelope>,
                           seen: set<InboxKey>, effects: seq<Effect>,
                           loops: map<nat, Loop>, outcomes: seq<Outcome>)

  datatype Action =
    | DoRegister(router: nat, name: string, h: Handler)
    | DoPublish(env: Envelope)
    | DoReceive(loop: nat, router: nat, env: Envelope)
    | DoHandle(loop: nat, a: Attempt)
    | DoAck(loop: nat)
    | DoCrash(loop: nat)

  function HandlersFor(routers: map<nat, map<string, seq<Handler>>>, router: nat, name: string): seq<Handler> {
    if router in routers && name in routers[router] then routers[router][name] else []
  }

  function Registered(routers: map<nat, map<string, seq<Handler>>>, router: nat, name: string, h: Handler)
    : map<nat, map<string, seq<Handler>>>
  {
    var table := if router in routers then routers[router] else map[];
    routers[router := table[name := HandlersFor(routers, router, name) + [h]]]
  }

  /** The broker may deliver any published envelope to any idle loop, however often, acked or not. */
  predicate Enabled(s: System, a: Action) {
    match a
    case DoReceive(l, _, env) => l !in s.loops && env in s.published
    case DoHandle(l, _) => l in s.loops && s.loops[l].next < |s.loops[l].fns|
    case DoAck(l) => l in s.loops && s.loops[l].next == |s.loops[l].fns|
    case DoCrash(l) => l in s.loops
    case _ => true
  }

  function Apply(s: System, a: Action): System
    requires Enabled(s, a)
  {
    match a
    case DoRegister(router, name, h) => s.(routers := Registered(s.routers, router, name, h))
    case DoPublish(env) => s.(published := s.published + {env})
    case DoReceive(l, router, env) =>
      s.(loops := s.loops[l := Loop(env, HandlersFor(s.routers, router, env.name), 0)])
    case DoHandle(l, attempt) =>
      var loop := s.loops[l];
      var res := Handle(s.seen, loop.fns[loop.next], loop.env.eventId, attempt);
      var t := s.(seen := res.seen, effects := s.effects + res.effects);
      if res.ok then t.(loops := t.loops[l := loop.(next := loop.next + 1)])
      else t.(loops := t.loops - {l}, outcomes := t.outcomes + [Nacked(loop.env)])
    case DoAck(l) => s.(loops := s.loops - {l}, outcomes := s.outcomes + [Acked(s.loops[l].env, s.loops[l].fns)])
    case DoCrash(l) => s.(loops := s.loops - {l})
  }

  /** Some handlers may be registered and some events published before the first loop starts. */
  predicate Initial(s: System) {
    && s.seen == {} && s.effects == [] && s.loops == map[] && s.outcomes == []
  }

  datatype Run = Run(states: seq<System>, actions: seq<Action>)

  ghost predicate IsRun(r: Run) {
    && |r.states| == |r.actions| + 1
    && Initial(r.states[0])
    && (forall i :: 0 <= i < |r.actions| ==>
          Enabled(r.states[i], r.actions[i]) && r.states[i + 1] == Apply(r.states[i], r.actions[i]))
  }

  // ----- the invariant -----

  /** Effects and records go together, one effect per key. */
  ghost predicate OnePerKey(s: System) {
    && (forall i :: 0 <= i < |s.effects| ==> KeyOf(s.effects[i]) in s.seen)
    && (forall key :: key in s.seen ==> HasEffect(s.effects, key))
    && (forall i, j :: 0 <= i < j < |s.effects| ==> KeyOf(s.effects[i]) != KeyOf(s.effects[j]))
  }

  ghost predicate HasEffect(effects: seq<Effect>, key: InboxKey) {
    exists i :: 0 <= i < |effects| && KeyOf(effects[i]) == key
  }

  ghost predicate RegisteredSomewhere(s: System, name: string, h: Handler) {
    exists router :: h in HandlersFor(s.routers, router, name)
  }

  ghost predicate LoopKnown(s: System, loop: Loop) {
    && loop.env in s.published && loop.next <= |loop.fns|
    && (forall i :: 0 <= i < |loop.fns| ==> RegisteredSomewhere(s, loop.env.name, loop.fns[i]))
    && (forall i :: 0 <= i < loop.next ==> InboxKey(loop.fns[i].consumer, loop.env.eventId) in s.seen)
  }

  ghost predicate LoopsKnown(s: System) {
    forall l :: l in s.loops ==> LoopKnown(s, s.loops[l])
  }

  /** All handlers of an acked envelope are on record. */
  ghost predicate AckRecorded(s: System, o: Outcome)
    requires o.Acked?
  {
    o.env in s.published &&
    forall i :: 0 <= i < |o.fns| ==>
      RegisteredSomewhere(s, o.env.name, o.fns[i]) && InboxKey(o.fns[i].consumer, o.env.eventId) in s.seen
  }

  ghost predicate AcksRecorded(s: System) {
    forall p :: 0 <= p < |s.outcomes| && s.outcomes[p].Acked? ==> AckRecorded(s, s.outcomes[p])
  }

  /** Only handlers of published events ever have an effect. */
  ghost predicate Justified(s: System, e: Effect) {
    exists env :: env in s.published && env.eventId == e.eventId && RegisteredSomewhere(s, env.name, e.handler)
  }

  ghost predicate EffectsJustified(s: System) {
    forall i :: 0 <= i < |s.effects| ==> Justified(s, s.effects[i])
  }

  ghost predicate Inv(s: System) {
    OnePerKey(s) && LoopsKnown(s) && AcksRecorded(s) && EffectsJustified(s)
  }

  /** Handlers are kept per router and name, in the order in which they were registered. */
  lemma RegisteredInOrder(routers: map<nat, map<string, seq<Handler>>>, router: nat, name: string, h: Handler, r: nat, n: string)
    ensures HandlersFor(Registered(routers, router, name, h), r, n)
            == HandlersFor(routers, r, n) + if r == router && n == name then [h] else []
  {
  }

  lemma RegistrationGrows(s: System, t: System, router: nat, name: string, h: Handler)
    requires t.routers == Registered(s.routers, router, name, h)
    ensures forall n, g :: RegisteredSomewhere(s, n, g) ==> RegisteredSomewhere(t, n, g)
  {
    forall n, g | RegisteredSomewhere(s, n, g)
      ensures RegisteredSomewhere(t, n, g)
    {
      var r :| g in HandlersFor(s.routers, r, n);
      assert g in HandlersFor(t.routers, r, n);
    }
  }

  lemma AcksKept(s: System, t: System)
    requires AcksRecorded(s) && s.seen <= t.seen && s.published <= t.published
    requires forall n, g :: RegisteredSomewhere(s, n, g) ==> RegisteredSomewhere(t, n, g)
    ensures forall p :: 0 <= p < |s.outcomes| && s.outcomes[p].Acked? ==> AckRecorded(t, s.outcomes[p])
  {
    forall p | 0 <= p < |s.outcomes| && s.outcomes[p].Acked?
      ensures AckRecorded(t, s.outcomes[p])
    {
      assert AckRecorded(s, s.outcomes[p]);
    }
  }

  lemma KeepsKnown(s: System, t: System)
    requires LoopsKnown(s) && AcksRecorded(s) && EffectsJustified(s)
    requires s.seen <= t.seen && s.published <= t.published
    requires forall n, g :: RegisteredSomewhere(s, n, g) ==> RegisteredSomewhere(t, n, g)
    ensures t.loops == s.loops ==> LoopsKnown(t)
    ensures t.outcomes == s.outcomes ==> AcksRecorded(t)
    ensures t.effects == s.effects ==> EffectsJustified(t)
  {
    AcksKept(s, t);
    if t.effects == s.effects {
      forall i | 0 <= i < |t.effects|
        ensures Justified(t, t.effects[i])
      {
        assert Justified(s, s.effects[i]);
        var env :| env in s.published && env.eventId == s.effects[i].eventId
                   && RegisteredSomewhere(s, env.name, s.effects[i].handler);
        assert env in t.published;
      }
    }
  }

  /** One handler invocation keeps effects and records together. */
  lemma HandleKeepsOnePerKey(s: System, t: System, h: Handler, eventId: string, a: Attempt)
    requires OnePerKey(s)
    requires var res := Handle(s.seen, h, eventId, a); t.seen == res.seen && t.effects == s.effects + res.effects
    ensures OnePerKey(t)
  {
    var res := Handle(s.seen, h, eventId, a);
    forall key | key in t.seen
      ensures HasEffect(t.effects, key)
    {
      if key in s.seen {
        var i :| 0 <= i < |s.effects| && KeyOf(s.effects[i]) == key;
        assert t.effects[i] == s.effects[i];
      } else {
        assert t.effects[|s.effects|] == Effect(h, eventId);
      }
    }
  }

  lemma HandleKeepsJustified(s: System, t: System, a: Action)
    requires LoopsKnown(s) && EffectsJustified(s) && a.DoHandle? && Enabled(s, a) && t == Apply(s, a)
    ensures EffectsJustified(t)
  {
    var loop := s.loops[a.loop];
    forall i | 0 <= i < |t.effects|
      ensures Justified(t, t.effects[i])
    {
      if i < |s.effects| {
        assert Justified(s, s.effects[i]);
        var env :| env in s.published && env.eventId == s.effects[i].eventId
                   && RegisteredSomewhere(s, env.name, s.effects[i].handler);
        assert RegisteredSomewhere(t, env.name, s.effects[i].handler);
      } else {
        assert RegisteredSomewhere(s, loop.env.name, loop.fns[loop.next]);
        assert RegisteredSomewhere(t, loop.env.name, loop.fns[loop.next]);
      }
    }
  }

  lemma SameRegistrations(s: System, t: System)
    requires t.routers == s.routers
    ensures forall n, g :: RegisteredSomewhere(s, n, g) <==> RegisteredSomewhere(t, n, g)
  {
  }

  lemma HandleRecords(seen: set<InboxKey>, h: Handler, eventId: string, a: Attempt)
    ensures var res := Handle(seen, h, eventId, a);
            seen <= res.seen && (res.ok ==> InboxKey(h.consumer, eventId) in res.seen)
  {
  }

  lemma LoopStaysKnown(s: System, t: System, loop: Loop)
    requires LoopKnown(s, loop) && s.seen <= t.seen && s.published <= t.published
    requires forall n, g :: RegisteredSomewhere(s, n, g) ==> RegisteredSomewhere(t, n, g)
    ensures LoopKnown(t, loop)
  {
  }

  lemma HandleKeepsLoops(s: System, a: Action)
    requires LoopsKnown(s) && a.DoHandle? && Enabled(s, a)
    ensures LoopsKnown(Apply(s, a)) && s.seen <= Apply(s, a).seen
  {
    var t := Apply(s, a);
    SameRegistrations(s, t);
    var loop := s.loops[a.loop];
    HandleRecords(s.seen, loop.fns[loop.next], loop.env.eventId, a.a);
    forall l | l in t.loops
      ensures LoopKnown(t, t.loops[l])
    {
      assert LoopKnown(s, s.loops[l]);
      LoopStaysKnown(s, t, s.loops[l]);
    }
  }

  lemma HandleKeepsAcks(s: System, a: Action)
    requires AcksRecorded(s) && a.DoHandle? && Enabled(s, a) && s.seen <= Apply(s, a).seen
    ensures AcksRecorded(Apply(s, a))
  {
    var t := Apply(s, a);
    SameRegistrations(s, t);
    AcksKept(s, t);
    assert forall p :: 0 <= p < |t.outcomes| && t.outcomes[p].Acked? ==> p < |s.outcomes| && t.outcomes[p] == s.outcomes[p];
  }

  lemma HandleKeepsInv(s: System, a: Action)
    requires Inv(s) && a.DoHandle? && Enabled(s, a)
    ensures Inv(Apply(s, a))
  {
    var t := Apply(s, a);
    var loop := s.loops[a.loop];
    HandleKeepsOnePerKey(s, t, loop.fns[loop.next], loop.env.eventId, a.a);
    HandleKeepsJustified(s, t, a);
    HandleKeepsLoops(s, a);
    HandleKeepsAcks(s, a);
  }

  lemma ReceiveKeepsInv(s: System, a: Action)
    requires Inv(s) && a.DoReceive? && Enabled(s, a)
    ensures Inv(Apply(s, a))
  {
    var t := Apply(s, a);
    SameRegistrations(s, t);
    KeepsKnown(s, t);
    var fns := t.loops[a.loop].fns;
    forall i | 0 <= i < |fns|
      ensures RegisteredSomewhere(t, a.env.name, fns[i])
    {
      assert fns[i] in HandlersFor(t.routers, a.router, a.env.name);
    }
  }

  lemma AckKeepsInv(s: System, a: Action)
    requires Inv(s) && a.DoAck? && Enabled(s, a)
    ensures Inv(Apply(s, a))
  {
    var t := Apply(s, a);
    SameRegistrations(s, t);
    KeepsKnown(s, t);
    AcksKept(s, t);
    forall p | 0 <= p < |t.outcomes| && t.outcomes[p].Acked?
      ensures AckRecorded(t, t.outcomes[p])
    {
      if p < |s.outcomes| {
        assert t.outcomes[p] == s.outcomes[p];
      }
    }
  }

  lemma StepKeepsInv(s: System, a: Action)
    requires Inv(s) && Enabled(s, a)
    ensures Inv(Apply(s, a))
  {
    match a
    case DoRegister(router, name, h) =>
      RegistrationGrows(s, Apply(s, a), router, name, h);
      KeepsKnown(s, Apply(s, a));
    case DoReceive(_, _, _) => ReceiveKeepsInv(s, a);
    case DoHandle(_, _) => HandleKeepsInv(s, a);
    case DoAck(_) => AckKeepsInv(s, a);
    case _ =>
      SameRegistrations(s, Apply(s, a));
      KeepsKnown(s, Apply(s, a));
  }

  lemma {:induction false} InvAlways(r: Run, n: nat)
    requires IsRun(r) && n < |r.states|
    ensures Inv(r.states[n])
  {
    if n > 0 {
      InvAlways(r, n - 1);
      StepKeepsInv(r.states[n - 1], r.actions[n - 1]);
    }
  }

  // ----- main results -----

  /** Each (Consumer, EventID) effect is applied at most once, and only for published events by handlers registered for them. */
  lemma AtMostOnce(r: Run, n: nat)
    requires IsRun(r) && n < |r.states|
    ensures forall i, j :: 0 <= i < j < |r.states[n].effects| ==> KeyOf(r.states[n].effects[i]) != KeyOf(r.states[n].effects[j])
    ensures forall i :: 0 <= i < |r.states[n].effects| ==> Justified(r.states[n], r.states[n].effects[i])
  {
    InvAlways(r, n);
  }

  /** Every handler records under a Consumer of its own: no two compete for the record of one event. */
  ghost predicate OwnConsumers(s: System) {
    forall d, e, g, h :: d in s.published && e in s.published && d.eventId == e.eventId
        && RegisteredSomewhere(s, d.name, g) && RegisteredSomewhere(s, e.name, h) && g.consumer == h.consumer
      ==> g == h
  }

  /**
   * Every handler of an acked envelope has been applied exactly once, whatever was redelivered,
   * nacked because of a later handler, or lost in a crash on the way.
   */
  lemma AckedMeansAppliedOnce(r: Run, n: nat, p: nat, k: nat) returns (i: nat)
    requires IsRun(r) && n < |r.states| && OwnConsumers(r.states[n])
    requires p < |r.states[n].outcomes| && r.states[n].outcomes[p].Acked? && k < |r.states[n].outcomes[p].fns|
    ensures var s, o := r.states[n], r.states[n].outcomes[p];
            && i < |s.effects| && s.effects[i] == Effect(o.fns[k], o.env.eventId)
            && forall j :: 0 <= j < |s.effects| && j != i ==> KeyOf(s.effects[j]) != KeyOf(s.effects[i])
  {
    InvAlways(r, n);
    var s := r.states[n];
    var o := s.outcomes[p];
    assert AckRecorded(s, o);
    var key := InboxKey(o.fns[k].consumer, o.env.eventId);
    assert HasEffect(s.effects, key);
    i :| 0 <= i < |s.effects| && KeyOf(s.effects[i]) == key;
    assert Justified(s, s.effects[i]);
  }
}
