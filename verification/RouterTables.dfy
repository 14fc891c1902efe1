// Which tables of handlers make an ack mean that every handler was applied: exactly those without
// rivals, two handlers that may meet on one record.

module RouterTables {
  import opened Router

  type Table = map<nat, map<string, seq<Handler>>>

  /** Runs with this table and these events, nothing registered or published on the way. */
  ghost predicate OnTable(r: Run, table: Table, published: set<Envelope>) {
    && IsRun(r) && r.states[0].routers == table && r.states[0].published == published
    && (forall i :: 0 <= i < |r.actions| ==> !r.actions[i].DoRegister? && !r.actions[i].DoPublish?)
  }

  predicate AllNamed(fns: seq<Handler>) {
    forall i :: 0 <= i < |fns| ==> fns[i].consumer != ""
  }

  /** The handler at i is the first of its Consumer, and nothing before it stops the dispatch for good. */
  predicate Leads(fns: seq<Handler>, i: int) {
    && 0 <= i < |fns| && fns[i].consumer != ""
    && (forall j :: 0 <= j < i ==> fns[j].consumer != "" && fns[j].consumer != fns[i].consumer)
  }

  /**
   * Rivals: one handler leads on its router for the event, another one of the same Consumer is among
   * the handlers of a router that can ack the event.
   */
  predicate RivalsAt(table: Table, published: set<Envelope>, d: Envelope, q: nat, i: int, e: Envelope, r: nat, k: int) {
    var leading, acking := HandlersFor(table, q, d.name), HandlersFor(table, r, e.name);
    && d in published && e in published && d.eventId == e.eventId != ""
    && Leads(leading, i) && AllNamed(acking) && 0 <= k < |acking|
    && leading[i].consumer == acking[k].consumer && leading[i] != acking[k]
  }

  ghost predicate NoRivals(table: Table, published: set<Envelope>) {
    forall d, q, i, e, r, k :: !RivalsAt(table, published, d, q, i, e, r, k)
  }

  /** Two different handlers of one Consumer on one name are rivals, if the name can be acked at all. */
  lemma SharingIsRivalry(table: Table, published: set<Envelope>, e: Envelope, r: nat, i: nat, j: nat)
    requires e in published && e.eventId != "" && AllNamed(HandlersFor(table, r, e.name))
    requires i < j < |HandlersFor(table, r, e.name)|
    requires var fns := HandlersFor(table, r, e.name); fns[i].consumer == fns[j].consumer && fns[i] != fns[j]
    ensures !NoRivals(table, published)
  {
    var fns := HandlersFor(table, r, e.name);
    var first := FirstOf(fns, fns[i].consumer, i);
    assert RivalsAt(table, published, e, r, first, e, r, if fns[first] != fns[i] then i else j);
  }

  lemma {:induction false} FirstOf(fns: seq<Handler>, consumer: string, i: nat) returns (first: nat)
    requires AllNamed(fns) && i < |fns| && fns[i].consumer == consumer
    ensures first <= i && fns[first].consumer == consumer && Leads(fns, first)
  {
    first := i;
    if j :| 0 <= j < i && fns[j].consumer == consumer {
      first := FirstOf(fns, consumer, j);
    }
  }

  // ----- without rivals -----

  ghost predicate ListedFor(table: Table, name: string, fns: seq<Handler>) {
    exists router: nat :: fns == HandlersFor(table, router, name)
  }

  ghost predicate LedBy(table: Table, published: set<Envelope>, x: Effect, d: Envelope, router: nat, i: int) {
    var fns := HandlersFor(table, router, d.name);
    d in published && d.eventId == x.eventId && Leads(fns, i) && fns[i] == x.handler
  }

  ghost predicate Led(table: Table, published: set<Envelope>, x: Effect) {
    exists d, router, i :: LedBy(table, published, x, d, router, i)
  }

  /** Only handlers that lead are ever applied. */
  ghost predicate TableInv(s: System, table: Table, published: set<Envelope>) {
    && s.routers == table && s.published == published
    && (forall key :: key in s.seen ==> ValidKey(key))
    && (forall l :: l in s.loops ==> ListedFor(table, s.loops[l].env.name, s.loops[l].fns))
    && (forall i :: 0 <= i < |s.effects| ==> Led(table, published, s.effects[i]))
    && (forall p :: 0 <= p < |s.outcomes| && s.outcomes[p].Acked? ==>
          ListedFor(table, s.outcomes[p].env.name, s.outcomes[p].fns))
  }

  /** A handler whose effect is applied finds no record of its Consumer, so none before it had that Consumer. */
  lemma AppliedLeads(s: System, a: Action, table: Table, published: set<Envelope>)
    requires TableInv(s, table, published) && LoopsKnown(s) && a.DoHandle? && Enabled(s, a)
    requires Handle(s.seen, s.loops[a.loop].fns[s.loops[a.loop].next], s.loops[a.loop].env.eventId, a.a).effects != []
    ensures var loop := s.loops[a.loop]; Led(table, published, Effect(loop.fns[loop.next], loop.env.eventId))
  {
    var loop := s.loops[a.loop];
    assert LoopKnown(s, loop);
    var router: nat :| loop.fns == HandlersFor(table, router, loop.env.name);
    assert forall j :: 0 <= j < loop.next ==> ValidKey(InboxKey(loop.fns[j].consumer, loop.env.eventId));
    assert LedBy(table, published, Effect(loop.fns[loop.next], loop.env.eventId), loop.env, router, loop.next);
  }

  lemma HandleKeepsTableInv(s: System, a: Action, table: Table, published: set<Envelope>)
    requires TableInv(s, table, published) && LoopsKnown(s) && a.DoHandle? && Enabled(s, a)
    ensures TableInv(Apply(s, a), table, published)
  {
    var t := Apply(s, a);
    var loop := s.loops[a.loop];
    var res := Handle(s.seen, loop.fns[loop.next], loop.env.eventId, a.a);
    if res.effects != [] {
      AppliedLeads(s, a, table, published);
    }
    assert forall p :: 0 <= p < |t.outcomes| && t.outcomes[p].Acked? ==> p < |s.outcomes| && t.outcomes[p] == s.outcomes[p];
  }

  lemma StepKeepsTableInv(s: System, a: Action, table: Table, published: set<Envelope>)
    requires TableInv(s, table, published) && LoopsKnown(s) && Enabled(s, a) && !a.DoRegister? && !a.DoPublish?
    ensures TableInv(Apply(s, a), table, published)
  {
    if a.DoHandle? {
      HandleKeepsTableInv(s, a, table, published);
    }
  }

  lemma {:induction false} TableInvAlways(r: Run, n: nat, table: Table, published: set<Envelope>)
    requires OnTable(r, table, published) && n < |r.states|
    ensures TableInv(r.states[n], table, published)
  {
    if n > 0 {
      TableInvAlways(r, n - 1, table, published);
      InvAlways(r, n - 1);
      StepKeepsTableInv(r.states[n - 1], r.actions[n - 1], table, published);
    }
  }

  /** The handler's effect on the event is there, and no other effect under its record. */
  ghost predicate AppliedOnce(s: System, h: Handler, eventId: string) {
    exists i :: AppliedAt(s, i, h, eventId)
  }

  ghost predicate AppliedAt(s: System, i: int, h: Handler, eventId: string) {
    && 0 <= i < |s.effects| && s.effects[i] == Effect(h, eventId)
    && (forall j :: 0 <= j < |s.effects| && j != i ==> KeyOf(s.effects[j]) != InboxKey(h.consumer, eventId))
  }

  lemma AckedIsApplied(s: System, p: nat, k: nat, table: Table, published: set<Envelope>)
    requires Inv(s) && TableInv(s, table, published) && NoRivals(table, published)
    requires p < |s.outcomes| && s.outcomes[p].Acked? && k < |s.outcomes[p].fns|
    ensures AppliedOnce(s, s.outcomes[p].fns[k], s.outcomes[p].env.eventId)
  {
    var o := s.outcomes[p];
    assert AckRecorded(s, o);
    var key := InboxKey(o.fns[k].consumer, o.env.eventId);
    assert HasEffect(s.effects, key);
    var i :| 0 <= i < |s.effects| && KeyOf(s.effects[i]) == key;
    assert Led(table, published, s.effects[i]);
    var d, q, m :| LedBy(table, published, s.effects[i], d, q, m);
    var router: nat :| o.fns == HandlersFor(table, router, o.env.name);
    assert forall x :: 0 <= x < |o.fns| ==> ValidKey(InboxKey(o.fns[x].consumer, o.env.eventId));
    assert !RivalsAt(table, published, d, q, m, o.env, router, k);
    assert AppliedAt(s, i, o.fns[k], o.env.eventId);
  }

  // ----- with rivals -----

  function Last(r: Run): System
    requires r.states != []
  {
    r.states[|r.states| - 1]
  }

  function Then(r: Run, a: Action): Run
    requires r.states != [] && Enabled(Last(r), a)
  {
    Run(r.states + [Apply(Last(r), a)], r.actions + [a])
  }

  lemma ThenOnTable(r: Run, a: Action, table: Table, published: set<Envelope>)
    requires OnTable(r, table, published) && Enabled(Last(r), a) && !a.DoRegister? && !a.DoPublish?
    ensures OnTable(Then(r, a), table, published) && Last(Then(r, a)) == Apply(Last(r), a)
  {
    var t := Then(r, a);
    forall i | 0 <= i < |t.actions|
      ensures Enabled(t.states[i], t.actions[i]) && t.states[i + 1] == Apply(t.states[i], t.actions[i])
    {
      if i < |r.actions| {
        assert Enabled(r.states[i], r.actions[i]) && r.states[i + 1] == Apply(r.states[i], r.actions[i]);
      }
    }
  }

  const PLAIN := Attempt(false, false, false)

  /** A plain attempt under a valid key succeeds and leaves it on record. */
  lemma PlainSucceeds(seen: set<InboxKey>, h: Handler, eventId: string)
    requires h.consumer != "" && eventId != ""
    ensures var key := InboxKey(h.consumer, eventId);
            Handle(seen, h, eventId, PLAIN) == Result(seen + {key}, if key in seen then [] else [Effect(h, eventId)], true)
  {
    if InboxKey(h.consumer, eventId) in seen {
      assert seen + {InboxKey(h.consumer, eventId)} == seen;
    }
  }

  /** Loop l has got through the first n handlers. */
  ghost predicate At(s: System, l: nat, env: Envelope, fns: seq<Handler>, n: nat) {
    l in s.loops && s.loops[l] == Loop(env, fns, n)
  }

  lemma HandleNext(r: Run, l: nat, env: Envelope, fns: seq<Handler>, n: nat, table: Table, published: set<Envelope>)
    returns (t: Run)
    requires OnTable(r, table, published) && At(Last(r), l, env, fns, n) && n < |fns| && fns[n].consumer != "" && env.eventId != ""
    ensures OnTable(t, table, published) && At(Last(t), l, env, fns, n + 1)
    ensures var s, key := Last(r), InboxKey(fns[n].consumer, env.eventId);
            && Last(t).seen == s.seen + {key} && Last(t).loops.Keys == s.loops.Keys && Last(t).outcomes == s.outcomes
            && Last(t).effects == s.effects + if key in s.seen then [] else [Effect(fns[n], env.eventId)]
  {
    PlainSucceeds(Last(r).seen, fns[n], env.eventId);
    ThenOnTable(r, DoHandle(l, PLAIN), table, published);
    t := Then(r, DoHandle(l, PLAIN));
  }

  /** From handler n to handler m, all going well. */
  lemma {:induction false} HandleUpTo(r: Run, l: nat, env: Envelope, fns: seq<Handler>, n: nat, m: nat,
                                      table: Table, published: set<Envelope>) returns (t: Run)
    requires OnTable(r, table, published) && At(Last(r), l, env, fns, n) && n <= m <= |fns| && env.eventId != ""
    requires forall j :: n <= j < m ==> fns[j].consumer != ""
    ensures OnTable(t, table, published) && At(Last(t), l, env, fns, m)
    ensures Last(t).loops.Keys == Last(r).loops.Keys && Last(t).outcomes == Last(r).outcomes
    ensures Last(r).effects <= Last(t).effects
    ensures forall key :: key in Last(t).seen && key !in Last(r).seen ==>
              exists j :: n <= j < m && key.consumer == fns[j].consumer
    decreases m - n
  {
    t := r;
    if n < m {
      var next := HandleNext(r, l, env, fns, n, table, published);
      t := HandleUpTo(next, l, env, fns, n + 1, m, table, published);
      forall key | key in Last(t).seen && key !in Last(r).seen
        ensures exists j :: n <= j < m && key.consumer == fns[j].consumer
      {
        if key in Last(next).seen {
          assert key.consumer == fns[n].consumer;
        }
      }
    }
  }

  /** A handler that leads can be applied before anything else of its Consumer. */
  lemma LeaderApplied(table: Table, published: set<Envelope>, d: Envelope, q: nat, i: nat) returns (r: Run)
    requires d in published && d.eventId != "" && Leads(HandlersFor(table, q, d.name), i)
    ensures OnTable(r, table, published) && Last(r).loops.Keys == {0} && Last(r).outcomes == []
    ensures Effect(HandlersFor(table, q, d.name)[i], d.eventId) in Last(r).effects
  {
    var fns := HandlersFor(table, q, d.name);
    var start := System(table, published, {}, [], map[], []);
    r := Run([start], []);
    ThenOnTable(r, DoReceive(0, q, d), table, published);
    r := Then(r, DoReceive(0, q, d));
    assert At(Last(r), 0, d, fns, 0) && Last(r).seen == {} && Last(r).loops.Keys == {0};
    r := HandleUpTo(r, 0, d, fns, 0, i, table, published);
    r := HandleNext(r, 0, d, fns, i, table, published);
    assert Last(r).effects[|Last(r).effects| - 1] == Effect(fns[i], d.eventId);
  }

  /** A router whose handlers all have a name to record under can get any event acked. */
  lemma GetsAcked(r: Run, table: Table, published: set<Envelope>, e: Envelope, q: nat) returns (t: Run)
    requires OnTable(r, table, published) && Last(r).loops.Keys == {0} && Last(r).outcomes == []
    requires e in published && e.eventId != "" && AllNamed(HandlersFor(table, q, e.name))
    ensures OnTable(t, table, published) && Last(r).effects <= Last(t).effects
    ensures Last(t).outcomes == [Acked(e, HandlersFor(table, q, e.name))]
  {
    var fns := HandlersFor(table, q, e.name);
    TableInvAlways(r, |r.states| - 1, table, published);
    ThenOnTable(r, DoReceive(1, q, e), table, published);
    t := Then(r, DoReceive(1, q, e));
    assert At(Last(t), 1, e, fns, 0);
    t := HandleUpTo(t, 1, e, fns, 0, |fns|, table, published);
    ThenOnTable(t, DoAck(1), table, published);
    t := Then(t, DoAck(1));
  }

  /** Rivals cost one of them its effect: there is a run that acks an event to a handler that is never applied. */
  lemma RivalIsSkipped(table: Table, published: set<Envelope>, d: Envelope, q: nat, i: nat, e: Envelope, r: nat, k: nat)
    returns (run: Run)
    requires RivalsAt(table, published, d, q, i, e, r, k)
    ensures OnTable(run, table, published)
    ensures Last(run).outcomes == [Acked(e, HandlersFor(table, r, e.name))]
    ensures Effect(HandlersFor(table, r, e.name)[k], e.eventId) !in Last(run).effects
  {
    var leader, skipped := HandlersFor(table, q, d.name)[i], HandlersFor(table, r, e.name)[k];
    var led := LeaderApplied(table, published, d, q, i);
    run := GetsAcked(led, table, published, e, r);
    InvAlways(run, |run.states| - 1);
    OneEffectPerKey(Last(run), Effect(leader, e.eventId), Effect(skipped, e.eventId));
  }

  lemma OneEffectPerKey(s: System, x: Effect, y: Effect)
    requires OnePerKey(s) && x in s.effects && y != x && KeyOf(y) == KeyOf(x)
    ensures y !in s.effects
  {
  }

  // ----- the condition is exact -----

  ghost predicate AckMeansApplied(s: System) {
    forall p, k :: 0 <= p < |s.outcomes| && s.outcomes[p].Acked? && 0 <= k < |s.outcomes[p].fns| ==>
      AppliedOnce(s, s.outcomes[p].fns[k], s.outcomes[p].env.eventId)
  }

  ghost predicate AlwaysApplied(table: Table, published: set<Envelope>) {
    forall r: Run, n: nat :: OnTable(r, table, published) && n < |r.states| ==> AckMeansApplied(r.states[n])
  }

  /**
   * On every run, whatever is redelivered, nacked or lost in a crash, an ack means that every handler
   * of the envelope has been applied exactly once: if and only if the table has no rivals.
   */
  lemma AppliedExactlyWhenNoRivals(table: Table, published: set<Envelope>)
    ensures AlwaysApplied(table, published) <==> NoRivals(table, published)
  {
    if NoRivals(table, published) {
      forall r: Run, n: nat | OnTable(r, table, published) && n < |r.states|
        ensures AckMeansApplied(r.states[n])
      {
        InvAlways(r, n);
        TableInvAlways(r, n, table, published);
        forall p, k | 0 <= p < |r.states[n].outcomes| && r.states[n].outcomes[p].Acked? && 0 <= k < |r.states[n].outcomes[p].fns|
          ensures AppliedOnce(r.states[n], r.states[n].outcomes[p].fns[k], r.states[n].outcomes[p].env.eventId)
        {
          AckedIsApplied(r.states[n], p, k, table, published);
        }
      }
    } else {
      var d, q, i, e, r, k :| RivalsAt(table, published, d, q, i, e, r, k);
      var run := RivalIsSkipped(table, published, d, q, i, e, r, k);
      var s := Last(run);
      assert s.outcomes[0].fns[k] == HandlersFor(table, r, e.name)[k];
      assert !AppliedOnce(s, s.outcomes[0].fns[k], s.outcomes[0].env.eventId);
      assert !AckMeansApplied(run.states[|run.states| - 1]);
    }
  }
}
