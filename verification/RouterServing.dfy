// The sequential loop of eventbus/router.go is a stretch of a run of Router, so that what holds of all
// runs holds of what the loop does.

module RouterServing {
  import opened Base
  import opened Router
  import opened RouterTables
  import RouterLoop

  /** How an envelope ends after a dispatch. */
  function OutcomeOf(env: Envelope, fns: seq<Handler>, ok: bool): Outcome {
    if ok then Acked(env, fns) else Nacked(env)
  }

  /** The state after a dispatch that started in s and is over. */
  ghost predicate AfterDispatch(s: System, t: System, env: Envelope, fns: seq<Handler>, res: Result) {
    && t.seen == res.seen && t.effects == s.effects + res.effects
    && t.outcomes == s.outcomes + [OutcomeOf(env, fns, res.ok)]
  }

  /** One handler, however it fares. */
  lemma HandleOne(r: Run, l: nat, env: Envelope, fns: seq<Handler>, n: nat, a: Attempt, table: Table, published: set<Envelope>)
    returns (t: Run)
    requires OnTable(r, table, published) && n < |fns| && At(Last(r), l, env, fns, n)
    ensures OnTable(t, table, published)
    ensures var res := Handle(Last(r).seen, fns[n], env.eventId, a);
            && Last(t).seen == res.seen && Last(t).effects == Last(r).effects + res.effects
            && Last(t).loops - {l} == Last(r).loops - {l}
            && (if res.ok then At(Last(t), l, env, fns, n + 1) && Last(t).outcomes == Last(r).outcomes
                else l !in Last(t).loops && Last(t).outcomes == Last(r).outcomes + [Nacked(env)])
  {
    ThenOnTable(r, DoHandle(l, a), table, published);
    t := Then(r, DoHandle(l, a));
  }

  lemma JoinDispatch(s: System, mid: System, t: System, env: Envelope, fns: seq<Handler>, first: Result, rest: Result)
    requires first.ok && mid.effects == s.effects + first.effects && mid.outcomes == s.outcomes
    requires AfterDispatch(mid, t, env, fns, rest)
    ensures AfterDispatch(s, t, env, fns, RouterLoop.Preceded(first.effects, rest))
  {
  }

  /** What is left of a dispatch, handler by handler, and the ack or nack at its end. */
  lemma {:induction false} HandleRest(r: Run, l: nat, env: Envelope, fns: seq<Handler>, n: nat, attempt: nat -> Attempt,
                                      table: Table, published: set<Envelope>) returns (t: Run)
    requires OnTable(r, table, published) && n <= |fns| && At(Last(r), l, env, fns, n)
    ensures OnTable(t, table, published) && Last(t).loops == Last(r).loops - {l}
    ensures AfterDispatch(Last(r), Last(t), env, fns,
                          RouterLoop.Dispatched(Last(r).seen, fns[n..], env.eventId, attempt))
    decreases |fns| - n
  {
    if n == |fns| {
      ThenOnTable(r, DoAck(l), table, published);
      t := Then(r, DoAck(l));
    } else {
      var first := Handle(Last(r).seen, fns[n], env.eventId, attempt(|fns| - n));
      RouterLoop.DispatchUnrolls(Last(r).seen, fns, n, env.eventId, attempt, []);
      t := HandleOne(r, l, env, fns, n, attempt(|fns| - n), table, published);
      if first.ok {
        var mid := t;
        t := HandleRest(mid, l, env, fns, n + 1, attempt, table, published);
        JoinDispatch(Last(r), Last(mid), Last(t), env, fns, first,
                     RouterLoop.Dispatched(first.seen, fns[n + 1..], env.eventId, attempt));
      }
    }
  }

  /** One dispatch of an envelope by an idle loop: received, handled, acked or nacked. */
  lemma DispatchIsStretch(r: Run, l: nat, q: nat, env: Envelope, attempt: nat -> Attempt, table: Table, published: set<Envelope>)
    returns (t: Run)
    requires OnTable(r, table, published) && env in published && l !in Last(r).loops
    ensures OnTable(t, table, published) && Last(t).loops == Last(r).loops
    ensures var fns := HandlersFor(table, q, env.name);
            AfterDispatch(Last(r), Last(t), env, fns, RouterLoop.Dispatched(Last(r).seen, fns, env.eventId, attempt))
  {
    var fns := HandlersFor(table, q, env.name);
    TableInvAlways(r, |r.states| - 1, table, published);
    ThenOnTable(r, DoReceive(l, q, env), table, published);
    t := Then(r, DoReceive(l, q, env));
    assert fns[0..] == fns;
    t := HandleRest(t, l, env, fns, 0, attempt, table, published);
  }

  /** The table of a single router. */
  function TableOf(handlers: map<string, seq<Handler>>): Table {
    map[0 := handlers]
  }

  /** s is where the loop has got to in its session. */
  ghost predicate Reached(s: System, handlers: map<string, seq<Handler>>, envs: seq<Envelope>, session: RouterLoop.Session) {
    && s.loops == map[] && s.seen == session.seen && s.effects == session.effects
    && |session.acked| == |envs| == |s.outcomes|
    && (forall i :: 0 <= i < |envs| ==>
          s.outcomes[i] == OutcomeOf(envs[i], RouterLoop.FnsOf(handlers, envs[i].name), session.acked[i]))
  }

  lemma ReachedNext(s: System, t: System, handlers: map<string, seq<Handler>>, envs: seq<Envelope>, env: Envelope,
                    session: RouterLoop.Session, res: Result)
    requires Reached(s, handlers, envs, session) && t.loops == s.loops
    requires AfterDispatch(s, t, env, RouterLoop.FnsOf(handlers, env.name), res)
    ensures Reached(t, handlers, envs + [env], RouterLoop.After(session, res))
  {
  }

  /** Serving envelopes one after the other on a new inbox is a run of the router system. */
  lemma {:induction false} ServedIsRun(handlers: map<string, seq<Handler>>, envs: seq<Envelope>, attempts: seq<nat -> Attempt>,
                                       published: set<Envelope>) returns (r: Run)
    requires |attempts| == |envs| && Elements(envs) <= published
    ensures OnTable(r, TableOf(handlers), published)
    ensures Reached(Last(r), handlers, envs, RouterLoop.Served({}, handlers, envs, attempts))
    decreases |envs|
  {
    if envs == [] {
      r := Run([System(TableOf(handlers), published, {}, [], map[], [])], []);
    } else {
      var n := |envs| - 1;
      assert envs[..n] + [envs[n]] == envs && envs[n] in Elements(envs) && Elements(envs[..n]) <= Elements(envs);
      var before := ServedIsRun(handlers, envs[..n], attempts[..n], published);
      r := DispatchIsStretch(before, 0, 0, envs[n], attempts[n], TableOf(handlers), published);
      var session := RouterLoop.Served({}, handlers, envs[..n], attempts[..n]);
      var fns := RouterLoop.FnsOf(handlers, envs[n].name);
      assert fns == HandlersFor(TableOf(handlers), 0, envs[n].name);
      ReachedNext(Last(before), Last(r), handlers, envs[..n], envs[n], session,
                  RouterLoop.Dispatched(session.seen, fns, envs[n].eventId, attempts[n]));
    }
  }

  /**
   * So it is true of the loop: without rivals among its handlers, every handler of every envelope it
   * acks has been applied exactly once.
   */
  lemma ServedMeansApplied(handlers: map<string, seq<Handler>>, envs: seq<Envelope>, attempts: seq<nat -> Attempt>, i: nat, k: nat)
    returns (m: nat)
    requires |attempts| == |envs| && NoRivals(TableOf(handlers), Elements(envs))
    requires var s := RouterLoop.Served({}, handlers, envs, attempts);
             i < |envs| && |s.acked| == |envs| && s.acked[i] && k < |RouterLoop.FnsOf(handlers, envs[i].name)|
    ensures var s := RouterLoop.Served({}, handlers, envs, attempts);
            var h := RouterLoop.FnsOf(handlers, envs[i].name)[k];
            && m < |s.effects| && s.effects[m] == Effect(h, envs[i].eventId)
            && forall j :: 0 <= j < |s.effects| && j != m ==> KeyOf(s.effects[j]) != KeyOf(s.effects[m])
  {
    var r := ServedIsRun(handlers, envs, attempts, Elements(envs));
    var n := |r.states| - 1;
    InvAlways(r, n);
    TableInvAlways(r, n, TableOf(handlers), Elements(envs));
    AckedIsApplied(r.states[n], i, k, TableOf(handlers), Elements(envs));
    m :| AppliedAt(r.states[n], m, RouterLoop.FnsOf(handlers, envs[i].name)[k], envs[i].eventId);
  }
}
