// Keys do not influence each other: what the clients of one (scope, key) see in a shared store
// is what they would see in a store of their own, up to the names of the lease tokens.

module IdempotencyIsolation {
  import opened Base
  import opened Idempotency
  import Decimal

  function Replies(s: Store, calls: seq<Call>): seq<Reply>
    decreases |calls|
  {
    if calls == [] then []
    else var (t, reply) := Step(s, calls[0]); [reply] + Replies(t, calls[1..])
  }

  /** From the tokens the shared store issued for the key to those its own store issues. */
  type Naming = map<string, string>

  /** Stands for every token that was not issued for the key. */
  const FOREIGN := "foreign"

  function Renamed(names: Naming, token: string): string {
    if token in names then names[token] else if token == "" then "" else FOREIGN
  }

  function RenamedCall(names: Naming, c: Call): Call {
    match c.req
    case Begin(_, _, _) => c
    case Finish(scope, key, token, response) => c.(req := Finish(scope, key, Renamed(names, token), response))
    case Cancel(scope, key, token) => c.(req := Cancel(scope, key, Renamed(names, token)))
  }

  function RenamedReply(names: Naming, reply: Reply): Reply {
    if reply.Reserved? then Reserved(reply.res.(leaseToken := Renamed(names, reply.res.leaseToken))) else reply
  }

  predicate Issues(reply: Reply) {
    reply.Reserved? && reply.res.status == StatusNew
  }

  /** A newly issued token takes the next name. */
  function Extended(names: Naming, reply: Reply): Naming {
    if Issues(reply) then names[reply.res.leaseToken := Token(|names| + 1)] else names
  }

  /** The calls on k and their replies, each renamed with what has been issued for k by then. */
  function Projected(s: Store, calls: seq<Call>, k: Key, names: Naming): (seq<Call>, seq<Reply>)
    decreases |calls|
  {
    if calls == [] then ([], [])
    else
      var (t, reply) := Step(s, calls[0]);
      if KeyOf(calls[0].req) != k then Projected(t, calls[1..], k, names)
      else
        var names' := Extended(names, reply);
        var (cs, rs) := Projected(t, calls[1..], k, names');
        ([RenamedCall(names, calls[0])] + cs, [RenamedReply(names', reply)] + rs)
  }

  // ----- the simulation -----

  /** One of the first n tokens a store issues. */
  ghost predicate Among(token: string, n: nat) {
    exists m: nat :: 1 <= m <= n && token == Token(m)
  }

  ghost predicate ProperNaming(names: Naming, issued: nat) {
    && (forall token :: token in names ==> Among(token, issued) && Among(names[token], |names|))
    && Injective(names)
  }

  ghost predicate Injective(names: Naming) {
    forall a, b :: a in names && b in names && names[a] == names[b] ==> a == b
  }

  ghost predicate SameEntry(e: Entry<Slice>, f: Entry<Slice>, names: Naming) {
    && f == e.(leaseToken := f.leaseToken)
    && (if e.status == StatusInProgress then e.leaseToken in names && f.leaseToken == names[e.leaseToken]
        else e.leaseToken == f.leaseToken)
  }

  /** own is the store of k alone, s the shared one. */
  ghost predicate Mirrors(s: Store, own: Store, k: Key, names: Naming) {
    && own.reclaimAfter == s.reclaimAfter && own.seqNo == |names|
    && (k in own.entries <==> k in s.entries)
    && (k in s.entries ==> SameEntry(s.entries[k], own.entries[k], names))
  }

  ghost predicate Simulates(s: Store, own: Store, k: Key, names: Naming) {
    Mirrors(s, own, k, names) && ProperNaming(names, s.seqNo)
  }

  lemma AmongIsProper(token: string, n: nat)
    requires Among(token, n)
    ensures token != FOREIGN && token != "" && token != Token(n + 1) && Among(token, n + 1)
  {
    var m: nat :| 1 <= m <= n && token == Token(m);
    assert Token(m)[0] == 'l';
    if Token(m) == Token(n + 1) {
      Decimal.TaggedInjective("lease-", m, n + 1);
    }
  }

  lemma RenamedEmpty(names: Naming, issued: nat, token: string)
    requires ProperNaming(names, issued)
    ensures Renamed(names, token) == "" <==> token == ""
    ensures "" !in names
  {
    if "" in names {
      AmongIsProper("", issued);
    }
    if token in names {
      AmongIsProper(token, issued);
      AmongIsProper(names[token], |names|);
    }
  }

  lemma RenamedOwner(names: Naming, issued: nat, owner: string, token: string)
    requires ProperNaming(names, issued) && owner in names
    ensures names[owner] == Renamed(names, token) <==> owner == token
  {
    AmongIsProper(names[owner], |names|);
  }

  lemma SizeExtends(names: Naming, token: string, name: string)
    requires token !in names
    ensures |names[token := name]| == |names| + 1
  {
    assert names[token := name].Keys == names.Keys + {token};
    assert |names[token := name]| == |names[token := name].Keys|;
    assert |names| == |names.Keys|;
  }

  lemma InjectiveExtends(names: Naming, token: string, name: string)
    requires Injective(names) && forall t :: t in names ==> names[t] != name
    ensures Injective(names[token := name])
  {
  }

  /** The next tokens of both stores are new to the naming. */
  lemma NextIsNew(names: Naming, issued: nat, token: string)
    requires ProperNaming(names, issued) && token in names
    ensures token != Token(issued + 1) && Among(token, issued + 1)
    ensures names[token] != Token(|names| + 1) && Among(names[token], |names| + 1)
  {
    AmongIsProper(token, issued);
    AmongIsProper(names[token], |names|);
  }

  lemma NamesExtend(names: Naming, issued: nat)
    requires ProperNaming(names, issued)
    ensures Token(issued + 1) !in names
    ensures ProperNaming(names[Token(issued + 1) := Token(|names| + 1)], issued + 1)
    ensures |names[Token(issued + 1) := Token(|names| + 1)]| == |names| + 1
  {
    var token, name := Token(issued + 1), Token(|names| + 1);
    if token in names {
      NextIsNew(names, issued, token);
    }
    SizeExtends(names, token, name);
    forall t | t in names
      ensures names[t] != name
    {
      NextIsNew(names, issued, t);
    }
    InjectiveExtends(names, token, name);
    var more := names[token := name];
    forall t | t in more
      ensures Among(t, issued + 1) && Among(more[t], |more|)
    {
      if t != token {
        NextIsNew(names, issued, t);
      }
    }
  }

  lemma SweepMirrors(s: Store, own: Store, k: Key, names: Naming, at: int)
    requires Mirrors(s, own, k, names)
    ensures Mirrors(Swept(s, k, at), Swept(own, k, at), k, names)
  {
  }

  /** A call on another key leaves k's entry alone. */
  lemma OtherKeyMirrors(s: Store, own: Store, k: Key, names: Naming, c: Call)
    requires Mirrors(s, own, k, names) && KeyOf(c.req) != k
    ensures Mirrors(Step(s, c).0, own, k, names)
  {
  }

  lemma ReserveMirrors(s: Store, own: Store, k: Key, names: Naming, c: Call)
    requires Mirrors(s, own, k, names) && KeyOf(c.req) == k && c.req.Begin?
    requires "" !in names && Token(s.seqNo + 1) !in names
    ensures var (t, reply) := Reserve(s, c.req, c.at, c.stamp);
            var names' := Extended(names, reply);
            && Reserve(own, c.req, c.at, c.stamp).1 == RenamedReply(names', reply)
            && Mirrors(t, Reserve(own, c.req, c.at, c.stamp).0, k, names')
  {
    SweepMirrors(s, own, k, names, c.at);
    SizeExtends(names, Token(s.seqNo + 1), Token(|names| + 1));
  }

  lemma ConcludeMirrors(s: Store, own: Store, k: Key, names: Naming, c: Call)
    requires Mirrors(s, own, k, names) && KeyOf(c.req) == k && !c.req.Begin?
    requires forall owner :: owner in names ==>
               (names[owner] == Renamed(names, c.req.leaseToken) <==> owner == c.req.leaseToken)
    ensures var (t, reply) := Conclude(s, c.req, c.at);
            var d := RenamedCall(names, c);
            && Conclude(own, d.req, d.at).1 == reply && !reply.Reserved?
            && Mirrors(t, Conclude(own, d.req, d.at).0, k, names)
  {
    SweepMirrors(s, own, k, names, c.at);
  }

  /** The step of k's own store matches the step of the shared one. */
  ghost predicate StepMirrors(s: Store, own: Store, k: Key, names: Naming, c: Call) {
    var (t, reply) := Step(s, c);
    var (own', reply') := Step(own, RenamedCall(names, c));
    reply' == RenamedReply(Extended(names, reply), reply) && Mirrors(t, own', k, Extended(names, reply))
  }

  lemma BeginCallMirrors(s: Store, own: Store, k: Key, names: Naming, c: Call)
    requires Mirrors(s, own, k, names) && KeyOf(c.req) == k && c.req.Begin?
    requires "" !in names && Token(s.seqNo + 1) !in names
    ensures StepMirrors(s, own, k, names, c)
  {
    ReserveMirrors(s, own, k, names, c);
  }

  lemma ConcludeCallMirrors(s: Store, own: Store, k: Key, names: Naming, c: Call)
    requires Mirrors(s, own, k, names) && KeyOf(c.req) == k && !c.req.Begin?
    requires forall owner :: owner in names ==>
               (names[owner] == Renamed(names, c.req.leaseToken) <==> owner == c.req.leaseToken)
    requires Renamed(names, c.req.leaseToken) == "" <==> c.req.leaseToken == ""
    ensures StepMirrors(s, own, k, names, c)
  {
    ConcludeMirrors(s, own, k, names, c);
  }

  lemma CallMirrors(s: Store, own: Store, k: Key, names: Naming, c: Call)
    requires Simulates(s, own, k, names) && KeyOf(c.req) == k
    ensures StepMirrors(s, own, k, names, c)
  {
    if c.req.Begin? {
      RenamedEmpty(names, s.seqNo, "");
      NamesExtend(names, s.seqNo);
      BeginCallMirrors(s, own, k, names, c);
    } else {
      RenamedEmpty(names, s.seqNo, c.req.leaseToken);
      forall owner | owner in names
        ensures names[owner] == Renamed(names, c.req.leaseToken) <==> owner == c.req.leaseToken
      {
        RenamedOwner(names, s.seqNo, owner, c.req.leaseToken);
      }
      ConcludeCallMirrors(s, own, k, names, c);
    }
  }

  /** Token numbers move by at most one in a step, and exactly when a token is issued. */
  lemma StepIssues(s: Store, c: Call)
    ensures Issues(Step(s, c).1) ==> Step(s, c).1.res.leaseToken == Token(s.seqNo + 1)
    ensures Step(s, c).0.seqNo == s.seqNo + if Issues(Step(s, c).1) then 1 else 0
  {
  }

  lemma AmongLater(names: Naming, issued: nat)
    requires ProperNaming(names, issued)
    ensures ProperNaming(names, issued + 1)
  {
    forall token | token in names
      ensures Among(token, issued + 1)
    {
      AmongIsProper(token, issued);
    }
  }

  /** Naming stays proper when a token is issued, to k or to another key. */
  lemma NamingWithReply(names: Naming, issued: nat, reply: Reply)
    requires ProperNaming(names, issued) && (Issues(reply) ==> reply.res.leaseToken == Token(issued + 1))
    ensures var issued' := if Issues(reply) then issued + 1 else issued;
            ProperNaming(names, issued') && ProperNaming(Extended(names, reply), issued')
    ensures Within(names, Extended(names, reply))
  {
    if Issues(reply) {
      NamesExtend(names, issued);
      AmongLater(names, issued);
    }
  }

  lemma NamingGoesOn(s: Store, names: Naming, c: Call, named: bool)
    requires ProperNaming(names, s.seqNo)
    ensures ProperNaming(if named then Extended(names, Step(s, c).1) else names, Step(s, c).0.seqNo)
    ensures Within(names, Extended(names, Step(s, c).1))
  {
    StepIssues(s, c);
    NamingWithReply(names, s.seqNo, Step(s, c).1);
  }

  lemma {:induction false} ProjectionReplays(s: Store, own: Store, calls: seq<Call>, k: Key, names: Naming)
    requires Simulates(s, own, k, names)
    ensures Replies(own, Projected(s, calls, k, names).0) == Projected(s, calls, k, names).1
    decreases |calls|
  {
    if calls == [] {
    } else {
      var c := calls[0];
      var (t, reply) := Step(s, c);
      if KeyOf(c.req) != k {
        OtherKeyMirrors(s, own, k, names, c);
        NamingGoesOn(s, names, c, false);
        ProjectionReplays(t, own, calls[1..], k, names);
      } else {
        CallMirrors(s, own, k, names, c);
        NamingGoesOn(s, names, c, true);
        var names' := Extended(names, reply);
        var own' := Step(own, RenamedCall(names, c)).0;
        ProjectionReplays(t, own', calls[1..], k, names');
        var (cs, rs) := Projected(t, calls[1..], k, names');
        assert ([RenamedCall(names, c)] + cs)[1..] == cs;
      }
    }
  }

  /**
   * In any interleaving, and whatever tokens callers pass, guessed and stale ones included, the
   * replies seen for k are those of running only k's calls at the same times on an empty store.
   */
  lemma KeyIsolation(calls: seq<Call>, k: Key, reclaimAfter: int)
    ensures var (own, replies) := Projected(Empty(reclaimAfter), calls, k, map[]);
            Replies(Empty(reclaimAfter), own) == replies
  {
    ProjectionReplays(Empty(reclaimAfter), Empty(reclaimAfter), calls, k, map[]);
  }

  ghost predicate SameButToken(c: Call, d: Call) {
    && d.ctxDone == c.ctxDone && d.at == c.at && d.stamp == c.stamp
    && (match c.req
        case Begin(_, _, _) => d.req == c.req
        case Finish(scope, key, _, response) => d.req.Finish? && d.req == Finish(scope, key, d.req.leaseToken, response)
        case Cancel(scope, key, _) => d.req.Cancel? && d.req == Cancel(scope, key, d.req.leaseToken))
  }

  /** The calls run on k's own store are k's calls, in order, with the same arguments and times, tokens aside. */
  lemma {:induction false} ProjectionKeepsCalls(s: Store, calls: seq<Call>, k: Key, names: Naming)
    ensures |Projected(s, calls, k, names).0| == |CallsOn(calls, k)|
    ensures forall i :: 0 <= i < |CallsOn(calls, k)| ==> SameButToken(CallsOn(calls, k)[i], Projected(s, calls, k, names).0[i])
    decreases |calls|
  {
    if calls == [] {
    } else {
      var (t, reply) := Step(s, calls[0]);
      if KeyOf(calls[0].req) != k {
        ProjectionKeepsCalls(t, calls[1..], k, names);
      } else {
        ProjectionKeepsCalls(t, calls[1..], k, Extended(names, reply));
      }
    }
  }

  // ----- callers that only pass back tokens issued for the key: one renaming for the whole run -----

  function CallsOn(calls: seq<Call>, k: Key): seq<Call> {
    if calls == [] then []
    else (if KeyOf(calls[0].req) == k then [calls[0]] else []) + CallsOn(calls[1..], k)
  }

  function RepliesOn(s: Store, calls: seq<Call>, k: Key): seq<Reply>
    decreases |calls|
  {
    if calls == [] then []
    else
      var (t, reply) := Step(s, calls[0]);
      (if KeyOf(calls[0].req) == k then [reply] else []) + RepliesOn(t, calls[1..], k)
  }

  /** Every token passed with k is empty or was issued for k earlier. */
  ghost predicate Honest(s: Store, calls: seq<Call>, k: Key, names: Naming)
    decreases |calls|
  {
    calls == [] ||
    (var c := calls[0];
     var (t, reply) := Step(s, c);
     if KeyOf(c.req) != k then Honest(t, calls[1..], k, names)
     else
       && (c.req.Begin? || c.req.leaseToken == "" || c.req.leaseToken in names)
       && Honest(t, calls[1..], k, Extended(names, reply)))
  }

  function FinalNames(s: Store, calls: seq<Call>, k: Key, names: Naming): Naming
    decreases |calls|
  {
    if calls == [] then names
    else
      var (t, reply) := Step(s, calls[0]);
      FinalNames(t, calls[1..], k, if KeyOf(calls[0].req) == k then Extended(names, reply) else names)
  }

  ghost predicate Within(a: Naming, b: Naming) {
    forall token :: token in a ==> token in b && b[token] == a[token]
  }

  /** No token issued later has a name already, so names never change once given. */
  lemma {:induction false} NamesOnlyGrow(s: Store, own: Store, calls: seq<Call>, k: Key, names: Naming)
    requires Simulates(s, own, k, names)
    ensures Within(names, FinalNames(s, calls, k, names))
    ensures Injective(FinalNames(s, calls, k, names)) && "" !in FinalNames(s, calls, k, names)
    decreases |calls|
  {
    if calls == [] {
      RenamedEmpty(names, s.seqNo, "");
    } else if KeyOf(calls[0].req) != k {
      OtherKeyMirrors(s, own, k, names, calls[0]);
      NamingGoesOn(s, names, calls[0], false);
      NamesOnlyGrow(Step(s, calls[0]).0, own, calls[1..], k, names);
    } else {
      CallMirrors(s, own, k, names, calls[0]);
      NamingGoesOn(s, names, calls[0], true);
      NamesOnlyGrow(Step(s, calls[0]).0, Step(own, RenamedCall(names, calls[0])).0, calls[1..], k,
                    Extended(names, Step(s, calls[0]).1));
    }
  }

  ghost predicate RenamedAll(names: Naming, calls: seq<Call>, renamed: seq<Call>) {
    |renamed| == |calls| && forall i :: 0 <= i < |calls| ==> renamed[i] == RenamedCall(names, calls[i])
  }

  ghost predicate RenamedReplies(names: Naming, replies: seq<Reply>, renamed: seq<Reply>) {
    |renamed| == |replies| && forall i :: 0 <= i < |replies| ==> renamed[i] == RenamedReply(names, replies[i])
  }

  lemma ReplyNamed(s: Store, c: Call, names: Naming, last: Naming)
    requires Within(Extended(names, Step(s, c).1), last) && "" !in last && "" !in names
    ensures RenamedReply(Extended(names, Step(s, c).1), Step(s, c).1) == RenamedReply(last, Step(s, c).1)
  {
  }

  lemma {:induction false} HonestProjection(s: Store, own: Store, calls: seq<Call>, k: Key, names: Naming)
    requires Simulates(s, own, k, names) && Honest(s, calls, k, names)
    ensures RenamedAll(FinalNames(s, calls, k, names), CallsOn(calls, k), Projected(s, calls, k, names).0)
    ensures RenamedReplies(FinalNames(s, calls, k, names), RepliesOn(s, calls, k), Projected(s, calls, k, names).1)
    decreases |calls|
  {
    if calls == [] {
    } else if KeyOf(calls[0].req) != k {
      OtherKeyMirrors(s, own, k, names, calls[0]);
      NamingGoesOn(s, names, calls[0], false);
      HonestProjection(Step(s, calls[0]).0, own, calls[1..], k, names);
    } else {
      var c := calls[0];
      var (t, reply) := Step(s, c);
      var names' := Extended(names, reply);
      var own' := Step(own, RenamedCall(names, c)).0;
      var last := FinalNames(t, calls[1..], k, names');
      CallMirrors(s, own, k, names, c);
      NamingGoesOn(s, names, c, true);
      HonestProjection(t, own', calls[1..], k, names');
      NamesOnlyGrow(t, own', calls[1..], k, names');
      RenamedEmpty(names, s.seqNo, "");
      ReplyNamed(s, c, names, last);
      CallNamed(c, names, last);
      RenamedCons(last, c, CallsOn(calls[1..], k), Projected(t, calls[1..], k, names').0);
      RenamedRepliesCons(last, reply, RepliesOn(t, calls[1..], k), Projected(t, calls[1..], k, names').1);
    }
  }

  lemma RenamedCons(names: Naming, c: Call, calls: seq<Call>, renamed: seq<Call>)
    requires RenamedAll(names, calls, renamed)
    ensures RenamedAll(names, [c] + calls, [RenamedCall(names, c)] + renamed)
  {
  }

  lemma RenamedRepliesCons(names: Naming, reply: Reply, replies: seq<Reply>, renamed: seq<Reply>)
    requires RenamedReplies(names, replies, renamed)
    ensures RenamedReplies(names, [reply] + replies, [RenamedReply(names, reply)] + renamed)
  {
  }

  lemma CallNamed(c: Call, names: Naming, last: Naming)
    requires Within(names, last) && "" !in last
    requires c.req.Begin? || c.req.leaseToken == "" || c.req.leaseToken in names
    ensures RenamedCall(names, c) == RenamedCall(last, c)
  {
  }

  /** When callers pass back only tokens that Begin issued for k, one injective renaming of tokens does for all calls and replies. */
  lemma KeyIsolationByRenaming(calls: seq<Call>, k: Key, reclaimAfter: int) returns (names: Naming, own: seq<Call>)
    requires Honest(Empty(reclaimAfter), calls, k, map[])
    ensures Injective(names) && RenamedAll(names, CallsOn(calls, k), own)
    ensures RenamedReplies(names, RepliesOn(Empty(reclaimAfter), calls, k), Replies(Empty(reclaimAfter), own))
  {
    var s := Empty(reclaimAfter);
    names := FinalNames(s, calls, k, map[]);
    own := Projected(s, calls, k, map[]).0;
    KeyIsolation(calls, k, reclaimAfter);
    NamesOnlyGrow(s, s, calls, k, map[]);
    HonestProjection(s, s, calls, k, map[]);
  }
}
