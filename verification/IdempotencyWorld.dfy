// The running idempotency store with any number of clients, who keep the arrays they passed in and
// the replays they were handed and write into them whenever they like.

module IdempotencyWorld {
  import opened Base
  import opened Buffers
  import opened Idempotency
  import opened IdempotencyStore
  import opened IdempotencyRuns

  /**
   * What may happen next: a byte written into any held array, or a call wait after the last one. A
   * Begin takes lag between its two looks at the clock; a Finish passes the i-th held array, or nil if
   * there is none.
   */
  datatype Move =
    | Write(i: nat, at: nat, b: Byte)
    | Ask(scope: string, key: string, fingerprint: string, ctxDone: bool, wait: nat, lag: nat)
    | Settle(scope: string, key: string, leaseToken: string, i: nat, ctxDone: bool, wait: nat)
    | Release(scope: string, key: string, leaseToken: string, ctxDone: bool, wait: nat)

  /** A call and its reply, as values of that moment. */
  datatype Exchange = Exchange(call: Call, reply: Reply)

  /** The bytes that are passed with the i-th held array when the held arrays contain mem. */
  function Passed(mem: seq<Bytes>, i: nat): Slice {
    if i < |mem| then Data(mem[i]) else Nil
  }

  /** What a move asks of the store while the held arrays contain mem. */
  ghost predicate Does(m: Move, mem: seq<Bytes>, x: Option<Exchange>) {
    match m
    case Write(_, _, _) => x == None
    case Ask(scope, key, fingerprint, ctxDone, _, lag) =>
      x.Some? && var c := x.value.call; c == Call(Begin(scope, key, fingerprint), ctxDone, c.at, c.at + lag)
    case Settle(scope, key, token, i, ctxDone, _) =>
      x.Some? && var c := x.value.call; c == Call(Finish(scope, key, token, Passed(mem, i)), ctxDone, c.at, c.at)
    case Release(scope, key, token, ctxDone, _) =>
      x.Some? && var c := x.value.call; c == Call(Cancel(scope, key, token), ctxDone, c.at, c.at)
  }

  /** The bytes of the replay a reply carries, if it carries one. */
  function Replayed(reply: Reply): seq<Bytes> {
    if reply.Reserved? && reply.res.response.Data? then [reply.res.response.bytes] else []
  }

  /** What the held arrays contain afterwards: a replay is one more array, and only a write changes any. */
  function Kept(m: Move, mem: seq<Bytes>, x: Option<Exchange>): seq<Bytes> {
    if m.Write? then Poked(mem, m.i, m.at, m.b)
    else mem + if x.Some? then Replayed(x.value.reply) else []
  }

  /** mems are the contents of the held arrays, before the first move and after each. */
  ghost predicate Played(moves: seq<Move>, did: seq<Option<Exchange>>, mems: seq<seq<Bytes>>) {
    && |did| <= |moves| && |mems| == |did| + 1
    && (forall i :: 0 <= i < |did| ==> Does(moves[i], mems[i], did[i]) && mems[i + 1] == Kept(moves[i], mems[i], did[i]))
  }

  lemma PlayedOn(moves: seq<Move>, did: seq<Option<Exchange>>, mems: seq<seq<Bytes>>, x: Option<Exchange>, mem: seq<Bytes>)
    requires Played(moves, did, mems) && |did| < |moves|
    requires Does(moves[|did|], mems[|did|], x) && mem == Kept(moves[|did|], mems[|did|], x)
    ensures Played(moves, did + [x], mems + [mem])
  {
  }

  // ----- the calls among the moves, as a run -----

  function Made(did: seq<Option<Exchange>>): seq<Exchange> {
    if did == [] then []
    else
      var last := did[|did| - 1];
      Made(did[..|did| - 1]) + if last.Some? then [last.value] else []
  }

  function RunOf(stores: seq<Store>, made: seq<Exchange>): Run {
    Run(stores, seq(|made|, i requires 0 <= i < |made| => made[i].call),
        seq(|made|, i requires 0 <= i < |made| => made[i].reply))
  }

  lemma MadeNext(did: seq<Option<Exchange>>, x: Option<Exchange>)
    ensures Made(did + [x]) == Made(did) + if x.Some? then [x.value] else []
  {
    assert (did + [x])[..|did|] == did;
  }

  /** The exchange of move p is the one after those of the moves before it. */
  lemma {:induction false} MadeAt(did: seq<Option<Exchange>>, p: nat)
    requires p < |did| && did[p].Some?
    ensures |Made(did[..p])| < |Made(did)| && Made(did)[|Made(did[..p])|] == did[p].value
    decreases |did|
  {
    var n := |did| - 1;
    if p < n {
      MadeAt(did[..n], p);
      assert did[..n][..p] == did[..p];
    }
  }

  lemma RunGoesOn(stores: seq<Store>, made: seq<Exchange>, x: Exchange, s: Store)
    requires IsRun(RunOf(stores, made)) && x.call.at <= x.call.stamp
    requires forall i :: 0 <= i < |made| ==> made[i].call.stamp <= x.call.at
    requires (s, x.reply) == Step(stores[|made|], x.call)
    ensures IsRun(RunOf(stores + [s], made + [x]))
  {
    var r, t := RunOf(stores, made), RunOf(stores + [s], made + [x]);
    forall i | 0 <= i < |t.calls|
      ensures (t.stores[i + 1], t.replies[i]) == Step(t.stores[i], t.calls[i])
    {
      if i < |made| {
        assert (r.stores[i + 1], r.replies[i]) == Step(r.stores[i], r.calls[i]);
      }
    }
    forall i, j | 0 <= i < j < |t.calls|
      ensures t.calls[i].stamp <= t.calls[j].at
    {
      if j < |made| {
        assert r.calls[i].stamp <= r.calls[j].at;
      }
    }
    forall i | 0 <= i < |t.calls|
      ensures t.calls[i].at <= t.calls[i].stamp
    {
      if i < |made| {
        assert r.calls[i].at <= r.calls[i].stamp;
      }
    }
  }

  // ----- replays -----

  ghost predicate FinishedBy(x: Option<Exchange>, k: Key) {
    x.Some? && x.value.call.req.Finish? && KeyOf(x.value.call.req) == k && x.value.reply == Applied
  }

  ghost predicate BegunBy(x: Option<Exchange>, k: Key) {
    && x.Some? && x.value.call.req.Begin? && KeyOf(x.value.call.req) == k
    && !x.value.call.ctxDone && !Malformed(x.value.call.req)
  }

  /**
   * The Begin of move j hands out one more array with the very bytes that were in the array passed to
   * the Finish of move p at that moment, or nil for nil; or it reports a mismatch and hands out nothing.
   */
  ghost predicate Replays(moves: seq<Move>, did: seq<Option<Exchange>>, mems: seq<seq<Bytes>>, p: int, j: int)
    requires Played(moves, did, mems) && 0 <= p < j < |did|
  {
    && moves[p].Settle? && did[j].Some? && did[j].value.reply.Reserved?
    && var res, bytes := did[j].value.reply.res, Passed(mems[p], moves[p].i);
    || (res.status == StatusCompleted && res.response == bytes
        && mems[j + 1] == mems[j] + if bytes.Data? then [bytes.bytes] else [])
    || (res.status == StatusMismatch && res.response == Nil && mems[j + 1] == mems[j])
  }

  lemma ReplaysAt(moves: seq<Move>, did: seq<Option<Exchange>>, mems: seq<seq<Bytes>>, stores: seq<Store>, p: nat, j: nat, k: Key)
    requires Played(moves, did, mems) && IsRun(RunOf(stores, Made(did)))
    requires p < j < |did| && FinishedBy(did[p], k) && BegunBy(did[j], k)
    ensures Replays(moves, did, mems, p, j)
  {
    var r := RunOf(stores, Made(did));
    MadeAt(did, p);
    MadeAt(did, j);
    MadeAt(did[..j], p);
    assert did[..j][..p] == did[..p];
    var f, b := |Made(did[..p])|, |Made(did[..j])|;
    assert r.calls[f] == did[p].value.call && r.calls[b] == did[j].value.call;
    assert r.replies[f] == did[p].value.reply && r.replies[b] == did[j].value.reply;
    var i := FinishIsFinal(r, f, k, b);
    assert Does(moves[p], mems[p], did[p]) && Does(moves[j], mems[j], did[j]);
    assert mems[j + 1] == Kept(moves[j], mems[j], did[j]);
  }

  // ----- the running store -----

  /** What a reply says at the moment it is given. */
  method Snapshot(reply: ReplyWith<Buffer>) returns (r: Reply)
    ensures r == ShownReply(reply)
  {
    match reply
    case Reserved(res) =>
      var bytes := if res.response == null then Nil else Data(res.response[..]);
      return Reserved(Reservation(res.scope, res.key, res.leaseToken, res.leaseTTL, res.status, bytes));
    case Applied => return Applied;
    case ContextError => return ContextError;
    case InvalidArgument => return InvalidArgument;
    case Conflict => return Conflict;
  }

  /** No array that a client holds is one of the store's own. */
  ghost predicate Apart(store: FakeStore, held: seq<array<Byte>>)
    reads store
  {
    store.Valid() && Distinct(held) && forall a :: a in held ==> a !in store.buffers
  }

  /** A Begin: the reply as a value, and the array that comes with it. */
  method Begins(c: Call, store: FakeStore, ghost held: seq<array<Byte>>) returns (reply: Reply, replay: Buffer)
    requires Apart(store, held) && c.req.Begin?
    modifies store
    ensures Apart(store, held) && (store.View(), reply) == Step(old(store.View()), c)
    ensures replay != null ==> fresh(replay) && replay !in store.buffers
    ensures Replayed(reply) == if replay == null then [] else [replay[..]]
  {
    var answer := store.Begin(c.ctxDone, c.req.scope, c.req.key, c.req.fingerprint, c.at, c.stamp);
    reply := Snapshot(answer);
    replay := if answer.Reserved? then answer.res.response else null;
  }

  /** A Begin, and what the client holds after it. */
  method PerformAsk(m: Move, store: FakeStore, held: seq<array<Byte>>, at: int, ghost mem: seq<Bytes>)
    returns (held': seq<array<Byte>>, x: Exchange)
    requires Apart(store, held) && Holds(held, mem) && m.Ask?
    modifies store
    ensures Apart(store, held') && Holds(held', Kept(m, mem, Some(x)))
    ensures held <= held' && forall a :: a in held' ==> a in held || fresh(a)
    ensures Does(m, mem, Some(x)) && x.call.at == at && (store.View(), x.reply) == Step(old(store.View()), x.call)
  {
    var c := Call(Begin(m.scope, m.key, m.fingerprint), m.ctxDone, at, at + m.lag);
    var reply, replay := Begins(c, store, held);
    x := Exchange(c, reply);
    held' := Hold(held, replay, mem);
  }

  /** A Finish with whatever the held array contains, or a Cancel: neither touches what clients hold. */
  method PerformConclusion(m: Move, store: FakeStore, held: seq<array<Byte>>, at: int, ghost mem: seq<Bytes>)
    returns (x: Exchange)
    requires Apart(store, held) && Holds(held, mem) && (m.Settle? || m.Release?)
    modifies store
    ensures Apart(store, held) && Holds(held, Kept(m, mem, Some(x)))
    ensures Does(m, mem, Some(x)) && x.call.at == at && (store.View(), x.reply) == Step(old(store.View()), x.call)
  {
    if m.Settle? {
      var response: Buffer := if m.i < |held| then held[m.i] else null;
      var bytes := if response == null then Nil else Data(response[..]);
      var answer := store.Finish(m.ctxDone, m.scope, m.key, m.leaseToken, response, at);
      var reply := Snapshot(answer);
      x := Exchange(Call(Finish(m.scope, m.key, m.leaseToken, bytes), m.ctxDone, at, at), reply);
    } else {
      var answer := store.Cancel(m.ctxDone, m.scope, m.key, m.leaseToken, at);
      var reply := Snapshot(answer);
      x := Exchange(Call(Cancel(m.scope, m.key, m.leaseToken), m.ctxDone, at, at), reply);
    }
  }

  method Perform(m: Move, store: FakeStore, held: seq<array<Byte>>, now: int, ghost mem: seq<Bytes>)
    returns (held': seq<array<Byte>>, now': int, did: Option<Exchange>)
    requires Apart(store, held) && Holds(held, mem)
    modifies store, Elements(held)
    ensures Apart(store, held') && Holds(held', Kept(m, mem, did))
    ensures held <= held' && forall a :: a in held' ==> a in held || fresh(a)
    ensures Does(m, mem, did)
    ensures if did.Some? then (store.View(), did.value.reply) == Step(old(store.View()), did.value.call) else store.View() == old(store.View())
    ensures if did.Some? then now <= did.value.call.at <= did.value.call.stamp == now' else now' == now
  {
    held', now', did := held, now, None;
    if m.Write? {
      Poke(held, m.i, m.at, m.b, mem);
    } else {
      var x;
      if m.Ask? {
        held', x := PerformAsk(m, store, held, now + m.wait, mem);
      } else {
        x := PerformConclusion(m, store, held, now + m.wait, mem);
      }
      now', did := x.call.stamp, Some(x);
    }
  }

  /**
   * Whatever calls clients make on whatever keys, with whatever tokens, and whatever is written at any
   * time into arrays that were passed in or handed out, the running store goes through a run of the
   * step functions, with the bytes that were in the passed arrays at that moment. Every replay is a
   * new array with the bytes that were in the buffer when Finish was called, and no array that a client
   * holds ever changes but by the client's own writes.
   */
  method ReplaysAreIsolated(store: FakeStore, start: int, arrays: seq<array<Byte>>, moves: seq<Move>)
    returns (held: seq<array<Byte>>, did: seq<Option<Exchange>>, ghost mems: seq<seq<Bytes>>, ghost stores: seq<Store>)
    requires Apart(store, arrays) && store.View() == Empty(store.reclaimAfter)
    modifies store, Elements(arrays)
    ensures Played(moves, did, mems) && |did| == |moves|
    ensures |mems[0]| == |arrays| && forall i :: 0 <= i < |arrays| ==> mems[0][i] == old(arrays[i][..])
    ensures arrays <= held && Apart(store, held) && Holds(held, mems[|moves|])
    ensures IsRun(RunOf(stores, Made(did))) && stores[0] == Empty(store.reclaimAfter) && stores[|Made(did)|] == store.View()
    ensures forall p, j, k :: 0 <= p < j < |moves| && FinishedBy(did[p], k) && BegunBy(did[j], k) ==> Replays(moves, did, mems, p, j)
  {
    ghost var mem := seq(|arrays|, i requires 0 <= i < |arrays| reads arrays => arrays[i][..]);
    var now := start;
    held, did, mems, stores := arrays, [], [mem], [store.View()];
    while |did| < |moves|
      invariant |did| <= |moves| && Apart(store, held) && Holds(held, mem)
      invariant arrays <= held && forall a :: a in held ==> a in arrays || fresh(a)
      invariant Played(moves, did, mems) && mems[|did|] == mem
      invariant |mems[0]| == |arrays| && forall i :: 0 <= i < |arrays| ==> mems[0][i] == old(arrays[i][..])
      invariant Follows(stores, did, store.View(), now) && stores[0] == Empty(store.reclaimAfter)
    {
      var m := moves[|did|];
      ghost var before := store.View();
      var x;
      ghost var earlier := now;
      held, now, x := Perform(m, store, held, now, mem);
      FollowsOn(stores, did, before, earlier, x, store.View(), now);
      PlayedOn(moves, did, mems, x, Kept(m, mem, x));
      mem := Kept(m, mem, x);
      stores := if x.Some? then stores + [store.View()] else stores;
      did, mems := did + [x], mems + [mem];
    }
    forall p, j, k | 0 <= p < j < |moves| && FinishedBy(did[p], k) && BegunBy(did[j], k)
      ensures Replays(moves, did, mems, p, j)
    {
      ReplaysAt(moves, did, mems, stores, p, j, k);
    }
  }

  /** The calls so far are a run that has got to this store, by this time. */
  ghost predicate Follows(stores: seq<Store>, did: seq<Option<Exchange>>, view: Store, now: int) {
    && IsRun(RunOf(stores, Made(did))) && stores[|Made(did)|] == view
    && (forall i :: 0 <= i < |Made(did)| ==> Made(did)[i].call.stamp <= now)
  }

  lemma FollowsOn(stores: seq<Store>, did: seq<Option<Exchange>>, view: Store, now: int, x: Option<Exchange>, view': Store, now': int)
    requires Follows(stores, did, view, now)
    requires if x.Some? then (view', x.value.reply) == Step(view, x.value.call) else view' == view
    requires if x.Some? then now <= x.value.call.at <= x.value.call.stamp == now' else now' == now
    ensures Follows(if x.Some? then stores + [view'] else stores, did + [x], view', now')
  {
    MadeNext(did, x);
    if x.Some? {
      RunGoesOn(stores, Made(did), x.value, view');
    } else {
      assert Made(did) + [] == Made(did);
    }
  }
}
