// The running leased store with its workers, callers that keep the arrays they passed in, and
// handlers that keep the arrays they were handed, all of them writing whenever they like.

module LeasedWorld {
  import opened Base
  import opened Buffers
  import opened Delivery
  import opened LeasedQueue
  import opened LeasedStore
  import LeasedRuns
  import Decimal

  /**
   * What may happen next. Write puts a byte into any array that some caller or handler holds, a
   * straggler's included; Submit enqueues the i-th held array, or nil if there is none.
   */
  datatype Move =
    | Wait(d: nat)
    | Write(i: nat, at: nat, b: Byte)
    | Submit(typ: string, i: nat, processAt: int, ctxDone: bool)
    | Fault(unavailable: bool, acceptButFail: bool)
    | Wire(worker: nat, typ: string, h: Option<nat>)
    | Fetch(worker: nat)
    | Dispatch(d: nat)
    | Return(d: nat, ok: bool)

  /** The deliveries on their way, and the log of what was passed in and fetched so far. */
  datatype Desk = Desk(fetched: map<nat, StoredJob<array<Byte>>>, running: map<nat, string>, log: Log)

  /** The store and the desk are in the state s of the transition system. */
  ghost predicate Mirrors(view: Store, desk: Desk, s: System) {
    s.store == view && s.log == desk.log && s.fetched == desk.fetched.Keys && s.running == desk.running.Keys
  }

  /** The desk agrees with its log. */
  ghost predicate Tracked(desk: Desk, workers: nat) {
    && (forall d :: d in desk.fetched ==>
          && IsDelivery(desk.log, d) && desk.log[d].worker < workers
          && desk.fetched[d].id == desk.log[d].id && desk.fetched[d].typ == desk.log[d].typ)
    && (forall d :: d in desk.running ==>
          IsDelivery(desk.log, d) && desk.log[d].worker < workers && desk.running[d] == desk.log[d].id)
  }

  /** Fetched jobs still hold the bytes they were fetched with, in arrays of the store. */
  ghost predicate Carries(desk: Desk, buffers: set<array<Byte>>)
    reads buffers
  {
    forall d :: d in desk.fetched ==>
      && IsDelivery(desk.log, d)
      && desk.fetched[d].payload in buffers && desk.fetched[d].payload[..] == desk.log[d].payload
  }

  ghost predicate Wired(workers: seq<FakeWorker>, handlers: map<nat, set<string>>)
    reads workers
  {
    forall i :: 0 <= i < |workers| ==> TypesOf(handlers, i) == workers[i].handlers.Keys
  }

  /** There is a handler for delivery d, where it was fetched. */
  ghost predicate FindsHandler(s: System, d: nat) {
    d in s.fetched && IsDelivery(s.log, d) && s.log[d].typ in TypesOf(s.handlers, s.log[d].worker)
  }

  ghost predicate Steps(s: System, a: Action, t: System) {
    Enabled(s, a) && t == Apply(s, a)
  }

  // ----- what each move does to the desk -----

  function Noted(desk: Desk, e: Event): Desk {
    desk.(log := desk.log + [e])
  }

  lemma NotedKeeps(desk: Desk, e: Event, workers: nat)
    requires Tracked(desk, workers)
    ensures Tracked(Noted(desk, e), workers)
  {
  }

  method Submit(store: FakeStore, desk: Desk, payload: array?<Byte>, typ: string, processAt: int, ctxDone: bool,
                workers: nat, ghost s: System)
    returns (desk': Desk, ghost t: System)
    requires store.Valid() && Mirrors(store.View(), desk, s) && Tracked(desk, workers) && Carries(desk, store.buffers)
    modifies store
    ensures store.Valid() && old(store.buffers) <= store.buffers && fresh(store.buffers - old(store.buffers))
    ensures Steps(s, DoEnqueue(Job(typ, old(Contents(payload)), processAt), ctxDone), t)
    ensures Mirrors(store.View(), desk', t) && Tracked(desk', workers) && Carries(desk', store.buffers)
    ensures t.handlers == s.handlers
  {
    var bytes := if payload == null then [] else payload[..];
    var reply := store.Enqueue(Job(typ, payload, processAt), ctxDone);
    t := Apply(s, DoEnqueue(Job(typ, bytes, processAt), ctxDone));
    desk' := desk;
    if reply.Enqueued? || reply.AckLost? {
      desk' := Noted(desk, Accepted(Decimal.Itoa(store.seqNo), typ, bytes, processAt));
      NotedKeeps(desk, desk'.log[|desk.log|], workers);
    }
  }

  function FetchedBy(desk: Desk, worker: nat, j: StoredJob<array<Byte>>, payload: Bytes, now: int): Desk {
    Noted(desk, Delivered(worker, j.id, j.typ, payload, now)).(fetched := desk.fetched[|desk.log| := j])
  }

  lemma FetchTracks(desk: Desk, worker: nat, j: StoredJob<array<Byte>>, payload: Bytes, now: int, workers: nat)
    requires Tracked(desk, workers) && worker < workers
    ensures Tracked(FetchedBy(desk, worker, j, payload, now), workers)
  {
  }

  lemma FetchMirrors(view: Store, desk: Desk, s: System, worker: nat, j: StoredJob<array<Byte>>, payload: Bytes)
    requires Mirrors(view, desk, s) && MayDequeue(view, Some(j.id))
    requires var job := Dequeue(view, Some(j.id)).jobs[j.id]; job.typ == j.typ && job.payload == payload
    ensures Enabled(s, DoDequeue(worker, Some(j.id)))
    ensures Mirrors(Dequeue(view, Some(j.id)), FetchedBy(desk, worker, j, payload, view.now), Apply(s, DoDequeue(worker, Some(j.id))))
  {
  }

  lemma FetchCarries(desk: Desk, worker: nat, j: StoredJob<array<Byte>>, now: int, buffers: set<array<Byte>>)
    requires Carries(desk, buffers) && j.payload in buffers
    ensures Carries(FetchedBy(desk, worker, j, j.payload[..], now), buffers)
  {
  }

  method Fetch(store: FakeStore, desk: Desk, worker: nat, workers: nat, ghost s: System)
    returns (desk': Desk, ghost choice: Option<string>, ghost t: System)
    requires store.Valid() && Mirrors(store.View(), desk, s) && Tracked(desk, workers) && Carries(desk, store.buffers)
    requires worker < workers
    modifies store`jobs
    ensures store.Valid()
    ensures Steps(s, DoDequeue(worker, choice), t)
    ensures Mirrors(store.View(), desk', t) && Tracked(desk', workers) && Carries(desk', store.buffers)
    ensures t.handlers == s.handlers
  {
    ghost var view := store.View();
    var got := store.Dequeue();
    if got == None {
      return desk, None, Apply(s, DoDequeue(worker, None));
    }
    var j := got.value;
    FetchMirrors(view, desk, s, worker, j, j.payload[..]);
    FetchTracks(desk, worker, j, j.payload[..], store.clock.t, workers);
    FetchCarries(desk, worker, j, store.clock.t, store.buffers);
    return FetchedBy(desk, worker, j, j.payload[..], store.clock.t), Some(j.id), Apply(s, DoDequeue(worker, Some(j.id)));
  }

  method Dispatch(workers: seq<FakeWorker>, desk: Desk, d: nat, ghost view: Store, ghost buffers: set<array<Byte>>, ghost s: System)
    returns (desk': Desk, task: Option<array<Byte>>, ghost t: System)
    requires Mirrors(view, desk, s) && Tracked(desk, |workers|) && Carries(desk, buffers) && Wired(workers, s.handlers)
    requires d in desk.fetched
    ensures task.Some? <==> FindsHandler(s, d)
    ensures task.Some? ==> fresh(task.value) && task.value[..] == desk.log[d].payload
    ensures Steps(s, DoDispatch(d), t)
    ensures Mirrors(view, desk', t) && Tracked(desk', |workers|) && Carries(desk', buffers)
    ensures t.handlers == s.handlers
  {
    var j := desk.fetched[d];
    task := workers[desk.log[d].worker].Hand(j);
    t := Apply(s, DoDispatch(d));
    desk' := desk.(fetched := desk.fetched - {d});
    if task.Some? {
      desk' := desk'.(running := desk.running[d := j.id]);
    }
  }

  method Return(store: FakeStore, workers: seq<FakeWorker>, desk: Desk, d: nat, ok: bool, ghost s: System)
    returns (desk': Desk, ghost t: System)
    requires forall i :: 0 <= i < |workers| ==> workers[i].store == store
    requires store.Valid() && Mirrors(store.View(), desk, s) && Tracked(desk, |workers|) && Carries(desk, store.buffers)
    requires d in desk.running
    modifies store`jobs
    ensures store.Valid()
    ensures Steps(s, DoReturn(d, ok), t)
    ensures Mirrors(store.View(), desk', t) && Tracked(desk', |workers|) && Carries(desk', store.buffers)
    ensures t.handlers == s.handlers
  {
    var id := desk.running[d];
    workers[desk.log[d].worker].Report(id, ok);
    t := Apply(s, DoReturn(d, ok));
    var e := if ok then Acked(d, id, store.clock.t) else Failed(d, id, store.clock.t);
    NotedKeeps(desk, e, |workers|);
    desk' := Noted(desk, e).(running := desk.running - {d});
  }

  // ----- the whole world -----

  method Wire(workers: seq<FakeWorker>, worker: nat, typ: string, h: Option<nat>, ghost s: System)
    returns (ghost a: Option<Action>, ghost t: System)
    requires worker < |workers| && (forall i, j :: 0 <= i < j < |workers| ==> workers[i] != workers[j])
    requires Wired(workers, s.handlers)
    modifies workers[worker]
    ensures forall mem :: Does(Move.Wire(worker, typ, h), s, mem, |workers|, a)
    ensures Moved(s, a, t) && t == s.(handlers := t.handlers)
    ensures Wired(workers, t.handlers)
  {
    var reply := workers[worker].Register(typ, h);
    if reply == Registered {
      a := Some(DoRegister(worker, typ));
      t := Apply(s, DoRegister(worker, typ));
    } else {
      a, t := None, s;
    }
  }

  /** The objects, in state s. No array that anyone holds is one of the store's own. */
  ghost predicate Whole(store: FakeStore, workers: seq<FakeWorker>, held: seq<array<Byte>>, desk: Desk, s: System)
    reads store, store.clock, store.buffers, workers
  {
    && store.Valid()
    && (forall i :: 0 <= i < |workers| ==> workers[i].store == store)
    && (forall i, j :: 0 <= i < j < |workers| ==> workers[i] != workers[j])
    && Distinct(held) && (forall a :: a in held ==> a !in store.buffers)
    && Mirrors(store.View(), desk, s) && Tracked(desk, |workers|) && Carries(desk, store.buffers) && Wired(workers, s.handlers)
  }

  /** The bytes that are passed with the i-th held array when the held arrays contain mem. */
  function Passed(mem: seq<Bytes>, i: nat): Bytes {
    if i < |mem| then mem[i] else []
  }

  /**
   * The action a move amounts to in state s, while the held arrays contain mem, if any: a write is
   * none, nor is a move that is not possible then.
   */
  ghost predicate Does(m: Move, s: System, mem: seq<Bytes>, workers: nat, a: Option<Action>) {
    match m
    case Wait(d) => a == Some(DoAdvance(d))
    case Write(_, _, _) => a == None
    case Submit(typ, i, processAt, ctxDone) => a == Some(DoEnqueue(Job(typ, Passed(mem, i), processAt), ctxDone))
    case Fault(unavailable, acceptButFail) => a == Some(DoFault(unavailable, acceptButFail))
    case Wire(w, typ, h) =>
      a == if w < workers && typ != "" && h.Some? && typ !in TypesOf(s.handlers, w) then Some(DoRegister(w, typ)) else None
    case Fetch(w) => if w < workers then a.Some? && a.value.DoDequeue? && a.value.worker == w else a == None
    case Dispatch(d) => a == if d in s.fetched then Some(DoDispatch(d)) else None
    case Return(d, ok) => a == if d in s.running then Some(DoReturn(d, ok)) else None
  }

  /** What the held arrays contain afterwards: a handler that is called holds one more, and only a write changes any. */
  ghost function Kept(m: Move, s: System, mem: seq<Bytes>): seq<Bytes> {
    match m
    case Write(i, at, b) => Poked(mem, i, at, b)
    case Dispatch(d) => if FindsHandler(s, d) then mem + [s.log[d].payload] else mem
    case _ => mem
  }

  ghost predicate Moved(s: System, a: Option<Action>, t: System) {
    if a.Some? then Steps(s, a.value, t) else t == s
  }

  /** The clock and the backend. */
  method Surround(m: Move, store: FakeStore, workers: seq<FakeWorker>, held: seq<array<Byte>>, desk: Desk, ghost s: System,
                ghost mem: seq<Bytes>)
    returns (ghost a: Option<Action>, ghost t: System)
    requires Whole(store, workers, held, desk, s) && Holds(held, mem) && (m.Wait? || m.Fault?)
    modifies store, store.clock
    ensures Whole(store, workers, held, desk, t) && Holds(held, Kept(m, s, mem))
    ensures Does(m, s, mem, |workers|, a) && Moved(s, a, t)
  {
    match m
    case Wait(d) =>
      store.clock.Advance(d);
      a := Some(DoAdvance(d));
      t := Apply(s, DoAdvance(d));
    case Fault(unavailable, acceptButFail) =>
      store.SetFaults(unavailable, acceptButFail);
      a := Some(DoFault(unavailable, acceptButFail));
      t := Apply(s, DoFault(unavailable, acceptButFail));
  }

  /** Whoever holds an array, writing into it or submitting it. */
  method Outside(m: Move, store: FakeStore, workers: seq<FakeWorker>, held: seq<array<Byte>>, desk: Desk, ghost s: System,
                ghost mem: seq<Bytes>)
    returns (desk': Desk, ghost a: Option<Action>, ghost t: System)
    requires Whole(store, workers, held, desk, s) && Holds(held, mem) && (m.Write? || m.Submit?)
    modifies store, Elements(held)
    ensures Whole(store, workers, held, desk', t) && Holds(held, Kept(m, s, mem))
    ensures Does(m, s, mem, |workers|, a) && Moved(s, a, t)
  {
    desk', a, t := desk, None, s;
    match m
    case Write(i, at, b) =>
      Poke(held, i, at, b, mem);
    case Submit(typ, i, processAt, ctxDone) =>
      var payload: array?<Byte> := if i < |held| then held[i] else null;
      a := Some(DoEnqueue(Job(typ, Contents(payload), processAt), ctxDone));
      desk', t := Submit(store, desk, payload, typ, processAt, ctxDone, |workers|, s);
  }

  /** A worker being wired. */
  method Hire(m: Move, store: FakeStore, workers: seq<FakeWorker>, held: seq<array<Byte>>, desk: Desk, ghost s: System,
                ghost mem: seq<Bytes>)
    returns (ghost a: Option<Action>, ghost t: System)
    requires Whole(store, workers, held, desk, s) && Holds(held, mem) && m.Wire?
    modifies workers
    ensures Whole(store, workers, held, desk, t) && Holds(held, Kept(m, s, mem))
    ensures Does(m, s, mem, |workers|, a) && Moved(s, a, t)
  {
    a, t := None, s;
    if m.worker < |workers| {
      a, t := Wire(workers, m.worker, m.typ, m.h, s);
    }
  }

  /** A handler being called: what it is handed, it holds. */
  method Attend(m: Move, store: FakeStore, workers: seq<FakeWorker>, held: seq<array<Byte>>, desk: Desk, ghost s: System,
                ghost mem: seq<Bytes>)
    returns (held': seq<array<Byte>>, desk': Desk, ghost a: Option<Action>, ghost t: System)
    requires Whole(store, workers, held, desk, s) && Holds(held, mem) && m.Dispatch?
    ensures Whole(store, workers, held', desk', t) && Holds(held', Kept(m, s, mem))
    ensures held <= held' && forall x :: x in held' ==> x in held || fresh(x)
    ensures Does(m, s, mem, |workers|, a) && Moved(s, a, t)
  {
    held', desk', a, t := held, desk, None, s;
    if m.d in desk.fetched {
      var task;
      desk', task, t := Dispatch(workers, desk, m.d, store.View(), store.buffers, s);
      a := Some(DoDispatch(m.d));
      if task.Some? {
        WholeHoldsMore(store, workers, held, desk', t, task.value);
      }
      held' := Hold(held, if task.Some? then task.value else null, mem);
    }
  }

  lemma WholeHoldsMore(store: FakeStore, workers: seq<FakeWorker>, held: seq<array<Byte>>, desk: Desk, s: System, a: array<Byte>)
    requires Whole(store, workers, held, desk, s) && a !in held && a !in store.buffers
    ensures Whole(store, workers, held + [a], desk, s)
  {
  }

  /** Workers fetching jobs and reporting outcomes. */
  method Serve(m: Move, store: FakeStore, workers: seq<FakeWorker>, held: seq<array<Byte>>, desk: Desk, ghost s: System,
                ghost mem: seq<Bytes>)
    returns (desk': Desk, ghost a: Option<Action>, ghost t: System)
    requires Whole(store, workers, held, desk, s) && Holds(held, mem) && (m.Fetch? || m.Return?)
    modifies store`jobs
    ensures Whole(store, workers, held, desk', t) && Holds(held, Kept(m, s, mem))
    ensures Does(m, s, mem, |workers|, a) && Moved(s, a, t)
  {
    desk', a, t := desk, None, s;
    match m
    case Fetch(w) =>
      if w < |workers| {
        ghost var choice;
        desk', choice, t := Fetch(store, desk, w, |workers|, s);
        a := Some(DoDequeue(w, choice));
      }
    case Return(d, ok) =>
      if d in desk.running {
        desk', t := Return(store, workers, desk, d, ok, s);
        a := Some(DoReturn(d, ok));
      }
  }

  /** A new store and its workers, before anything has happened. */
  method Open(ttl: int, horizon: int, n: nat, arrays: seq<array<Byte>>) returns (store: FakeStore, workers: seq<FakeWorker>, ghost s: System)
    requires Distinct(arrays)
    ensures fresh(store) && fresh(store.clock) && (forall w :: w in workers ==> fresh(w)) && |workers| == n
    ensures Initial(s) && s.store.leaseTTL == ttl && s.store.horizon == horizon && store.buffers == {}
    ensures Whole(store, workers, arrays, Desk(map[], map[], []), s)
  {
    var clock := new Clock();
    store := new FakeStore(clock);
    store.leaseTTL, store.horizon := ttl, horizon;
    workers := [];
    while |workers| < n
      invariant |workers| <= n && store.jobs == map[] && store.seqNo == 0 && store.buffers == {}
      invariant store.leaseTTL == ttl && store.horizon == horizon
      invariant forall w :: w in workers ==> fresh(w) && w.store == store && w.handlers == map[]
      invariant forall i, j :: 0 <= i < j < |workers| ==> workers[i] != workers[j]
    {
      var w := new FakeWorker(store);
      workers := workers + [w];
    }
    s := System(store.View(), map[], {}, {}, []);
  }

  /** The states that the moves went through, what each of them did, and what the held arrays contained. */
  ghost predicate Played(moves: seq<Move>, workers: nat, states: seq<System>, did: seq<Option<Action>>, mems: seq<seq<Bytes>>) {
    && |states| == |mems| == |did| + 1 && |did| <= |moves| && Initial(states[0])
    && (forall i :: 0 <= i < |did| ==> PlayedAt(moves[i], workers, states[i], mems[i], did[i], states[i + 1], mems[i + 1]))
  }

  ghost predicate PlayedAt(m: Move, workers: nat, s: System, mem: seq<Bytes>, a: Option<Action>, t: System, mem': seq<Bytes>) {
    Does(m, s, mem, workers, a) && Moved(s, a, t) && mem' == Kept(m, s, mem)
  }

  lemma PlayedOn(moves: seq<Move>, workers: nat, states: seq<System>, did: seq<Option<Action>>, mems: seq<seq<Bytes>>,
                 a: Option<Action>, t: System, mem: seq<Bytes>)
    requires Played(moves, workers, states, did, mems) && |did| < |moves|
    requires PlayedAt(moves[|did|], workers, states[|did|], mems[|did|], a, t, mem)
    ensures Played(moves, workers, states + [t], did + [a], mems + [mem])
  {
  }

  /** Leaving out the moves that did nothing, what was played up to any point is a run of the transition system. */
  lemma {:induction false} PlayedIsRun(moves: seq<Move>, workers: nat, states: seq<System>, did: seq<Option<Action>>,
                                       mems: seq<seq<Bytes>>, n: nat) returns (run: Run)
    requires Played(moves, workers, states, did, mems) && n <= |did|
    ensures IsRun(run) && Last(run) == states[n]
  {
    if n == 0 {
      run := Run([states[0]], []);
    } else {
      run := PlayedIsRun(moves, workers, states, did, mems, n - 1);
      assert PlayedAt(moves[n - 1], workers, states[n - 1], mems[n - 1], did[n - 1], states[n], mems[n]);
      if did[n - 1].Some? {
        ThenIsRun(run, did[n - 1].value);
        run := Then(run, did[n - 1].value);
      }
    }
  }

  lemma {:induction false} SameLease(moves: seq<Move>, workers: nat, states: seq<System>, did: seq<Option<Action>>,
                                     mems: seq<seq<Bytes>>, i: nat)
    requires Played(moves, workers, states, did, mems) && i <= |did|
    ensures states[i].store.leaseTTL == states[0].store.leaseTTL
  {
    if i > 0 {
      SameLease(moves, workers, states, did, mems, i - 1);
      assert PlayedAt(moves[i - 1], workers, states[i - 1], mems[i - 1], did[i - 1], states[i], mems[i]);
    }
  }

  /** Move p submitted the job id with these bytes. */
  ghost predicate SubmittedBy(moves: seq<Move>, states: seq<System>, mems: seq<seq<Bytes>>, p: int, id: string, payload: Bytes) {
    && 0 <= p < |moves| && p < |mems| && p + 1 < |states| && moves[p].Submit? && Passed(mems[p], moves[p].i) == payload
    && states[p + 1].log == states[p].log + [Accepted(id, moves[p].typ, payload, moves[p].processAt)]
  }

  lemma AcceptedByMove(m: Move, workers: nat, s: System, mem: seq<Bytes>, a: Option<Action>, t: System, mem': seq<Bytes>, q: nat)
    requires PlayedAt(m, workers, s, mem, a, t, mem') && q < |t.log| && t.log[q].Accepted?
    ensures q < |s.log| ==> t.log[q] == s.log[q]
    ensures q >= |s.log| ==> m.Submit? && t.log == s.log + [Accepted(t.log[q].id, m.typ, Passed(mem, m.i), m.processAt)]
                             && q == |s.log|
  {
  }

  /** Every job in the log was submitted by some move, with what the array it passed contained then. */
  lemma {:induction false} AcceptedWasSubmitted(moves: seq<Move>, workers: nat, states: seq<System>, did: seq<Option<Action>>,
                                                mems: seq<seq<Bytes>>, n: nat, q: nat) returns (p: nat)
    requires Played(moves, workers, states, did, mems) && n <= |did| && q < |states[n].log| && states[n].log[q].Accepted?
    ensures p < n && SubmittedBy(moves, states, mems, p, states[n].log[q].id, states[n].log[q].payload)
  {
    p := n - 1;
    assert n > 0 && PlayedAt(moves[n - 1], workers, states[n - 1], mems[n - 1], did[n - 1], states[n], mems[n]);
    AcceptedByMove(moves[n - 1], workers, states[n - 1], mems[n - 1], did[n - 1], states[n], mems[n], q);
    if q < |states[n - 1].log| {
      p := AcceptedWasSubmitted(moves, workers, states, did, mems, n - 1, q);
    }
  }

  /** Move j calls a handler. */
  ghost predicate Calls(m: Move, s: System) {
    m.Dispatch? && FindsHandler(s, m.d)
  }

  /**
   * The handler that move j calls is handed one more array, with the very bytes that were in the array
   * passed by the move that submitted the job, at that earlier moment.
   */
  ghost predicate HandedAsSubmitted(moves: seq<Move>, states: seq<System>, mems: seq<seq<Bytes>>, j: int)
    requires 0 <= j < |moves| && |states| == |mems| == |moves| + 1 && Calls(moves[j], states[j])
  {
    exists p, payload :: 0 <= p < j && SubmittedBy(moves, states, mems, p, states[j].log[moves[j].d].id, payload)
                         && mems[j + 1] == mems[j] + [payload]
  }

  lemma HandedAt(moves: seq<Move>, workers: nat, states: seq<System>, did: seq<Option<Action>>, mems: seq<seq<Bytes>>, j: nat)
    requires Played(moves, workers, states, did, mems) && |did| == |moves| && j < |moves| && Calls(moves[j], states[j])
    ensures HandedAsSubmitted(moves, states, mems, j)
  {
    var log, d := states[j].log, moves[j].d;
    var run := PlayedIsRun(moves, workers, states, did, mems, j);
    LeasedRuns.ContractOnEveryRun(run, |run.states| - 1);
    assert HandsOverAccepted(log, d);
    var q :| 0 <= q < d && log[q].Accepted? && log[q].id == log[d].id && log[q].payload == log[d].payload;
    var p := AcceptedWasSubmitted(moves, workers, states, did, mems, j, q);
    assert PlayedAt(moves[j], workers, states[j], mems[j], did[j], states[j + 1], mems[j + 1]);
  }

  /** One move on the running objects. */
  method Perform(m: Move, store: FakeStore, workers: seq<FakeWorker>, held: seq<array<Byte>>, desk: Desk, ghost s: System,
                 ghost mem: seq<Bytes>)
    returns (held': seq<array<Byte>>, desk': Desk, ghost a: Option<Action>, ghost t: System)
    requires Whole(store, workers, held, desk, s) && Holds(held, mem)
    modifies store, store.clock, workers, Elements(held)
    ensures Whole(store, workers, held', desk', t) && Holds(held', Kept(m, s, mem))
    ensures held <= held' && forall x :: x in held' ==> x in held || fresh(x)
    ensures Does(m, s, mem, |workers|, a) && Moved(s, a, t)
  {
    held', desk' := held, desk;
    if m.Wait? || m.Fault? {
      a, t := Surround(m, store, workers, held, desk, s, mem);
    } else if m.Write? || m.Submit? {
      desk', a, t := Outside(m, store, workers, held, desk, s, mem);
    } else if m.Wire? {
      a, t := Hire(m, store, workers, held, desk, s, mem);
    } else if m.Dispatch? {
      held', desk', a, t := Attend(m, store, workers, held, desk, s, mem);
    } else {
      desk', a, t := Serve(m, store, workers, held, desk, s, mem);
    }
  }

  /**
   * Whatever callers, workers and the environment do in whatever order, and whatever is written at
   * any time into arrays that were passed in or handed out, the running objects go through a run of
   * the transition system, with the bytes that were in the passed arrays at that moment. So the log
   * satisfies the contract; every handler is handed a new array with the bytes that were in the array its
   * job was submitted with when it was submitted, also when the acknowledgement was lost; and no array
   * that anyone holds ever changes but by their own writes.
   */
  method DeliveriesAreIsolated(store: FakeStore, workers: seq<FakeWorker>, arrays: seq<array<Byte>>, moves: seq<Move>,
                               ghost start: System)
    returns (held: seq<array<Byte>>, log: Log, ghost states: seq<System>, ghost did: seq<Option<Action>>,
             ghost mems: seq<seq<Bytes>>)
    requires Initial(start) && Whole(store, workers, arrays, Desk(map[], map[], []), start)
    modifies store, store.clock, workers, Elements(arrays)
    ensures Played(moves, |workers|, states, did, mems) && |did| == |moves|
    ensures |mems[0]| == |arrays| && forall i :: 0 <= i < |arrays| ==> mems[0][i] == old(arrays[i][..])
    ensures arrays <= held && Distinct(held) && Holds(held, mems[|moves|])
    ensures store.Valid() && states[0] == start && states[|moves|].store == store.View() && states[|moves|].log == log
    ensures Contract(log) && LeaseSeparated(log, start.store.leaseTTL)
    ensures forall j :: 0 <= j < |moves| && Calls(moves[j], states[j]) ==> HandedAsSubmitted(moves, states, mems, j)
  {
    ghost var s := start;
    ghost var mem := seq(|arrays|, i requires 0 <= i < |arrays| reads arrays => arrays[i][..]);
    held := arrays;
    var desk := Desk(map[], map[], []);
    states, did, mems := [s], [], [mem];
    var n := 0;
    while n < |moves|
      invariant 0 <= n == |did| <= |moves|
      invariant arrays <= held && forall x :: x in held ==> x in arrays || fresh(x)
      invariant Whole(store, workers, held, desk, s) && Holds(held, mem)
      invariant Played(moves, |workers|, states, did, mems) && states[n] == s && mems[n] == mem && states[0] == start
      invariant |mems[0]| == |arrays| && forall i :: 0 <= i < |arrays| ==> mems[0][i] == old(arrays[i][..])
    {
      ghost var before, a := s, None;
      held, desk, a, s := Perform(moves[n], store, workers, held, desk, s, mem);
      mem := Kept(moves[n], before, mem);
      PlayedOn(moves, |workers|, states, did, mems, a, s, mem);
      states, did, mems := states + [s], did + [a], mems + [mem];
      n := n + 1;
    }
    log := desk.log;
    Concluded(moves, |workers|, states, did, mems);
  }

  lemma Concluded(moves: seq<Move>, workers: nat, states: seq<System>, did: seq<Option<Action>>, mems: seq<seq<Bytes>>)
    requires Played(moves, workers, states, did, mems) && |did| == |moves|
    ensures Contract(states[|moves|].log) && LeaseSeparated(states[|moves|].log, states[0].store.leaseTTL)
    ensures forall j :: 0 <= j < |moves| && Calls(moves[j], states[j]) ==> HandedAsSubmitted(moves, states, mems, j)
  {
    var run := PlayedIsRun(moves, workers, states, did, mems, |did|);
    LeasedRuns.ContractOnEveryRun(run, |run.states| - 1);
    SameLease(moves, workers, states, did, mems, |did|);
    forall j | 0 <= j < |moves| && Calls(moves[j], states[j])
      ensures HandedAsSubmitted(moves, states, mems, j)
    {
      HandedAt(moves, workers, states, did, mems, j);
    }
  }
}
