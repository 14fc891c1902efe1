// The idempotency store of ports/idempotency/idempotencytest: Begin, Finish, Cancel and the
// reclaim of abandoned reservations, as steps of one shared store.

module Idempotency {
  import opened Base
  import Decimal

  datatype Key = Key(scope: string, key: string)

  datatype Status = StatusNew | StatusInProgress | StatusCompleted | StatusMismatch

  /** R is a byte buffer in the running store, its contents in the specification. */
  datatype Entry<+R> = Entry(fingerprint: string, leaseToken: string, status: Status, response: R, reservedAt: int)

  datatype Reservation<+R> = Reservation(scope: string, key: string, leaseToken: string, leaseTTL: int,
                                         status: Status, response: R)

  datatype Store = Store(entries: map<Key, Entry<Slice>>, seqNo: nat, reclaimAfter: int)

  datatype Request =
    | Begin(scope: string, key: string, fingerprint: string)
    | Finish(scope: string, key: string, leaseToken: string, response: Slice)
    | Cancel(scope: string, key: string, leaseToken: string)

  /** at is the instant the call looks at the store's clock, stamp the instant it writes into a new entry. */
  datatype Call = Call(req: Request, ctxDone: bool, at: int, stamp: int)

  datatype ReplyWith<+R> = Reserved(res: Reservation<R>) | Applied | ContextError | InvalidArgument | Conflict

  type Reply = ReplyWith<Slice>

  const MINUTE := 60_000_000_000

  function KeyOf(q: Request): Key {
    Key(q.scope, q.key)
  }

  function Token(n: nat): string {
    "lease-" + Decimal.Itoa(n)
  }

  function Empty(reclaimAfter: int): Store {
    Store(map[], 0, reclaimAfter)
  }

  // ----- the critical sections -----

  predicate Reclaimable<R>(e: Entry<R>, reclaimAfter: int, at: int) {
    reclaimAfter > 0 && e.status == StatusInProgress && at - e.reservedAt >= reclaimAfter
  }

  /** The store after looking k up: an entry that can be reclaimed is dropped. */
  function Swept(s: Store, k: Key, at: int): Store {
    if k in s.entries && Reclaimable(s.entries[k], s.reclaimAfter, at) then s.(entries := s.entries - {k}) else s
  }

  predicate Malformed(q: Request) {
    q.scope == "" || q.key == "" || (if q.Begin? then q.fingerprint == "" else q.leaseToken == "")
  }

  predicate Owns<R>(entries: map<Key, Entry<R>>, k: Key, token: string) {
    k in entries && entries[k].status == StatusInProgress && entries[k].leaseToken == token
  }

  function Reserve(s: Store, q: Request, at: int, stamp: int): (Store, Reply)
    requires q.Begin?
  {
    var k := KeyOf(q);
    var t := Swept(s, k, at);
    if k !in t.entries then
      var token := Token(t.seqNo + 1);
      (t.(seqNo := t.seqNo + 1,
          entries := t.entries[k := Entry(q.fingerprint, token, StatusInProgress, Nil, stamp)]),
       Reserved(Reservation(q.scope, q.key, token, MINUTE, StatusNew, Nil)))
    else if t.entries[k].fingerprint != q.fingerprint then
      (t, Reserved(Reservation(q.scope, q.key, "", 0, StatusMismatch, Nil)))
    else if t.entries[k].status == StatusCompleted then
      (t, Reserved(Reservation(q.scope, q.key, "", 0, StatusCompleted, t.entries[k].response)))
    else
      (t, Reserved(Reservation(q.scope, q.key, "", 0, StatusInProgress, Nil)))
  }

  function Conclude(s: Store, q: Request, at: int): (Store, Reply)
    requires !q.Begin?
  {
    var k := KeyOf(q);
    var t := Swept(s, k, at);
    if !Owns(t.entries, k, q.leaseToken) then (t, Conflict)
    else if q.Finish? then
      (t.(entries := t.entries[k := t.entries[k].(status := StatusCompleted, response := q.response, leaseToken := "")]),
       Applied)
    else (t.(entries := t.entries - {k}), Applied)
  }

  function Step(s: Store, c: Call): (Store, Reply) {
    if c.ctxDone then (s, ContextError)
    else if Malformed(c.req) then (s, InvalidArgument)
    else if c.req.Begin? then Reserve(s, c.req, c.at, c.stamp)
    else Conclude(s, c.req, c.at)
  }

  // ----- runs: any interleaving of calls by any clients, on a clock that never goes back -----

  datatype Run = Run(stores: seq<Store>, calls: seq<Call>, replies: seq<Reply>)

  ghost predicate IsRun(r: Run) {
    && |r.stores| == |r.calls| + 1 && |r.replies| == |r.calls|
    && r.stores[0] == Empty(r.stores[0].reclaimAfter)
    && (forall i :: 0 <= i < |r.calls| ==> (r.stores[i + 1], r.replies[i]) == Step(r.stores[i], r.calls[i]))
    && (forall i :: 0 <= i < |r.calls| ==> r.calls[i].at <= r.calls[i].stamp)
    && (forall i, j :: 0 <= i < j < |r.calls| ==> r.calls[i].stamp <= r.calls[j].at)
  }
}
