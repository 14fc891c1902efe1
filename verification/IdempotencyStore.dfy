// The running idempotency store of ports/idempotency/idempotencytest: entries in a mutable map,
// responses in byte arrays. Its methods are proved against the steps of Idempotency.

module IdempotencyStore {
  import opened Base
  import opened Buffers
  import opened Idempotency

  type Buffer = array?<Byte>

  ghost function Shown(b: Buffer): Slice
    reads b
  {
    if b == null then Nil else Data(b[..])
  }

  /** A private copy that keeps nil apart from empty. */
  method CloneBytes(b: Buffer) returns (c: Buffer)
    ensures c == null <==> b == null
    ensures c != null ==> fresh(c)
    ensures Shown(c) == Shown(b)
  {
    if b == null {
      return null;
    }
    c := Clone(b);
  }

  ghost function ShownEntry(e: Entry<Buffer>): Entry<Slice>
    reads e.response
  {
    Entry(e.fingerprint, e.leaseToken, e.status, Shown(e.response), e.reservedAt)
  }

  ghost function ShownReply(reply: ReplyWith<Buffer>): Reply
    reads if reply.Reserved? then {reply.res.response} else {}
  {
    match reply
    case Reserved(res) =>
      Reserved(Reservation(res.scope, res.key, res.leaseToken, res.leaseTTL, res.status, Shown(res.response)))
    case Applied => Applied
    case ContextError => ContextError
    case InvalidArgument => InvalidArgument
    case Conflict => Conflict
  }

  class FakeStore {
    var entries: map<Key, Entry<Buffer>>
    var seqNo: nat
    const reclaimAfter: int

    /** The arrays the store keeps to itself. */
    ghost var buffers: set<Buffer>

    ghost predicate Valid()
      reads this
    {
      forall k :: k in entries ==> entries[k].response in buffers
    }

    /** The abstract store: it depends on no array outside buffers. */
    ghost function View(): Store
      requires Valid()
      reads this, buffers
    {
      Store(map k | k in entries :: ShownEntry(entries[k]), seqNo, reclaimAfter)
    }

    constructor (reclaimAfter: int)
      ensures Valid() && buffers == {} && View() == Empty(reclaimAfter)
    {
      entries, seqNo, this.reclaimAfter, buffers := map[], 0, reclaimAfter, {};
    }

    /** Drops k's entry if it can be reclaimed, and says whether there still is one. */
    method Lookup(k: Key, at: int) returns (live: bool)
      requires Valid()
      modifies this`entries
      ensures Valid() && View() == Swept(old(View()), k, at) && live == (k in entries)
    {
      if k in entries && reclaimAfter > 0 && entries[k].status == StatusInProgress
         && at - entries[k].reservedAt >= reclaimAfter {
        entries := entries - {k};
        assert View().entries == Swept(old(View()), k, at).entries;
        return false;
      }
      return k in entries;
    }

    /** Files a new reservation under the next token. */
    method Open(k: Key, fingerprint: string, stamp: int) returns (token: string)
      requires Valid()
      modifies this
      ensures Valid() && fresh(buffers - old(buffers) - {null}) && token == Token(old(seqNo) + 1)
      ensures View() == old(View()).(seqNo := old(seqNo) + 1,
                entries := old(View()).entries[k := Entry(fingerprint, token, StatusInProgress, Nil, stamp)])
    {
      seqNo := seqNo + 1;
      token := Token(seqNo);
      buffers := buffers + {null};
      entries := entries[k := Entry(fingerprint, token, StatusInProgress, null, stamp)];
      assert View().entries == old(View()).entries[k := Entry(fingerprint, token, StatusInProgress, Nil, stamp)];
    }

    /** Files the outcome of the reservation of k. */
    method Close(k: Key, response: Buffer)
      requires Valid() && k in entries
      modifies this
      ensures Valid() && buffers == old(buffers) + {response}
      ensures View() == old(View()).(entries := old(View()).entries[k :=
                old(View()).entries[k].(status := StatusCompleted, response := Shown(response), leaseToken := "")])
    {
      buffers := buffers + {response};
      entries := entries[k := entries[k].(status := StatusCompleted, response := response, leaseToken := "")];
      assert View().entries == old(View()).entries[k :=
        old(View()).entries[k].(status := StatusCompleted, response := Shown(response), leaseToken := "")];
    }

    method Begin(ctxDone: bool, scope: string, key: string, fingerprint: string, at: int, stamp: int)
      returns (reply: ReplyWith<Buffer>)
      requires Valid()
      modifies this
      ensures Valid() && fresh(buffers - old(buffers) - {null})
      ensures reply.Reserved? && reply.res.response != null ==> fresh(reply.res.response) && reply.res.response !in buffers
      ensures (View(), ShownReply(reply))
              == Step(old(View()), Call(Idempotency.Begin(scope, key, fingerprint), ctxDone, at, stamp))
    {
      if ctxDone {
        return ContextError;
      }
      if scope == "" || key == "" || fingerprint == "" {
        return InvalidArgument;
      }
      var k := Key(scope, key);
      var live := Lookup(k, at);
      if !live {
        var token := Open(k, fingerprint, stamp);
        return Reserved(Reservation(scope, key, token, MINUTE, StatusNew, null));
      }
      var e := entries[k];
      if e.fingerprint != fingerprint {
        return Reserved(Reservation(scope, key, "", 0, StatusMismatch, null));
      }
      if e.status == StatusCompleted {
        var copy := CloneBytes(e.response);
        return Reserved(Reservation(scope, key, "", 0, StatusCompleted, copy));
      }
      return Reserved(Reservation(scope, key, "", 0, StatusInProgress, null));
    }

    method Finish(ctxDone: bool, scope: string, key: string, leaseToken: string, response: Buffer, at: int)
      returns (reply: ReplyWith<Buffer>)
      requires Valid()
      modifies this
      ensures Valid() && fresh(buffers - old(buffers) - {null}) && !reply.Reserved?
      ensures (View(), ShownReply(reply))
              == Step(old(View()), Call(Idempotency.Finish(scope, key, leaseToken, old(Shown(response))), ctxDone, at, at))
    {
      if ctxDone {
        return ContextError;
      }
      if scope == "" || key == "" || leaseToken == "" {
        return InvalidArgument;
      }
      var k := Key(scope, key);
      var live := Lookup(k, at);
      if !live || entries[k].status != StatusInProgress || entries[k].leaseToken != leaseToken {
        return Conflict;
      }
      var copy := CloneBytes(response);
      Close(k, copy);
      return Applied;
    }

    method Cancel(ctxDone: bool, scope: string, key: string, leaseToken: string, at: int)
      returns (reply: ReplyWith<Buffer>)
      requires Valid()
      modifies this`entries
      ensures Valid() && !reply.Reserved?
      ensures (View(), ShownReply(reply))
              == Step(old(View()), Call(Idempotency.Cancel(scope, key, leaseToken), ctxDone, at, at))
    {
      if ctxDone {
        return ContextError;
      }
      if scope == "" || key == "" || leaseToken == "" {
        return InvalidArgument;
      }
      var k := Key(scope, key);
      var live := Lookup(k, at);
      if !live || entries[k].status != StatusInProgress || entries[k].leaseToken != leaseToken {
        return Conflict;
      }
      entries := entries - {k};
      assert View().entries == Swept(old(View()), k, at).entries - {k};
      return Applied;
    }
  }
}
