// The delivery contract of ports/jobs, stated over the history of a queue.
//
// A history is the sequence of things that happened to jobs. A delivery is named by the
// position of its Delivered event, so the same job may be delivered many times and each
// handler outcome says which delivery it belongs to.

module Delivery {
  import opened Base

  /** P is the payload: a byte array in a running store, its contents in the specification. */
  datatype Job<+P> = Job(typ: string, payload: P, processAt: int)

  datatype Event =
    | Accepted(id: string, typ: string, payload: Bytes, processAt: int)
    | Delivered(worker: nat, id: string, typ: string, payload: Bytes, at: int)
    | Acked(delivery: nat, id: string, at: int)
    | Failed(delivery: nat, id: string, at: int)

  type Log = seq<Event>

  /** Instants are integers on the scheduling clock; the zero instant means "as soon as possible". */
  predicate Eligible(processAt: int, now: int) {
    processAt == 0 || processAt <= now
  }

  predicate IsDelivery(log: Log, d: nat) {
    d < |log| && log[d].Delivered?
  }

  /** The types a worker has handlers for. */
  function TypesOf(handlers: map<nat, set<string>>, worker: nat): set<string> {
    if worker in handlers then handlers[worker] else {}
  }

  predicate IsReturn(e: Event) {
    e.Acked? || e.Failed?
  }

  ghost predicate AcceptedIn(log: Log, id: string) {
    exists p :: 0 <= p < |log| && log[p].Accepted? && log[p].id == id
  }

  ghost predicate AcceptedAs(log: Log, id: string, typ: string, payload: Bytes, processAt: int) {
    Accepted(id, typ, payload, processAt) in log
  }

  ghost predicate AckedIn(log: Log, id: string) {
    exists q :: 0 <= q < |log| && log[q].Acked? && log[q].id == id
  }

  ghost predicate ReturnedIn(log: Log, d: nat) {
    exists q :: 0 <= q < |log| && IsReturn(log[q]) && log[q].delivery == d
  }

  /** A failed attempt of id was reported strictly between positions p and q. */
  ghost predicate FailedBetween(log: Log, p: int, q: int, id: string) {
    exists r :: p < r < q && 0 <= r < |log| && log[r].Failed? && log[r].id == id
  }

  function Deliveries(log: Log, id: string): nat {
    if log == [] then 0
    else Deliveries(log[..|log| - 1], id) +
         if log[|log| - 1].Delivered? && log[|log| - 1].id == id then 1 else 0
  }

  function Failures(log: Log, id: string): nat {
    if log == [] then 0
    else Failures(log[..|log| - 1], id) +
         if log[|log| - 1].Failed? && log[|log| - 1].id == id then 1 else 0
  }

  // ----- the contract -----

  /** Identifiers are non-empty and never given to two jobs. */
  ghost predicate IdsUnique(log: Log) {
    && (forall p :: 0 <= p < |log| && log[p].Accepted? ==> log[p].id != "")
    && (forall p, q :: 0 <= p < q < |log| && log[p].Accepted? && log[q].Accepted? ==> log[p].id != log[q].id)
  }

  /** What the event at position q hands over is what was accepted before it, and not early. */
  ghost predicate HandsOverAccepted(log: Log, q: int)
    requires 0 <= q < |log| && log[q].Delivered?
  {
    exists p :: 0 <= p < q && log[p].Accepted? && log[p].id == log[q].id && log[p].typ == log[q].typ
                && log[p].payload == log[q].payload && Eligible(log[p].processAt, log[q].at)
  }

  ghost predicate Verbatim(log: Log) {
    forall q :: 0 <= q < |log| && log[q].Delivered? ==> HandsOverAccepted(log, q)
  }

  /** The outcome at position q belongs to an earlier delivery of the same job. */
  ghost predicate HasDelivery(log: Log, q: int)
    requires 0 <= q < |log| && IsReturn(log[q])
  {
    var d := log[q].delivery;
    d < q && log[d].Delivered? && log[d].id == log[q].id
  }

  /** Every outcome belongs to a delivery, and each delivery has at most one outcome. */
  ghost predicate OutcomesMatch(log: Log) {
    && (forall q {:trigger HasDelivery(log, q)} {:trigger IsReturn(log[q])} :: 0 <= q < |log| && IsReturn(log[q]) ==> HasDelivery(log, q))
    && (forall p, q :: 0 <= p < q < |log| && IsReturn(log[p]) && IsReturn(log[q]) ==> log[p].delivery != log[q].delivery)
  }

  /** Once an ack of a job has landed, the job is not delivered again. */
  ghost predicate AckIsFinal(log: Log) {
    forall p, q :: 0 <= p < q < |log| && log[p].Acked? && log[q].Delivered? ==> log[p].id != log[q].id
  }

  ghost predicate Contract(log: Log) {
    IdsUnique(log) && Verbatim(log) && OutcomesMatch(log) && AckIsFinal(log)
  }

  /** Two deliveries of one job are more than ttl apart, or a failed attempt came between them. */
  ghost predicate LeaseSeparated(log: Log, ttl: int) {
    forall p, q :: 0 <= p < q < |log| && log[p].Delivered? && log[q].Delivered? && log[p].id == log[q].id ==>
      FailedBetween(log, p, q, log[p].id) || log[p].at + ttl < log[q].at
  }

  /** The outcome of delivery p was a failure, reported before position q and at least delay before instant t. */
  ghost predicate FailedEarlier(log: Log, p: int, q: int, delay: int, t: int)
    requires 0 <= p < |log| && log[p].Delivered?
  {
    exists r :: p < r < q && r < |log| && log[r].Failed? && log[r].delivery == p
                && log[p].at <= log[r].at && log[r].at + delay <= t
  }

  /** A job is delivered again only after its previous delivery failed, and delay later. */
  ghost predicate Exclusive(log: Log, delay: int) {
    forall p, q :: 0 <= p < q < |log| && log[p].Delivered? && log[q].Delivered? && log[p].id == log[q].id ==>
      FailedEarlier(log, p, q, delay, log[q].at)
  }

  /** At most one nil result is ever reported for a job. */
  ghost predicate AckedOnce(log: Log) {
    forall p, q :: 0 <= p < q < |log| && log[p].Acked? && log[q].Acked? ==> log[p].id != log[q].id
  }

  // ----- growing a history by one event -----

  lemma CountsGrow(log: Log, e: Event, id: string)
    ensures Deliveries(log + [e], id) == Deliveries(log, id) + if e.Delivered? && e.id == id then 1 else 0
    ensures Failures(log + [e], id) == Failures(log, id) + if e.Failed? && e.id == id then 1 else 0
  {
    assert (log + [e])[..|log|] == log;
  }

  lemma AckedGrows(log: Log, e: Event, id: string)
    ensures AckedIn(log + [e], id) <==> AckedIn(log, id) || (e.Acked? && e.id == id)
  {
    var grown := log + [e];
    if AckedIn(log, id) {
      var q :| 0 <= q < |log| && log[q].Acked? && log[q].id == id;
      assert grown[q] == log[q];
    }
    assert grown[|log|] == e;
  }

  lemma ReturnedGrows(log: Log, e: Event, d: nat)
    ensures ReturnedIn(log + [e], d) <==> ReturnedIn(log, d) || (IsReturn(e) && e.delivery == d)
  {
    var grown := log + [e];
    if ReturnedIn(log, d) {
      var q :| 0 <= q < |log| && IsReturn(log[q]) && log[q].delivery == d;
      assert grown[q] == log[q];
    }
    assert grown[|log|] == e;
  }

  /** A delivery that has just been made has no outcome yet. */
  lemma NewDeliveryIsOpen(log: Log, e: Event)
    requires OutcomesMatch(log) && e.Delivered?
    ensures !ReturnedIn(log + [e], |log|)
  {
    forall q | 0 <= q < |log| && IsReturn(log[q])
      ensures log[q].delivery < |log|
    {
      assert HasDelivery(log, q);
    }
    ReturnedGrows(log, e, |log|);
  }

  lemma FailedGrows(log: Log, e: Event, p: int, id: string)
    requires p < |log|
    ensures FailedBetween(log, p, |log|, id) ==> FailedBetween(log + [e], p, |log|, id)
    ensures FailedBetween(log + [e], p, |log| + 1, id)
            <==> FailedBetween(log, p, |log|, id) || (e.Failed? && e.id == id && p < |log|)
  {
    var grown := log + [e];
    if FailedBetween(log, p, |log|, id) {
      var r :| p < r < |log| && 0 <= r < |log| && log[r].Failed? && log[r].id == id;
      assert grown[r] == log[r];
    }
    assert grown[|log|] == e;
  }

  lemma HandedOverGrows(log: Log, e: Event, q: int)
    requires 0 <= q < |log| && log[q].Delivered? && HandsOverAccepted(log, q)
    ensures HandsOverAccepted(log + [e], q)
  {
    var p :| 0 <= p < q && log[p].Accepted? && log[p].id == log[q].id && log[p].typ == log[q].typ
             && log[p].payload == log[q].payload && Eligible(log[p].processAt, log[q].at);
    assert (log + [e])[p] == log[p];
  }

  lemma OldVerbatim(log: Log, e: Event)
    requires Verbatim(log)
    ensures forall q :: 0 <= q < |log| && log[q].Delivered? ==> HandsOverAccepted(log + [e], q)
  {
    forall q | 0 <= q < |log| && log[q].Delivered?
      ensures HandsOverAccepted(log + [e], q)
    {
      HandedOverGrows(log, e, q);
    }
  }

  lemma AcceptKeepsContract(log: Log, e: Event)
    requires Contract(log) && e.Accepted? && e.id != "" && !AcceptedIn(log, e.id)
    ensures Contract(log + [e])
  {
    OldVerbatim(log, e);
    assert Verbatim(log + [e]);
  }

  lemma DeliverKeepsContract(log: Log, e: Event, processAt: int)
    requires Contract(log) && e.Delivered? && !AckedIn(log, e.id)
    requires AcceptedAs(log, e.id, e.typ, e.payload, processAt) && Eligible(processAt, e.at)
    ensures Contract(log + [e])
  {
    OldVerbatim(log, e);
    var grown := log + [e];
    var p :| 0 <= p < |log| && log[p] == Accepted(e.id, e.typ, e.payload, processAt);
    assert grown[p] == log[p] && grown[|log|] == e;
    assert HandsOverAccepted(grown, |log|);
    assert Verbatim(grown);
  }

  lemma ReturnKeepsOutcomes(log: Log, e: Event)
    requires OutcomesMatch(log) && IsReturn(e) && !ReturnedIn(log, e.delivery)
    requires e.delivery < |log| && log[e.delivery].Delivered? && log[e.delivery].id == e.id
    ensures OutcomesMatch(log + [e])
  {
    var grown := log + [e];
    forall q | 0 <= q < |grown| && IsReturn(grown[q])
      ensures HasDelivery(grown, q)
    {
      if q < |log| {
        assert HasDelivery(log, q);
      }
    }
  }

  lemma ReturnKeepsContract(log: Log, e: Event)
    requires Contract(log) && IsReturn(e) && !ReturnedIn(log, e.delivery)
    requires e.delivery < |log| && log[e.delivery].Delivered? && log[e.delivery].id == e.id
    ensures Contract(log + [e])
  {
    OldVerbatim(log, e);
    ReturnKeepsOutcomes(log, e);
    assert Verbatim(log + [e]);
  }
}
