/** The first pass of `process_data` (main.py:25-37): a dictionary from
    workload id to its record, filled event by event. */
module Workloads {
  import opened Values
  import opened Seqs
  import opened Dict
  import opened Events

  type Workloads = seq<(Scalar, WorkloadRecord)>

  /** The workload id of every event, in input order. */
  function Ids(events: seq<Event>): (ids: seq<Scalar>)
    ensures |ids| == |events|
    ensures forall i :: 0 <= i < |events| ==> ids[i] == events[i].workloadId
  {
    seq(|events|, i requires 0 <= i < |events| => events[i].workloadId)
  }

  /** One iteration of the first loop: look the workload up, creating its
      record with the event's customer when it is new, then store the
      timestamp under the key the event type names. */
  function Observe(ws: Workloads, e: Event): Workloads {
    var rec := match Get(ws, e.workloadId)
      case Some(r) => r
      case None => NewRecord(e.customerId);
    Put(ws, e.workloadId, Assign(rec, e.eventType, e.timestamp))
  }

  /** The workload dictionary after the first loop has consumed `events`.
      Its keys are unique and are the workload ids in order of first
      sighting. */
  function Collect(events: seq<Event>): (ws: Workloads)
    ensures Wf(ws)
    ensures Keys(ws) == Dedup(Ids(events))
  {
    if |events| == 0 then []
    else
      var prior := events[..|events| - 1];
      var e := events[|events| - 1];
      var ws := Collect(prior);
      assert Ids(events) == Ids(prior) + [e.workloadId];
      DedupSnoc(Ids(prior), e.workloadId);
      PutWf(ws, e.workloadId, Assign(
        match Get(ws, e.workloadId) case Some(r) => r case None => NewRecord(e.customerId),
        e.eventType, e.timestamp));
      Observe(ws, e)
  }

  /** One more event is one more iteration of the first loop. */
  lemma CollectSnoc(events: seq<Event>, e: Event)
    ensures Collect(events + [e]) == Observe(Collect(events), e)
  {
    assert (events + [e])[..|events|] == events;
  }

  /** The first event about a workload appends a fresh record, owned by
      that event's customer, with the event's field assigned. */
  lemma ObserveUnseen(ws: Workloads, e: Event)
    requires e.workloadId !in Keys(ws)
    ensures Observe(ws, e) == ws + [(e.workloadId, Assign(NewRecord(e.customerId), e.eventType, e.timestamp))]
  {
    PutNew(ws, e.workloadId, Assign(NewRecord(e.customerId), e.eventType, e.timestamp));
  }

  /** A later event about the workload first listed at position `i` updates that
      record in place. */
  lemma ObserveSeen(ws: Workloads, i: nat, e: Event)
    requires i < |ws| && ws[i].0 == e.workloadId
    requires forall j :: 0 <= j < i ==> ws[j].0 != e.workloadId
    ensures Observe(ws, e) == ws[i := (e.workloadId, Assign(ws[i].1, e.eventType, e.timestamp))]
  {
    GetFirst(ws, i);
    PutExisting(ws, i, Assign(ws[i].1, e.eventType, e.timestamp));
  }

  /** The event is about workload `w` and carries event type `field`. */
  predicate Matches(e: Event, w: Scalar, field: Scalar) {
    e.workloadId == w && e.eventType == field
  }

  /** The position of the first event about workload `w`. */
  function FirstIndex(events: seq<Event>, w: Scalar): (r: Option<nat>)
    ensures r.Some? ==> r.value < |events| && events[r.value].workloadId == w
    ensures r.Some? ==> forall j :: 0 <= j < r.value ==> events[j].workloadId != w
    ensures r.None? ==> forall j :: 0 <= j < |events| ==> events[j].workloadId != w
  {
    if |events| == 0 then None
    else match FirstIndex(events[..|events| - 1], w)
      case Some(i) => Some(i)
      case None => if events[|events| - 1].workloadId == w then Some(|events| - 1) else None
  }

  /** The position of the last event about workload `w` with type `field`. */
  function LastIndex(events: seq<Event>, w: Scalar, field: Scalar): (r: Option<nat>)
    ensures r.Some? ==> r.value < |events| && Matches(events[r.value], w, field)
    ensures r.Some? ==> forall j :: r.value < j < |events| ==> !Matches(events[j], w, field)
    ensures r.None? ==> forall j :: 0 <= j < |events| ==> !Matches(events[j], w, field)
  {
    if |events| == 0 then None
    else if Matches(events[|events| - 1], w, field) then Some(|events| - 1)
    else LastIndex(events[..|events| - 1], w, field)
  }

  /** The timestamp of the last event about `w` with type `field`, or
      `fallback` when there is none. */
  function Latest(events: seq<Event>, w: Scalar, field: Scalar, fallback: Scalar): Scalar {
    match LastIndex(events, w, field)
    case Some(i) => events[i].timestamp
    case None => fallback
  }

  /** What the record of workload `w` should hold, stated from the events
      alone: nothing when no event names `w`; otherwise the last `start`
      and `stop` timestamps (or `None`), and the customer of the first
      event about `w` unless an event of type `customerId` overwrote it. */
  function Expected(events: seq<Event>, w: Scalar): Option<WorkloadRecord> {
    match FirstIndex(events, w)
    case None => None
    case Some(i) => Some(WorkloadRecord(
      Latest(events, w, Start, Null),
      Latest(events, w, Stop, Null),
      Latest(events, w, CustomerKey, events[i].customerId)))
  }

  /** Appending an event changes `Latest` only for the key it names. */
  lemma LatestSnoc(events: seq<Event>, w: Scalar, field: Scalar, fallback: Scalar)
    requires |events| > 0
    ensures Latest(events, w, field, fallback) ==
      if Matches(events[|events| - 1], w, field) then events[|events| - 1].timestamp
      else Latest(events[..|events| - 1], w, field, fallback)
  {
  }

  /** With no earlier event about `w`, `Latest` falls back. */
  lemma LatestUnseen(events: seq<Event>, w: Scalar, field: Scalar, fallback: Scalar)
    requires FirstIndex(events, w).None?
    ensures Latest(events, w, field, fallback) == fallback
  {
  }

  /** The record built by the last event of a workload already seen. */
  lemma ExpectedSnocSeen(events: seq<Event>, w: Scalar)
    requires |events| > 0
    requires events[|events| - 1].workloadId == w
    requires Expected(events[..|events| - 1], w).Some?
    ensures Expected(events, w) == Some(Assign(Expected(events[..|events| - 1], w).value,
      events[|events| - 1].eventType, events[|events| - 1].timestamp))
  {
    var prior := events[..|events| - 1];
    var i := FirstIndex(prior, w).value;
    assert FirstIndex(events, w) == Some(i);
    assert events[i] == prior[i];
    LatestSnoc(events, w, Start, Null);
    LatestSnoc(events, w, Stop, Null);
    LatestSnoc(events, w, CustomerKey, prior[i].customerId);
  }

  /** The record built by the first event of a workload. */
  lemma ExpectedSnocUnseen(events: seq<Event>, w: Scalar)
    requires |events| > 0
    requires events[|events| - 1].workloadId == w
    requires Expected(events[..|events| - 1], w).None?
    ensures Expected(events, w) == Some(Assign(NewRecord(events[|events| - 1].customerId),
      events[|events| - 1].eventType, events[|events| - 1].timestamp))
  {
    var prior := events[..|events| - 1];
    var e := events[|events| - 1];
    assert FirstIndex(events, w) == Some(|events| - 1);
    LatestSnoc(events, w, Start, Null);
    LatestSnoc(events, w, Stop, Null);
    LatestSnoc(events, w, CustomerKey, e.customerId);
    LatestUnseen(prior, w, Start, Null);
    LatestUnseen(prior, w, Stop, Null);
    LatestUnseen(prior, w, CustomerKey, e.customerId);
  }

  /** An event about another workload leaves the expectation for `w` alone. */
  lemma ExpectedSnocOther(events: seq<Event>, w: Scalar)
    requires |events| > 0
    requires events[|events| - 1].workloadId != w
    ensures Expected(events, w) == Expected(events[..|events| - 1], w)
  {
    var prior := events[..|events| - 1];
    assert FirstIndex(events, w) == FirstIndex(prior, w);
    if FirstIndex(prior, w).Some? {
      var i := FirstIndex(prior, w).value;
      assert events[i] == prior[i];
      LatestSnoc(events, w, Start, Null);
      LatestSnoc(events, w, Stop, Null);
      LatestSnoc(events, w, CustomerKey, prior[i].customerId);
    }
  }

  /** The first pass stores, for every workload id, exactly the record
      `Expected` describes. */
  lemma {:induction false} CollectMatchesExpected(events: seq<Event>, w: Scalar)
    ensures Get(Collect(events), w) == Expected(events, w)
  {
    if |events| > 0 {
      var prior := events[..|events| - 1];
      var e := events[|events| - 1];
      CollectMatchesExpected(prior, w);
      assert Collect(events) == Observe(Collect(prior), e);
      if e.workloadId != w {
        ExpectedSnocOther(events, w);
      } else if Expected(prior, w).Some? {
        ExpectedSnocSeen(events, w);
      } else {
        ExpectedSnocUnseen(events, w);
      }
    }
  }

  lemma ExpectedFirstCustomer(events: seq<Event>, i: nat)
    requires i < |events|
    requires forall j :: 0 <= j < i ==> events[j].workloadId != events[i].workloadId
    requires forall j :: 0 <= j < |events| ==> !Matches(events[j], events[i].workloadId, CustomerKey)
    ensures Expected(events, events[i].workloadId).Some?
    ensures Expected(events, events[i].workloadId).value.customerId == events[i].customerId
  {
  }

  /** A workload's customer is the `customerId` of the first event about
      it; later events naming another customer do not reassign it, as
      long as no event's type is itself `"customerId"`. */
  lemma CustomerFixedByFirstEvent(events: seq<Event>, i: nat)
    requires i < |events|
    requires forall j :: 0 <= j < i ==> events[j].workloadId != events[i].workloadId
    requires forall j :: 0 <= j < |events| ==> !Matches(events[j], events[i].workloadId, CustomerKey)
    ensures Get(Collect(events), events[i].workloadId).Some?
    ensures Get(Collect(events), events[i].workloadId).value.customerId == events[i].customerId
  {
    ExpectedFirstCustomer(events, i);
    CollectMatchesExpected(events, events[i].workloadId);
  }

  lemma ExpectedLastWrite(events: seq<Event>, i: nat)
    requires i < |events|
    requires Tracked(events[i].eventType)
    requires forall j :: i < j < |events| ==> !Matches(events[j], events[i].workloadId, events[i].eventType)
    ensures Expected(events, events[i].workloadId).Some?
    ensures Field(Expected(events, events[i].workloadId).value, events[i].eventType) == events[i].timestamp
  {
    assert LastIndex(events, events[i].workloadId, events[i].eventType) == Some(i);
  }

  /** Last write wins: the key an event type names holds the timestamp of
      the last event about that workload with that type, with no error
      for the earlier ones. */
  lemma LastWriteWins(events: seq<Event>, i: nat)
    requires i < |events|
    requires Tracked(events[i].eventType)
    requires forall j :: i < j < |events| ==> !Matches(events[j], events[i].workloadId, events[i].eventType)
    ensures Get(Collect(events), events[i].workloadId).Some?
    ensures Field(Get(Collect(events), events[i].workloadId).value, events[i].eventType) == events[i].timestamp
  {
    ExpectedLastWrite(events, i);
    CollectMatchesExpected(events, events[i].workloadId);
  }

  /** Only events typed `"start"` (resp. `"stop"`) set the start (resp.
      stop) timestamp: without one, it stays `None`. */
  lemma NoEventNoTimestamp(events: seq<Event>, w: Scalar)
    ensures (forall j :: 0 <= j < |events| ==> !Matches(events[j], w, Start)) ==>
      Get(Collect(events), w).None? || Get(Collect(events), w).value.start == Null
    ensures (forall j :: 0 <= j < |events| ==> !Matches(events[j], w, Stop)) ==>
      Get(Collect(events), w).None? || Get(Collect(events), w).value.stop == Null
  {
    CollectMatchesExpected(events, w);
    if Get(Collect(events), w).Some? {
      if LastIndex(events, w, Start).Some? {
        var k := LastIndex(events, w, Start).value;
        assert Matches(events[k], w, Start);
      }
      if LastIndex(events, w, Stop).Some? {
        var k := LastIndex(events, w, Stop).value;
        assert Matches(events[k], w, Stop);
      }
    }
  }

  /** An event whose type names none of the record's keys, about a
      workload already in the dictionary, changes nothing. */
  lemma UntrackedEventIsNoop(ws: Workloads, e: Event)
    requires Wf(ws)
    requires e.workloadId in Keys(ws)
    requires !Tracked(e.eventType)
    ensures Observe(ws, e) == ws
  {
    PutStored(ws, e.workloadId, Get(ws, e.workloadId).value);
  }

  /** Appending an event whose type names none of the record's keys, about
      a workload already seen, leaves the dictionary unchanged. */
  lemma CollectIgnoresUntracked(events: seq<Event>, e: Event)
    requires e.workloadId in Ids(events)
    requires !Tracked(e.eventType)
    ensures Collect(events + [e]) == Collect(events)
  {
    assert (events + [e])[..|events|] == events;
    DedupMember(Ids(events), e.workloadId);
    UntrackedEventIsNoop(Collect(events), e);
  }
}
