/** The input events and the per-workload record the first pass builds. */
module Events {
  import opened Values

  /** One lifecycle event, each field as `event.get(...)` returns it. */
  datatype Event = Event(workloadId: Scalar, customerId: Scalar, timestamp: Scalar, eventType: Scalar)

  /** The three keys of a workload record that the second pass reads.
      Writes under any other key add an entry nothing ever reads, so the
      record does not keep them. */
  datatype WorkloadRecord = WorkloadRecord(start: Scalar, stop: Scalar, customerId: Scalar)

  const Start: Scalar := Str("start")
  const Stop: Scalar := Str("stop")
  const CustomerKey: Scalar := Str("customerId")

  /** An event type that names one of the record's keys. */
  predicate Tracked(field: Scalar) {
    field == Start || field == Stop || field == CustomerKey
  }

  /** The record created on the first sighting of a workload. */
  function NewRecord(customer: Scalar): WorkloadRecord {
    WorkloadRecord(Null, Null, customer)
  }

  /** The value stored under a tracked key. */
  function Field(rec: WorkloadRecord, field: Scalar): Scalar
    requires Tracked(field)
  {
    if field == Start then rec.start
    else if field == Stop then rec.stop
    else rec.customerId
  }

  /** `record[field] = value`. */
  function Assign(rec: WorkloadRecord, field: Scalar, value: Scalar): WorkloadRecord {
    if field == Start then rec.(start := value)
    else if field == Stop then rec.(stop := value)
    else if field == CustomerKey then rec.(customerId := value)
    else rec
  }

  /** Assigning sets exactly the named key: the key written reads back
      the value, every other tracked key keeps its value, and an untracked
      key leaves the record as it was. */
  lemma AssignSetsOnlyItsKey(rec: WorkloadRecord, field: Scalar, value: Scalar)
    ensures Tracked(field) ==> Field(Assign(rec, field, value), field) == value
    ensures forall f :: Tracked(f) && f != field ==> Field(Assign(rec, field, value), f) == Field(rec, f)
    ensures !Tracked(field) ==> Assign(rec, field, value) == rec
  {
  }
}
