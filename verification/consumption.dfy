/** The second pass of `process_data` (main.py:39-48): the runtime of
    every workload with both timestamps, summed per customer into an
    insertion-ordered `defaultdict(int)`. */
module Consumption {
  import opened Values
  import opened Seqs
  import opened Dict
  import opened Events
  import opened Workloads

  /** Customer id to total consumption, in insertion order. */
  type Totals = seq<(Scalar, int)>

  /** `stop - start` on operands that are not both `int` raises Python's
      `TypeError`, which nothing in the aggregator catches. */
  datatype Error = UnsupportedOperand

  datatype Result<T> = Success(value: T) | Failure(error: Error)

  /** Both timestamps are present: `is not None`, so 0 counts. */
  predicate Complete(rec: WorkloadRecord) {
    rec.start != Null && rec.stop != Null
  }

  /** `customer_consumption[customer] += runtime` on a `defaultdict(int)`:
      a missing customer starts from 0, and no other customer changes. */
  function Charge(t: Totals, customer: Scalar, runtime: int): (r: Totals)
    ensures Keys(r) == if customer in Keys(t) then Keys(t) else Keys(t) + [customer]
    ensures forall c :: c != customer ==> Get(r, c) == Get(t, c)
    ensures Get(r, customer) == Some(Get(t, customer).GetOr(0) + runtime)
  {
    Put(t, customer, Get(t, customer).GetOr(0) + runtime)
  }

  /** A customer charged for the first time is appended with the runtime. */
  lemma ChargeUnseen(t: Totals, customer: Scalar, runtime: int)
    requires customer !in Keys(t)
    ensures Charge(t, customer, runtime) == t + [(customer, runtime)]
  {
    PutNew(t, customer, runtime);
  }

  /** One iteration of the second loop: a record with both timestamps
      charges `stop - start`, taken literally with no clamping, to its
      customer; `stop - start` on values that are not both `int` raises. */
  function Visit(t: Totals, rec: WorkloadRecord): Result<Totals> {
    if !Complete(rec) then Success(t)
    else if rec.start.Int? && rec.stop.Int? then Success(Charge(t, rec.customerId, rec.stop.n - rec.start.n))
    else Failure(UnsupportedOperand)
  }

  /** The second loop over `workloads.values()`, in insertion order,
      stopping at the first `TypeError`. */
  function Tally(ws: Workloads): Result<Totals> {
    if |ws| == 0 then Success([])
    else match Tally(ws[..|ws| - 1])
      case Failure(e) => Failure(e)
      case Success(t) => Visit(t, ws[|ws| - 1].1)
  }

  /** `process_data(events)`: both passes. An empty batch gives an empty
      result. */
  function ProcessData(events: seq<Event>): (r: Result<Totals>)
    ensures |events| == 0 ==> r == Success([])
  {
    Tally(Collect(events))
  }

  // Reference definitions, stated record by record over the workloads.

  /** The record's subtraction cannot fail: it is incomplete or both
      timestamps are `int`. */
  predicate Subtractable(rec: WorkloadRecord) {
    Complete(rec) ==> rec.start.Int? && rec.stop.Int?
  }

  /** Every record is subtractable. */
  predicate WellTyped(ws: Workloads) {
    forall i :: 0 <= i < |ws| ==> Subtractable(ws[i].1)
  }

  /** The runtime a record contributes to customer `c`. */
  function Share(rec: WorkloadRecord, c: Scalar): int {
    if Complete(rec) && rec.customerId == c && rec.start.Int? && rec.stop.Int?
    then rec.stop.n - rec.start.n
    else 0
  }

  /** The sum of `stop - start` over the complete records of customer `c`. */
  function SumFor(ws: Workloads, c: Scalar): int {
    if |ws| == 0 then 0 else SumFor(ws[..|ws| - 1], c) + Share(ws[|ws| - 1].1, c)
  }

  /** The record has both timestamps and belongs to customer `c`. */
  predicate ChargesTo(rec: WorkloadRecord, c: Scalar) {
    Complete(rec) && rec.customerId == c
  }

  /** Customer `c` has at least one record with both timestamps. */
  predicate Contributes(ws: Workloads, c: Scalar) {
    exists i :: 0 <= i < |ws| && ChargesTo(ws[i].1, c)
  }

  /** The customers of the complete records, in workload order. */
  function Contributors(ws: Workloads): seq<Scalar> {
    if |ws| == 0 then []
    else
      var rec := ws[|ws| - 1].1;
      Contributors(ws[..|ws| - 1]) + if Complete(rec) then [rec.customerId] else []
  }

  lemma SnocSum(prior: Workloads, x: (Scalar, WorkloadRecord), c: Scalar)
    ensures SumFor(prior + [x], c) == SumFor(prior, c) + Share(x.1, c)
  {
    assert (prior + [x])[..|prior|] == prior;
  }

  lemma SnocContributes(prior: Workloads, x: (Scalar, WorkloadRecord), c: Scalar)
    ensures Contributes(prior + [x], c) <==> Contributes(prior, c) || ChargesTo(x.1, c)
  {
    var ws := prior + [x];
    if Contributes(ws, c) && !ChargesTo(x.1, c) {
      var i :| 0 <= i < |ws| && ChargesTo(ws[i].1, c);
      assert ws[i] == prior[i];
    }
    if Contributes(prior, c) {
      var i :| 0 <= i < |prior| && ChargesTo(prior[i].1, c);
      assert ws[i] == prior[i];
    }
    assert ws[|prior|] == x;
  }

  lemma SnocWellTyped(prior: Workloads, x: (Scalar, WorkloadRecord))
    ensures WellTyped(prior + [x]) <==> WellTyped(prior) && Subtractable(x.1)
  {
    var ws := prior + [x];
    assert forall i :: 0 <= i < |prior| ==> ws[i] == prior[i];
    assert ws[|prior|] == x;
  }

  lemma SnocContributors(prior: Workloads, x: (Scalar, WorkloadRecord))
    ensures Contributors(prior + [x]) ==
      Contributors(prior) + if Complete(x.1) then [x.1.customerId] else []
  {
    assert (prior + [x])[..|prior|] == prior;
  }

  /** A customer with no complete record is charged nothing. */
  lemma {:induction false} SumWithoutContribution(ws: Workloads, c: Scalar)
    requires !Contributes(ws, c)
    ensures SumFor(ws, c) == 0
  {
    if |ws| > 0 {
      var prior := ws[..|ws| - 1];
      var x := ws[|ws| - 1];
      assert ws == prior + [x];
      SnocContributes(prior, x, c);
      SnocSum(prior, x, c);
      SumWithoutContribution(prior, c);
    }
  }

  /** One step of the second loop, as `Tally` takes it. */
  lemma TallySnoc(prior: Workloads, x: (Scalar, WorkloadRecord))
    ensures Tally(prior + [x]) ==
      match Tally(prior)
      case Failure(e) => Failure(e)
      case Success(t) => Visit(t, x.1)
  {
    assert (prior + [x])[..|prior|] == prior;
  }

  lemma {:induction false} TallySucceeds(ws: Workloads)
    ensures Tally(ws).Success? <==> WellTyped(ws)
  {
    if |ws| > 0 {
      var prior := ws[..|ws| - 1];
      var x := ws[|ws| - 1];
      assert ws == prior + [x];
      TallySnoc(prior, x);
      SnocWellTyped(prior, x);
      TallySucceeds(prior);
    }
  }

  lemma {:induction false} TallyKeys(ws: Workloads)
    requires Tally(ws).Success?
    ensures Keys(Tally(ws).value) == Dedup(Contributors(ws))
  {
    if |ws| > 0 {
      var prior := ws[..|ws| - 1];
      var x := ws[|ws| - 1];
      assert ws == prior + [x];
      TallySnoc(prior, x);
      SnocContributors(prior, x);
      TallyKeys(prior);
      if Complete(x.1) {
        DedupSnoc(Contributors(prior), x.1.customerId);
        DedupMember(Contributors(prior), x.1.customerId);
      } else {
        assert Contributors(prior) + [] == Contributors(prior);
      }
    }
  }

  /** One step of the second loop, for one customer `c`. */
  lemma VisitStep(prior: Workloads, x: (Scalar, WorkloadRecord), t: Totals, c: Scalar)
    requires Get(t, c) == if Contributes(prior, c) then Some(SumFor(prior, c)) else None
    requires Visit(t, x.1).Success?
    ensures Get(Visit(t, x.1).value, c) ==
      if Contributes(prior + [x], c) then Some(SumFor(prior + [x], c)) else None
  {
    SnocContributes(prior, x, c);
    SnocSum(prior, x, c);
    if ChargesTo(x.1, c) && !Contributes(prior, c) {
      SumWithoutContribution(prior, c);
    }
  }

  lemma {:induction false} TallySums(ws: Workloads)
    requires Tally(ws).Success?
    ensures forall c ::
      Get(Tally(ws).value, c) == if Contributes(ws, c) then Some(SumFor(ws, c)) else None
  {
    if |ws| > 0 {
      var prior := ws[..|ws| - 1];
      var x := ws[|ws| - 1];
      assert ws == prior + [x];
      TallySnoc(prior, x);
      TallySums(prior);
      forall c
        ensures Get(Tally(ws).value, c) == if Contributes(ws, c) then Some(SumFor(ws, c)) else None
      {
        VisitStep(prior, x, Tally(prior).value, c);
      }
    }
  }

  /** The second pass fails exactly when some complete record has a
      timestamp that is not an `int`. When it succeeds, the keys are the
      contributing customers in order of first contribution, and each
      customer's total is the sum over its complete records; customers
      with no complete record are absent, not present with 0. */
  lemma TallySpec(ws: Workloads)
    ensures Tally(ws).Success? <==> WellTyped(ws)
    ensures Tally(ws).Success? ==> Keys(Tally(ws).value) == Dedup(Contributors(ws))
    ensures Tally(ws).Success? ==> forall c ::
      Get(Tally(ws).value, c) == if Contributes(ws, c) then Some(SumFor(ws, c)) else None
  {
    TallySucceeds(ws);
    if Tally(ws).Success? {
      TallyKeys(ws);
      TallySums(ws);
    }
  }

  /** `process_data` succeeds exactly when every workload with both
      timestamps has integer ones; its result then holds each customer
      once, in order of first contribution, with the sum of `stop - start`
      over that customer's complete workloads. */
  lemma ProcessDataSpec(events: seq<Event>)
    ensures ProcessData(events).Success? <==> WellTyped(Collect(events))
    ensures ProcessData(events).Success? ==> Wf(ProcessData(events).value)
    ensures ProcessData(events).Success? ==>
      Keys(ProcessData(events).value) == Dedup(Contributors(Collect(events)))
    ensures ProcessData(events).Success? ==> forall c ::
      Get(ProcessData(events).value, c) ==
        if Contributes(Collect(events), c) then Some(SumFor(Collect(events), c)) else None
  {
    TallySpec(Collect(events));
  }

  /** An event of any type other than `"start"`, `"stop"` or
      `"customerId"`, about a workload already seen, changes no total. */
  lemma UntrackedEventChangesNoTotal(events: seq<Event>, e: Event)
    requires e.workloadId in Ids(events)
    requires !Tracked(e.eventType)
    ensures ProcessData(events + [e]) == ProcessData(events)
  {
    CollectIgnoresUntracked(events, e);
  }
}
