/** Small batches and what `process_data` returns for them, for any ids,
    customers and timestamps. Each `...Collected` lemma gives the
    workload dictionary the first loop builds for its batch, each
    `...Tallied` lemma what the second loop makes of such a dictionary. */
module Scenarios {
  import opened Values
  import opened Events
  import opened Dict
  import opened Workloads
  import opened Consumption

  function Begin(w: Scalar, c: Scalar, ts: int): Event { Event(w, c, Int(ts), Start) }
  function End(w: Scalar, c: Scalar, ts: int): Event { Event(w, c, Int(ts), Stop) }

  // One more element at the end of a short list.
  lemma Snoc1<T>(a: T) ensures [] + [a] == [a] {}
  lemma Snoc2<T>(a: T, b: T) ensures [a] + [b] == [a, b] {}
  lemma Snoc3<T>(a: T, b: T, c: T) ensures [a, b] + [c] == [a, b, c] {}
  lemma Snoc4<T>(a: T, b: T, c: T, d: T) ensures [a, b, c] + [d] == [a, b, c, d] {}

  /** The second loop over a single complete record with `int` timestamps. */
  lemma CompleteRecordTallied(w: Scalar, c: Scalar, t0: int, t1: int)
    ensures Tally([(w, WorkloadRecord(Int(t0), Int(t1), c))]) == Success([(c, t1 - t0)])
  {
    var x0 := (w, WorkloadRecord(Int(t0), Int(t1), c));
    assert Visit([], x0.1) == Success([(c, t1 - t0)]) by {
      ChargeUnseen([], c, t1 - t0);
    }
    assert Tally([]) == Success([]);
    Snoc1(x0);
    TallySnoc([], x0);
  }

  /** The second loop over a single incomplete record. */
  lemma IncompleteRecordTallied(w: Scalar, rec: WorkloadRecord)
    requires !Complete(rec)
    ensures Tally([(w, rec)]) == Success([])
  {
    var x0 := (w, rec);
    assert Visit([], x0.1) == Success([]);
    assert Tally([]) == Success([]);
    Snoc1(x0);
    TallySnoc([], x0);
  }

  lemma TwoWorkloadsOneCustomerTallied(w1: Scalar, w2: Scalar, c: Scalar, a0: int, a1: int, b0: int, b1: int)
    ensures Tally([(w1, WorkloadRecord(Int(a0), Int(a1), c)), (w2, WorkloadRecord(Int(b0), Int(b1), c))]) == Success([(c, a1 - a0 + (b1 - b0))])
  {
    var x0 := (w1, WorkloadRecord(Int(a0), Int(a1), c));
    var x1 := (w2, WorkloadRecord(Int(b0), Int(b1), c));
    var t := [(c, a1 - a0)];
    assert Visit(t, x1.1) == Success([(c, a1 - a0 + (b1 - b0))]) by {
      assert Get(t, c) == Some(a1 - a0);
      PutExisting(t, 0, a1 - a0 + (b1 - b0));
      assert t[0 := (c, a1 - a0 + (b1 - b0))] == [(c, a1 - a0 + (b1 - b0))];
    }
    CompleteRecordTallied(w1, c, a0, a1);
    Snoc2(x0, x1);
    TallySnoc([x0], x1);
  }

  lemma FirstSightingOrdersCustomersTallied(w1: Scalar, w2: Scalar, c1: Scalar, c2: Scalar, a0: int, a1: int, b0: int, b1: int)
    requires c1 != c2
    ensures Tally([(w1, WorkloadRecord(Int(a0), Int(a1), c1)), (w2, WorkloadRecord(Int(b0), Int(b1), c2))]) == Success([(c1, a1 - a0), (c2, b1 - b0)])
  {
    var x0 := (w1, WorkloadRecord(Int(a0), Int(a1), c1));
    var x1 := (w2, WorkloadRecord(Int(b0), Int(b1), c2));
    var t := [(c1, a1 - a0)];
    assert Visit(t, x1.1) == Success([(c1, a1 - a0), (c2, b1 - b0)]) by {
      assert Get(t, c2) == None;
      ChargeUnseen(t, c2, b1 - b0);
      assert t + [(c2, b1 - b0)] == [(c1, a1 - a0), (c2, b1 - b0)];
    }
    CompleteRecordTallied(w1, c1, a0, a1);
    Snoc2(x0, x1);
    TallySnoc([x0], x1);
  }

  /** The second loop over a record whose start is text. */
  lemma TextTimestampRaisesTallied(w: Scalar, c: Scalar, text: string, t1: int)
    ensures Tally([(w, WorkloadRecord(Str(text), Int(t1), c))]) == Failure(UnsupportedOperand)
  {
    var x0 := (w, WorkloadRecord(Str(text), Int(t1), c));
    assert Visit([], x0.1) == Failure(UnsupportedOperand);
    assert Tally([]) == Success([]);
    Snoc1(x0);
    TallySnoc([], x0);
  }

  lemma CompleteWorkloadChargedCollected(w: Scalar, c: Scalar, t0: int, t1: int)
    ensures Collect([Begin(w, c, t0), End(w, c, t1)]) == [(w, WorkloadRecord(Int(t0), Int(t1), c))]
  {
    var e0 := Begin(w, c, t0);
    var e1 := End(w, c, t1);
    var ws0: Workloads := [];
    var ws1 := [(w, WorkloadRecord(Int(t0), Null, c))];
    var ws2 := [(w, WorkloadRecord(Int(t0), Int(t1), c))];
    assert Observe(ws0, e0) == ws1 by {
      ObserveUnseen(ws0, e0);
    }
    assert Observe(ws1, e1) == ws2 by {
      ObserveSeen(ws1, 0, e1);
    }
    Snoc1(e0);
    CollectSnoc([], e0);
    Snoc2(e0, e1);
    CollectSnoc([e0], e1);
  }

  /** A start and a stop charge `stop - start` to the workload's customer.
      Equal timestamps still list the customer, with 0; a stop earlier than
      the start is charged as a negative runtime; timestamp 0 is present. */
  lemma CompleteWorkloadCharged(w: Scalar, c: Scalar, t0: int, t1: int)
    ensures ProcessData([Begin(w, c, t0), End(w, c, t1)]) == Success([(c, t1 - t0)])
  {
    CompleteWorkloadChargedCollected(w, c, t0, t1);
    CompleteRecordTallied(w, c, t0, t1);
  }

  lemma StopBeforeStartCollected(w: Scalar, c: Scalar, t0: int, t1: int)
    ensures Collect([End(w, c, t1), Begin(w, c, t0)]) == [(w, WorkloadRecord(Int(t0), Int(t1), c))]
  {
    var e0 := End(w, c, t1);
    var e1 := Begin(w, c, t0);
    var ws0: Workloads := [];
    var ws1 := [(w, WorkloadRecord(Null, Int(t1), c))];
    var ws2 := [(w, WorkloadRecord(Int(t0), Int(t1), c))];
    assert Observe(ws0, e0) == ws1 by {
      ObserveUnseen(ws0, e0);
    }
    assert Observe(ws1, e1) == ws2 by {
      ObserveSeen(ws1, 0, e1);
    }
    Snoc1(e0);
    CollectSnoc([], e0);
    Snoc2(e0, e1);
    CollectSnoc([e0], e1);
  }

  /** A stop that arrives before its start is paired all the same. */
  lemma StopBeforeStart(w: Scalar, c: Scalar, t0: int, t1: int)
    ensures ProcessData([End(w, c, t1), Begin(w, c, t0)]) == Success([(c, t1 - t0)])
  {
    StopBeforeStartCollected(w, c, t0, t1);
    CompleteRecordTallied(w, c, t0, t1);
  }

  lemma OnlyStartIsAbsentCollected(w: Scalar, c: Scalar, t0: int)
    ensures Collect([Begin(w, c, t0)]) == [(w, WorkloadRecord(Int(t0), Null, c))]
  {
    var e0 := Begin(w, c, t0);
    var ws0: Workloads := [];
    var ws1 := [(w, WorkloadRecord(Int(t0), Null, c))];
    assert Observe(ws0, e0) == ws1 by {
      ObserveUnseen(ws0, e0);
    }
    Snoc1(e0);
    CollectSnoc([], e0);
  }

  /** A workload with only a start charges nothing, and its customer is
      absent rather than listed with 0. */
  lemma OnlyStartIsAbsent(w: Scalar, c: Scalar, t0: int)
    ensures ProcessData([Begin(w, c, t0)]) == Success([])
  {
    OnlyStartIsAbsentCollected(w, c, t0);
    IncompleteRecordTallied(w, WorkloadRecord(Int(t0), Null, c));
  }

  lemma OnlyStopIsAbsentCollected(w: Scalar, c: Scalar, t1: int)
    ensures Collect([End(w, c, t1)]) == [(w, WorkloadRecord(Null, Int(t1), c))]
  {
    var e0 := End(w, c, t1);
    var ws0: Workloads := [];
    var ws1 := [(w, WorkloadRecord(Null, Int(t1), c))];
    assert Observe(ws0, e0) == ws1 by {
      ObserveUnseen(ws0, e0);
    }
    Snoc1(e0);
    CollectSnoc([], e0);
  }

  /** A workload with only a stop charges nothing either. */
  lemma OnlyStopIsAbsent(w: Scalar, c: Scalar, t1: int)
    ensures ProcessData([End(w, c, t1)]) == Success([])
  {
    OnlyStopIsAbsentCollected(w, c, t1);
    IncompleteRecordTallied(w, WorkloadRecord(Null, Int(t1), c));
  }

  lemma LaterCustomerIgnoredCollected(w: Scalar, c: Scalar, other: Scalar, t0: int, t1: int)
    ensures Collect([Begin(w, c, t0), End(w, other, t1)]) == [(w, WorkloadRecord(Int(t0), Int(t1), c))]
  {
    var e0 := Begin(w, c, t0);
    var e1 := End(w, other, t1);
    var ws0: Workloads := [];
    var ws1 := [(w, WorkloadRecord(Int(t0), Null, c))];
    var ws2 := [(w, WorkloadRecord(Int(t0), Int(t1), c))];
    assert Observe(ws0, e0) == ws1 by {
      ObserveUnseen(ws0, e0);
    }
    assert Observe(ws1, e1) == ws2 by {
      ObserveSeen(ws1, 0, e1);
    }
    Snoc1(e0);
    CollectSnoc([], e0);
    Snoc2(e0, e1);
    CollectSnoc([e0], e1);
  }

  /** A later event naming another customer does not move the workload. */
  lemma LaterCustomerIgnored(w: Scalar, c: Scalar, other: Scalar, t0: int, t1: int)
    ensures ProcessData([Begin(w, c, t0), End(w, other, t1)]) == Success([(c, t1 - t0)])
  {
    LaterCustomerIgnoredCollected(w, c, other, t0, t1);
    CompleteRecordTallied(w, c, t0, t1);
  }

  lemma SecondStartWinsCollected(w: Scalar, c: Scalar, t0: int, t0': int, t1: int)
    ensures Collect([Begin(w, c, t0), Begin(w, c, t0'), End(w, c, t1)]) == [(w, WorkloadRecord(Int(t0'), Int(t1), c))]
  {
    var e0 := Begin(w, c, t0);
    var e1 := Begin(w, c, t0');
    var e2 := End(w, c, t1);
    var ws0: Workloads := [];
    var ws1 := [(w, WorkloadRecord(Int(t0), Null, c))];
    var ws2 := [(w, WorkloadRecord(Int(t0'), Null, c))];
    var ws3 := [(w, WorkloadRecord(Int(t0'), Int(t1), c))];
    assert Observe(ws0, e0) == ws1 by {
      ObserveUnseen(ws0, e0);
    }
    assert Observe(ws1, e1) == ws2 by {
      ObserveSeen(ws1, 0, e1);
    }
    assert Observe(ws2, e2) == ws3 by {
      ObserveSeen(ws2, 0, e2);
    }
    Snoc1(e0);
    CollectSnoc([], e0);
    Snoc2(e0, e1);
    CollectSnoc([e0], e1);
    Snoc3(e0, e1, e2);
    CollectSnoc([e0, e1], e2);
  }

  /** A second start overwrites the first without error. */
  lemma SecondStartWins(w: Scalar, c: Scalar, t0: int, t0': int, t1: int)
    ensures ProcessData([Begin(w, c, t0), Begin(w, c, t0'), End(w, c, t1)]) == Success([(c, t1 - t0')])
  {
    SecondStartWinsCollected(w, c, t0, t0', t1);
    CompleteRecordTallied(w, c, t0', t1);
  }

  lemma MissingTimestampClearsCollected(w: Scalar, c: Scalar, t0: int, t1: int)
    ensures Collect([Begin(w, c, t0), Event(w, c, Null, Start), End(w, c, t1)]) == [(w, WorkloadRecord(Null, Int(t1), c))]
  {
    var e0 := Begin(w, c, t0);
    var e1 := Event(w, c, Null, Start);
    var e2 := End(w, c, t1);
    var ws0: Workloads := [];
    var ws1 := [(w, WorkloadRecord(Int(t0), Null, c))];
    var ws2 := [(w, WorkloadRecord(Null, Null, c))];
    var ws3 := [(w, WorkloadRecord(Null, Int(t1), c))];
    assert Observe(ws0, e0) == ws1 by {
      ObserveUnseen(ws0, e0);
    }
    assert Observe(ws1, e1) == ws2 by {
      ObserveSeen(ws1, 0, e1);
    }
    assert Observe(ws2, e2) == ws3 by {
      ObserveSeen(ws2, 0, e2);
    }
    Snoc1(e0);
    CollectSnoc([], e0);
    Snoc2(e0, e1);
    CollectSnoc([e0], e1);
    Snoc3(e0, e1, e2);
    CollectSnoc([e0, e1], e2);
  }

  /** A start event without a timestamp stores `None`, undoing the earlier
      start, so the workload is no longer complete. */
  lemma MissingTimestampClears(w: Scalar, c: Scalar, t0: int, t1: int)
    ensures ProcessData([Begin(w, c, t0), Event(w, c, Null, Start), End(w, c, t1)]) == Success([])
  {
    MissingTimestampClearsCollected(w, c, t0, t1);
    IncompleteRecordTallied(w, WorkloadRecord(Null, Int(t1), c));
  }

  lemma CustomerIdTypedEventReassignsCollected(w: Scalar, c: Scalar, other: Scalar, t0: int, t1: int)
    ensures Collect([Begin(w, c, t0), End(w, c, t1), Event(w, c, other, CustomerKey)]) == [(w, WorkloadRecord(Int(t0), Int(t1), other))]
  {
    var e0 := Begin(w, c, t0);
    var e1 := End(w, c, t1);
    var e2 := Event(w, c, other, CustomerKey);
    var ws0: Workloads := [];
    var ws1 := [(w, WorkloadRecord(Int(t0), Null, c))];
    var ws2 := [(w, WorkloadRecord(Int(t0), Int(t1), c))];
    var ws3 := [(w, WorkloadRecord(Int(t0), Int(t1), other))];
    assert Observe(ws0, e0) == ws1 by {
      ObserveUnseen(ws0, e0);
    }
    assert Observe(ws1, e1) == ws2 by {
      ObserveSeen(ws1, 0, e1);
    }
    assert Observe(ws2, e2) == ws3 by {
      ObserveSeen(ws2, 0, e2);
    }
    Snoc1(e0);
    CollectSnoc([], e0);
    Snoc2(e0, e1);
    CollectSnoc([e0], e1);
    Snoc3(e0, e1, e2);
    CollectSnoc([e0, e1], e2);
  }

  /** An event whose type is `"customerId"` writes its timestamp into the
      record's customer key, moving the workload to that value. */
  lemma CustomerIdTypedEventReassigns(w: Scalar, c: Scalar, other: Scalar, t0: int, t1: int)
    ensures ProcessData([Begin(w, c, t0), End(w, c, t1), Event(w, c, other, CustomerKey)]) == Success([(other, t1 - t0)])
  {
    CustomerIdTypedEventReassignsCollected(w, c, other, t0, t1);
    CompleteRecordTallied(w, other, t0, t1);
  }

  lemma UntrackedFirstEventFixesCustomerCollected(w: Scalar, c: Scalar, first: Scalar, ts: Scalar, kind: Scalar, t0: int, t1: int)
    requires !Tracked(kind)
    ensures Collect([Event(w, first, ts, kind), Begin(w, c, t0), End(w, c, t1)]) == [(w, WorkloadRecord(Int(t0), Int(t1), first))]
  {
    var e0 := Event(w, first, ts, kind);
    var e1 := Begin(w, c, t0);
    var e2 := End(w, c, t1);
    var ws0: Workloads := [];
    var ws1 := [(w, WorkloadRecord(Null, Null, first))];
    var ws2 := [(w, WorkloadRecord(Int(t0), Null, first))];
    var ws3 := [(w, WorkloadRecord(Int(t0), Int(t1), first))];
    assert Observe(ws0, e0) == ws1 by {
      ObserveUnseen(ws0, e0);
    }
    assert Observe(ws1, e1) == ws2 by {
      ObserveSeen(ws1, 0, e1);
    }
    assert Observe(ws2, e2) == ws3 by {
      ObserveSeen(ws2, 0, e2);
    }
    Snoc1(e0);
    CollectSnoc([], e0);
    Snoc2(e0, e1);
    CollectSnoc([e0], e1);
    Snoc3(e0, e1, e2);
    CollectSnoc([e0, e1], e2);
  }

  /** An event of an untracked type sets no timestamp, but as the first
      event of its workload it fixes the workload's customer. */
  lemma UntrackedFirstEventFixesCustomer(w: Scalar, c: Scalar, first: Scalar, ts: Scalar, kind: Scalar, t0: int, t1: int)
    requires !Tracked(kind)
    ensures ProcessData([Event(w, first, ts, kind), Begin(w, c, t0), End(w, c, t1)]) == Success([(first, t1 - t0)])
  {
    UntrackedFirstEventFixesCustomerCollected(w, c, first, ts, kind, t0, t1);
    CompleteRecordTallied(w, first, t0, t1);
  }

  /** The first three events of `TwoWorkloadsOneCustomer`. */
  lemma TwoWorkloadsOneCustomerFirstThree(w1: Scalar, w2: Scalar, c: Scalar, a0: int, a1: int, b0: int)
    requires w1 != w2
    ensures Collect([Begin(w1, c, a0), End(w1, c, a1), Begin(w2, c, b0)]) == [(w1, WorkloadRecord(Int(a0), Int(a1), c)), (w2, WorkloadRecord(Int(b0), Null, c))]
  {
    var e0 := Begin(w1, c, a0);
    var e1 := End(w1, c, a1);
    var e2 := Begin(w2, c, b0);
    var ws2 := [(w1, WorkloadRecord(Int(a0), Int(a1), c))];
    var ws3 := [(w1, WorkloadRecord(Int(a0), Int(a1), c)), (w2, WorkloadRecord(Int(b0), Null, c))];
    assert Observe(ws2, e2) == ws3 by {
      ObserveUnseen(ws2, e2);
    }
    CompleteWorkloadChargedCollected(w1, c, a0, a1);
    Snoc3(e0, e1, e2);
    CollectSnoc([e0, e1], e2);
  }

  lemma TwoWorkloadsOneCustomerCollected(w1: Scalar, w2: Scalar, c: Scalar, a0: int, a1: int, b0: int, b1: int)
    requires w1 != w2
    ensures Collect([Begin(w1, c, a0), End(w1, c, a1), Begin(w2, c, b0), End(w2, c, b1)]) == [(w1, WorkloadRecord(Int(a0), Int(a1), c)), (w2, WorkloadRecord(Int(b0), Int(b1), c))]
  {
    var e0 := Begin(w1, c, a0);
    var e1 := End(w1, c, a1);
    var e2 := Begin(w2, c, b0);
    var e3 := End(w2, c, b1);
    var ws3 := [(w1, WorkloadRecord(Int(a0), Int(a1), c)), (w2, WorkloadRecord(Int(b0), Null, c))];
    var ws4 := [(w1, WorkloadRecord(Int(a0), Int(a1), c)), (w2, WorkloadRecord(Int(b0), Int(b1), c))];
    assert Observe(ws3, e3) == ws4 by {
      ObserveSeen(ws3, 1, e3);
    }
    TwoWorkloadsOneCustomerFirstThree(w1, w2, c, a0, a1, b0);
    Snoc4(e0, e1, e2, e3);
    CollectSnoc([e0, e1, e2], e3);
  }

  /** Two workloads of one customer are summed into one total. */
  lemma TwoWorkloadsOneCustomer(w1: Scalar, w2: Scalar, c: Scalar, a0: int, a1: int, b0: int, b1: int)
    requires w1 != w2
    ensures ProcessData([Begin(w1, c, a0), End(w1, c, a1), Begin(w2, c, b0), End(w2, c, b1)]) == Success([(c, a1 - a0 + (b1 - b0))])
  {
    TwoWorkloadsOneCustomerCollected(w1, w2, c, a0, a1, b0, b1);
    TwoWorkloadsOneCustomerTallied(w1, w2, c, a0, a1, b0, b1);
  }

  /** The first two events of `FirstSightingOrdersCustomers`. */
  lemma FirstSightingOrdersCustomersFirstTwo(w1: Scalar, w2: Scalar, c1: Scalar, c2: Scalar, a0: int, b0: int)
    requires w1 != w2
    ensures Collect([Begin(w1, c1, a0), Begin(w2, c2, b0)]) == [(w1, WorkloadRecord(Int(a0), Null, c1)), (w2, WorkloadRecord(Int(b0), Null, c2))]
  {
    var e0 := Begin(w1, c1, a0);
    var e1 := Begin(w2, c2, b0);
    var ws0: Workloads := [];
    var ws1 := [(w1, WorkloadRecord(Int(a0), Null, c1))];
    var ws2 := [(w1, WorkloadRecord(Int(a0), Null, c1)), (w2, WorkloadRecord(Int(b0), Null, c2))];
    assert Observe(ws0, e0) == ws1 by {
      ObserveUnseen(ws0, e0);
    }
    assert Observe(ws1, e1) == ws2 by {
      ObserveUnseen(ws1, e1);
    }
    Snoc1(e0);
    CollectSnoc([], e0);
    Snoc2(e0, e1);
    CollectSnoc([e0], e1);
  }

  /** The first three events of `FirstSightingOrdersCustomers`. */
  lemma FirstSightingOrdersCustomersFirstThree(w1: Scalar, w2: Scalar, c1: Scalar, c2: Scalar, a0: int, b0: int, b1: int)
    requires w1 != w2
    ensures Collect([Begin(w1, c1, a0), Begin(w2, c2, b0), End(w2, c2, b1)]) == [(w1, WorkloadRecord(Int(a0), Null, c1)), (w2, WorkloadRecord(Int(b0), Int(b1), c2))]
  {
    var e0 := Begin(w1, c1, a0);
    var e1 := Begin(w2, c2, b0);
    var e2 := End(w2, c2, b1);
    var ws2 := [(w1, WorkloadRecord(Int(a0), Null, c1)), (w2, WorkloadRecord(Int(b0), Null, c2))];
    var ws3 := [(w1, WorkloadRecord(Int(a0), Null, c1)), (w2, WorkloadRecord(Int(b0), Int(b1), c2))];
    assert Observe(ws2, e2) == ws3 by {
      ObserveSeen(ws2, 1, e2);
    }
    FirstSightingOrdersCustomersFirstTwo(w1, w2, c1, c2, a0, b0);
    Snoc3(e0, e1, e2);
    CollectSnoc([e0, e1], e2);
  }

  lemma FirstSightingOrdersCustomersCollected(w1: Scalar, w2: Scalar, c1: Scalar, c2: Scalar, a0: int, a1: int, b0: int, b1: int)
    requires w1 != w2
    ensures Collect([Begin(w1, c1, a0), Begin(w2, c2, b0), End(w2, c2, b1), End(w1, c1, a1)]) == [(w1, WorkloadRecord(Int(a0), Int(a1), c1)), (w2, WorkloadRecord(Int(b0), Int(b1), c2))]
  {
    var e0 := Begin(w1, c1, a0);
    var e1 := Begin(w2, c2, b0);
    var e2 := End(w2, c2, b1);
    var e3 := End(w1, c1, a1);
    var ws3 := [(w1, WorkloadRecord(Int(a0), Null, c1)), (w2, WorkloadRecord(Int(b0), Int(b1), c2))];
    var ws4 := [(w1, WorkloadRecord(Int(a0), Int(a1), c1)), (w2, WorkloadRecord(Int(b0), Int(b1), c2))];
    assert Observe(ws3, e3) == ws4 by {
      ObserveSeen(ws3, 0, e3);
    }
    FirstSightingOrdersCustomersFirstThree(w1, w2, c1, c2, a0, b0, b1);
    Snoc4(e0, e1, e2, e3);
    CollectSnoc([e0, e1, e2], e3);
  }

  /** Customers are listed in the order their workloads were first seen,
      not in the order the workloads completed. */
  lemma FirstSightingOrdersCustomers(w1: Scalar, w2: Scalar, c1: Scalar, c2: Scalar, a0: int, a1: int, b0: int, b1: int)
    requires w1 != w2
    requires c1 != c2
    ensures ProcessData([Begin(w1, c1, a0), Begin(w2, c2, b0), End(w2, c2, b1), End(w1, c1, a1)]) == Success([(c1, a1 - a0), (c2, b1 - b0)])
  {
    FirstSightingOrdersCustomersCollected(w1, w2, c1, c2, a0, a1, b0, b1);
    FirstSightingOrdersCustomersTallied(w1, w2, c1, c2, a0, a1, b0, b1);
  }

  lemma TextTimestampRaisesCollected(w: Scalar, c: Scalar, text: string, t1: int)
    ensures Collect([Event(w, c, Str(text), Start), End(w, c, t1)]) == [(w, WorkloadRecord(Str(text), Int(t1), c))]
  {
    var e0 := Event(w, c, Str(text), Start);
    var e1 := End(w, c, t1);
    var ws0: Workloads := [];
    var ws1 := [(w, WorkloadRecord(Str(text), Null, c))];
    var ws2 := [(w, WorkloadRecord(Str(text), Int(t1), c))];
    assert Observe(ws0, e0) == ws1 by {
      ObserveUnseen(ws0, e0);
    }
    assert Observe(ws1, e1) == ws2 by {
      ObserveSeen(ws1, 0, e1);
    }
    Snoc1(e0);
    CollectSnoc([], e0);
    Snoc2(e0, e1);
    CollectSnoc([e0], e1);
  }

  /** A timestamp that is text makes `stop - start` raise. */
  lemma TextTimestampRaises(w: Scalar, c: Scalar, text: string, t1: int)
    ensures ProcessData([Event(w, c, Str(text), Start), End(w, c, t1)]) == Failure(UnsupportedOperand)
  {
    TextTimestampRaisesCollected(w, c, text, t1);
    TextTimestampRaisesTallied(w, c, text, t1);
  }
}
