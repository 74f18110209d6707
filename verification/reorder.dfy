/** Arrival order does not matter when the batch is consistent: the
    totals of `process_data` are a function of the multiset of events. */
module Reorder {
  import opened Values
  import opened Seqs
  import opened Dict
  import opened Events
  import opened Workloads
  import opened Consumption

  /** Any two events naming the same workload and event type are the same
      event, and all events of one workload name the same customer. */
  predicate Consistent(events: seq<Event>) {
    && (forall x, y :: x in events && y in events && x.workloadId == y.workloadId && x.eventType == y.eventType ==> x == y)
    && (forall x, y :: x in events && y in events && x.workloadId == y.workloadId ==> x.customerId == y.customerId)
  }

  /** The last write for a key does not depend on the order of a
      consistent batch. */
  lemma LatestReordered(e1: seq<Event>, e2: seq<Event>, w: Scalar, field: Scalar, fallback: Scalar)
    requires multiset(e1) == multiset(e2)
    requires Consistent(e1)
    ensures Latest(e1, w, field, fallback) == Latest(e2, w, field, fallback)
  {
    match LastIndex(e1, w, field)
    case Some(i) =>
      assert e1[i] in multiset(e2);
      var j :| 0 <= j < |e2| && e2[j] == e1[i];
      var k := LastIndex(e2, w, field).value;
      assert e2[k] in multiset(e1);
    case None =>
      if LastIndex(e2, w, field).Some? {
        var k := LastIndex(e2, w, field).value;
        assert e2[k] in multiset(e1);
        var j :| 0 <= j < |e1| && e1[j] == e2[k];
      }
  }

  /** The expected record of every workload does not depend on the order
      of a consistent batch. */
  lemma ExpectedReordered(e1: seq<Event>, e2: seq<Event>, w: Scalar)
    requires multiset(e1) == multiset(e2)
    requires Consistent(e1)
    ensures Expected(e1, w) == Expected(e2, w)
  {
    match FirstIndex(e1, w)
    case Some(i) =>
      assert e1[i] in multiset(e2);
      var j :| 0 <= j < |e2| && e2[j] == e1[i];
      var k := FirstIndex(e2, w).value;
      assert e2[k] in multiset(e1);
      LatestReordered(e1, e2, w, Start, Null);
      LatestReordered(e1, e2, w, Stop, Null);
      LatestReordered(e1, e2, w, CustomerKey, e1[i].customerId);
    case None =>
      if FirstIndex(e2, w).Some? {
        var k := FirstIndex(e2, w).value;
        assert e2[k] in multiset(e1);
        var j :| 0 <= j < |e1| && e1[j] == e2[k];
      }
  }

  /** Removing the element at `j` from a duplicate-free sequence removes
      exactly that element. */
  lemma RemoveAt<T>(b: seq<T>, j: nat, y: T)
    requires Distinct(b)
    requires j < |b|
    ensures y in b[..j] + b[j + 1..] <==> y in b && y != b[j]
  {
    var q := b[..j] + b[j + 1..];
    if y in q {
      var m :| 0 <= m < |q| && q[m] == y;
      if m < j { assert b[m] == y; } else { assert b[m + 1] == y; }
    }
    if y in b && y != b[j] {
      var m :| 0 <= m < |b| && b[m] == y;
      if m < j { assert q[m] == y; } else { assert q[m - 1] == y; }
    }
  }

  lemma DistinctRemoveAt<T>(b: seq<T>, j: nat)
    requires Distinct(b)
    requires j < |b|
    ensures Distinct(b[..j] + b[j + 1..])
  {
    var q := b[..j] + b[j + 1..];
    forall m, n | 0 <= m < n < |q|
      ensures q[m] != q[n]
    {
      var m' := if m < j then m else m + 1;
      var n' := if n < j then n else n + 1;
      assert q[m] == b[m'] && q[n] == b[n'];
    }
  }

  lemma HeadIsMember<T>(s: seq<T>)
    ensures |s| > 0 ==> s[0] in s
  {
  }

  /** Taking the last element of `a` and its occurrence in `b` away
      leaves two duplicate-free sequences with the same elements. */
  lemma RemoveMatching<T>(a: seq<T>, b: seq<T>, j: nat, p: seq<T>, q: seq<T>)
    requires Distinct(a) && Distinct(b)
    requires forall x :: x in a <==> x in b
    requires |a| > 0 && j < |b| && b[j] == a[|a| - 1]
    requires p == a[..|a| - 1] && q == b[..j] + b[j + 1..]
    ensures Distinct(p) && Distinct(q)
    ensures forall y :: y in p <==> y in q
  {
    DistinctRemoveAt(b, j);
    DistinctRemoveAt(a, |a| - 1);
    assert a[..|a| - 1] + a[|a| - 1 + 1..] == p;
    forall y
      ensures y in p <==> y in q
    {
      RemoveAt(b, j, y);
      RemoveAt(a, |a| - 1, y);
    }
  }

  /** Putting the matching element back on both sides. */
  lemma MultisetRestore<T>(a: seq<T>, b: seq<T>, j: nat)
    requires |a| > 0 && j < |b| && b[j] == a[|a| - 1]
    requires multiset(a[..|a| - 1]) == multiset(b[..j] + b[j + 1..])
    ensures multiset(a) == multiset(b)
  {
    assert a == a[..|a| - 1] + [a[|a| - 1]];
    assert b == b[..j] + [b[j]] + b[j + 1..];
  }

  /** Two duplicate-free sequences with the same elements are
      reorderings of each other. */
  lemma {:induction false} SameElementsSameMultiset<T>(a: seq<T>, b: seq<T>)
    requires Distinct(a) && Distinct(b)
    requires forall x :: x in a <==> x in b
    ensures multiset(a) == multiset(b)
  {
    if |a| > 0 {
      assert a[|a| - 1] in a;
      var j :| 0 <= j < |b| && b[j] == a[|a| - 1];
      RemoveMatching(a, b, j, a[..|a| - 1], b[..j] + b[j + 1..]);
      SameElementsSameMultiset(a[..|a| - 1], b[..j] + b[j + 1..]);
      MultisetRestore(a, b, j);
    } else {
      HeadIsMember(b);
    }
  }

  /** `SumFor` splits over concatenation. */
  lemma {:induction false} SumForAppend(a: Workloads, b: Workloads, c: Scalar)
    ensures SumFor(a + b, c) == SumFor(a, c) + SumFor(b, c)
  {
    if |b| > 0 {
      var q := b[..|b| - 1];
      var y := b[|b| - 1];
      assert b == q + [y];
      assert a + b == (a + q) + [y];
      SnocSum(a + q, y, c);
      SnocSum(q, y, c);
      SumForAppend(a, q, c);
    } else {
      assert a + b == a;
    }
  }

  /** `SumFor` is a sum over the multiset of records. */
  lemma {:induction false} SumForReordered(xs: Workloads, ys: Workloads, c: Scalar)
    requires multiset(xs) == multiset(ys)
    ensures SumFor(xs, c) == SumFor(ys, c)
  {
    if |xs| == 0 {
      assert |ys| == |multiset(ys)| == 0;
    } else {
      var p := xs[..|xs| - 1];
      var x := xs[|xs| - 1];
      assert xs == p + [x];
      assert x in multiset(ys);
      var j :| 0 <= j < |ys| && ys[j] == x;
      var q := ys[..j] + ys[j + 1..];
      assert ys == ys[..j] + [x] + ys[j + 1..];
      assert multiset(q) == multiset(ys) - multiset{x};
      SumForReordered(p, q, c);
      SnocSum(p, x, c);
      SumForAppend(ys[..j] + [x], ys[j + 1..], c);
      SnocSum(ys[..j], x, c);
      SumForAppend(ys[..j], ys[j + 1..], c);
    }
  }

  /** Well-formed workload dictionaries that agree on every key hold the
      same records, so the second pass agrees on them for every
      customer. */
  lemma TallyOfEqualDictionaries(ws1: Workloads, ws2: Workloads)
    requires Wf(ws1) && Wf(ws2)
    requires forall w :: Get(ws1, w) == Get(ws2, w)
    ensures Tally(ws1).Success? <==> Tally(ws2).Success?
    ensures Tally(ws1).Success? ==> forall c :: Get(Tally(ws1).value, c) == Get(Tally(ws2).value, c)
  {
    forall x
      ensures x in ws1 <==> x in ws2
    {
      GetIffMember(ws1, x.0, x.1);
      GetIffMember(ws2, x.0, x.1);
    }
    WfDistinct(ws1);
    WfDistinct(ws2);
    SameElementsSameMultiset(ws1, ws2);
    assert WellTyped(ws1) <==> WellTyped(ws2) by {
      if WellTyped(ws1) {
        forall i | 0 <= i < |ws2| ensures Subtractable(ws2[i].1) {
          assert ws2[i] in ws1;
        }
      }
      if WellTyped(ws2) {
        forall i | 0 <= i < |ws1| ensures Subtractable(ws1[i].1) {
          assert ws1[i] in ws2;
        }
      }
    }
    forall c
      ensures Contributes(ws1, c) <==> Contributes(ws2, c)
      ensures SumFor(ws1, c) == SumFor(ws2, c)
    {
      SumForReordered(ws1, ws2, c);
      if Contributes(ws1, c) {
        var i :| 0 <= i < |ws1| && ChargesTo(ws1[i].1, c);
        assert ws1[i] in ws2;
      }
      if Contributes(ws2, c) {
        var i :| 0 <= i < |ws2| && ChargesTo(ws2[i].1, c);
        assert ws2[i] in ws1;
      }
    }
    TallySpec(ws1);
    TallySpec(ws2);
  }

  /** Reordering a consistent batch leaves `process_data`'s outcome and
      every customer's total unchanged (only the key order of the result
      may differ). */
  lemma ReorderedBatchSameTotals(e1: seq<Event>, e2: seq<Event>)
    requires multiset(e1) == multiset(e2)
    requires Consistent(e1)
    ensures ProcessData(e1).Success? <==> ProcessData(e2).Success?
    ensures ProcessData(e1).Success? ==>
      forall c :: Get(ProcessData(e1).value, c) == Get(ProcessData(e2).value, c)
  {
    forall w
      ensures Get(Collect(e1), w) == Get(Collect(e2), w)
    {
      CollectMatchesExpected(e1, w);
      CollectMatchesExpected(e2, w);
      ExpectedReordered(e1, e2, w);
    }
    TallyOfEqualDictionaries(Collect(e1), Collect(e2));
  }
}
