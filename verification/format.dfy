/** `format_result` (main.py:50-60): the totals as the list of records
    the result endpoint expects. */
module Format {
  import opened Values
  import opened Seqs
  import opened Dict
  import opened Consumption

  /** `{'customerId': ..., 'consumption': ...}` */
  datatype Entry = Entry(customerId: Scalar, consumption: int)

  /** `{'result': [...]}` */
  datatype Envelope = Envelope(result: seq<Entry>)

  /** Reads the envelope back as totals: the inverse of `FormatResult`. */
  function Parse(env: Envelope): (t: Totals)
    ensures |t| == |env.result|
  {
    seq(|env.result|, i requires 0 <= i < |env.result| => (env.result[i].customerId, env.result[i].consumption))
  }

  /** One record per entry of `t`, in its iteration order, carrying the
      entry's key and value; nothing added or dropped, so the envelope
      reads back as `t`. */
  method FormatResult(t: Totals) returns (env: Envelope)
    ensures |env.result| == |t|
    ensures forall i :: 0 <= i < |t| ==> env.result[i] == Entry(t[i].0, t[i].1)
    ensures Parse(env) == t
  {
    var out: seq<Entry> := [];
    for i := 0 to |t|
      invariant |out| == i
      invariant forall j :: 0 <= j < i ==> out[j] == Entry(t[j].0, t[j].1)
    {
      out := out + [Entry(t[i].0, t[i].1)];
    }
    env := Envelope(out);
  }

  /** Distinct envelopes read back as distinct totals, so the envelope
      `FormatResult` builds is the only one that reads back as `t`. */
  lemma ParseInjective(e1: Envelope, e2: Envelope)
    requires Parse(e1) == Parse(e2)
    ensures e1 == e2
  {
    assert |e1.result| == |e2.result|;
    forall i | 0 <= i < |e1.result|
      ensures e1.result[i] == e2.result[i]
    {
      assert Parse(e1)[i] == Parse(e2)[i];
    }
  }

  /** The formatted result names each customer once when the totals do,
      as `process_data`'s always do. */
  lemma FormattedCustomersDistinct(t: Totals, env: Envelope)
    requires Wf(t)
    requires Parse(env) == t
    ensures forall i, j :: 0 <= i < j < |env.result| ==> env.result[i].customerId != env.result[j].customerId
  {
    forall i, j | 0 <= i < j < |env.result|
      ensures env.result[i].customerId != env.result[j].customerId
    {
      assert Keys(t)[i] == t[i].0 == env.result[i].customerId;
      assert Keys(t)[j] == t[j].0 == env.result[j].customerId;
    }
  }
}
