/** `main` (main.py:75-89) with its I/O cut away: the fetched events are
    a parameter (a failed fetch yields no events), and the outcome says
    what would be posted instead of posting it. */
module Driver {
  import opened Events
  import opened Consumption
  import opened Format

  datatype Outcome =
    | NoEvents                      // nothing fetched: the run stops with a message
    | Crashed(error: Error)         // an exception escaping `process_data`
    | Posted(payload: Envelope)     // the body handed to `send_result`

  /** An empty batch ends the run before anything is sent; otherwise the
      totals are formatted and sent, unless the aggregation raises. */
  method Run(events: seq<Event>) returns (o: Outcome)
    ensures o.NoEvents? <==> |events| == 0
    ensures o.Crashed? <==> |events| > 0 && ProcessData(events).Failure?
    ensures o.Posted? ==> ProcessData(events).Success? && Parse(o.payload) == ProcessData(events).value
  {
    if |events| == 0 {
      return NoEvents;
    }
    match ProcessData(events)
    case Failure(e) =>
      o := Crashed(e);
    case Success(t) =>
      var env := FormatResult(t);
      o := Posted(env);
  }
}
